/** The Twitch bot of main.py: a `TreasureBot` like the Discord one, plus a
    per-user cooldown map that throttles `!find`, and chat-line replies. */
module TwitchBot {
  import opened Wrappers
  import opened Text
  import opened Index
  import opened Lookup

  const UsageText: string := "Usage: !find <item name>"
  const LoadingText: string := "Database loading..."
  /** `check_cooldown`'s default `cooldown_sec`. */
  const DefaultCooldown: int := 3

  function FoundText(term: string, formatted: string): string {
    "Found " + Upper(term) + " on: " + formatted
  }

  function DidYouMeanText(term: string, names: seq<string>): string {
    "Couldn't find \"" + term + "\" - Did you mean: " + Join(names, ListSep) + "?"
  }

  function NotFoundText(term: string): string {
    "I couldn't find \"" + term + "\" or anything similar. Check your spelling!"
  }

  // ---------------------------------------------------------------------------
  // The cooldown rule

  /** The request of `user` at `now` falls within its cooldown. */
  predicate Throttled(cooldowns: map<string, int>, user: string, now: int, cooldownSec: int) {
    user in cooldowns && now - cooldowns[user] < cooldownSec
  }

  /** The cooldown map after `check_cooldown`: a request that gets through
      restarts the user's cooldown; a throttled one changes nothing. */
  function AfterCheck(cooldowns: map<string, int>, user: string, now: int, cooldownSec: int): map<string, int> {
    if Throttled(cooldowns, user, now, cooldownSec) then cooldowns else cooldowns[user := now]
  }

  /** One `!find` as the cooldown sees it. */
  datatype Request = Request(user: string, time: int)

  /** The cooldown map after checking `reqs` in order. */
  function Replay(cooldowns: map<string, int>, reqs: seq<Request>, cooldownSec: int): map<string, int>
    decreases |reqs|
  {
    if reqs == [] then cooldowns
    else
      var last := reqs[|reqs| - 1];
      AfterCheck(Replay(cooldowns, reqs[..|reqs| - 1], cooldownSec), last.user, last.time, cooldownSec)
  }

  /** Request `i` gets through the cooldown check. */
  predicate Admitted(cooldowns: map<string, int>, reqs: seq<Request>, i: nat, cooldownSec: int)
    requires i < |reqs|
  {
    !Throttled(Replay(cooldowns, reqs[..i], cooldownSec), reqs[i].user, reqs[i].time, cooldownSec)
  }

  predicate NonDecreasing(reqs: seq<Request>) {
    forall i, j :: 0 <= i < j < |reqs| ==> reqs[i].time <= reqs[j].time
  }

  /** After an admitted request, its user's entry is at least that request's time. */
  lemma {:induction false} EntryAfterAdmitted(cooldowns: map<string, int>, reqs: seq<Request>, cooldownSec: int, i: nat, j: nat)
    requires NonDecreasing(reqs)
    requires i < j <= |reqs|
    requires Admitted(cooldowns, reqs, i, cooldownSec)
    ensures reqs[i].user in Replay(cooldowns, reqs[..j], cooldownSec)
    ensures Replay(cooldowns, reqs[..j], cooldownSec)[reqs[i].user] >= reqs[i].time
    decreases j
  {
    var u := reqs[i].user;
    assert reqs[..j][..j - 1] == reqs[..j - 1];
    if j == i + 1 {
      assert Replay(cooldowns, reqs[..j], cooldownSec) == Replay(cooldowns, reqs[..i], cooldownSec)[u := reqs[i].time];
    } else {
      EntryAfterAdmitted(cooldowns, reqs, cooldownSec, i, j - 1);
      assert reqs[..j][j - 1] == reqs[j - 1];
      assert reqs[i].time <= reqs[j - 1].time;
    }
  }

  /** With requests in time order, two requests of one user that both get
      through are at least `cooldownSec` apart. */
  lemma AdmittedAreSpaced(cooldowns: map<string, int>, reqs: seq<Request>, cooldownSec: int, i: nat, j: nat)
    requires NonDecreasing(reqs)
    requires i < j < |reqs| && reqs[i].user == reqs[j].user
    requires Admitted(cooldowns, reqs, i, cooldownSec) && Admitted(cooldowns, reqs, j, cooldownSec)
    ensures reqs[j].time - reqs[i].time >= cooldownSec
  {
    EntryAfterAdmitted(cooldowns, reqs, cooldownSec, i, j);
  }

  /** Requests of other users never touch a user's entry. */
  lemma {:induction false} ReplayEntries(cooldowns: map<string, int>, reqs: seq<Request>, cooldownSec: int, u: string)
    requires forall i :: 0 <= i < |reqs| ==> reqs[i].user != u
    ensures (u in Replay(cooldowns, reqs, cooldownSec)) == (u in cooldowns)
    ensures u in cooldowns ==> Replay(cooldowns, reqs, cooldownSec)[u] == cooldowns[u]
    decreases |reqs|
  {
    if reqs != [] {
      ReplayEntries(cooldowns, reqs[..|reqs| - 1], cooldownSec, u);
    }
  }

  // ---------------------------------------------------------------------------
  // The reply once the cooldown has let a request through

  /** main.py:169-207: loading, exact hit, suggestions or not found. */
  function Answer(cache: Cache, item: string, score: Scorer): string {
    if cache.entries == map[] then LoadingText
    else
      var term := QueryKey(item);
      match Resolve(cache, term, score)
      case ExactHit(key, locs) => FoundText(key, FormatLocations(locs, BarSep))
      case Suggested(names) => DidYouMeanText(term, names)
      case NoMatch => NotFoundText(term)
  }

  /** A location name that shows as one `" | "`-separated segment. */
  predicate Segment(loc: string) {
    !Contains(loc, ListSep) && forall j :: 0 <= j < |loc| ==> loc[j] != '|'
  }

  /** The chat line names every location of an exact hit, upper-cased and
      `" | "`-separated; the suggestion line offers keys scoring above 75; the
      not-found line is sent only when no key scores above 75. */
  lemma AnswerSpec(cache: Cache, item: string, score: Scorer)
    requires WellFormed(cache)
    ensures cache.entries == map[] ==> Answer(cache, item, score) == LoadingText
    ensures cache.entries != map[] && QueryKey(item) in cache.entries ==>
      var locs := cache.entries[QueryKey(item)];
      (forall i :: 0 <= i < |locs| ==> Segment(locs[i])) ==>
        Answer(cache, item, score) == FoundText(QueryKey(item), Join(UpperAll(locs), BarSep)) &&
        Split(Join(UpperAll(locs), BarSep), BarSep) == UpperAll(locs)
    ensures cache.entries != map[] && QueryKey(item) !in cache.entries ==>
      var names := Suggestions(QueryKey(item), cache.keys, score);
      (names != [] <==> exists k :: k in cache.entries && score(QueryKey(item), k) > Threshold) &&
      (names != [] ==>
        Answer(cache, item, score) == DidYouMeanText(QueryKey(item), names) && |names| <= Limit &&
        forall s :: s in names ==> s in cache.entries && score(QueryKey(item), s) > Threshold) &&
      (names == [] ==> Answer(cache, item, score) == NotFoundText(QueryKey(item)))
  {
    var term := QueryKey(item);
    ResolveSpec(cache, term, score);
    if cache.entries != map[] && term in cache.entries {
      var locs := cache.entries[term];
      if forall i :: 0 <= i < |locs| ==> Segment(locs[i]) {
        BarSegments(locs);
        FormattedLocations(locs, BarSep);
      }
    }
    if cache.entries != map[] && term !in cache.entries {
      SuggestionsSpec(term, cache.keys, score);
    }
  }

  /** The `!status` reply (main.py:214-219); the time's formatting is not modelled. */
  datatype Status = StillLoading | Ready(items: nat, lastUpdate: int)

  function StatusReply(cache: Cache, lastUpdate: Option<int>): Status {
    match lastUpdate
    case None => StillLoading
    case Some(t) => Ready(|cache.keys|, t)
  }

  lemma StatusReplySpec(cache: Cache, lastUpdate: Option<int>)
    requires WellFormed(cache)
    ensures StatusReply(cache, lastUpdate).Ready? <==> lastUpdate.Some?
    ensures StatusReply(cache, lastUpdate).Ready? ==>
      StatusReply(cache, lastUpdate).items == |cache.entries| &&
      StatusReply(cache, lastUpdate).lastUpdate == lastUpdate.value
  {
    KeyCount(cache);
  }

  datatype SyncOutcome = ConnectFailed | FetchFailed | Scanned(sheets: nat)

  class TreasureBot {
    var cache: Cache
    var lastUpdate: Option<int>
    var connected: bool
    /** `self.cooldowns`: per user id, the time of the last request let through */
    var cooldowns: map<string, int>

    ghost predicate Valid()
      reads this
    {
      WellFormed(cache) && (lastUpdate.None? ==> cache == Empty)
    }

    /** main.py:41-53: the client is created here; a failure is logged. */
    constructor(connectOk: bool)
      ensures Valid()
      ensures cache == Empty && lastUpdate == None && connected == connectOk && cooldowns == map[]
    {
      cache := Empty;
      lastUpdate := None;
      connected := connectOk;
      cooldowns := map[];
    }

    /** `_sync_update` (main.py:88-140), as in the Discord bot. */
    method SyncUpdate(connectOk: bool, workbook: Option<seq<Sheet>>, now: int) returns (outcome: SyncOutcome)
      requires Valid()
      modifies this`cache, this`lastUpdate, this`connected
      ensures Valid()
      ensures connected == (old(connected) || connectOk)
      ensures outcome == ConnectFailed <==> !old(connected) && !connectOk
      ensures outcome == FetchFailed <==> (old(connected) || connectOk) && workbook.None?
      ensures !outcome.Scanned? ==> cache == old(cache) && lastUpdate == old(lastUpdate)
      ensures outcome.Scanned? ==>
        workbook.Some? &&
        cache == BuildIndex(workbook.value) &&
        lastUpdate == Some(now) &&
        outcome.sheets == |ScannedSheets(workbook.value, |workbook.value|)|
    {
      if !connected {
        if !connectOk {
          return ConnectFailed;
        }
        connected := true;
      }
      match workbook
      case None =>
        outcome := FetchFailed;
      case Some(sheets) =>
        var tempCache, scanned := ScanWorkbook(sheets);
        cache := tempCache;
        lastUpdate := Some(now);
        outcome := Scanned(scanned);
    }

    /** `_sync_update` with a refresh that indexed no sheet treated as failed:
        the previous dictionary and time stay installed, as they do when the
        connect or the fetch fails. Otherwise it behaves like `SyncUpdate`. */
    method SyncUpdateRetaining(connectOk: bool, workbook: Option<seq<Sheet>>, now: int) returns (outcome: SyncOutcome)
      requires Valid()
      modifies this`cache, this`lastUpdate, this`connected
      ensures Valid()
      ensures connected == (old(connected) || connectOk)
      ensures outcome == ConnectFailed <==> !old(connected) && !connectOk
      ensures outcome == FetchFailed <==> (old(connected) || connectOk) && workbook.None?
      ensures outcome.Scanned? ==> workbook.Some? && outcome.sheets == |ScannedSheets(workbook.value, |workbook.value|)|
      ensures outcome.Scanned? && outcome.sheets > 0 ==> cache == BuildIndex(workbook.value) && lastUpdate == Some(now)
      ensures !(outcome.Scanned? && outcome.sheets > 0) ==> cache == old(cache) && lastUpdate == old(lastUpdate)
      ensures workbook.Some? && (forall i :: 0 <= i < |workbook.value| ==> workbook.value[i].rows.None?) ==>
        cache == old(cache) && lastUpdate == old(lastUpdate)
    {
      if !connected {
        if !connectOk {
          return ConnectFailed;
        }
        connected := true;
      }
      match workbook
      case None =>
        outcome := FetchFailed;
      case Some(sheets) =>
        var tempCache, scanned := ScanWorkbook(sheets);
        if forall i :: 0 <= i < |sheets| ==> sheets[i].rows.None? {
          AllSheetsUnreadable(sheets);
        }
        if scanned > 0 {
          cache := tempCache;
          lastUpdate := Some(now);
        }
        outcome := Scanned(scanned);
    }

    /** `check_cooldown` (main.py:152-158), with the clock as `now`. */
    method CheckCooldown(userId: string, now: int, cooldownSec: int) returns (throttled: bool)
      modifies this`cooldowns
      ensures throttled <==> userId in old(cooldowns) && now - old(cooldowns)[userId] < cooldownSec
      ensures throttled ==> cooldowns == old(cooldowns)
      ensures !throttled ==> cooldowns == old(cooldowns)[userId := now]
    {
      if userId in cooldowns {
        if now - cooldowns[userId] < cooldownSec {
          return true;
        }
      }
      cooldowns := cooldowns[userId := now];
      return false;
    }

    /** The `!find` command (main.py:160-207): usage, then the cooldown (a
        throttled request gets no reply at all), then loading and the lookup. */
    method Find(userId: string, item: string, now: int, score: Scorer) returns (reply: Option<string>)
      requires Valid()
      modifies this`cooldowns
      ensures Valid()
      ensures item == "" ==> reply == Some(UsageText) && cooldowns == old(cooldowns)
      ensures item != "" ==> cooldowns == AfterCheck(old(cooldowns), userId, now, DefaultCooldown)
      ensures item != "" && Throttled(old(cooldowns), userId, now, DefaultCooldown) ==> reply == None
      ensures item != "" && !Throttled(old(cooldowns), userId, now, DefaultCooldown) ==>
        reply == Some(Answer(cache, item, score))
    {
      if item == "" {
        return Some(UsageText);
      }
      var throttled := CheckCooldown(userId, now, DefaultCooldown);
      if throttled {
        return None;
      }
      reply := Some(Answer(cache, item, score));
    }
  }

  /** A sync in which every sheet read fails still completes (`SyncUpdate`
      installs `BuildIndex` of the sheets and the new time): the dictionary
      becomes empty, so `!status` reports 0 items while every admitted `!find`
      answers that the database is loading. */
  lemma AllUnreadableSync(sheets: seq<Sheet>, now: int, item: string, score: Scorer)
    requires forall i :: 0 <= i < |sheets| ==> sheets[i].rows.None?
    ensures BuildIndex(sheets) == Empty
    ensures StatusReply(BuildIndex(sheets), Some(now)) == Ready(0, now)
    ensures Answer(BuildIndex(sheets), item, score) == LoadingText
  {
    AllSheetsUnreadable(sheets);
  }
}
