/** The Discord bot of sc.py: a `TreasureBot` holding the location index, the
    time of its last successful scan and whether a Google Sheets client exists,
    with the `!find`, `!status` and `!refresh` commands. The commands that only
    read the bot are functions of its state values. */
module DiscordBot {
  import opened Wrappers
  import opened Text
  import opened Index
  import opened Lookup

  datatype Color = Green | Orange | Blue

  /** What a command sends: a plain message, an embed, the status embed
      (its two fields) or the end-of-refresh message (its item count). */
  datatype Reply =
    | Message(text: string)
    | Embed(title: string, description: string, color: Color)
    | StatusCard(totalItems: nat, lastUpdate: int)
    | RefreshComplete(itemsLoaded: nat)

  const UsageText: string := "Usage: `!find <item name>`"
  const LoadingText: string := "\U{26A0}\U{FE0F} Database is currently loading, please wait..."
  const InitializingText: string := "Database is initializing..."
  const RefreshingText: string := "\U{1F504} Forcing manual cache refresh..."
  const LocationsHeader: string := "**Locations:**\n"
  const SuggestionsHeader: string := "Did you mean one of these?\n\n"

  function NotFoundText(item: string): string {
    "\U{274C} I couldn't find \"" + item + "\" or anything similar. Check your spelling!"
  }

  /** The suggestion lines `• name`. */
  function Bullets(names: seq<string>): seq<string> {
    seq(|names|, i requires 0 <= i < |names| => "\U{2022} " + names[i])
  }

  /** The `!find` command on the bot's dictionary (sc.py:158-201). An absent
      argument is the empty `item`. */
  function FindReply(cache: Cache, item: string, score: Scorer): Reply {
    if item == "" then Message(UsageText)
    else if cache.entries == map[] then Message(LoadingText)
    else
      match Resolve(cache, QueryKey(item), score)
      case ExactHit(key, locs) =>
        Embed("Item Found: " + Upper(key), LocationsHeader + FormatLocations(locs, LineSep), Green)
      case Suggested(names) =>
        Embed("Item Not Found", SuggestionsHeader + Join(Bullets(names), LineSep), Orange)
      case NoMatch => Message(NotFoundText(item))
  }

  /** A location name the embed shows on a line of its own. */
  predicate OneLine(loc: string) {
    !Contains(loc, ListSep) && forall j :: 0 <= j < |loc| ==> loc[j] != '\n'
  }

  /** `!find` answers usage, then loading, then: a green embed exactly when the
      normalized term is a key, whose lines after the header are the key's
      locations upper-cased; an orange embed exactly when some key scores above
      75, listing the suggestions as bullets; and the not-found message otherwise. */
  lemma FindReplySpec(cache: Cache, item: string, score: Scorer)
    requires WellFormed(cache)
    ensures item == "" ==> FindReply(cache, item, score) == Message(UsageText)
    ensures item != "" && cache.entries == map[] ==> FindReply(cache, item, score) == Message(LoadingText)
    ensures (FindReply(cache, item, score).Embed? && FindReply(cache, item, score).color == Green) <==>
      item != "" && QueryKey(item) in cache.entries
    ensures item != "" && QueryKey(item) in cache.entries ==>
      var locs := cache.entries[QueryKey(item)];
      FindReply(cache, item, score).title == "Item Found: " + Upper(QueryKey(item)) &&
      |FindReply(cache, item, score).description| >= |LocationsHeader| &&
      FindReply(cache, item, score).description[..|LocationsHeader|] == LocationsHeader &&
      ((forall i :: 0 <= i < |locs| ==> OneLine(locs[i])) ==>
        Split(FindReply(cache, item, score).description[|LocationsHeader|..], LineSep) == UpperAll(locs))
    ensures (FindReply(cache, item, score).Embed? && FindReply(cache, item, score).color == Orange) <==>
      item != "" && cache.entries != map[] && QueryKey(item) !in cache.entries &&
      exists k :: k in cache.entries && score(QueryKey(item), k) > Threshold
    ensures (item != "" && cache.entries != map[] && QueryKey(item) !in cache.entries &&
             Suggestions(QueryKey(item), cache.keys, score) != []) ==>
      FindReply(cache, item, score) ==
        Embed("Item Not Found", SuggestionsHeader + Join(Bullets(Suggestions(QueryKey(item), cache.keys, score)), LineSep), Orange)
    ensures FindReply(cache, item, score) == Message(NotFoundText(item)) <==>
      item != "" && cache.entries != map[] && QueryKey(item) !in cache.entries &&
      forall k :: k in cache.entries ==> score(QueryKey(item), k) <= Threshold
  {
    var term := QueryKey(item);
    ResolveSpec(cache, term, score);
    if item != "" && term in cache.entries {
      var locs := cache.entries[term];
      var d := FindReply(cache, item, score).description;
      assert d == LocationsHeader + FormatLocations(locs, LineSep);
      assert d[|LocationsHeader|..] == FormatLocations(locs, LineSep);
      if forall i :: 0 <= i < |locs| ==> OneLine(locs[i]) {
        LineSegments(locs);
      }
    }
    if item != "" && cache.entries == map[] {
      assert FindReply(cache, item, score) == Message(LoadingText);
    }
  }

  /** The `!status` command (sc.py:205-213). */
  function StatusReply(cache: Cache, lastUpdate: Option<int>): Reply {
    match lastUpdate
    case None => Message(InitializingText)
    case Some(t) => StatusCard(|cache.keys|, t)
  }

  /** The status embed appears exactly when a scan has completed, and counts
      the dictionary's keys. */
  lemma StatusReplySpec(cache: Cache, lastUpdate: Option<int>)
    requires WellFormed(cache)
    ensures StatusReply(cache, lastUpdate).StatusCard? <==> lastUpdate.Some?
    ensures StatusReply(cache, lastUpdate).StatusCard? ==>
      StatusReply(cache, lastUpdate).totalItems == |cache.entries| &&
      StatusReply(cache, lastUpdate).lastUpdate == lastUpdate.value
    ensures lastUpdate.None? ==> StatusReply(cache, lastUpdate) == Message(InitializingText)
  {
    KeyCount(cache);
  }

  /** How one `_sync_update` call ended. */
  datatype SyncOutcome =
    | ConnectFailed         // no client, and creating one raised
    | FetchFailed           // opening the workbook or listing its sheets raised
    | Scanned(sheets: nat)  // the scan completed; `sheets_scanned`

  class TreasureBot {
    /** `self.cache` */
    var cache: Cache
    /** `self.last_update`, as a timestamp */
    var lastUpdate: Option<int>
    /** `self.gc` is set */
    var connected: bool

    /** The dictionary is well formed, and it stays empty until a scan completes. */
    ghost predicate Valid()
      reads this
    {
      WellFormed(cache) && (lastUpdate.None? ==> cache == Empty)
    }

    /** sc.py:41-54 */
    constructor()
      ensures Valid()
      ensures cache == Empty && lastUpdate == None && !connected
    {
      cache := Empty;
      lastUpdate := None;
      connected := false;
    }

    /** sc.py:56-66: creates the client; a failure is logged and leaves it as it
        was. Starting the hourly refresh loop is not modelled. */
    method SetupHook(connectOk: bool)
      requires Valid()
      modifies this`connected
      ensures Valid()
      ensures connected == (connectOk || old(connected))
    {
      if connectOk {
        connected := true;
      }
    }

    /** `_sync_update` (sc.py:99-148). `connectOk` says whether creating a client
        would succeed, `workbook` is the workbook's sheets or none when fetching
        them fails, and `now` is the clock. The new dictionary and the time are
        stored together, and only when the scan completes. */
    method SyncUpdate(connectOk: bool, workbook: Option<seq<Sheet>>, now: int) returns (outcome: SyncOutcome)
      requires Valid()
      modifies this`cache, this`lastUpdate, this`connected
      ensures Valid()
      ensures connected == (old(connected) || connectOk)
      ensures outcome == ConnectFailed <==> !old(connected) && !connectOk
      ensures outcome == FetchFailed <==> (old(connected) || connectOk) && workbook.None?
      ensures !outcome.Scanned? ==> cache == old(cache) && lastUpdate == old(lastUpdate)
      ensures outcome.Scanned? ==>
        workbook.Some? &&
        cache == BuildIndex(workbook.value) &&
        lastUpdate == Some(now) &&
        outcome.sheets == |ScannedSheets(workbook.value, |workbook.value|)|
    {
      if !connected {
        if !connectOk {
          return ConnectFailed;
        }
        connected := true;
      }
      match workbook
      case None =>
        outcome := FetchFailed;
      case Some(sheets) =>
        var tempCache, scanned := ScanWorkbook(sheets);
        cache := tempCache;
        lastUpdate := Some(now);
        outcome := Scanned(scanned);
    }

    /** `_sync_update` with a refresh that indexed no sheet treated as failed:
        the previous dictionary and time stay installed, as they do when the
        connect or the fetch fails. Otherwise it behaves like `SyncUpdate`. */
    method SyncUpdateRetaining(connectOk: bool, workbook: Option<seq<Sheet>>, now: int) returns (outcome: SyncOutcome)
      requires Valid()
      modifies this`cache, this`lastUpdate, this`connected
      ensures Valid()
      ensures connected == (old(connected) || connectOk)
      ensures outcome == ConnectFailed <==> !old(connected) && !connectOk
      ensures outcome == FetchFailed <==> (old(connected) || connectOk) && workbook.None?
      ensures outcome.Scanned? ==> workbook.Some? && outcome.sheets == |ScannedSheets(workbook.value, |workbook.value|)|
      ensures outcome.Scanned? && outcome.sheets > 0 ==> cache == BuildIndex(workbook.value) && lastUpdate == Some(now)
      ensures !(outcome.Scanned? && outcome.sheets > 0) ==> cache == old(cache) && lastUpdate == old(lastUpdate)
      ensures workbook.Some? && (forall i :: 0 <= i < |workbook.value| ==> workbook.value[i].rows.None?) ==>
        cache == old(cache) && lastUpdate == old(lastUpdate)
    {
      if !connected {
        if !connectOk {
          return ConnectFailed;
        }
        connected := true;
      }
      match workbook
      case None =>
        outcome := FetchFailed;
      case Some(sheets) =>
        var tempCache, scanned := ScanWorkbook(sheets);
        if forall i :: 0 <= i < |sheets| ==> sheets[i].rows.None? {
          AllSheetsUnreadable(sheets);
        }
        if scanned > 0 {
          cache := tempCache;
          lastUpdate := Some(now);
        }
        outcome := Scanned(scanned);
    }

    /** The owner-only `!refresh` command (sc.py:224-230); anyone else gets no
        reply, the refusal being only logged. */
    method Refresh(isOwner: bool, connectOk: bool, workbook: Option<seq<Sheet>>, now: int)
      returns (replies: seq<Reply>)
      requires Valid()
      modifies this`cache, this`lastUpdate, this`connected
      ensures Valid()
      ensures !isOwner ==>
        replies == [] && cache == old(cache) && lastUpdate == old(lastUpdate) && connected == old(connected)
      ensures isOwner ==> replies == [Message(RefreshingText), RefreshComplete(|cache.entries|)]
      ensures isOwner ==> connected == (old(connected) || connectOk)
      ensures isOwner && workbook.Some? && (old(connected) || connectOk) ==>
        cache == BuildIndex(workbook.value) && lastUpdate == Some(now)
      ensures isOwner && (workbook.None? || (!old(connected) && !connectOk)) ==>
        cache == old(cache) && lastUpdate == old(lastUpdate)
    {
      if !isOwner {
        return [];
      }
      var _ := SyncUpdate(connectOk, workbook, now);
      KeyCount(cache);
      replies := [Message(RefreshingText), RefreshComplete(|cache.keys|)];
    }
  }

  /** Before the first completed scan, `!status` says initializing and `!find`
      says loading. */
  lemma NotYetScanned(bot: TreasureBot, item: string, score: Scorer)
    requires bot.Valid() && bot.lastUpdate.None? && item != ""
    ensures StatusReply(bot.cache, bot.lastUpdate) == Message(InitializingText)
    ensures FindReply(bot.cache, item, score) == Message(LoadingText)
  {
  }

  /** A sync in which every sheet read fails still completes (`SyncUpdate`
      installs `BuildIndex` of the sheets and the new time): the dictionary
      becomes empty, so `!status` reports a completed scan of 0 items while
      `!find` answers that the database is loading. */
  lemma AllUnreadableSync(sheets: seq<Sheet>, now: int, item: string, score: Scorer)
    requires forall i :: 0 <= i < |sheets| ==> sheets[i].rows.None?
    requires item != ""
    ensures BuildIndex(sheets) == Empty
    ensures StatusReply(BuildIndex(sheets), Some(now)) == StatusCard(0, now)
    ensures FindReply(BuildIndex(sheets), item, score) == Message(LoadingText)
  {
    AllSheetsUnreadable(sheets);
  }
}
