# kuyachobot location index, in Dafny

kuyachobot is a chat bot that answers "where do I find item X" for an Animal
Crossing trading community. It comes in two variants, a Discord bot (`sc.py`)
and a Twitch bot (`main.py`). Both keep an in-memory dictionary from item name
to the islands (worksheet titles) that stock it. They rebuild it from a Google
Sheets workbook and answer `!find` and `!status` from it.

This project models the logic the two variants share:

- **the index build** of `_sync_update`. The scan skips the sheet titled
  `ACNH_Items`, unreadable sheets, sheets with no rows and every sheet's header
  row. Each non-blank cell, stripped and lower-cased, becomes a key. Each key
  collects the titles of the sheets it appears on, without repeats and in the
  order first seen. The new dictionary is built off to the side and installed,
  with the time of the scan, only when the whole scan completes
  (`Index`, `DiscordBot.TreasureBot.SyncUpdate`, `TwitchBot.TreasureBot.SyncUpdate`);
- **the stored `", "`-joined string** the source actually keeps per key, and when
  it agrees with the list form (`JoinedForm`);
- **query resolution** of `!find`. An empty argument gives the usage hint and an
  empty dictionary gives "loading". The term is lower-cased and stripped, then
  looked up exactly. Failing that, a top-5 fuzzy extract is filtered to the
  candidates scoring strictly above 75. The reply is formatted per platform
  (`Lookup`, `DiscordBot.FindReply`, `TwitchBot.Answer`);
- **`!status`**, which reports "loading" (Twitch) or "initializing" (Discord)
  until a scan has completed, and the key count after that;
- **the per-user cooldown** of the Twitch bot (`check_cooldown`). It comes
  before the loading check, and a throttled request gets no reply
  (`TwitchBot.TreasureBot.CheckCooldown`, `TwitchBot.TreasureBot.Find`);
- **three worked examples** (`Scenarios`): the merge of one name spelled three
  ways across two sheets, a workbook on which the joined string loses a
  location, and a workbook on which it gains one, a title repeated for a
  repeated cell.

Python's `str.strip()`, `lower()`, `upper()`, `split`, `join` and `replace` are
defined in `Text`. The fuzzy scorer `fuzz.token_set_ratio` is a parameter
`score(query, key): int`. `process.extract(..., limit=5)` is modelled as a
stable sort by descending integer score followed by taking the first five. Sheet reads,
the workbook fetch and the client connection are inputs: each is an `Option`
or a flag that says whether it succeeded. The clock is an integer `now`.

## Model

| member | source | states |
|---|---|---|
| `Text.Strip` | sc.py:126 | the result is a slice of the cell whose cut-off ends are all whitespace, it has no whitespace at either end, and it is empty exactly when the cell is all whitespace |
| `Text.LowerStripCommute` | main.py:173 | `find`'s `item.lower().strip()` equals the scan's `cell.strip().lower()` for every string |
| `Text.NormalizedKey` | sc.py:126-128 | a key made from a cell is already stripped and lower-case, so normalizing it again as a search term returns it unchanged |
| `Text.SplitJoin` | sc.py:130 | `split(", ")` of a `", "`-join gives back the joined names when no name contains the separator |
| `Text.ReplaceJoin` | sc.py:175 | replacing the separator of a join joins the same names with the new separator |
| `Index.KeyOf` | sc.py:126-128 | a cell yields no key exactly when it is blank or all whitespace; otherwise its key is non-empty |
| `Index.KeyOfNormalized` | sc.py:126-128 | the key a cell yields is stripped and lower-case |
| `Index.InsertCell` | sc.py:129-134 | inserting one cell keeps the dictionary well formed: keys listed once in insertion order, and no key with an empty location list |
| `Index.BuildIndex` | sc.py:111-141 | the dictionary a scan builds is well formed |
| `Index.ScanWorkbook` | sc.py:111-141 | the nested scan loop returns exactly `BuildIndex(sheets)`, and its `sheets_scanned` counts exactly the sheets that are not `ACNH_Items`, were read and have rows |
| `Index.ScanRows` | sc.py:124-134 | the rows after the header are inserted top to bottom |
| `Index.ScanRow` | sc.py:125-134 | the cells of a row are inserted left to right, through the new-key, already-listed and append branches |
| `Index.KeyCount` | sc.py:209 | `len(cache)` equals the number of keys in insertion order |
| `Index.BuildEffect` | sc.py:114-134 | one key's location list after a scan is the deduplicated list of the titles of the sheets it occurs on, in sheet order |
| `Index.KeysAreOccurringCells` | sc.py:124-128 | a string is a key iff it is the key of a cell below the header of a scanned sheet |
| `Index.LocationsOfKey` | sc.py:129-134 | each key's locations are non-empty and have no repeats, and a title is among them iff the key occurs on a scanned sheet with that title |
| `Index.LocationsFirstSeenOrder` | sc.py:129-134 | locations are ordered by the first sheet on which the key was seen |
| `Index.ExcludedNeverLocation` | sc.py:115-116 | `ACNH_Items` is never a location |
| `Index.KeysNormalized` | sc.py:126-128 | every key is non-empty, stripped and lower-case |
| `Index.SkippedSheetsIrrelevant` | sc.py:114-120 | removing the `ACNH_Items` sheet, unreadable sheets and empty sheets from the workbook leaves the index unchanged |
| `Index.HeaderRowIgnored` | sc.py:124 | replacing a sheet's first row with anything leaves the index unchanged |
| `Index.NothingIndexedEmpty` | sc.py:114-141 | a scan in which no sheet is indexed produces the empty dictionary |
| `Index.NoneScanned` | sc.py:136 | `sheets_scanned` is zero exactly when no sheet was indexed |
| `Index.AllSheetsUnreadable` | sc.py:118-141 | when every sheet read fails, the scan still completes, with the empty dictionary and a count of zero |
| `Lookup.QueryKey` | sc.py:167 | `item.lower().strip()`; `Lookup.QueryKeyOfCell` states that a cell's own text gives that cell's key, and `Text.LowerStripCommute` that this is the scan's normalization |
| `Lookup.QueryKeyOfCell` | sc.py:167 | typing a cell's own text, in any case and with any surrounding whitespace, gives that cell's key |
| `Lookup.CellTextIsExactHit` | sc.py:167-171 | the text of any indexed cell is an exact hit that lists the cell's sheet |
| `Lookup.Extract` | sc.py:183-188 | `process.extract(term, keys, limit=5)` as a stable sort by descending score cut to five; its contract is `Lookup.ExtractSpec` |
| `Lookup.ExtractSpec` | sc.py:183-188 | the extract keeps min(5, n) candidates with their own scores, best first, drawn from the scored candidates with no candidate taken more often than it was scored; a candidate left out means the extract is full and every kept score is at least its score |
| `Lookup.Suggest` | sc.py:190 | `[m[0] for m in matches if m[1] > 75]`; its contract, composed with the extract, is `Lookup.SuggestionsSpec` |
| `Lookup.SuggestionsSpec` | sc.py:190 | suggestions are at most five keys, all scoring above 75 and best first, and no key is suggested twice when the keys have no repeats; a key scoring above 75 is left out only when five keys scoring at least as much are offered |
| `Lookup.Resolve` | sc.py:167-201 | exact lookup of the term, then the suggestions, then no match; its contract is `Lookup.ResolveSpec` |
| `Lookup.ResolveSpec` | sc.py:167-201 | an exact hit iff the term is a key, carrying its non-empty locations; otherwise the suggestions for the term, which are distinct keys scoring above 75, best first, at most five, and complete up to that limit; "no match" iff no key scores above 75 |
| `Lookup.FormattedLocations` | main.py:179 | `raw.upper().replace(", ", sep)` of the stored join is the upper-cased names joined by `sep` when no name contains `", "` |
| `Lookup.BarSegments` | main.py:178-181 | the bar-separated display splits on its separator into exactly one upper-cased segment per location |
| `Lookup.LineSegments` | sc.py:175 | the Discord embed splits into one upper-cased line per location |
| `JoinedForm.JoinedAdd` | sc.py:129-132 | the `split(", ")` membership test and `+= f", {location_name}"` on the stored string; `JoinedForm.JoinedAddAgrees` and `JoinedForm.CommaTitleHidesTitle` state when it agrees with list append and when it does not |
| `JoinedForm.JoinedBuild` | sc.py:111-141 | the string-valued dictionary of the scan as written; its contract is `JoinedForm.JoinedBuildAgrees` |
| `JoinedForm.JoinedAddAgrees` | sc.py:129-132 | while names contain no `", "`, the string test and append match list membership and append |
| `JoinedForm.JoinedBuildAgrees` | main.py:115-126 | when no scanned title contains `", "`, the string-valued dictionary has the same keys in the same order, and each value is the join of that key's list |
| `JoinedForm.CommaTitleHidesTitle` | sc.py:130-132 | after storing the title `"A, B"`, the title `"A"` is taken as already listed |
| `JoinedForm.CommaTitleRepeats` | sc.py:130-132 | the title `"A, B"` is not among the pieces of its own stored string, so it is appended again, where the list form keeps it once |
| `DiscordBot.FindReply` | sc.py:158-201 | the `!find` reply; its contract is `DiscordBot.FindReplySpec` |
| `DiscordBot.FindReplySpec` | sc.py:158-201 | usage for an empty argument, then loading for an empty dictionary; a green embed iff the term is a key, whose lines are its locations upper-cased; an orange embed iff some key scores above 75, listing the suggestions as bullets; the not-found message otherwise |
| `DiscordBot.StatusReply` | sc.py:205-213 | the `!status` reply; its contract is `DiscordBot.StatusReplySpec` |
| `DiscordBot.StatusReplySpec` | sc.py:204-213 | the status embed appears iff a scan has completed, and shows the number of keys and the scan time |
| `DiscordBot.NotYetScanned` | sc.py:163-165 | before the first completed scan, `!status` says initializing and `!find` says loading |
| `DiscordBot.TreasureBot.constructor` | sc.py:41-54 | the bot starts with an empty dictionary, no update time and no client |
| `DiscordBot.TreasureBot.SetupHook` | sc.py:56-63 | the client exists afterwards iff it existed or creating it succeeded |
| `DiscordBot.TreasureBot.SyncUpdate` | sc.py:99-148 | a failed connect or fetch leaves the dictionary and time exactly as before; a completed scan installs `BuildIndex(sheets)` and `now` together and reports the sheet count |
| `DiscordBot.AllUnreadableSync` | sc.py:140-144 | a sync in which every sheet read fails installs the empty dictionary with a new time, after which `!status` reports 0 items while `!find` says the database is loading |
| `DiscordBot.TreasureBot.SyncUpdateRetaining` | sc.py:99-148 | like `SyncUpdate`, except that a scan that indexed no sheet keeps the previous dictionary and time; in particular a sync in which every sheet read fails changes neither |
| `DiscordBot.TreasureBot.Refresh` | sc.py:224-230 | a non-owner changes nothing and gets no reply; the owner gets the two messages, the second carrying the item count after the sync, and the client is connected afterwards iff it was or connecting succeeded |
| `TwitchBot.Answer` | main.py:169-207 | the reply to an admitted `!find`; its contract is `TwitchBot.AnswerSpec` |
| `TwitchBot.AnswerSpec` | main.py:169-207 | loading for an empty dictionary; for a key, `Found KEY on: ` followed by the upper-cased locations joined by the bar separator; otherwise the suggestion line iff some key scores above 75, else the not-found line |
| `TwitchBot.StatusReply` | main.py:214-219 | the `!status` reply; its contract is `TwitchBot.StatusReplySpec` |
| `TwitchBot.StatusReplySpec` | main.py:213-219 | "loading" iff no scan has completed; otherwise the number of keys and the scan time |
| `TwitchBot.TreasureBot.constructor` | main.py:41-53 | empty dictionary, no update time, an empty cooldown map, and a client iff creating it succeeded |
| `TwitchBot.TreasureBot.SyncUpdate` | main.py:88-140 | same swap-or-keep guarantee as the Discord bot |
| `TwitchBot.AllUnreadableSync` | main.py:132-136 | a sync in which every sheet read fails installs the empty dictionary with a new time, after which `!status` reports 0 items while every admitted `!find` says the database is loading |
| `TwitchBot.TreasureBot.SyncUpdateRetaining` | main.py:88-140 | the same corrected sync as the Discord bot's |
| `TwitchBot.AfterCheck` | main.py:154-158 | the cooldown map after `check_cooldown`; `TwitchBot.TreasureBot.CheckCooldown` is proved to produce it, and `TwitchBot.AdmittedAreSpaced` and `TwitchBot.ReplayEntries` state its effect over a run of requests |
| `TwitchBot.TreasureBot.CheckCooldown` | main.py:152-158 | throttled iff the user has a recorded time less than `cooldown_sec` ago; when throttled the map is unchanged, otherwise only the user's entry becomes `now` |
| `TwitchBot.TreasureBot.Find` | main.py:160-207 | an empty item gets usage without touching the cooldowns; otherwise the cooldown check comes first and a throttled request gets no reply; an admitted one gets `Answer` |
| `TwitchBot.AdmittedAreSpaced` | main.py:152-158 | with requests in time order, two admitted requests of one user are at least `cooldown_sec` apart |
| `TwitchBot.ReplayEntries` | main.py:157 | requests of other users never change a user's entry |
| `Scenarios.MergeExample` | sc.py:114-134 | "Lucky Cat", "lucky cat" and a blank cell on "Harv's Island" plus "LUCKY CAT" on "Dom's Island" give the single key "lucky cat" with locations ["Harv's Island", "Dom's Island"] |
| `Scenarios.CommaWorkbookDisagrees` | main.py:121-126 | on the workbook of the first finding below, the stored string is not the join of the key's locations |
| `Scenarios.RepeatWorkbookListed` | sc.py:114-134 | one sheet "A, B" listing "x" twice gives the key "x" with the single location "A, B" |
| `Scenarios.RepeatWorkbookJoined` | sc.py:114-134 | on the same sheet the scan as written stores "A, B, A, B" for "x" |
| `Scenarios.RepeatWorkbookDisagrees` | main.py:121-126 | on that sheet the stored string "A, B, A, B" is not the join of the key's one location "A, B" |

## Left out

- nooki.py is not part of this model. It is an HTTP wrapper around a remote API with no index or lookup logic.
- The fuzzy scorer `fuzz.token_set_ratio` is an arbitrary function of the query and the key. Its token-set algorithm and the default preprocessing that `process.extract` applies are inside that function and are not modelled.
- gspread (`service_account`, `open`, `worksheets`, `get_all_values`) is not modelled. Each call is an input saying whether it succeeded and what it returned.
- Discord and Twitch SDK behaviour is not modelled: login, presence, `on_message`/`event_message` dispatch and echo filtering, `help`, `on_command_error`, the `commands.cooldown` and `is_owner` decorators of sc.py, and embed rendering. Replies are structured values.
- Asynchronous scheduling is not modelled: the hourly `tasks.loop` of sc.py, `update_cache`, `event_ready` and `auto_refresh_cache` of main.py, `run_in_executor`, the `time.sleep(1.0)` throttle and task cancellation. The atomicity of the swap appears only as the order of assignments in `SyncUpdate`. Readers running concurrently with a refresh are not modelled.
- Wall-clock time is not modelled. `time.time()` and `datetime.now()` become an integer `now`, and `strftime` formatting is left out.
- `Text.Lower` and `Text.Upper` change only the ASCII letters. Python's `lower()` and `upper()` also map non-ASCII letters, and `upper()` can lengthen a string ("ß" becomes "SS").
- Environment-variable validation and logging are not modelled.
- The 30-character key-length guard and the secondary villager directory belong to a file-scan source that is not part of this model.
- `Lookup.BarSegments` also requires that no location contains `'|'`. Without that, a title containing `" | "` would itself be split, and the segment count would not equal the location count.
- `DiscordBot.FindReplySpec` states the line-per-location property only for locations without `", "` or a line break, for the same reason.
- `TwitchBot.AnswerSpec` states the `" | "` form of an exact hit only for locations without `", "` or `'|'`. For other titles, the reply is still defined by `Answer`.
- `Lookup.Extract` sorts by the integer score and keeps key order on ties. The rapidfuzz-backed releases of `thefuzz` sort by the unrounded score and round afterwards, so among keys whose rounded scores tie, their order and the top-5 cut can differ from the model. `Lookup.ExtractSpec`, `Lookup.SuggestionsSpec` and `Lookup.ResolveSpec` hold either way, because rounding is monotone.
- `DiscordBot.TreasureBot.SyncUpdate` installs the list form of the index, not the stored `", "`-joined string. On a workbook with a title containing `", "` (see Findings) the two differ in both directions: the program can list fewer titles than the model, when such a title hides another title, or more, when such a title is appended again for every later cell with the same key on its sheet.
- `TwitchBot.TreasureBot.SyncUpdate` installs the list form as well, with the same consequence.
- `DiscordBot.FindReply` formats from the list form, so on such a workbook its embed can show a different number of location lines than the program's. Sheets "A, B" and then "A" give the lines A, B, A where the program shows A, B. One sheet "A, B" listing "x" twice gives A, B where the program shows A, B, A, B.
- `TwitchBot.Answer` formats from the list form, so on such a workbook it can show "A | B | A" where the program shows "A | B", or "A | B" where the program shows "A | B | A | B".

## Findings

| source | as written | input that shows it | evidently intended | confidence | as-written member | corrected member |
|---|---|---|---|---|---|---|
| sc.py:129-132 | whether a title is already listed is decided among the pieces of the stored string split on `", "`, so a title that contains `", "` is read as several titles | a sheet titled "A, B" and then a sheet titled "A", each listing "x" below its header: "A" is taken as already listed and the value of "x" stays "A, B" | each key lists every title of a sheet it occurs on, once, in first-seen order | low, not executed; it needs a sheet title containing `", "` | `Scenarios.CommaWorkbookDisagrees` | `Index.LocationsOfKey` |
| sc.py:129-132 | the same test never finds a title containing `", "` among the pieces of its own stored string, so the title is appended again (the same at main.py:121-124) | one sheet titled "A, B" listing "x" twice below its header: the value of "x" becomes "A, B, A, B", shown by Discord as the four lines A, B, A, B and by Twitch as the same four names around the bar separator | each key lists every title of a sheet it occurs on, once | low, not executed; it needs a sheet title containing `", "` | `Scenarios.RepeatWorkbookDisagrees` | `Index.LocationsOfKey` |
| sc.py:140-144 | a sheet whose read fails is skipped inside the loop, and after the loop the dictionary and time are installed whatever the number of sheets read (the same at main.py:132-136) | a workbook whose every `get_all_values()` raises, for example on a quota error: the dictionary becomes empty and the time is new, so `!status` reports 0 items while `!find` answers that the database is loading, and the previous index is lost | a refresh that indexed no sheet is a failed refresh, like a failed fetch, and keeps the previous dictionary and time | medium, not executed; it needs every sheet read of one refresh to fail | `DiscordBot.AllUnreadableSync` | `DiscordBot.TreasureBot.SyncUpdateRetaining` |

The rest of the model stores each key's locations as a list of titles
(`Index.BuildIndex`). `JoinedForm.JoinedBuildAgrees` proves that the list form
and the joined string agree whenever no scanned title contains `", "`.

For the third finding, both bots keep `SyncUpdate` as written, and `Refresh`
calls it. The corrected `SyncUpdateRetaining` stands beside it in each bot
class, with the same contract except on a scan that indexed no sheet.
`Index.NoneScanned` and `Index.NothingIndexedEmpty` show that the only
dictionary it declines to install is the empty one. It still installs an empty
dictionary, with a new time, for a workbook whose sheets are read and indexed
but hold only their header rows. There, too, `!find` answers "loading" while
`!status` reports 0 items, because `find` tests only whether the dictionary is
empty (sc.py:163, main.py:169) and cannot tell a dictionary never built from
one built empty.
