# Contract-address tracking bot — a Dafny model

This project models the core of a small Telegram bot that tracks token contract
addresses ("CAs") in a SQLite `watchlist` table. The core has three parts.

- **The bot** (`shemswizard.ts`) reads chat messages. It takes the first token
  matching `\b([A-Za-z0-9]{32,})\b` as a contract address and drops addresses
  that start with `0x`. It fetches an initial quote and inserts the address
  into the watchlist. Then it announces the address with a template picked by
  the source group, and starts a loop. Each pass of that loop fetches a quote.
  A missing quote writes nothing and retries after 3 seconds. A zero quote
  writes only the current price, because a multiplier of 0 is falsy. Any other
  quote writes the price and the multiplier (quote over initial price). An
  alert is sent when the multiplier is at least 1.5, and the loop then waits
  5 minutes.
- **The analysis script** (`analyzegrp.ts`) makes one pass over the table rows.
  It prints a detail line per row, with one separator before the first row
  below 1.5. It counts rows and wins per group and prints overall and
  per-group win rates.
- **The removal script** (`removewatch.ts`) deletes one address given on the
  command line and says whether a row was removed.

Files:

- `wrappers.dfy` holds `Option`.
- `watchlist.dfy` (module `Watchlist`) holds the table:
  - `Table = map<string, Row>`, keyed by `ca`;
  - the three SQL statements the programs run, as pure functions;
  - the class `WatchlistDb`, whose methods apply those statements to its `rows` field in place.
- `ingestion.dfy` (module `Ingestion`) holds the message handler:
  - `String.prototype.trim` and the regular-expression search;
  - the `0x` filter and the template choice;
  - the handler method `OnText`.

  The module `IngestionExample` works one message through.
- `monitor.dfy` (module `Monitor`) holds `monitorCaPerformance`:
  - `Step` is one pass of the loop;
  - `Run` is the loop over a finite trace of answers from the outside world;
  - the method `MonitorCaPerformance` is that loop written imperatively and proved equal to `Run`.
- `stats.dfy` (module `Stats`) holds `analyzePerformance`. Reference functions
  (counts, first-appearance group order, the listing, summaries) are proved
  against the imperative `forEach` pass `TallyRows` and against `AnalyzePerformance`.
- `removal.dfy` (module `RemoveWatch`) holds the removal function and its command line.

Where the column name and the code disagree, the model follows the code.
`highest_multiplier` is overwritten by every sample with the latest
multiplier (`shemswizard.ts:142-143`, `60-63`), not raised to a maximum.
`Monitor.MultiplierIsNotRatcheted` shows a 2.0 sample followed by a 1.2 sample
leaving 1.2 in the table.

## Model

| member | source | states |
|---|---|---|
| Watchlist.IsTruthy | shemswizard.ts:60 | Reference definition of JavaScript truthiness for the optional multiplier argument: absent and 0 are falsy. |
| Watchlist.InsertOrIgnore | shemswizard.ts:45-56 | INSERT OR IGNORE: the keys become the old keys plus `ca`, and every existing row (an existing `ca`'s row included) is unchanged. A fresh `ca` gets current price = initial price, multiplier 1.0 and the group. |
| Watchlist.Update | shemswizard.ts:58-70 | The UPDATE never creates a row: the keys are unchanged, and an absent `ca` leaves the table as it was. Only `ca`'s row changes: its current price is set, and its multiplier exactly when the argument is truthy (present and non-zero). Initial price and group are kept. |
| Watchlist.Delete | removewatch.ts:15 | After the DELETE, `ca` is absent, the keys are the old keys minus `ca`, and every remaining row is unchanged. |
| Watchlist.DeleteChanges | removewatch.ts:15-18 | The change count is the number of rows the delete removed, and it is at most 1 (`ca` is the primary key). |
| Watchlist.InsertOrIgnoreIdempotent | shemswizard.ts:47-50 | A second insert of the same address changes nothing. The stored initial price stays that of the first sighting. |
| Watchlist.DeleteUndoesFreshInsert | removewatch.ts:15 | Deleting an address that an insert just created gives back the original table. |
| Watchlist.WatchlistDb.constructor | shemswizard.ts:46 | A connection sees the table as it is. |
| Watchlist.WatchlistDb.AddToWatchlist | shemswizard.ts:45-56 | The new `rows` is `InsertOrIgnore` of the old one, and an existing address leaves `rows` unchanged. |
| Watchlist.WatchlistDb.UpdateWatchlist | shemswizard.ts:58-70 | The new `rows` is `Update` of the old one, with the same keys. |
| Watchlist.WatchlistDb.DeleteByKey | removewatch.ts:15 | The new `rows` is `Delete` of the old one. The returned change count is the drop in row count: 1 if `ca` was present, else 0. |
| Ingestion.TrimStart | shemswizard.ts:88 | The result is a suffix of the input, everything dropped is whitespace, and a non-empty result starts with a non-whitespace character. |
| Ingestion.TrimEnd | shemswizard.ts:88 | The result is a prefix of the input, everything dropped is whitespace, and a non-empty result ends with a non-whitespace character. |
| Ingestion.Trim | shemswizard.ts:88 | The result is no longer than the input and neither starts nor ends with ECMAScript whitespace. |
| Ingestion.TrimIsStrippedSlice | shemswizard.ts:88 | The trimmed text is a contiguous slice of the input with only whitespace before and after it. |
| Ingestion.TrimBlank | shemswizard.ts:88-91 | Trimming gives the empty string exactly when the input is all whitespace. |
| Ingestion.Message | shemswizard.ts:88-91 | The handler goes on exactly when the text exists and is not all whitespace. It then works on the trimmed text. |
| Ingestion.RunEnd | shemswizard.ts:94 | Gives the end of the maximal ASCII-alphanumeric run starting at `i`. |
| Ingestion.MatchEndsAtRunEnd | shemswizard.ts:94 | A match of the pattern starting at `a` ends exactly where the alphanumeric run from `a` ends (greedy, bounded by `\b`). |
| Ingestion.NoMatchInRun | shemswizard.ts:94 | A run that is too short or touches `_` hides no match starting anywhere inside it. |
| Ingestion.FindRunFrom | shemswizard.ts:94 | The search finds a match with the least start at or after `i`, or reports that none exists. |
| Ingestion.ExtractAddress | shemswizard.ts:94-100 | There is no result exactly when the message has no match. Otherwise the result is the text of the match with the least start: a run of ≥ 32 ASCII letters and digits, bounded on each side by a string end or a character that is neither alphanumeric nor `_`. |
| Ingestion.FirstAddressRunUnique | shemswizard.ts:94-100 | The first match is unique, so later qualifying tokens never matter. |
| Ingestion.Classify | shemswizard.ts:94-104 | The result is NoAddress exactly when there is no match. Otherwise it carries the first match, Excluded exactly when that match starts with `0x` and Candidate otherwise. |
| Ingestion.FirstMatchDecides | shemswizard.ts:100-104 | The first match alone decides the outcome: a lower-case `0x` first match drops the whole message even if a later token would qualify. `0X` is not excluded. |
| Ingestion.SelectTemplate | shemswizard.ts:117-124 | Red wins over yellow, which wins over green. The placeholder is chosen exactly when the group is in none of the three lists. |
| Ingestion.TemplateText | shemswizard.ts:117-124 | Reference definition: the four template strings. |
| Ingestion.Announcement | shemswizard.ts:126 | The announcement starts with "Tracking started for CA: " followed by the address, and ends with the chosen template text. |
| Ingestion.GroupName | shemswizard.ts:89 | The group is the chat title when there is one, and "Unknown" exactly when there is no title or the title is itself "Unknown". |
| Ingestion.OnText | shemswizard.ts:87-130 | Blank text, no address, a `0x` address or a missing initial quote all leave the table unchanged and start nothing. Otherwise the address is inserted-or-ignored with the quote and the chat title (default "Unknown"). A successful announcement starts tracking after 3000 ms, even when the row already existed, and then the table is unchanged. |
| IngestionExample.ZeroXMessageIsExcluded | shemswizard.ts:101-104 | A message holding a 42-character `0x…` token is classified as Excluded. |
| Monitor.Step | shemswizard.ts:136-149 | A missing quote writes nothing, sends nothing and waits 3000 ms. A quote `p` sets the current price to `p`, and sets the multiplier to `p / initialPrice` when `p` is non-zero; other rows and keys are unchanged. It alerts exactly when the multiplier is ≥ 1.5 and the send succeeds, and terminates exactly when the send fails. Otherwise it waits 300000 ms. |
| Monitor.Run | shemswizard.ts:133-154 | One sleep per sample until termination, and no sleep for the sample that terminated the loop. There are no more alerts than sleeps, and the keys are unchanged. |
| Monitor.RunAfterRemoval | shemswizard.ts:143 | Once the row has been deleted the loop's writes change nothing: the row is never re-created. |
| Monitor.TerminationIsFinal | shemswizard.ts:134-153 | After the catch block nothing more happens: later samples change neither the table nor the alerts nor the sleeps. |
| Monitor.RunDelays | shemswizard.ts:137-149 | The k-th sleep is 3000 ms after a missing quote and 300000 ms after a quote. |
| Monitor.RunStoresLatest | shemswizard.ts:142-143 | While the loop lives, the row holds the latest quote and the multiplier of the latest non-zero quote (overwrite, not maximum). Its initial price and group never change. |
| Monitor.RunAlertsEverySample | shemswizard.ts:145-147 | When every send succeeds the loop never stops, and it alerts on every sample at or above 1.5, not only on the first crossing. |
| Monitor.MultiplierIsNotRatcheted | shemswizard.ts:142-143 | A 2.0 sample then a 1.2 sample leaves 1.2 stored, after one alert. |
| Monitor.FirstWinAlertsOnce | shemswizard.ts:142-147 | A fresh address at 1.0 sampled at 1.5 is alerted once and stores 1.5. |
| Monitor.MonitorCaPerformance | shemswizard.ts:133-154 | The loop leaves the table, alerts, sleeps and termination flag exactly as `Run` over the trace. |
| Stats.WinsInGroup | analyzegrp.ts:65-68 | A group never has more wins than rows. |
| Stats.Details | analyzegrp.ts:45-55 | One detail line per row, in input order, carrying its address, multiplier and group. |
| Stats.Listing | analyzegrp.ts:42-55 | Reference definition of the printed listing. Each row adds its detail line, preceded by a separator when the row is below 1.5 and no earlier row was. Its meaning is stated by `Stats.ListingWithoutLoss` and `Stats.ListingSeparatorAt`. |
| Stats.StatsOf | analyzegrp.ts:57-68 | Reference definition of the group dictionary after the pass: a missing entry is created at zero, then `total` and, for a win, `wins` go up by one. Its meaning is stated by `Stats.StatsOfCounts`. |
| Stats.GroupOrderMembers | analyzegrp.ts:57-60 | Each group is listed once, and exactly the groups that have a row are listed. |
| Stats.StatsOfCounts | analyzegrp.ts:57-68 | After the pass the dictionary holds exactly the listed groups. Each group's `total` is its number of rows and its `wins` the number of those at or above 1.5. |
| Stats.WinRate | analyzegrp.ts:77-83 | The rate is 0 when the total is 0. Otherwise rate × total = 100 × wins, and with wins ≤ total it lies in [0, 100]. |
| Stats.Summaries | analyzegrp.ts:82-87 | One summary per group of the order, in that order, each with that group's counts and rate. |
| Stats.SumTotals | analyzegrp.ts:74 | Reference definition of the `reduce` that sums the group totals. |
| Stats.SumWins | analyzegrp.ts:73 | Reference definition of the `reduce` that sums the group wins. |
| Stats.Analysis | analyzegrp.ts:25-88 | Reference definition of the whole report: the listing, the overall sums and rate, and the per-group summaries in first-appearance order. Its meaning is stated by `Stats.OverallCountsEveryRow`, `Stats.GroupSummariesBounded` and `Stats.GroupOrderIsFirstAppearance`. |
| Stats.SumsAfterAppend | analyzegrp.ts:73-74 | A new row adds one to the summed totals, and one to the summed wins if it is a win, exactly when its group is listed. |
| Stats.SummedCountsEveryRow | analyzegrp.ts:58-74 | The `reduce` sums over the groups equal the number of rows and the number of winning rows. |
| Stats.OverallCountsEveryRow | analyzegrp.ts:73-79 | The overall total is the number of rows and the overall wins the number of rows at or above 1.5. The overall rate is their win rate and lies in [0, 100]. |
| Stats.GroupSummariesBounded | analyzegrp.ts:82-87 | Every printed group has at least one row and no more wins than rows. Its rate is the group's win rate and lies in [0, 100]. |
| Stats.GroupOrderIsFirstAppearance | analyzegrp.ts:57-60 | Groups are listed in the order in which their first rows appear. |
| Stats.ListingWithoutLoss | analyzegrp.ts:42-55 | With no row below 1.5 the listing is the detail lines and no separator. |
| Stats.ListingSeparatorAt | analyzegrp.ts:42-55 | With the first row below 1.5 at index k (k = 0 included), the listing is the detail lines with exactly one separator, placed just before row k. If the rows are sorted descending, every row from k on is a loss. |
| Stats.ExampleGroups | analyzegrp.ts:57-87 | Three rows (G1 at 2.0, G1 at 1.2, G2 at 3.0) give G1 2 plays with 1 win at 50%, and G2 1 play with 1 win at 100%. |
| Stats.ExampleOverall | analyzegrp.ts:73-79 | The same rows give 3 plays, 2 wins and 200/3 %. |
| Stats.TallyRows | analyzegrp.ts:42-69 | The `forEach` pass leaves the printed lines equal to `Listing(rows)` and the dictionary's key order equal to `GroupOrder(rows)`. The dictionary holds each listed group with its row and win counts. |
| Stats.AnalyzePerformance | analyzegrp.ts:25-88 | The whole analysis yields exactly `Analysis(rows)`. |
| RemoveWatch.Outcome | removewatch.ts:18-22 | The result is "removed" exactly when the address had a row (the change count is positive), and "not found" exactly when the delete left the row count unchanged. |
| RemoveWatch.RemoveFromWatchlist | removewatch.ts:11-27 | The table becomes `Delete` of the old one, and the reported outcome is `Outcome` of the old table. |
| RemoveWatch.Target | removewatch.ts:32-39 | The script gets an address exactly when argv holds exactly one argument after the two interpreter paths. The address is that argument. |
| RemoveWatch.ExitCode | removewatch.ts:33-36 | The exit status is 1 exactly after the usage error, else 0. |
| RemoveWatch.RunScript | removewatch.ts:30-43 | A wrong argument count is a usage error and leaves the table unchanged. Otherwise the one argument is removed and its outcome reported. |
| RemoveWatch.RemoveTwice | removewatch.ts:15-21 | Removing the same address twice: the second run changes nothing and reports "not found". |

## Left out

- Telegram transport (`bot.on`, `sendMessage`, `bot.launch`, the `ctx` object) is not modelled. An announcement or alert is an emitted value plus a success flag, and a failed send is the exception that ends the handler or the loop.
- `fetchPrice` (HTTP, DexScreener JSON, `parseFloat`) is not modelled. The handler takes it as a function parameter returning an optional quote, and the loop as the `quote` of each sample.
- SQLite mechanics are not modelled: opening and closing connections, asynchronous callback ordering, the schema and its `tracked_since` default, and database errors (the error branches of every callback).
- Timers and concurrency are not modelled: `setTimeout` scheduling, the concurrent per-address loops and the race between a delete and an in-flight update. Delays are values, and the endless loop is modelled over a finite trace.
- Floating point is not modelled: prices are `real`, so rounding, NaN, Infinity and `toFixed(2)` formatting are absent.
- Monitor.Step: requires a non-zero initial price, although the handler accepts a zero quote; the source would then divide by zero and get Infinity or NaN.
- Monitor.Run: requires a non-zero initial price, for the same reason as `Monitor.Step`.
- Monitor.MonitorCaPerformance: requires a non-zero initial price, for the same reason as `Monitor.Step`.
- Environment loading and the start-up check on the Telegram key and group lists (`shemswizard.ts:8-21`) are not modelled. The group lists are a `GroupConfig` parameter.
- Console output text is not modelled, except for the structure of the analysis listing (detail lines and separator).
- Stats.AnalyzePerformance: the rows are an input. The SQL `ORDER BY highest_multiplier DESC` is not enforced, and sortedness is only a hypothesis of `Stats.ListingSeparatorAt`.
- `Object.entries` lists integer-like keys first; the model assumes group names that are not integer-like, so groups come in first-appearance order.
- Stats.TallyRows: assumes that no group name is an `Object.prototype` property name (`constructor`, `toString`, `valueOf`, `hasOwnProperty`, `__proto__` and the like). For such a name the source's `!groupStats[group_name]` test sees the inherited member, so no entry is created and the row is missing from every count. The model counts it like any other group.
- Stats.AnalyzePerformance: makes the same assumption on group names as `Stats.TallyRows`. For a row whose group is named like an `Object.prototype` property, the source prints the detail line but leaves the row out of the overall and per-group figures. The model includes it.
- Stats.StatsOfCounts, Stats.GroupOrderMembers, Stats.SummedCountsEveryRow and Stats.OverallCountsEveryRow: these describe the model's counts, so they hold of the source only under the same assumption on group names.
