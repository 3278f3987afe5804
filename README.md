# TradeService in Dafny

A model of the TradeService trading bots (Python) and proofs about it. Four
services share a MongoDB database and a Bybit account.

- **webhook** (`webhook.py`) takes a trading signal such as
  `12&13_BTCUSDT_enter-long_2.5%`. It stores one pending `Message` record per
  bot id.
- **queue service** (`queue_service.py`) looks for bots with pending records
  on every tick. For each bot that holds no `Lock` it creates a lock and
  launches a trade worker for that bot.
- **trade worker** (`trade.py`) works through its bot's pending records, oldest
  first. The command is one of:
  - `enter-*`: margin mode, leverage, a market order with a stop-loss, then a
    ladder of reduce-only take-profit orders;
  - `exit-*`: close the position;
  - `take-profit-*-1`, `-2` and `-3`.

  It marks each record success or failed, with a severity, and finally
  releases the bot's lock.
- **stop-loss adjuster** (`sl-adjuster.py`) runs two loops:
  - a slow loop visits every configured (bot, pair) row. It moves a row with
    an open position onto a fast track, and it tightens the stop-loss from a
    table of PnL tiers;
  - a fast loop does the same for fast-tracked rows. It drops a row from the
    fast track once its position is gone.

Modules:

| file | module | what |
|---|---|---|
| `wrappers.dfy` | `Wrappers` | `Option`, `Result` |
| `text.dfy` | `Text` | `str.split`/`join`, `str(int)`, `int()`, `float()` on decimal literals, `s[:-1]`, ASCII `lower`/`upper` |
| `records.dfy` | `Records` | the `Message` record, and the `Lock` and `Message` collections, as classes whose methods update them in place |
| `positions.dfy` | `Positions` | the scan of the positions response, the two `get_position` variants, and `round(x, 2)` |
| `trade.dfy` | `Trade` | the worker's decision for one message: the requests it sends and what it logs |
| `trade_rules.dfy` | `TradeRules` | what that decision promises, command by command |
| `worker.dfy` | `Worker` | the worker's main block, its message loop and `do_with_retry` |
| `stoploss.dfy` | `StopLoss` | the tier selection, the per-row decision, and the two loops over a shared `Controller` |
| `queue_service.dfy` | `QueueService` | `service_main`: the pending query, the lock check and launch per tick, and the lock sweeps |
| `webhook.dfy` | `Webhook` | parsing the signal and saving the records |

The model does not call the exchange, the database or the clock. Whatever
they answer is an input:

- a `MessageEnv` for each message: the positions response, the last price,
  the balance, the replies to the margin and leverage requests, the order
  status and the clock readings;
- a `LookupInput` for each controller row;
- the bot ids each queue-service tick reads (`snapshots`), and the locks that
  workers released between ticks (`released`).

Requests to the exchange are an output list of `Action`s, or of
`StopRequest`s for the adjuster.

Points where the code behaves in a way that is easy to misread; the model follows the code:

- When `get_position` in `trade.py` hits an error it returns a seven-value
  tuple (`trade.py:159`). Every caller unpacks eight values, so the command
  fails with Python's unpacking `ValueError` text and severity "high". The
  model does not return a "no position" answer there.
- On a hit, `take-profit-*-3` closes with the side of the response's last
  entry, which may be either side (`trade.py:796-806`). It does not always
  use the closing side.
- `take-profit-short-2` compares the PnL without negating it for a short
  (`trade.py:775`), exactly as `take-profit-long-2` does.
- The message age test uses `timedelta.seconds` (`trade.py:254`), so only the
  age modulo one day is compared with the limit.
- The fast-tracked set holds the string `f"{bot_id}_{pair}"`. The model keys
  it by the pair `Key(botId, pair)`. `StopLoss.IdenMatchesKey` proves that
  two rows share the string exactly when they share the pair.

## Model

| member | source | states |
|---|---|---|
| `Text.Split` | webhook.py:43-44 | `str.split`: at least one piece, and no piece contains the separator |
| `Text.JoinSplit` | webhook.py:43 | joining the pieces of a split with the separator gives back the string |
| `Text.SplitJoin` | webhook.py:43 | splitting a join of separator-free pieces gives back the pieces |
| `Text.NatStr` | trade.py:375 | `str(n)` for `n >= 0` is a non-empty string of digits |
| `Text.IntStr` | sl-adjuster.py:194 | `str(i)` is non-empty and starts with '-' exactly when `i` is negative |
| `Text.ParseNatStr` | trade.py:375 | reading the digits `str(n)` wrote gives `n` |
| `Text.NatStrInjective` | trade.py:375 | distinct ladder indices print distinctly |
| `Text.ScanNatStr` | trade.py:375 | the literal scanner reads `str(n)` as the integer part `n`, with no point |
| `Text.ParseIntStr` | trade.py:281 | `float(str(i)) == i`: a setting written as an integer reads as that number |
| `Text.ParseIntOfIntStr` | trade.py:225-227 | `int(str(i)) == i`: a timing limit written as an integer reads back as itself |
| `Text.DropLast` | trade.py:703 | `s[:-1]` drops exactly the last character; the empty string stays empty |
| `Text.Lower` | trade.py:248 | `lower()` folds each ASCII letter and keeps the length |
| `Text.Upper` | trade.py:247 | `upper()` folds each ASCII letter and keeps the length |
| `Text.LowerCanonical` | trade.py:248 | folding is idempotent, and lower-casing an upper-cased string equals lower-casing it |
| `Records.StoredSeverity` | trade.py:34-43 | `log_error` stores "warn" exactly when it is given "warn", and "high" for every other severity |
| `Records.Message.constructor` | webhook.py:19-26 | a new record has the given fields, status "pending" and no error |
| `Records.Message.LogError` | trade.py:34-43 | the status becomes "failed", with the text and the stored severity; nothing else changes |
| `Records.Message.LogSuccess` | trade.py:46-49 | only the status changes, to "success" |
| `Records.LockRegistry.constructor` | trade.py:25-26 | an empty lock collection |
| `Records.LockRegistry.IsLocked` | queue_service.py:38 | the lookup answers exactly whether the bot holds a lock |
| `Records.LockRegistry.Create` | queue_service.py:42 | saving a lock adds exactly that bot id |
| `Records.LockRegistry.ReleaseLock` | trade.py:52-60 | `release_lock` removes exactly that bot's lock and reports whether one existed |
| `Records.LockRegistry.DeleteAll` | queue_service.py:31 | the sweep leaves no lock |
| `Records.MessageQueue.constructor` | webhook.py:19-26 | an empty, valid collection |
| `Records.MessageQueue.Save` | webhook.py:49-53 | saving a new record appends it and keeps the records distinct |
| `Positions.ScanFindsLast` | trade.py:124-143 | the scan finds a side open exactly when some entry has that side and a nonzero size, and then it reports the last such entry |
| `Positions.ScanResponse` | trade.py:124-143 | the `for p in response` loop computes the scan |
| `Positions.ClassifyTradeLookup` | trade.py:99-159 | the worker's `get_position`: a length other than 2, or both sides open, gives the fallback; neither side open gives "no"; one side open gives that kind, with the last open entry's values, the given price and the last entry's side |
| `Positions.ClassifyAdjusterLookup` | sl-adjuster.py:87-186 | the adjuster's `get_position` finds a position exactly when the lookup succeeded, the response has two entries and exactly one side is open; the kind is long exactly when Buy is open; the position is the worker's, with the size, stop-loss, PnL and entry price of the last open entry of that side and the read price |
| `Positions.Round2Bounds` | sl-adjuster.py:79 | `round(x, 2)` moves `x` by at most half a cent, and leaves a whole-cent value unchanged |
| `Positions.Round2Monotone` | sl-adjuster.py:79 | rounding preserves order |
| `Trade.CommandsDistinct` | trade.py:262-908 | the ten command names are pairwise distinct, so the dispatch chain picks at most one branch |
| `Trade.Seconds` | trade.py:254 | `timedelta.seconds` is below 86400 |
| `Trade.SecondsDropsDays` | trade.py:254 | under a day, `.seconds` is the age in whole seconds; adding whole days changes nothing |
| `Trade.ReadFloat` | trade.py:282 | `float(config['trade'][key])` looks the option name up lower-cased, as ConfigParser stores it; it fails with the name as asked for when the option is missing, fails when the value is not a number, and otherwise gives the parsed value |
| `Trade.ReadFloatIgnoresCase` | trade.py:282 | option names that differ only in letter case read the same value |
| `Trade.TpKeyInjective` | trade.py:375-380 | distinct ladder indices name distinct keys |
| `Trade.LadderReadsConsecutiveKeys` | trade.py:371-380 | a successful ladder read holds the rungs at consecutive indices from 1, in order, and stops at the first index without a `_tp_{c}_%` key |
| `Trade.ReadLadder` | trade.py:371-383 | the ladder `while` loop computes the ladder, and its running total is the sum of the shares |
| `Trade.StopAndTargetSides` | trade.py:346-350 | with positive percentages, a long's stop is below the price and its targets above; a short's the other way round |
| `Trade.TakeProfitOrdersShape` | trade.py:385-401 | one take-profit order per rung, in order, on the closing side, for the rung's share of the quantity, based at the price and triggered at the price moved by the rung's percent, rounded to cents |
| `Trade.TakeProfitOrdersSplitPosition` | trade.py:385-401 | the take-profit quantities add up to the ladder's share total times the position |
| `Trade.TakeProfitOrdersCoverPosition` | trade.py:382-401 | a ladder whose shares sum to 100 splits exactly the whole position |
| `TradeRules.ScanFacts` | trade.py:273-286 | the scan's flags are "some entry is open on Buy / Sell", and each value is the last open entry of its side |
| `TradeRules.AgeAndMarketChecksComeFirst` | trade.py:254-260 | an expired message fails with a warning and no request; an unlisted pair fails with severity "high" and no request |
| `TradeRules.AgeSeenModuloDay` | trade.py:254 | only the part of the age below one day is compared, so a message any number of whole days older than an admissible age is admitted too |
| `TradeRules.UnknownCommandRejected` | trade.py:908-909 | a command that matches none of the ten, after lower-casing, fails with a warning and no request |
| `TradeRules.EnterRefusedWhenPositionOpen` | trade.py:278-279 | entering while either side is open fails with a warning and no request |
| `TradeRules.EnterStepSuccess` | trade.py:262-403 | an enter step succeeds only when every guard passes; it states the requests sent |
| `TradeRules.EnterSuccess` | trade.py:262-549 | a successful entry means: the message was admitted and no position was open; the order-time budget was kept; and the requests were margin mode, leverage, a market order of the computed quantity with its stop-loss, then one take-profit order per rung |
| `TradeRules.EnterAccepted` | trade.py:262-403 | the converse: an admitted enter command succeeds exactly when the response has two entries, neither side is open and every guard passes (settings read, both exchange replies tolerated, nonzero price, order-time budget kept, a configured stop reads, the ladder reads and is empty or sums to 100); it then sends exactly margin mode, leverage, the market order with its optional rounded stop, and the take-profit ladder; with no take-profit key configured it succeeds with those first three requests only |
| `TradeRules.BadLadderFailsAfterEntryOrder` | trade.py:382-383 | a ladder whose shares do not sum to 100 never lets an entry succeed; no take-profit order is sent, and if the market order was sent it is the last request and the record fails with severity "high" |
| `TradeRules.ExitRules` | trade.py:551-620 | an exit refuses when the opposite side is open; it cancels the conditional orders and closes the last open entry of its own side with that entry's size, logged as a success exactly when the order status is "Created" and left pending otherwise; it fails with a warning when neither side is open |
| `TradeRules.MalformedResponseFails` | trade.py:270-271 | a positions response whose length is not two fails an enter, exit or take-profit-1 with severity "high" and no request |
| `TradeRules.TakeProfit1Rule` | trade.py:622-697 | the first variant: a response whose length is not two fails "high"; the opposite side open, or no position, fails with a warning; with its own side open, a zero entry price fails on the division, and otherwise the last open entry is closed exactly when the PnL in the trade's direction is positive (a success exactly on "Created") and a warning is logged otherwise |
| `TradeRules.TakeProfit2Rule` | trade.py:699-787 | the second variant, once the percent reads: the same malformed-response, wrong-side, no-position and zero-entry failures as the first; otherwise the last open entry is closed exactly when the raw PnL, not negated for a short, reaches the percent, and a warning is logged otherwise |
| `TradeRules.BadPercentFails` | trade.py:702-705 | a percent that is not a number once its last character is dropped fails variants 2 and 3 with Python's float error and no request |
| `TradeRules.TakeProfit3Rule` | trade.py:789-907 | the third variant: a malformed or two-sided response fails on the unpacking; no position of its own side fails with a warning; with its own side open, a zero entry price fails on the division, a PnL at or above the percent closes the entry with the side of the response's last entry (a success exactly on "Created"), and a PnL below it sends one market order on the closing side, not reduce-only, of the entry-sized quantity, or fails "high" when a setting does not read or the price is zero |
| `TradeRules.ReEnterSizedLikeEntry` | trade.py:810-843 | whenever an entry on the same settings and readings succeeds, the re-entry succeeds with exactly one market order, not reduce-only and without a stop, whose quantity is the entry order's |
| `TradeRules.LastOpenUnique` | trade.py:124-143 | "the last open entry of a side" names one index |
| `Worker.AfterOutcome` | trade.py:34-49 | a step leaves the record pending, logs success, or logs an error with its stored severity |
| `Worker.RecordLeavesPending` | trade.py:242-915 | a processed pending record stays pending exactly when the step left it so |
| `Worker.ProcessMessage` | trade.py:242-915 | the loop body sends exactly the decision's requests and leaves the record in the decision's state |
| `Worker.TimingOverrides` | trade.py:224-229 | each limit is 90 or 60 seconds when its option is absent and the value read by `int()` when present, independently of the other limit and of other options; the limits exist exactly when every present limit reads as an integer (otherwise the worker dies) |
| `Worker.PendingFor` | trade.py:231 | the bot's pending records, every one of them and nothing else |
| `Worker.PendingForDistinct` | trade.py:231 | a query over distinct records returns distinct records |
| `Worker.Insert` | trade.py:231 | inserting adds exactly that record |
| `Worker.SortByTime` | trade.py:231 | `order_by('+timestamp')` permutes its input |
| `Worker.InsertSorted` | trade.py:231 | inserting into a sorted batch keeps it sorted |
| `Worker.SortByTimeSorted` | trade.py:231 | the sorted batch is in timestamp order and is a permutation of its input |
| `Worker.PermutationDistinct` | trade.py:231 | reordering keeps a sequence free of repeats |
| `Worker.Batch` | trade.py:231 | every record of the batch is in the store |
| `Worker.BatchFacts` | trade.py:231 | the batch is distinct, in timestamp order, and holds exactly the bot's pending records |
| `Worker.ProcessBatch` | trade.py:242-915 | every record of the batch is handled once, in order, against its own exchange readings |
| `Worker.RunWorker` | trade.py:160-919 | the main block: without exactly one key row it exits with no request; a bad timing value crashes with no request and keeps the lock; otherwise every pending record is handled in timestamp order and the bot's lock is released |
| `Worker.DoWithRetry` | trade.py:63-78 | the action is called until it succeeds, at most three times; the last error is raised exactly when all three attempts fail |
| `StopLoss.IdenMatchesKey` | sl-adjuster.py:194 | two rows share `f"{bot_id}_{pair}"` exactly when they name the same bot and pair |
| `StopLoss.IdenInjective` | sl-adjuster.py:194 | distinct (bot, pair) rows have distinct keys |
| `StopLoss.IntStrInjective` | sl-adjuster.py:194 | `str` is injective on integers |
| `StopLoss.FirstGap` | sl-adjuster.py:213-217 | the index of the first tier with an empty cell: every tier before it is filled |
| `StopLoss.LastMatchSpec` | sl-adjuster.py:218-221 | the chosen tier is the last one whose `a` the PnL strictly exceeds |
| `StopLoss.SelectTierSpec` | sl-adjuster.py:212-221 | no tier is chosen exactly when no filled tier before the first gap has an `a` below the PnL; otherwise it is the last such tier |
| `StopLoss.ScanTiers` | sl-adjuster.py:209-221 | the tier `while` loop computes that selection |
| `StopLoss.EvaluateSpec` | sl-adjuster.py:204-242 | over the raw tier cells: a zero entry price kills the thread; a PnL exceeding no tier before the first empty cell sends nothing; with the last exceeded tier, a request is sent exactly when its stop tightens the current one (or none is set), at that stop rounded to the cent and on the position's side; every request comes from such a tier |
| `StopLoss.StopNeverLoosens` | sl-adjuster.py:229-242 | a whole-cent stop is never loosened: it only rises for a long and only falls for a short, even after rounding to cents |
| `StopLoss.DecideRow` | sl-adjuster.py:204-242 | the per-row body computes that decision |
| `StopLoss.FoundKeysMembers` | sl-adjuster.py:198-201 | a key was found in a pass exactly when some row with that key had its position found |
| `StopLoss.MissingKeysMembers` | sl-adjuster.py:263-308 | a key went missing in a pass exactly when some row with that key had no position |
| `StopLoss.SlowPassFastTracks` | sl-adjuster.py:189-247 | a slow pass only adds to the fast track, and only keys whose position was found; a pass that does not crash adds all of them; requests are only appended |
| `StopLoss.FastPassReleases` | sl-adjuster.py:250-310 | a fast pass only removes from the fast track, and only keys whose position was missing; a pass that does not crash removes all of them; requests are only appended |
| `StopLoss.SlowCrashSticks` | sl-adjuster.py:204-206 | once the slow thread has died, later rows change nothing |
| `StopLoss.FastCrashSticks` | sl-adjuster.py:263-265 | once the fast thread has died, later rows change nothing |
| `StopLoss.Controller.constructor` | sl-adjuster.py:33 | an empty fast track and no requests sent |
| `StopLoss.Controller.SlowRow` | sl-adjuster.py:191-245 | one row of the slow loop updates the shared state as the step function does |
| `StopLoss.Controller.FastRow` | sl-adjuster.py:253-308 | one row of the fast loop updates the shared state as the step function does |
| `StopLoss.Controller.SlowPass` | sl-adjuster.py:189-247 | one sweep of the slow loop leaves the shared state of the row-by-row specification |
| `StopLoss.Controller.FastPass` | sl-adjuster.py:250-310 | one sweep of the fast loop leaves the shared state of the row-by-row specification |
| `QueueService.PendingIds` | queue_service.py:34 | exactly the bot ids that have a pending record |
| `QueueService.Dedup` | queue_service.py:34 | `distinct`: no repeats, same members |
| `QueueService.PendingBots` | queue_service.py:34 | every bot with a pending record, once |
| `QueueService.LaunchesSpec` | queue_service.py:34-47 | a tick launches a bot exactly when it read the bot and the bot held no lock, and never launches the same bot twice |
| `QueueService.LaunchesFilter` | queue_service.py:34-47 | with distinct ids, the launches are the unlocked ids in the order they were read |
| `QueueService.Tick` | queue_service.py:34-47 | one tick locks every id it read, and launches those that held no lock |
| `QueueService.LaunchPlanSpec` | queue_service.py:33-49 | the plan has one entry per tick: that tick's launches |
| `QueueService.ServiceMain` | queue_service.py:30-53 | sweeps at start and end; at each tick it launches the read bots that held no lock once released locks are dropped; no lock remains at the end |
| `QueueService.RunLaunches` | queue_service.py:33-49 | over a run, each tick launches exactly the read bots without a lock, each at most once |
| `QueueService.LockedUntilReleased` | queue_service.py:33-49 | a bot read on one tick is not launched again until a worker releases its lock |
| `Webhook.SplitCount` | webhook.py:43 | a split gives one more piece than there are separators |
| `Webhook.ParseAccepts` | webhook.py:43-58 | a signal is refused exactly when it has fewer than two underscores; an accepted signal names at least one bot |
| `Webhook.ParseFormat` | webhook.py:43-48 | a well-formed signal reads back exactly as it was written |
| `Webhook.FormatParse` | webhook.py:43-48 | a payload with exactly three underscores is the format of what it parses to |
| `Webhook.ExtraFieldsIgnored` | webhook.py:43-48 | fields after the fourth are ignored |
| `Webhook.HandleWebhook` | webhook.py:34-58 | no `command` field gives 500; a refused signal gives 400 and saves nothing; otherwise 200, and one new pending record per bot id, in order, with the signal's pair, command and percent ("none" when absent) |

## Left out

- Exchange, database and clock access (ccxt, MongoEngine, `datetime.utcnow`) are inputs or outputs of the model, as described above.
- Network setup is left out: credentials, proxy, sandbox mode, `load_markets`, and the Flask/waitress server.
- Processes, threads and signals are left out: `subprocess.Popen`, the adjuster's two threads, `exit_event`, `service_quit`, and the 2-second and loop delays. A run is a finite sequence of ticks or passes, and each pass runs on its own.
- The queue service's view of the database is an input. `snapshots[t]` is the distinct-id query's result at tick `t`, and `released[t]` is the locks deleted by workers before it.
- Three worker crashes are not modelled: `int(bot_id)` on a non-numeric bot id (trade.py:183), a missing `[main]` section in the master settings (trade.py:219), and a failing `load_markets` (trade.py:240). Each would leave the bot's lock in place until the next sweep. The crash on a bad timing value is modelled (`Worker.RunWorker`).
- Console output (`print`, `cprint`, colours) and the success text of `log_success` are left out. The code does not store that text.
- `Trade.ReadFloat` and `Text.ParseDecimal` accept plain decimal literals only. Exponents, `inf`, `nan`, underscores and surrounding whitespace are left out.
- `Trade.ReadFloat`: a bot file without a `[trade]` section is not modelled. In the code every read then raises `KeyError('trade')` and the message fails with the text "trade"; the model takes the section as present, possibly empty, and reports the option name.
- `Positions.Round2` rounds half up on exact reals. Python rounds binary floats to the nearest even value, and the model does no floating-point arithmetic at all.
- The ladder check `total_percentage != 100` is exact equality on reals, not on binary floats.
- `Text.Lower` and `Text.Upper` fold ASCII letters only.
- `Trade.FloatErrorText` always quotes the bad value with single quotes. Python's `repr` switches to double quotes when the value itself contains a single quote.
- `Text.ParseInt` rejects underscores between digits, which `int()` accepts (`"9_0"` reads as 90).
- When two records have the same timestamp, MongoDB's order is not specified. The model keeps them in store order.
- Where the code reads the last price more than once for one message, the model uses a single reading.
- Exchange errors are modelled only for the margin-mode and leverage requests, where the code tolerates one error code each. A failing balance, price, order or cancel request is left out; the code would fail the message with severity "high".
- The webhook's bare `except` also catches a failed save with four fields and saves the records again without the percent. The model takes saves as always succeeding. It also leaves out the UTF-8 encode/decode round trip and the `GET` route.
- `set_sl` failures are only printed. The model records the request, not its result.
- Tier columns are modelled as a sequence. The code reads columns `{c}a`/`{c}b` for `c = 1, 2, ...` until one is missing; its test `f"{c}b"` is always true, so only `{c}a` is checked. When `{c}a` exists but `{c}b` does not, the code raises `KeyError` at `row[f"{c}b"]` (sl-adjuster.py:215, 274) and the loop thread dies; the model's `Tier(a, None)` instead ends the scan like an empty cell.
- `release_lock` is awaited inside the worker. Interleaving between that release and a queue-service tick is captured only through `released`.
