# Bybit/OKX spread monitor — a Dafny model of its core

The monitor polls two cryptocurrency exchanges, Bybit and OKX, for perpetual-swap
prices and funding rates. It computes two cross-exchange spreads:

- the price spread, `max/min − 1`, in percent;
- the funding spread, a signed difference of the two funding rates.

Two loops use these spreads:

- a live loop that tracks one pair every second;
- a sweep that stores every common pair in an SQLite table once a minute.

The table is then ranked for the pair list and read back for display.

This project models that core as pure functions over exact `real`s,
`int` seconds, maps and sequences:

| file | module | models |
|---|---|---|
| `wrappers.dfy` | `Wrappers` | `Option`, standing for Python's `None` |
| `text.dfy` | `Text` | `str.endswith`, `s[:-n]`, `str.replace(pat, '')`, `f"{n:02d}"` and reading digits back |
| `clock.dfy` | `Clock` | the clamp of remaining time at 0, the `divmod` split into hours/minutes/seconds, the `HH:MM:SS` text, `format_time` |
| `exchanges.dfy` | `Exchanges` | `get_bybit_data` and `get_okx_data` as functions from decoded replies to `Option<Record>` |
| `spread.dfy` | `Spread` | `calculate_spread` |
| `live.dfy` | `Live` | one tick of the live loop: merge with the last-known-good records, recompute, timestamp |
| `sweep.dfy` | `Sweep` | `fetch_bybit_data`, `fetch_okx_data` and `update_database`, with the table as `map<string, Row>` |
| `store.dfy` | `Store` | `get_sorted_pairs`, the pair/key mapping, the row projection, `set_pair`/`start`/`stop`, the commit guard and `get_data` |

A reply that did not arrive is an input, not an action. Each exchange reply is a
decoded ticker list, or `None` when the request failed. The wall clock is a
parameter: `now` (epoch seconds) or `clock` (the `%H:%M:%S` text).

## Where the code works against its own evident intent

In each of these places the program itself shows what it means to do, and the code does something else. The
model follows the code, and a lemma states what actually happens:

- **Zero price.** `calculate_spread` answers data it cannot use with an all-zero result
  (calculate_spread.py:54-57). The start state uses price 0 as the placeholder for "no data yet"
  (calculate_spread.py:16-17). Yet the function divides by the lower price without a guard
  (calculate_spread.py:44). So the first live tick on which only one fetch succeeds raises, which keeps the
  spreads at 0 and the timestamp at "N/A" (`Live.FirstTickWithOneFailureRaises`, `Spread.ZeroPriceRaises`).
  In the sweep, one common pair priced at 0 aborts the whole transaction (`Sweep.ZeroPriceAbortsSweep`).
- **Two funding-sign conventions.** The live view subtracts the lower-priced exchange's funding from the
  higher-priced one's (calculate_spread.py:46-48). The sweep always stores Bybit − OKX (maker_lists.py:68).
  The two disagree in sign whenever OKX is higher and the rates differ (`Sweep.FundingConventionsDisagree`).
- **Sweep keys.** The reader strips "USDT" from the pair name before the lookup (data_handler.py:41), and it
  appends "USDT" to every stored key it lists (data_handler.py:37). Both show that the stored key is meant
  to be the coin without its quote suffix. Bybit keys keep "USDT" (maker_lists.py:12), while OKX keys lose
  "-USDT-SWAP" (maker_lists.py:30). So "BTCUSDT" and "BTC-USDT-SWAP" never meet in the intersection
  (`Sweep.SameCoinGetsDifferentKeys`, `Sweep.BtcIsNeverSwept`), and every common key ends in "USDT"
  (`Sweep.CommonKeysEndInUsdt`).
- **Reading keys back.** The display name appends "USDT" and the lookup deletes every "USDT". That round trip
  holds only for keys without "USDT" (`Store.LookupKeyOfDisplayName`). For the keys the sweep writes, it fails
  (`Store.LookupKeyOfSweptKey`).
- **Stale results.** The re-check of `active_pair == selected_pair` just before the commit
  (data_handler.py:51) shows that a result for an abandoned pair is not meant to overwrite the new pair's
  state. That guard compares only the shared fields, not the task's own `pair_clean`. Once the new task has
  begun, an old task holding the old key still commits (`Store.StaleTaskCommitsAfterBegin`).

## Other behaviour shown by lemmas

These follow the code and contradict nothing the program shows; they are stated because a reader might
expect otherwise:

- **Relabelling.** Swapping the two exchanges' records does not negate the live funding spread. Only an
  exact price tie depends on the argument order (`Spread.CalculateSpreadRelabel`). The sign flips when the
  other exchange becomes the higher-priced one (`Spread.FundingFlipsWithHigherPricedSide`).
- **`updated_at`.** It comes from the database clock. It never decreases only if that clock does not run
  backwards (`Sweep.UpdatedAtNeverDecreases`).

## Model

| member | source | states |
|---|---|---|
| Text.DropLast | calculate_spread.py:62 | for n > 0, `s[:-n]` has length max(0, len − n) and is a prefix of s |
| Text.RemoveAll | data_handler.py:41 | `replace(pat, '')` leaves a string without pat unchanged, and shortens one containing pat by at least len(pat) |
| Text.Pad2 | data_handler.py:22 | `:02d` yields only digits, at least two of them, exactly two below 100 |
| Clock.Split | data_handler.py:20-21 | the `divmod` split gives h·3600 + m·60 + s = r with m < 60 and s < 60 |
| Clock.SplitUnique | okx_data.py:25-26 | any h, m, s with m, s < 60 and h·3600 + m·60 + s = r is that split |
| Clock.BybitSplit | bybit_data.py:17-18 | Bybit's `divmod(r // 60, 60)` and `r % 60` give minutes and seconds below 60 |
| Clock.BybitSplitAgrees | bybit_data.py:17-18 | Bybit's split equals the one of `format_time` and of the OKX client |
| Clock.Remaining | data_handler.py:19-20 | remaining whole seconds are 0 for a past time, else the floor of the gap |
| Clock.Format | data_handler.py:22 | the text has at least 8 characters, and exactly the `HH:MM:SS` layout with colons at positions 2 and 5 when every field is below 100 |
| Clock.ParseFormat | data_handler.py:22 | the `HH:MM:SS` text reads back as the same h, m, s when m, s < 60 |
| Clock.FormatTime | data_handler.py:18-22 | a timestamp at or before now gives "00:00:00"; the text reads back as the split of the clamped, floored remaining seconds |
| Clock.FormatTimeDecomposes | data_handler.py:18-22 | read back, the text gives h·3600 + m·60 + s = ⌊max(0, t − now)⌋ with m, s < 60 |
| Exchanges.First | bybit_data.py:12 | `list[0]` exists exactly when the reply arrived with a non-empty list |
| Exchanges.BybitRecord | bybit_data.py:4-27 | a record exists iff the first ticker has price, rate and time; price = lastPrice, funding = rate × 100, time text = `format_time` of ms / 1000 |
| Exchanges.OkxRecord | okx_data.py:5-35 | a record exists iff all three replies carry their field; price from the ticker, funding = newest history rate × 100, time from the funding-rate reply |
| Exchanges.ClientRecordsAreWellShaped | okx_data.py:24-32 | both clients give a numeric price and a time text reading back as the clamped remaining seconds |
| Exchanges.PastFundingTimeShowsZero | bybit_data.py:14-18 | a funding time already past shows "00:00:00" on both exchanges |
| Spread.CalculateSpread | calculate_spread.py:38-57 | non-numeric price → (0, 0); a zero lower price raises; funding = higher-priced side − other, Bybit − OKX on a tie; positive prices give a spread ≥ 0 that is 0 iff equal |
| Spread.PriceSpreadSign | calculate_spread.py:42-44 | for positive prices the price spread is ≥ 0 and is 0 exactly when the prices are equal |
| Spread.PriceSpreadIsRelativeGap | calculate_spread.py:42-44 | for positive prices the spread is the gap between them over the lower price, × 100 |
| Spread.PriceSpreadSymmetric | calculate_spread.py:42-44 | swapping the prices leaves the price spread unchanged |
| Spread.CalculateSpreadRelabel | calculate_spread.py:40-57 | relabelling the exchanges keeps the outcome and price spread; funding is unchanged unless prices tie, then negated |
| Spread.FundingFlipsWithHigherPricedSide | calculate_spread.py:46-48 | when the other exchange becomes the higher-priced one, the funding spread changes sign |
| Spread.WorkedExample | calculate_spread.py:38-53 | Bybit 65000 / 0.01, OKX 65100 / −0.02 give price spread 2/13 and funding −0.03 |
| Spread.ZeroPriceRaises | calculate_spread.py:40-44 | a numeric price of 0 beside a non-negative one raises, while a non-numeric price gives (0, 0) |
| Live.OkxSymbol | calculate_spread.py:62 | the OKX id ends in "-USDT-SWAP", and what precedes it is the pair's prefix of length max(0, len − 4) |
| Live.OkxSymbolOfUsdtPair | calculate_spread.py:62 | "<base>USDT" becomes "<base>-USDT-SWAP" |
| Live.Tick | calculate_spread.py:66-83 | a fetch that raised or returned None keeps the old record, a returned record replaces it; a raising calculation keeps spreads and timestamp, otherwise spreads match the records and timestamp = clock |
| Live.ClientFailureKeepsRecord | calculate_spread.py:67-76 | with the real clients, a None result keeps that exchange's record and a record replaces it wholesale |
| Live.PositiveTickPublishes | calculate_spread.py:73-79 | once both prices are positive, every tick publishes spreads consistent with the records and refreshes the timestamp |
| Live.BothFailedRefreshesTimestampOnly | calculate_spread.py:73-79 | when both fetches fail on a consistent state, only the timestamp changes |
| Live.OneExchangeFails | calculate_spread.py:73-79 | one failed exchange keeps its values; spreads are recomputed from the stale and the new record and the timestamp advances |
| Live.FirstTickWithOneFailureRaises | calculate_spread.py:73-83 | from the start state, one failed fetch makes line 78 raise: the new record is kept, spreads stay 0 and the timestamp "N/A" |
| Sweep.QuoteOf | maker_lists.py:13-15 | a quote exists iff price, rate and time are present; funding = rate × 100, next funding = ms / 1000 |
| Sweep.Tabulate | maker_lists.py:11-19 | the comprehension raises iff some entry lacks its id, or passes the filter and lacks a field |
| Sweep.TabulateKeys | maker_lists.py:11-19 | when it does not raise, the map's keys are exactly the keys of the entries the filter keeps |
| Sweep.LastIndex | maker_lists.py:11-19 | finds the last entry kept under a key: it is kept under that key and no later entry is |
| Sweep.TabulateLastWins | maker_lists.py:11-19 | every key has a last kept entry, and the map holds that entry's quote |
| Sweep.Fetch | maker_lists.py:6-40 | a failed request or a raising comprehension gives the empty map; every key comes from a selected entry |
| Sweep.BybitKeys | maker_lists.py:11-19 | the Bybit keys are exactly the listed symbols ending in "USDT", unchanged, each holding one of its entries' quotes |
| Sweep.OkxKeys | maker_lists.py:29-37 | the OKX keys are the ids ending in "-USDT-SWAP" with that text deleted; "<base>-USDT-SWAP" gives base |
| Sweep.CommonPairs | maker_lists.py:49 | a pair is common iff both maps hold it |
| Sweep.NewRow | maker_lists.py:65-80 | the row's funding spread is Bybit − OKX; its price spread is symmetric in the prices and ≥ 0 for positive prices |
| Sweep.Sweep | maker_lists.py:51-82 | the transaction fails iff a common pair has a zero lower price; otherwise keys = old ∪ common, common pairs get this cycle's row, all other rows unchanged |
| Sweep.UpdateDatabase | maker_lists.py:64-80 | the row-by-row write loop yields exactly that transaction's result |
| Sweep.Cycle | maker_lists.py:85-92 | a failed transaction leaves the table as it was; no row is deleted, and rows of pairs not on both exchanges are unchanged |
| Sweep.NoCommonPairWritesNothing | maker_lists.py:49-64 | with no pair on both exchanges, the transaction succeeds and leaves the table as it was |
| Sweep.FailedFetchWritesNothing | maker_lists.py:20-64 | if either bulk fetch gives `{}`, whether the request failed or the comprehension raised, the table is unchanged |
| Sweep.CycleKeepsRows | maker_lists.py:64-80 | no row is ever deleted; new rows appear only for pairs present on both exchanges |
| Sweep.SweepIdempotent | maker_lists.py:70-71 | running the same `INSERT OR REPLACE` transaction twice equals running it once |
| Sweep.UpdatedAtNeverDecreases | maker_lists.py:61-71 | with a clock not running backwards, no pair's `updated_at` decreases |
| Sweep.FundingConventionsDisagree | maker_lists.py:68 | the stored funding spread is the live one negated when OKX is higher, equal otherwise, and differs when OKX is higher and the rates differ |
| Sweep.SameCoinGetsDifferentKeys | maker_lists.py:30 | "<base>USDT" and "<base>-USDT-SWAP" get the different keys "<base>USDT" and "<base>" |
| Sweep.CommonKeysEndInUsdt | maker_lists.py:49 | every key in the intersection ends in "USDT" |
| Sweep.BtcIsNeverSwept | maker_lists.py:49 | BTCUSDT on Bybit and BTC-USDT-SWAP on OKX leave the table unchanged |
| Sweep.ZeroPriceAbortsSweep | maker_lists.py:65-67 | a common pair priced 0 on Bybit aborts the transaction |
| Store.Qualifying | data_handler.py:26-33 | the pairs the WHERE clause keeps (price spread ≥ 0.1, or funding spread magnitude ≥ 0.05) are rows of the table |
| Store.PickBest | data_handler.py:29 | picks a key of the pool whose score no other key exceeds |
| Store.RankPairs | data_handler.py:26-33 | distinct qualifying keys, non-increasing score, min(50, qualifying) of them, no left-out key scoring higher |
| Store.GetSortedPairs | data_handler.py:24-37 | 1 to 50 names; `['BTCUSDT']` when none qualify; otherwise the names are a ranking's keys + "USDT": distinct qualifying keys, non-increasing score, min(50, qualifying) of them, none left out scoring higher |
| Store.LookupKey | data_handler.py:41 | `pair_clean` is the pair itself when it holds no "USDT", and at least 4 characters shorter otherwise |
| Store.LookupKeyOfDisplayName | data_handler.py:37-41 | for a key without "USDT", looking up its display name gives the key back |
| Store.LookupKeyOfSweptKey | data_handler.py:37-41 | for a stored key "<base>USDT", looking up its display name gives "<base>", not the key |
| Store.SelectStar | maker_lists.py:53-61 | a fetched row has the table's eight columns |
| Store.ProjectionFollowsSchema | data_handler.py:52-68 | columns 1 to 6 land in Bybit price, OKX price, Bybit funding, OKX funding and the two spreads; next funding is 0 |
| Store.NothingRunsBeforeFirstTask | data_handler.py:13-16 | in the start state no pair is active, so the loop condition fails and a poll changes nothing |
| Store.Stop | data_handler.py:82-83 | the stop event is set and nothing else changes |
| Store.Start | data_handler.py:78-80 | the stop event is cleared and nothing else changes |
| Store.SetPair | data_handler.py:88-91 | afterwards the pair is selected and the stop event is clear; active pair and snapshot are untouched |
| Store.Begin | data_handler.py:40-41 | a task marks the selected pair active and fixes its lookup key |
| Store.Poll | data_handler.py:44-71 | the snapshot changes only if the row exists and active == selected, and then it is the row's projection |
| Store.SwitchBlocksCommits | data_handler.py:43-51 | after `set_pair` to a new pair and before the new task begins, no loop runs and no task commits |
| Store.StaleTaskCommitsAfterBegin | data_handler.py:39-51 | once the new task has begun, a task holding an old key still passes the guard and commits that key's row |
| Store.FreshTaskCommitsSelectedPair | data_handler.py:39-68 | a new task runs and commits the selected pair's row if present, else changes nothing |
| Store.GetData | data_handler.py:93-100 | returns the current snapshot with "00:00:00" as both times for any clock at or after the epoch |

## Left out

- The tkinter window (fronted_module.py, calculate_spread.py:87-191): presentation only, including `update_ui`, `on_pair_selected`, `AVAILABLE_PAIRS` and `set_callback`.
- HTTP sessions, URLs, timeouts and JSON decoding: each reply is an already-decoded list or `None`. A missing list key and a failed request both become `None`, since both give `{}` in the sweep and `None` in the single fetch.
- `float(...)` and `int(...)` parsing: a field that is missing or does not parse is `None`.
- asyncio and threads: `gather`, task scheduling and cancellation, the 1 s, 60 s and 10 s sleeps. Ticks are sequential state transitions, and `start` does not run its task; the task's first lines are `Store.Begin`.
- SQLite itself (connections, `CREATE TABLE`, commit, rollback): the table is a map, and a failed transaction returns the table unchanged.
- `datetime.now()` and `time.time()`: passed in as `now` or `clock`. `updated_at` is the integer `now` of the cycle.
- Printing and logging.
- The shallow copy in `get_data` and the branch adding a missing `timestamp` (the snapshot always has one).
- Spread.CalculateSpread: computes over exact reals and does not model `round(x, 4)` and `round(x, 6)`, or floating-point rounding in general.
- Sweep.NewRow: stores the unrounded spreads, so the ranking thresholds of `Store.RankPairs` compare unrounded values.
