/** The reading side of data_handler.py: the ranked pair lists, the mapping
    between pair names and stored keys, the projection of a row into the
    displayed snapshot, and the selection state that guards each commit.
    The SQLite queries are modelled on the table map of module Sweep. */
module Store {
  import opened Wrappers
  import opened Text
  import opened Clock
  import opened Spread
  import opened Sweep

  // ---------------------------------------------------------------------
  // Ranking (data_handler.py:24-37)

  datatype SortKey = ByPrice | ByFunding

  /** `sort_by == 'price'` chooses the price ranking; any other value the
      funding ranking. */
  function SortKeyOf(sortBy: string): SortKey {
    if sortBy == "price" then ByPrice else ByFunding
  }

  function Abs(x: real): real {
    if x < 0.0 then -x else x
  }

  /** The column each ranking orders by: `price_spread`, or
      `abs(funding_spread)`. */
  function Score(table: Table, order: SortKey, k: string): real
    requires k in table
  {
    match order
    case ByPrice => table[k].priceSpread
    case ByFunding => Abs(table[k].fundingSpread)
  }

  /** The WHERE bound of each query. */
  function Threshold(order: SortKey): real {
    match order
    case ByPrice => 0.1
    case ByFunding => 0.05
  }

  /** The LIMIT of each query. */
  const Limit: nat := 50

  /** The rows that pass the WHERE clause. */
  function Qualifying(table: Table, order: SortKey): (r: set<string>)
    ensures r <= table.Keys
  {
    set k | k in table && Score(table, order, k) >= Threshold(order)
  }

  /** What `ORDER BY ... DESC LIMIT 50` may return: distinct qualifying
      keys, in non-increasing order of the score, as many as the limit
      allows, and no left-out qualifying key scores above a returned one.
      SQL leaves the order of equal scores open, and so does this. */
  ghost predicate IsRanking(table: Table, order: SortKey, ks: seq<string>) {
    && |ks| == (if |Qualifying(table, order)| < Limit then |Qualifying(table, order)| else Limit)
    && (forall i :: 0 <= i < |ks| ==> ks[i] in Qualifying(table, order))
    && (forall i, j :: 0 <= i < j < |ks| ==> ks[i] != ks[j])
    && (forall i, j :: 0 <= i < j < |ks| ==> Score(table, order, ks[i]) >= Score(table, order, ks[j]))
    && (forall k, i :: k in Qualifying(table, order) && k !in ks && 0 <= i < |ks| ==>
          Score(table, order, k) <= Score(table, order, ks[i]))
  }

  /** A key of the pool with the highest score. */
  method PickBest(table: Table, order: SortKey, pool: set<string>) returns (best: string)
    requires pool != {} && pool <= table.Keys
    ensures best in pool
    ensures forall k :: k in pool ==> Score(table, order, k) <= Score(table, order, best)
  {
    best :| best in pool;
    var rest := pool - {best};
    while rest != {}
      invariant rest <= pool && best in pool
      invariant forall k :: k in pool && k !in rest ==> Score(table, order, k) <= Score(table, order, best)
      decreases rest
    {
      var k :| k in rest;
      if Score(table, order, k) > Score(table, order, best) {
        best := k;
      }
      rest := rest - {k};
    }
  }

  /** The SELECT of `get_sorted_pairs`: the stored keys of the ranking. */
  method RankPairs(table: Table, order: SortKey) returns (ks: seq<string>)
    ensures IsRanking(table, order, ks)
  {
    var all := Qualifying(table, order);
    var pool := all;
    ks := [];
    while |ks| < Limit && pool != {}
      invariant pool <= all
      invariant forall k :: k in all ==> (k in pool <==> k !in ks)
      invariant forall i :: 0 <= i < |ks| ==> ks[i] in all
      invariant forall i, j :: 0 <= i < j < |ks| ==> ks[i] != ks[j]
      invariant |ks| + |pool| == |all|
      invariant |ks| <= Limit
      invariant forall i, j :: 0 <= i < j < |ks| ==> Score(table, order, ks[i]) >= Score(table, order, ks[j])
      invariant forall k, i :: k in pool && 0 <= i < |ks| ==> Score(table, order, k) <= Score(table, order, ks[i])
      decreases |pool|
    {
      var best := PickBest(table, order, pool);
      ks := ks + [best];
      pool := pool - {best};
    }
  }

  /** `get_sorted_pairs(sort_by)`: each ranked key with "USDT" appended, or
      `['BTCUSDT']` when no row qualifies. The list is never empty. */
  method GetSortedPairs(table: Table, sortBy: string) returns (pairs: seq<string>)
    ensures 1 <= |pairs| <= Limit
    ensures var q := Qualifying(table, SortKeyOf(sortBy));
      q == {} ==> pairs == ["BTCUSDT"]
    ensures var order := SortKeyOf(sortBy); var q := Qualifying(table, order);
      q != {} ==>
        && |pairs| == (if |q| < Limit then |q| else Limit)
        && (forall i :: 0 <= i < |pairs| ==> EndsWith(pairs[i], "USDT") && DropLast(pairs[i], 4) in q)
        && (forall i, j :: 0 <= i < j < |pairs| ==>
              Score(table, order, DropLast(pairs[i], 4)) >= Score(table, order, DropLast(pairs[j], 4)))
    ensures var order := SortKeyOf(sortBy);
      Qualifying(table, order) != {} ==>
        exists ks :: IsRanking(table, order, ks) && |ks| == |pairs| &&
          forall i :: 0 <= i < |ks| ==> pairs[i] == ks[i] + "USDT"
  {
    var order := SortKeyOf(sortBy);
    var ks := RankPairs(table, order);
    if |ks| == 0 {
      pairs := ["BTCUSDT"];
    } else {
      pairs := seq(|ks|, i requires 0 <= i < |ks| => ks[i] + "USDT");
      forall i | 0 <= i < |ks|
        ensures DropLast(pairs[i], 4) == ks[i]
      {
        DropLastOfAppended(ks[i], "USDT");
      }
    }
  }

  // ---------------------------------------------------------------------
  // Pair names and stored keys (data_handler.py:37, 41)

  /** The name shown for a stored key: `f"{pair}USDT"`. */
  function DisplayName(key: string): string {
    key + "USDT"
  }

  /** The key looked up for a pair: `pair.replace('USDT', '')`. */
  function LookupKey(pair: string): (r: string)
    ensures !Occurs(pair, "USDT") ==> r == pair
    ensures Occurs(pair, "USDT") ==> |r| <= |pair| - 4
  {
    RemoveAll(pair, "USDT")
  }

  /** A key that holds no "USDT" survives the trip from display name back
      to lookup key. */
  lemma LookupKeyOfDisplayName(key: string)
    requires !Occurs(key, "USDT")
    ensures LookupKey(DisplayName(key)) == key
  {
    UsdtUnbordered();
    RemoveAppendedPattern(key, "USDT");
  }

  /** The keys the sweep writes end in "USDT" (they are Bybit symbols). For
      such a key the trip fails: "<base>USDT" is shown as "<base>USDTUSDT"
      and looked up as "<base>". */
  lemma LookupKeyOfSweptKey(base: string)
    requires !Occurs(base, "USDT")
    ensures LookupKey(DisplayName(base + "USDT")) == base
    ensures LookupKey(DisplayName(base + "USDT")) != base + "USDT"
  {
    UsdtUnbordered();
    RemoveAllAfterClean(base, "USDT", "USDT");
    assert base + "USDT" + "USDT" == DisplayName(base + "USDT");
    assert RemoveAll("USDT", "USDT") == "";
  }

  // ---------------------------------------------------------------------
  // Row projection (data_handler.py:45-68)

  /** One column value of `SELECT *`. */
  datatype Cell = Str(text: string) | Number(number: real) | Stamp(stamp: int)

  /** The tuple `SELECT * FROM pairs` returns for a row: the columns in the
      order of the CREATE TABLE statement at maker_lists.py:53-61, which is
      also the order of the INSERT's values at maker_lists.py:71-80. */
  function SelectStar(pair: string, row: Row): (cols: seq<Cell>)
    ensures |cols| == 8
  {
    [Str(pair), Number(row.bybitPrice), Number(row.okxPrice), Number(row.bybitFunding),
     Number(row.okxFunding), Number(row.priceSpread), Number(row.fundingSpread), Stamp(row.updatedAt)]
  }

  /** One exchange's part of the displayed snapshot. */
  datatype Side = Side(price: real, funding: real, nextFunding: real)

  /** `self.current_data`. */
  datatype Snapshot = Snapshot(bybit: Side, okx: Side, spreads: Spreads, timestamp: string)

  const EmptySnapshot := Snapshot(Side(0.0, 0.0, 0.0), Side(0.0, 0.0, 0.0), Spreads(0.0, 0.0), "")

  predicate NumbersAt(cols: seq<Cell>) {
    |cols| == 8 && forall i :: 1 <= i <= 6 ==> cols[i].Number?
  }

  /** The snapshot built from a fetched tuple: columns 1 and 3 for Bybit,
      2 and 4 for OKX, 5 and 6 for the spreads, next funding 0. */
  function Project(cols: seq<Cell>, clock: string): Snapshot
    requires NumbersAt(cols)
  {
    Snapshot(
      Side(cols[1].number, cols[3].number, 0.0),
      Side(cols[2].number, cols[4].number, 0.0),
      Spreads(cols[5].number, cols[6].number),
      clock)
  }

  /** The reader's column indices agree with the writer's column order:
      each value lands in the field it was written from. */
  lemma ProjectionFollowsSchema(pair: string, row: Row, clock: string)
    ensures NumbersAt(SelectStar(pair, row))
    ensures Project(SelectStar(pair, row), clock) ==
      Snapshot(Side(row.bybitPrice, row.bybitFunding, 0.0), Side(row.okxPrice, row.okxFunding, 0.0),
               Spreads(row.priceSpread, row.fundingSpread), clock)
  {
  }

  // ---------------------------------------------------------------------
  // Selection state (data_handler.py:13-16, 39-91)

  /** The fields of the handler that the tracking loop reads and writes:
      the selected pair, the pair the latest task started on (`None` before
      any), the stop event, and the snapshot. */
  datatype Handler = Handler(selected: string, active: Option<string>, stopped: bool, current: Snapshot)

  const InitialHandler := Handler("BTCUSDT", None, false, EmptySnapshot)

  /** Until the first task begins no pair is active, so the loop condition
      fails and no poll commits anything. */
  lemma NothingRunsBeforeFirstTask(t: Tracker, table: Table, clock: string)
    ensures !Running(InitialHandler)
    ensures Poll(InitialHandler, t, table, clock) == InitialHandler
  {
  }

  /** One running `update_data` task, known by the key it looks up
      (`pair_clean`, fixed when the task starts). */
  datatype Tracker = Tracker(key: string)

  /** `stop()`: sets the stop event. */
  function Stop(h: Handler): (r: Handler)
    ensures r.stopped
    ensures r.selected == h.selected && r.active == h.active && r.current == h.current
  {
    h.(stopped := true)
  }

  /** `start(loop)`: clears the stop event; the task it schedules starts
      with `Begin`. */
  function Start(h: Handler): (r: Handler)
    ensures !r.stopped
    ensures r.selected == h.selected && r.active == h.active && r.current == h.current
  {
    h.(stopped := false)
  }

  /** `set_pair(pair)`: select the pair, then stop and start again. */
  function SetPair(h: Handler, pair: string): (r: Handler)
    ensures r.selected == pair && !r.stopped
    ensures r.active == h.active && r.current == h.current
  {
    Start(Stop(h.(selected := pair)))
  }

  /** The first lines of a task (data_handler.py:40-41): it marks the
      selected pair active and fixes the key it will look up. */
  function Begin(h: Handler): (r: (Handler, Tracker))
    ensures r.0.active == Some(h.selected) && r.1.key == LookupKey(h.selected)
    ensures r.0.selected == h.selected && r.0.stopped == h.stopped && r.0.current == h.current
  {
    (h.(active := Some(h.selected)), Tracker(LookupKey(h.selected)))
  }

  /** The loop condition at data_handler.py:43. */
  predicate Running(h: Handler) {
    !h.stopped && h.active == Some(h.selected)
  }

  /** One pass of the loop body (data_handler.py:44-76): look the task's key
      up and, when a row exists and the shared fields still agree (line 51),
      replace the snapshot with that row's projection. */
  function Poll(h: Handler, t: Tracker, table: Table, clock: string): (r: Handler)
    ensures r.selected == h.selected && r.active == h.active && r.stopped == h.stopped
    ensures r.current != h.current ==> t.key in table && h.active == Some(h.selected)
    ensures t.key in table && h.active == Some(h.selected) ==>
      var row := table[t.key];
      r.current == Snapshot(Side(row.bybitPrice, row.bybitFunding, 0.0), Side(row.okxPrice, row.okxFunding, 0.0),
                            Spreads(row.priceSpread, row.fundingSpread), clock)
  {
    if t.key in table && h.active == Some(h.selected) then
      ProjectionFollowsSchema(t.key, table[t.key], clock);
      h.(current := Project(SelectStar(t.key, table[t.key]), clock))
    else h
  }

  /** Between `set_pair` and the new task's first lines, the shared fields
      disagree, so no task (stale or new) may commit and every loop stops. */
  lemma SwitchBlocksCommits(h: Handler, pair: string, t: Tracker, table: Table, clock: string)
    requires h.active != Some(pair)
    ensures !Running(SetPair(h, pair))
    ensures Poll(SetPair(h, pair), t, table, clock).current == h.current
  {
  }

  /** The guard compares the shared fields only, not the task's own key:
      once the new task has begun, a task still holding the stale pair's key
      passes line 51 and commits the stale pair's row. */
  lemma StaleTaskCommitsAfterBegin(h: Handler, pair: string, stale: Tracker, table: Table, clock: string)
    requires stale.key in table
    ensures var h2 := Begin(SetPair(h, pair)).0;
      && Running(h2)
      && Poll(h2, stale, table, clock).current ==
           Project(SelectStar(stale.key, table[stale.key]), clock)
  {
  }

  /** A task that starts on the selected pair commits that pair's row on its
      first pass, provided the table holds it. */
  lemma FreshTaskCommitsSelectedPair(h: Handler, pair: string, table: Table, clock: string)
    ensures var (h2, t) := Begin(SetPair(h, pair));
      && t.key == LookupKey(pair)
      && Running(h2)
      && (LookupKey(pair) in table ==> Poll(h2, t, table, clock).current == Project(SelectStar(t.key, table[t.key]), clock))
      && (LookupKey(pair) !in table ==> Poll(h2, t, table, clock) == h2)
  {
  }

  /** What `get_data` hands to the display: the snapshot and a time to the
      next payment for each exchange. */
  datatype View = View(snapshot: Snapshot, bybitTime: string, okxTime: string)

  /** `get_data()`: the snapshot with `format_time(0)` as both times. Given a
      wall clock at or after the epoch, both read "00:00:00". */
  function GetData(h: Handler, now: real): (r: View)
    ensures r.snapshot == h.current
    ensures now >= 0.0 ==> r.bybitTime == "00:00:00" && r.okxTime == "00:00:00"
  {
    View(h.current, FormatTime(0.0, now), FormatTime(0.0, now))
  }
}
