/** The live single-pair loop of calculate_spread.py:59-85: each tick merges
    the two clients' results into the last-known-good records and recomputes
    the spreads. The sleep, the UI callback and the task handling are not
    modelled; one call of `Tick` is one pass of the loop body. */
module Live {
  import opened Wrappers
  import opened Text
  import opened Exchanges
  import opened Spread

  /** `current_data`: both exchanges' records, the spreads and the time of
      the last successful recomputation. */
  datatype LiveState = LiveState(bybit: Record, okx: Record, spreads: Spreads, timestamp: string)

  /** The placeholder record of calculate_spread.py:16-17. */
  const Unset := Record(Num(0.0), 0.0, "N/A")

  const Initial := LiveState(Unset, Unset, Spreads(0.0, 0.0), "N/A")

  /** What `asyncio.gather(..., return_exceptions=True)` hands back for one
      client: an exception object, or the client's return value. */
  datatype Gathered = Raised | Returned(result: Option<Record>)

  /** The OKX instrument id for the selected pair: `f"{pair[:-4]}-USDT-SWAP"`. */
  function OkxSymbol(pair: string): (r: string)
    ensures EndsWith(r, "-USDT-SWAP")
    ensures |r| == (if 4 <= |pair| then |pair| - 4 else 0) + 10
    ensures r[..|r| - 10] <= pair
  {
    DropLast(pair, 4) + "-USDT-SWAP"
  }

  /** A Bybit pair name "<base>USDT" becomes the OKX id "<base>-USDT-SWAP". */
  lemma OkxSymbolOfUsdtPair(base: string)
    ensures OkxSymbol(base + "USDT") == base + "-USDT-SWAP"
  {
    DropLastOfAppended(base, "USDT");
  }

  /** Lines 73-76: keep the previous record unless the fetch returned one. */
  function Merge(previous: Record, fetched: Gathered): Record {
    if fetched.Returned? && fetched.result.Some? then fetched.result.value else previous
  }

  /** One pass of the loop body (lines 66-83). Lines 74 and 76 store the
      fetched records before line 78 computes the spreads; when that raises,
      the handler at line 82 skips line 79, so the new records stay while the
      spreads and the timestamp keep their old values. */
  function Tick(st: LiveState, bybit: Gathered, okx: Gathered, clock: string): (r: LiveState)
    ensures bybit.Returned? && bybit.result.Some? ==> r.bybit == bybit.result.value
    ensures !(bybit.Returned? && bybit.result.Some?) ==> r.bybit == st.bybit
    ensures okx.Returned? && okx.result.Some? ==> r.okx == okx.result.value
    ensures !(okx.Returned? && okx.result.Some?) ==> r.okx == st.okx
    ensures CalculateSpread(r.bybit, r.okx).DivisionByZero? ==>
      r.spreads == st.spreads && r.timestamp == st.timestamp
    ensures CalculateSpread(r.bybit, r.okx).Computed? ==>
      Consistent(r) && r.timestamp == clock
  {
    var b := Merge(st.bybit, bybit);
    var o := Merge(st.okx, okx);
    match CalculateSpread(b, o)
    case Computed(sp) => LiveState(b, o, sp, clock)
    case DivisionByZero => st.(bybit := b, okx := o)
  }

  /** The published spreads are the ones the stored records give. */
  predicate Consistent(st: LiveState) {
    CalculateSpread(st.bybit, st.okx) == Computed(st.spreads)
  }

  /** A tick driven by the two clients (which never raise: they return None
      on every failure) for the replies of this second. */
  function ClientTick(st: LiveState, bybitReply: Reply, okxTicker: Reply, okxHistory: Reply,
                      okxNext: Reply, now: real, clock: string): LiveState
  {
    Tick(st, Returned(BybitRecord(bybitReply, now)), Returned(OkxRecord(okxTicker, okxHistory, okxNext, now)), clock)
  }

  /** A failed client call leaves that exchange's record as it was, while a
      successful one replaces the record wholesale. */
  lemma ClientFailureKeepsRecord(st: LiveState, bybitReply: Reply, okxTicker: Reply, okxHistory: Reply,
                                 okxNext: Reply, now: real, clock: string)
    ensures var r := ClientTick(st, bybitReply, okxTicker, okxHistory, okxNext, now, clock);
      && (BybitRecord(bybitReply, now).None? ==> r.bybit == st.bybit)
      && (BybitRecord(bybitReply, now).Some? ==> r.bybit == BybitRecord(bybitReply, now).value)
      && (OkxRecord(okxTicker, okxHistory, okxNext, now).None? ==> r.okx == st.okx)
      && (OkxRecord(okxTicker, okxHistory, okxNext, now).Some? ==>
            r.okx == OkxRecord(okxTicker, okxHistory, okxNext, now).value)
  {
  }

  predicate PositivePrices(st: LiveState) {
    st.bybit.price.Num? && st.okx.price.Num? && st.bybit.price.v > 0.0 && st.okx.price.v > 0.0
  }

  /** Once both stored prices are positive, every tick publishes: the
      spreads match the merged records and the timestamp advances to the
      tick's clock, whichever fetches failed. */
  lemma PositiveTickPublishes(st: LiveState, bybit: Gathered, okx: Gathered, clock: string)
    requires PositivePrices(st)
    requires bybit.Returned? && bybit.result.Some? ==> bybit.result.value.price.Num? && bybit.result.value.price.v > 0.0
    requires okx.Returned? && okx.result.Some? ==> okx.result.value.price.Num? && okx.result.value.price.v > 0.0
    ensures var r := Tick(st, bybit, okx, clock);
      PositivePrices(r) && Consistent(r) && r.timestamp == clock && r.spreads.price >= 0.0
  {
  }

  /** When both fetches fail on a consistent state, nothing but the
      timestamp changes. */
  lemma BothFailedRefreshesTimestampOnly(st: LiveState, bybit: Gathered, okx: Gathered, clock: string)
    requires Consistent(st)
    requires !(bybit.Returned? && bybit.result.Some?) && !(okx.Returned? && okx.result.Some?)
    ensures Tick(st, bybit, okx, clock) == st.(timestamp := clock)
  {
  }

  /** One exchange fails for a tick: its previous values stay, the spreads
      are recomputed from the stale and the latest record, and the timestamp
      advances. */
  lemma OneExchangeFails(st: LiveState, latest: Record, clock: string)
    requires PositivePrices(st)
    requires latest.price.Num? && latest.price.v > 0.0
    ensures var r := Tick(st, Returned(Some(latest)), Raised, clock);
      && r.bybit == latest && r.okx == st.okx
      && CalculateSpread(latest, st.okx) == Computed(r.spreads)
      && r.timestamp == clock
  {
  }

  /** The unguarded zero price: the start state holds price 0 for both
      exchanges, so a first tick on which only one fetch succeeds raises in
      the spread calculation. The fetched record is kept, but the spreads
      stay at zero and the timestamp at "N/A", and the state is not
      consistent. */
  lemma FirstTickWithOneFailureRaises(latest: Record, clock: string)
    requires latest.price.Num? && latest.price.v > 0.0
    ensures var r := Tick(Initial, Returned(Some(latest)), Returned(None), clock);
      && r.bybit == latest && r.okx == Unset
      && r.spreads == Spreads(0.0, 0.0) && r.timestamp == "N/A"
      && !Consistent(r)
  {
  }
}
