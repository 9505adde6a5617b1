/** The fleet-wide sweep of maker_lists.py: both exchanges' bulk ticker
    lists become maps keyed by pair, the keys present in both are priced
    against each other, and one row per common pair is written to the table
    with `INSERT OR REPLACE`. SQLite is modelled as a map from pair to row. */
module Sweep {
  import opened Wrappers
  import opened Text
  import opened Exchanges
  import opened Spread

  datatype Venue = Bybit | Okx

  /** The filter of each bulk list: Bybit keeps symbols ending in "USDT"
      (maker_lists.py:18), OKX keeps ids ending in "-USDT-SWAP"
      (maker_lists.py:36). */
  predicate Accepts(v: Venue, id: string) {
    match v
    case Bybit => EndsWith(id, "USDT")
    case Okx => EndsWith(id, "-USDT-SWAP")
  }

  /** The dictionary key: Bybit keeps the symbol as it is (maker_lists.py:12);
      OKX deletes every "-USDT-SWAP" from the id (maker_lists.py:30). */
  function KeyOf(v: Venue, id: string): string {
    match v
    case Bybit => id
    case Okx => RemoveAll(id, "-USDT-SWAP")
  }

  /** The value stored per key: price, funding in percent, and the next
      funding time in seconds. */
  datatype Quote = Quote(price: real, funding: real, nextFunding: real)

  function QuoteOf(t: Ticker): (r: Option<Quote>)
    ensures r.Some? <==> t.price.Some? && t.fundingRate.Some? && t.fundingTimeMs.Some?
    ensures r.Some? ==>
      && r.value.price == t.price.value
      && r.value.funding == t.fundingRate.value * 100.0
      && r.value.nextFunding == t.fundingTimeMs.value as real / 1000.0
  {
    if t.price.Some? && t.fundingRate.Some? && t.fundingTimeMs.Some?
    then Some(Quote(t.price.value, Percent(t.fundingRate.value), Seconds(t.fundingTimeMs.value)))
    else None
  }

  /** The comprehension keeps entry t under key k. */
  predicate Selects(v: Venue, t: Ticker, k: string) {
    t.id.Some? && Accepts(v, t.id.value) && KeyOf(v, t.id.value) == k
  }

  /** Entry t makes the comprehension raise: its id is missing, or it passes
      the filter and a field of its value is missing. */
  predicate Faulty(v: Venue, t: Ticker) {
    t.id.None? || (Accepts(v, t.id.value) && QuoteOf(t).None?)
  }

  /** The dictionary comprehension of maker_lists.py:11-19 and 29-37, left to
      right, a later entry overwriting an earlier one with the same key;
      `None` when it raises. */
  function Tabulate(v: Venue, items: seq<Ticker>): (r: Option<map<string, Quote>>)
    ensures r.None? <==> exists i :: 0 <= i < |items| && Faulty(v, items[i])
    decreases |items|
  {
    if |items| == 0 then Some(map[])
    else
      var init, t := items[..|items| - 1], items[|items| - 1];
      assert forall i :: 0 <= i < |init| ==> init[i] == items[i];
      match Tabulate(v, init)
      case None => None
      case Some(m) =>
        if Faulty(v, t) then None
        else if Accepts(v, t.id.value) then Some(m[KeyOf(v, t.id.value) := QuoteOf(t).value])
        else Some(m)
  }

  /** The keys of the tabulated map are exactly the keys of the selected
      entries. */
  lemma {:induction false} TabulateKeys(v: Venue, items: seq<Ticker>, k: string)
    requires Tabulate(v, items).Some?
    ensures k in Tabulate(v, items).value <==> exists i :: 0 <= i < |items| && Selects(v, items[i], k)
    decreases |items|
  {
    if |items| > 0 {
      var init := items[..|items| - 1];
      TabulateStep(v, items, k);
      TabulateKeys(v, init, k);
      assert forall j :: 0 <= j < |init| ==> init[j] == items[j];
      if !Selects(v, items[|items| - 1], k) && exists i :: 0 <= i < |items| && Selects(v, items[i], k) {
        var i :| 0 <= i < |items| && Selects(v, items[i], k);
        assert i < |init| && Selects(v, init[i], k);
      }
    }
  }

  lemma TabulateKeySet(v: Venue, items: seq<Ticker>)
    requires Tabulate(v, items).Some?
    ensures forall k :: k in Tabulate(v, items).value <==> exists i :: 0 <= i < |items| && Selects(v, items[i], k)
  {
    forall k {
      TabulateKeys(v, items, k);
    }
  }

  /** The index of the last entry the comprehension keeps under key k, or
      -1 when it keeps none. */
  function LastIndex(v: Venue, items: seq<Ticker>, k: string): (r: int)
    ensures -1 <= r < |items|
    ensures r >= 0 ==> Selects(v, items[r], k)
    ensures forall j :: r < j < |items| ==> !Selects(v, items[j], k)
    decreases |items|
  {
    if |items| == 0 then -1
    else if Selects(v, items[|items| - 1], k) then |items| - 1
    else
      var init := items[..|items| - 1];
      assert forall j :: 0 <= j < |init| ==> init[j] == items[j];
      LastIndex(v, init, k)
  }

  /** One step of the comprehension: the last entry either overwrites its
      key or leaves the map of the earlier entries as it was. */
  lemma TabulateStep(v: Venue, items: seq<Ticker>, k: string)
    requires |items| > 0 && Tabulate(v, items).Some?
    ensures Tabulate(v, items[..|items| - 1]).Some?
    ensures Selects(v, items[|items| - 1], k) ==>
      k in Tabulate(v, items).value && Some(Tabulate(v, items).value[k]) == QuoteOf(items[|items| - 1])
    ensures !Selects(v, items[|items| - 1], k) ==>
      (k in Tabulate(v, items).value <==> k in Tabulate(v, items[..|items| - 1]).value)
      && (k in Tabulate(v, items).value ==> Tabulate(v, items).value[k] == Tabulate(v, items[..|items| - 1]).value[k])
  {
  }

  /** Each key holds the quote of the LAST entry selected under it. */
  lemma {:induction false} TabulateLastWins(v: Venue, items: seq<Ticker>, k: string)
    requires Tabulate(v, items).Some? && k in Tabulate(v, items).value
    ensures LastIndex(v, items, k) >= 0
    ensures QuoteOf(items[LastIndex(v, items, k)]) == Some(Tabulate(v, items).value[k])
    decreases |items|
  {
    var n := |items|;
    var init := items[..n - 1];
    TabulateStep(v, items, k);
    if !Selects(v, items[n - 1], k) {
      TabulateLastWins(v, init, k);
      assert LastIndex(v, items, k) == LastIndex(v, init, k);
      assert items[LastIndex(v, init, k)] == init[LastIndex(v, init, k)];
    }
  }

  /** `fetch_bybit_data` / `fetch_okx_data`: the tabulated list, or the empty
      map when the request or the comprehension raised (maker_lists.py:20-22,
      38-40). A missing list key also gives the empty map. */
  function Fetch(v: Venue, reply: Reply): (r: map<string, Quote>)
    ensures reply.None? ==> r == map[]
    ensures reply.Some? && (exists i :: 0 <= i < |reply.value| && Faulty(v, reply.value[i])) ==> r == map[]
    ensures reply.Some? ==> forall k :: k in r ==> exists i :: 0 <= i < |reply.value| && Selects(v, reply.value[i], k)
  {
    match reply
    case None => map[]
    case Some(items) =>
      if Tabulate(v, items).Some? then
        TabulateKeySet(v, items);
        Tabulate(v, items).value
      else map[]
  }

  /** The Bybit map's keys are exactly the listed symbols ending in "USDT",
      unchanged; each value is the last such entry's quote. */
  lemma BybitKeys(items: seq<Ticker>)
    requires forall i :: 0 <= i < |items| ==> !Faulty(Bybit, items[i])
    ensures forall k :: k in Fetch(Bybit, Some(items)) <==>
      exists i :: 0 <= i < |items| && items[i].id == Some(k) && EndsWith(k, "USDT")
    ensures forall k :: k in Fetch(Bybit, Some(items)) ==>
      exists i :: 0 <= i < |items| && items[i].id == Some(k) && QuoteOf(items[i]) == Some(Fetch(Bybit, Some(items))[k])
  {
    TabulateKeySet(Bybit, items);
    var m := Tabulate(Bybit, items).value;
    forall k | k in m
      ensures exists i :: 0 <= i < |items| && items[i].id == Some(k) && QuoteOf(items[i]) == Some(m[k])
    {
      TabulateLastWins(Bybit, items, k);
      var i := LastIndex(Bybit, items, k);
      assert items[i].id == Some(k) && QuoteOf(items[i]) == Some(m[k]);
    }
  }

  /** The OKX map's keys are the listed ids ending in "-USDT-SWAP" with
      every "-USDT-SWAP" deleted; for an id "<base>-USDT-SWAP" whose base
      holds no other copy, the key is the base. */
  lemma OkxKeys(items: seq<Ticker>, base: string)
    requires forall i :: 0 <= i < |items| ==> !Faulty(Okx, items[i])
    ensures forall k :: k in Fetch(Okx, Some(items)) <==>
      exists i :: 0 <= i < |items| && items[i].id.Some? && EndsWith(items[i].id.value, "-USDT-SWAP")
        && RemoveAll(items[i].id.value, "-USDT-SWAP") == k
    ensures !Occurs(base, "-USDT-SWAP") ==> KeyOf(Okx, base + "-USDT-SWAP") == base
  {
    TabulateKeySet(Okx, items);
    if !Occurs(base, "-USDT-SWAP") {
      SwapSuffixUnbordered();
      RemoveAppendedPattern(base, "-USDT-SWAP");
    }
  }

  /** A row of the `pairs` table without its key, in the column order of
      maker_lists.py:53-61. */
  datatype Row = Row(
    bybitPrice: real,
    okxPrice: real,
    bybitFunding: real,
    okxFunding: real,
    priceSpread: real,
    fundingSpread: real,
    updatedAt: int)

  type Table = map<string, Row>

  /** `set(bybit_data.keys()) & set(okx_data.keys())` (maker_lists.py:49). */
  function CommonPairs(bybit: map<string, Quote>, okx: map<string, Quote>): (r: set<string>)
    ensures forall k :: k in r <==> k in bybit && k in okx
  {
    bybit.Keys * okx.Keys
  }

  /** Pricing a pair raises ZeroDivisionError exactly when the lower price
      is 0 (maker_lists.py:67). */
  predicate Priceable(bybit: Quote, okx: Quote) {
    Min(bybit.price, okx.price) != 0.0
  }

  /** The row written for one common pair (maker_lists.py:65-80); the funding
      spread is always Bybit's minus OKX's. */
  function NewRow(bybit: Quote, okx: Quote, now: int): (r: Row)
    requires Priceable(bybit, okx)
    ensures r.fundingSpread == bybit.funding - okx.funding
    ensures bybit.price > 0.0 && okx.price > 0.0 ==> r.priceSpread >= 0.0
    ensures r.priceSpread == PriceSpread(okx.price, bybit.price)
  {
    PriceSpreadSymmetric(bybit.price, okx.price);
    PositivePriceSpreadSign(bybit.price, okx.price);
    Row(bybit.price, okx.price, bybit.funding, okx.funding,
        PriceSpread(bybit.price, okx.price), bybit.funding - okx.funding, now)
  }

  /** The transaction of one `update_database` call: `None` when some common
      pair cannot be priced (the exception escapes before the commit, so the
      table is untouched); otherwise the table after every upsert. */
  function Sweep(table: Table, bybit: map<string, Quote>, okx: map<string, Quote>, now: int): (r: Option<Table>)
    ensures r.None? <==> exists k :: k in bybit && k in okx && !Priceable(bybit[k], okx[k])
    ensures r.Some? ==> r.value.Keys == table.Keys + CommonPairs(bybit, okx)
    ensures r.Some? ==> forall k :: k in bybit && k in okx ==> r.value[k] == NewRow(bybit[k], okx[k], now)
    ensures r.Some? ==> forall k :: k in table && !(k in bybit && k in okx) ==> r.value[k] == table[k]
  {
    if exists k :: k in bybit && k in okx && !Priceable(bybit[k], okx[k]) then None
    else
      Some(map k | k in table.Keys + CommonPairs(bybit, okx) ::
             if k in bybit && k in okx then NewRow(bybit[k], okx[k], now) else table[k])
  }

  /** The write loop of maker_lists.py:64-80, one pair at a time in the set's
      iteration order, abandoning the transaction on the first pair that
      cannot be priced. */
  method UpdateDatabase(table: Table, bybit: map<string, Quote>, okx: map<string, Quote>, now: int)
    returns (r: Option<Table>)
    ensures r == Sweep(table, bybit, okx, now)
  {
    var pending := CommonPairs(bybit, okx);
    var written := table;
    while pending != {}
      invariant pending <= CommonPairs(bybit, okx)
      invariant written.Keys == table.Keys + (CommonPairs(bybit, okx) - pending)
      invariant forall k :: k in CommonPairs(bybit, okx) - pending ==>
        Priceable(bybit[k], okx[k]) && written[k] == NewRow(bybit[k], okx[k], now)
      invariant forall k :: k in table && k !in CommonPairs(bybit, okx) - pending ==> written[k] == table[k]
      decreases pending
    {
      var pair :| pair in pending;
      if !Priceable(bybit[pair], okx[pair]) {
        return None;
      }
      written := written[pair := NewRow(bybit[pair], okx[pair], now)];
      pending := pending - {pair};
    }
    var expected := Sweep(table, bybit, okx, now);
    assert expected.Some?;
    assert written == expected.value;
    return Some(written);
  }

  /** One cycle of `main`: fetch both lists, then run the transaction; a
      failed transaction leaves the table as it was (maker_lists.py:85-92). */
  function Cycle(table: Table, bybitReply: Reply, okxReply: Reply, now: int): (r: Table)
    ensures Sweep(table, Fetch(Bybit, bybitReply), Fetch(Okx, okxReply), now).None? ==> r == table
    ensures table.Keys <= r.Keys
    ensures forall k :: k in r && k !in CommonPairs(Fetch(Bybit, bybitReply), Fetch(Okx, okxReply)) ==>
      k in table && r[k] == table[k]
  {
    match Sweep(table, Fetch(Bybit, bybitReply), Fetch(Okx, okxReply), now)
    case Some(t) => t
    case None => table
  }

  /** Without a common pair the transaction writes nothing. */
  lemma NoCommonPairWritesNothing(table: Table, bybit: map<string, Quote>, okx: map<string, Quote>, now: int)
    requires CommonPairs(bybit, okx) == {}
    ensures Sweep(table, bybit, okx, now) == Some(table)
  {
    var s := Sweep(table, bybit, okx, now);
    assert s.Some?;
    assert s.value.Keys == table.Keys;
    assert s.value == table;
  }

  /** If either fetch fails, whether the request failed or the comprehension
      raised, nothing is written. */
  lemma FailedFetchWritesNothing(table: Table, bybitReply: Reply, okxReply: Reply, now: int)
    requires Fetch(Bybit, bybitReply) == map[] || Fetch(Okx, okxReply) == map[]
    ensures Cycle(table, bybitReply, okxReply, now) == table
  {
    NoCommonPairWritesNothing(table, Fetch(Bybit, bybitReply), Fetch(Okx, okxReply), now);
  }

  /** Rows are never deleted, and each cycle only ever adds or replaces
      rows: every pair keeps exactly one row. */
  lemma CycleKeepsRows(table: Table, bybitReply: Reply, okxReply: Reply, now: int)
    ensures table.Keys <= Cycle(table, bybitReply, okxReply, now).Keys
    ensures var b, o := Fetch(Bybit, bybitReply), Fetch(Okx, okxReply);
      forall k :: k in Cycle(table, bybitReply, okxReply, now) ==> k in table || (k in b && k in o)
  {
  }

  /** `INSERT OR REPLACE` is idempotent: running the same transaction again
      changes nothing. */
  lemma SweepIdempotent(table: Table, bybit: map<string, Quote>, okx: map<string, Quote>, now: int)
    requires Sweep(table, bybit, okx, now).Some?
    ensures Sweep(Sweep(table, bybit, okx, now).value, bybit, okx, now) == Sweep(table, bybit, okx, now)
  {
    var once := Sweep(table, bybit, okx, now).value;
    var twice := Sweep(once, bybit, okx, now).value;
    assert twice.Keys == once.Keys;
    assert forall k :: k in twice ==> twice[k] == once[k];
    assert twice == once;
  }

  /** With a clock that does not run backwards, `updated_at` never
      decreases for any pair. */
  lemma UpdatedAtNeverDecreases(table: Table, bybit: map<string, Quote>, okx: map<string, Quote>, now: int)
    requires forall k :: k in table ==> table[k].updatedAt <= now
    requires Sweep(table, bybit, okx, now).Some?
    ensures var t := Sweep(table, bybit, okx, now).value;
      && (forall k :: k in table ==> table[k].updatedAt <= t[k].updatedAt)
      && (forall k :: k in t ==> t[k].updatedAt <= now)
  {
  }

  /** Two funding-sign conventions: when OKX is the higher-priced side, the
      sweep stores Bybit − OKX while the live view shows OKX − Bybit, so
      the two disagree in sign whenever the funding rates differ. They agree
      when Bybit's price is at least OKX's. */
  lemma FundingConventionsDisagree(bybit: Quote, okx: Quote, now: int)
    requires Priceable(bybit, okx)
    ensures bybit.price < okx.price ==>
      NewRow(bybit, okx, now).fundingSpread == -LiveFunding(bybit.price, okx.price, bybit.funding, okx.funding)
    ensures bybit.price >= okx.price ==>
      NewRow(bybit, okx, now).fundingSpread == LiveFunding(bybit.price, okx.price, bybit.funding, okx.funding)
    ensures bybit.price < okx.price && bybit.funding != okx.funding ==>
      NewRow(bybit, okx, now).fundingSpread != LiveFunding(bybit.price, okx.price, bybit.funding, okx.funding)
  {
  }

  /** Mismatched keys: the same coin listed on both exchanges under its
      usual names, "<base>USDT" and "<base>-USDT-SWAP", gets different keys,
      so the intersection never pairs it with itself. */
  lemma SameCoinGetsDifferentKeys(base: string)
    requires !Occurs(base, "-USDT-SWAP")
    ensures Accepts(Bybit, base + "USDT") && Accepts(Okx, base + "-USDT-SWAP")
    ensures KeyOf(Okx, base + "-USDT-SWAP") == base
    ensures KeyOf(Bybit, base + "USDT") != KeyOf(Okx, base + "-USDT-SWAP")
  {
    SwapSuffixUnbordered();
    RemoveAppendedPattern(base, "-USDT-SWAP");
  }

  /** Every common key ends in "USDT", since it is a Bybit key; an OKX entry
      matches it only when its id carries "USDT" before "-USDT-SWAP". */
  lemma CommonKeysEndInUsdt(bybitReply: Reply, okxReply: Reply)
    ensures forall k :: k in CommonPairs(Fetch(Bybit, bybitReply), Fetch(Okx, okxReply)) ==> EndsWith(k, "USDT")
  {
  }

  const BtcOnBybit := Ticker(Some("BTCUSDT"), Some(65000.0), Some(0.0001), Some(1700000000000))
  const BtcOnOkx := Ticker(Some("BTC-USDT-SWAP"), Some(65100.0), Some(-0.0002), Some(1700000000000))

  /** A list holding one well-formed, accepted entry gives a one-key map. */
  lemma TabulateSingle(v: Venue, t: Ticker)
    requires t.id.Some? && Accepts(v, t.id.value) && QuoteOf(t).Some?
    ensures Tabulate(v, [t]) == Some(map[KeyOf(v, t.id.value) := QuoteOf(t).value])
  {
    assert [t][..0] == [];
  }

  lemma BtcKeyOnBybit()
    ensures Fetch(Bybit, Some([BtcOnBybit])).Keys == {"BTCUSDT"}
  {
    assert EndsWith("BTCUSDT", "USDT");
    TabulateSingle(Bybit, BtcOnBybit);
  }

  lemma BtcKeyOnOkx()
    ensures Fetch(Okx, Some([BtcOnOkx])).Keys == {"BTC"}
  {
    SameCoinGetsDifferentKeys("BTC");
    assert "BTC" + "-USDT-SWAP" == "BTC-USDT-SWAP";
    TabulateSingle(Okx, BtcOnOkx);
  }

  /** Concretely: Bybit lists BTCUSDT and OKX lists BTC-USDT-SWAP, both
      well-formed and priced; the cycle writes no row. */
  lemma BtcIsNeverSwept(table: Table, now: int)
    ensures Cycle(table, Some([BtcOnBybit]), Some([BtcOnOkx]), now) == table
  {
    BtcKeyOnBybit();
    BtcKeyOnOkx();
    var b := Fetch(Bybit, Some([BtcOnBybit]));
    var o := Fetch(Okx, Some([BtcOnOkx]));
    assert CommonPairs(b, o) == {};
    NoCommonPairWritesNothing(table, b, o, now);
  }

  /** A pair priced at 0 on either side aborts the whole transaction, so no
      row of that cycle is written. */
  lemma ZeroPriceAbortsSweep(table: Table, bybit: map<string, Quote>, okx: map<string, Quote>, now: int, k: string)
    requires k in bybit && k in okx && bybit[k].price == 0.0 && okx[k].price >= 0.0
    ensures Sweep(table, bybit, okx, now).None?
  {
    assert !Priceable(bybit[k], okx[k]);
  }
}
