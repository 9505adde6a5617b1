/** The exchange clients of bybit_data.py and okx_data.py, as pure functions
    from already-decoded replies (or a failed request) to an optional record.
    The bulk ticker lists of maker_lists.py use the same entry type. */
module Exchanges {
  import opened Wrappers
  import opened Clock

  /** One entry of a decoded ticker list. A field is `None` when the key is
      missing or its text does not parse as a number. The names follow each
      exchange's JSON:
      - Bybit `result.list[]`: symbol, lastPrice, fundingRate, nextFundingTime;
      - OKX `data[]`: instId, last, fundingRate, fundingTime.
      Times are milliseconds since the epoch. */
  datatype Ticker = Ticker(
    id: Option<string>,
    price: Option<real>,
    fundingRate: Option<real>,
    fundingTimeMs: Option<int>)

  /** A decoded reply: the ticker list, or `None` when the request failed
      (timeout, transport error, undecodable body) or the list key is absent. */
  type Reply = Option<seq<Ticker>>

  /** A price slot as calculate_spread.py:40-41 tests it: an int or float, or
      some other Python value. */
  datatype Value = Num(v: real) | NotNum

  /** The per-exchange record both clients return and the live loop stores:
      `{'price', 'funding', 'time_to_payment'}`; funding is in percent. */
  datatype Record = Record(price: Value, funding: real, timeToPayment: string)

  /** The first entry of a reply's list, if there is one (`data[...][0]`). */
  function First(reply: Reply): (r: Option<Ticker>)
    ensures r.Some? <==> reply.Some? && |reply.value| > 0
    ensures r.Some? ==> r.value == reply.value[0]
  {
    match reply
    case None => None
    case Some(items) => if |items| == 0 then None else Some(items[0])
  }

  /** A fraction as the program stores it: rate × 100, in percent. */
  function Percent(rate: real): real {
    rate * 100.0
  }

  /** `int(ms) / 1000`: Python's true division, so the seconds keep their
      fractional part. */
  function Seconds(ms: int): real {
    ms as real / 1000.0
  }

  /** `get_bybit_data`: the first ticker of the reply gives the price, the
      funding rate in percent and the time left until `nextFundingTime`.
      Any missing piece makes the whole call return None. */
  function BybitRecord(reply: Reply, now: real): (r: Option<Record>)
    ensures r.Some? <==>
      && First(reply).Some?
      && First(reply).value.price.Some?
      && First(reply).value.fundingRate.Some?
      && First(reply).value.fundingTimeMs.Some?
    ensures r.Some? ==>
      var t := reply.value[0];
      && r.value.price == Num(t.price.value)
      && r.value.funding == t.fundingRate.value * 100.0
      && r.value.timeToPayment == FormatTime(Seconds(t.fundingTimeMs.value), now)
  {
    match First(reply)
    case None => None
    case Some(t) =>
      if t.fundingTimeMs.None? || t.price.None? || t.fundingRate.None? then None
      else
        var left := Remaining(Seconds(t.fundingTimeMs.value), now);
        BybitSplitAgrees(left);
        Some(Record(Num(t.price.value), Percent(t.fundingRate.value), Format(BybitSplit(left))))
  }

  /** `get_okx_data`: the price from the ticker reply, the funding rate from
      the newest funding-history entry and the next funding time from the
      funding-rate reply. The record exists only if all three do. */
  function OkxRecord(ticker: Reply, history: Reply, next: Reply, now: real): (r: Option<Record>)
    ensures r.Some? <==>
      && First(ticker).Some? && First(ticker).value.price.Some?
      && First(history).Some? && First(history).value.fundingRate.Some?
      && First(next).Some? && First(next).value.fundingTimeMs.Some?
    ensures r.Some? ==>
      && r.value.price == Num(ticker.value[0].price.value)
      && r.value.funding == history.value[0].fundingRate.value * 100.0
      && r.value.timeToPayment == FormatTime(Seconds(next.value[0].fundingTimeMs.value), now)
  {
    match (First(ticker), First(history), First(next))
    case (Some(p), Some(f), Some(n)) =>
      if p.price.None? || f.fundingRate.None? || n.fundingTimeMs.None? then None
      else
        var left := Remaining(Seconds(n.fundingTimeMs.value), now);
        Some(Record(Num(p.price.value), Percent(f.fundingRate.value), Format(Split(left))))
    case _ => None
  }

  /** Both clients produce a numeric price and a time string that reads back
      as the whole seconds left, split with minutes and seconds below 60. */
  lemma ClientRecordsAreWellShaped(reply: Reply, ticker: Reply, history: Reply, next: Reply, now: real)
    ensures BybitRecord(reply, now).Some? ==>
      var rec := BybitRecord(reply, now).value;
      && rec.price.Num?
      && Parse(rec.timeToPayment) == Some(Split(Remaining(Seconds(reply.value[0].fundingTimeMs.value), now)))
    ensures OkxRecord(ticker, history, next, now).Some? ==>
      var rec := OkxRecord(ticker, history, next, now).value;
      && rec.price.Num?
      && Parse(rec.timeToPayment) == Some(Split(Remaining(Seconds(next.value[0].fundingTimeMs.value), now)))
  {
  }

  /** A funding time already past shows as "00:00:00" on both exchanges. */
  lemma PastFundingTimeShowsZero(reply: Reply, next: Reply, ticker: Reply, history: Reply, now: real)
    requires First(reply).Some? && First(reply).value.fundingTimeMs.Some?
    requires Seconds(First(reply).value.fundingTimeMs.value) <= now
    requires First(next).Some? && First(next).value.fundingTimeMs.Some?
    requires Seconds(First(next).value.fundingTimeMs.value) <= now
    ensures BybitRecord(reply, now).Some? ==> BybitRecord(reply, now).value.timeToPayment == "00:00:00"
    ensures OkxRecord(ticker, history, next, now).Some? ==>
      OkxRecord(ticker, history, next, now).value.timeToPayment == "00:00:00"
  {
  }
}
