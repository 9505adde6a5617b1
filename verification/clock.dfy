/** Time-to-payment arithmetic: the clamp at zero, the `divmod` split into
    hours, minutes and seconds, and the "HH:MM:SS" text, as written in
    data_handler.py, bybit_data.py and okx_data.py. */
module Clock {
  import opened Wrappers
  import opened Text

  datatype Hms = Hms(h: nat, m: nat, s: nat)

  /** The split of `format_time` and okx_data.py:
      `h, rem = divmod(r, 3600); m, s = divmod(rem, 60)`. */
  function Split(r: nat): (t: Hms)
    ensures t.h * 3600 + t.m * 60 + t.s == r
    ensures t.m < 60 && t.s < 60
  {
    var rem := r % 3600;
    Hms(r / 3600, rem / 60, rem % 60)
  }

  /** The split of bybit_data.py: `h, m = divmod(r // 60, 60); s = r % 60`. */
  function BybitSplit(r: nat): (t: Hms)
    ensures t.m < 60 && t.s < 60
  {
    var q := r / 60;
    Hms(q / 60, q % 60, r % 60)
  }

  /** The decomposition of r into hours, minutes below 60 and seconds below
      60 is unique: `Split` is the only one. */
  lemma SplitUnique(r: nat, t: Hms)
    requires t.m < 60 && t.s < 60 && t.h * 3600 + t.m * 60 + t.s == r
    ensures t == Split(r)
  {
    var u := Split(r);
    var a := t.m * 60 + t.s;
    var b := u.m * 60 + u.s;
    assert 0 <= a < 3600 && 0 <= b < 3600;
    assert t.h * 3600 + a == u.h * 3600 + b;
    assert t.h == u.h && a == b;
  }

  /** Both exchanges' time strings agree: the Bybit client's split is the
      same decomposition as `format_time`'s. */
  lemma BybitSplitAgrees(r: nat)
    ensures BybitSplit(r) == Split(r)
  {
    var t := BybitSplit(r);
    var q := r / 60;
    assert r == q * 60 + r % 60;
    assert q == (q / 60) * 60 + q % 60;
    assert t.h * 3600 + t.m * 60 + t.s == r;
    SplitUnique(r, t);
  }

  /** `int(max(0, target - now))`: whole seconds left, never negative. Python's
      `int` truncates toward zero, which is the floor here. */
  function Remaining(target: real, now: real): (r: nat)
    ensures target <= now ==> r == 0
    ensures target > now ==> r as real <= target - now < r as real + 1.0
  {
    if target - now <= 0.0 then 0 else (target - now).Floor as nat
  }

  /** `f"{h:02d}:{m:02d}:{s:02d}"`. */
  function Format(t: Hms): (r: string)
    ensures |r| >= 8
    ensures t.h < 100 && t.m < 100 && t.s < 100 ==> |r| == 8 && r[2] == ':' && r[5] == ':'
  {
    Pad2(t.h) + ":" + Pad2(t.m) + ":" + Pad2(t.s)
  }

  /** Reads an "H..H:MM:SS" string back: at least two hour digits, then two
      digits each for minutes and seconds. */
  function Parse(text: string): Option<Hms> {
    if |text| < 8 then None
    else
      var n := |text|;
      var hs, ms, ss := text[..n - 6], text[n - 5..n - 3], text[n - 2..];
      if text[n - 6] == ':' && text[n - 3] == ':' && AllDigits(hs) && AllDigits(ms) && AllDigits(ss)
      then Some(Hms(ParseDecimal(hs), ParseDecimal(ms), ParseDecimal(ss)))
      else None
  }

  /** Formatting loses nothing when minutes and seconds are below 60, as
      every split guarantees. */
  lemma ParseFormat(t: Hms)
    requires t.m < 60 && t.s < 60
    ensures Parse(Format(t)) == Some(t)
  {
    var text := Format(t);
    var n := |text|;
    var hs, ms, ss := Pad2(t.h), Pad2(t.m), Pad2(t.s);
    assert |ms| == 2 && |ss| == 2;
    assert text[..n - 6] == hs;
    assert text[n - 5..n - 3] == ms;
    assert text[n - 2..] == ss;
    ParsePad2(t.h);
    ParsePad2(t.m);
    ParsePad2(t.s);
  }

  /** `format_time(timestamp)` of data_handler.py, with the wall clock passed
      in as `now`. */
  function FormatTime(timestamp: real, now: real): (r: string)
    ensures timestamp <= now ==> r == "00:00:00"
    ensures Parse(r) == Some(Split(Remaining(timestamp, now)))
  {
    var t := Split(Remaining(timestamp, now));
    ParseFormat(t);
    Format(t)
  }

  /** Reading `format_time`'s text back gives whole hours, minutes and
      seconds that add up to the seconds left, floored and clamped at 0. */
  lemma FormatTimeDecomposes(timestamp: real, now: real)
    ensures var p := Parse(FormatTime(timestamp, now));
      && p.Some?
      && p.value.m < 60 && p.value.s < 60
      && p.value.h * 3600 + p.value.m * 60 + p.value.s == Remaining(timestamp, now)
  {
  }
}
