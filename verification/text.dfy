/** The few string operations of Python's `str` that the program relies on:
    `endswith`, negative slicing, `replace(pat, '')` and `f"{n:02d}"`. */
module Text {

  /** `s.endswith(suffix)`. */
  predicate EndsWith(s: string, suffix: string) {
    |suffix| <= |s| && s[|s| - |suffix|..] == suffix
  }

  /** `s[:-n]` for n > 0: everything but the last n characters, or "" when
      s is shorter than n. */
  function DropLast(s: string, n: nat): (r: string)
    requires n > 0
    ensures |r| == if n <= |s| then |s| - n else 0
    ensures r <= s
  {
    if n <= |s| then s[..|s| - n] else ""
  }

  lemma DropLastOfAppended(base: string, suffix: string)
    requires |suffix| > 0
    ensures DropLast(base + suffix, |suffix|) == base
  {
    assert (base + suffix)[..|base|] == base;
  }

  /** `pat in s`: the pattern occurs at some position of s. */
  predicate Occurs(s: string, pat: string)
    decreases |s|
  {
    |pat| <= |s| && (s[..|pat|] == pat || Occurs(s[1..], pat))
  }

  /** `s.replace(pat, '')`: scans left to right and deletes every
      non-overlapping occurrence of pat. An occurrence that only appears once
      another has been deleted is kept ("UUSDTSDT" becomes "USDT"). */
  function RemoveAll(s: string, pat: string): (r: string)
    requires |pat| > 0
    ensures !Occurs(s, pat) ==> r == s
    ensures Occurs(s, pat) ==> |r| <= |s| - |pat|
    decreases |s|
  {
    if |s| < |pat| then s
    else if s[..|pat|] == pat then RemoveAll(s[|pat|..], pat)
    else [s[0]] + RemoveAll(s[1..], pat)
  }

  /** No proper suffix of pat is also a prefix of it, so an occurrence of pat
      can never start inside a shorter copy of itself. Both "USDT" and
      "-USDT-SWAP" have this property. */
  predicate Unbordered(pat: string) {
    forall l :: 0 < l < |pat| ==> pat[l..] != pat[..|pat| - l]
  }

  lemma UsdtUnbordered()
    ensures Unbordered("USDT")
  {
    var p := "USDT";
    forall l | 0 < l < |p|
      ensures p[l..] != p[..|p| - l]
    {
      assert p[l..][|p| - l - 1] == 'T' != p[..|p| - l][|p| - l - 1];
    }
  }

  lemma SwapSuffixUnbordered()
    ensures Unbordered("-USDT-SWAP")
  {
    var p := "-USDT-SWAP";
    forall l | 0 < l < |p|
      ensures p[l..] != p[..|p| - l]
    {
      assert p[l..][|p| - l - 1] == 'P';
      assert p[..|p| - l][|p| - l - 1] != 'P';
    }
  }

  /** Deleting an unbordered pattern from `clean + pat + rest`, where `clean`
      holds no occurrence, keeps `clean` and deletes the pattern that follows
      it: no occurrence can straddle the boundary. */
  lemma {:induction false} RemoveAllAfterClean(clean: string, pat: string, rest: string)
    requires |pat| > 0 && Unbordered(pat) && !Occurs(clean, pat)
    ensures RemoveAll(clean + pat + rest, pat) == clean + RemoveAll(rest, pat)
    decreases |clean|
  {
    var s := clean + pat + rest;
    if |clean| == 0 {
      assert s == pat + rest;
      assert s[..|pat|] == pat;
      assert s[|pat|..] == rest;
    } else {
      assert s[..|pat|] != pat by {
        if |clean| >= |pat| {
          assert s[..|pat|] == clean[..|pat|];
        } else {
          var l := |clean|;
          assert s[..|pat|] == clean + pat[..|pat| - l];
          assert pat[l..] != pat[..|pat| - l];
        }
      }
      assert !Occurs(clean[1..], pat);
      RemoveAllAfterClean(clean[1..], pat, rest);
      assert s[1..] == clean[1..] + pat + rest;
      assert [s[0]] + (clean[1..] + RemoveAll(rest, pat)) == clean + RemoveAll(rest, pat);
    }
  }

  /** The special case used for pair names: `(k + pat).replace(pat, '')` is k
      when k holds no occurrence of pat. */
  lemma RemoveAppendedPattern(clean: string, pat: string)
    requires |pat| > 0 && Unbordered(pat) && !Occurs(clean, pat)
    ensures RemoveAll(clean + pat, pat) == clean
  {
    RemoveAllAfterClean(clean, pat, "");
    assert clean + pat + "" == clean + pat;
  }

  // ---------------------------------------------------------------------
  // Decimal digits

  predicate IsDigit(c: char) {
    '0' <= c <= '9'
  }

  predicate AllDigits(s: string) {
    forall i :: 0 <= i < |s| ==> IsDigit(s[i])
  }

  function DigitChar(d: nat): (c: char)
    requires d < 10
    ensures IsDigit(c)
  {
    (48 + d) as char
  }

  function DigitValue(c: char): (d: nat)
    requires IsDigit(c)
    ensures d < 10 && DigitChar(d) == c
  {
    (c as int - 48) as nat
  }

  /** `str(n)` for a non-negative integer: its decimal digits, most
      significant first, without leading zeros. */
  function Decimal(n: nat): (r: string)
    ensures 1 <= |r| && AllDigits(r)
    ensures n < 10 <==> |r| == 1
    decreases n
  {
    if n < 10 then [DigitChar(n)] else Decimal(n / 10) + [DigitChar(n % 10)]
  }

  /** `f"{n:02d}"`: the decimal digits of n, left-padded with '0' to at
      least two characters. */
  function Pad2(n: nat): (r: string)
    ensures AllDigits(r)
    ensures 2 <= |r|
    ensures n < 100 ==> |r| == 2
  {
    if n < 10 then "0" + Decimal(n) else Decimal(n)
  }

  /** `int(s)` for a string of decimal digits ("" reads as 0). */
  function ParseDecimal(s: string): nat
    requires AllDigits(s)
    decreases |s|
  {
    if |s| == 0 then 0 else 10 * ParseDecimal(s[..|s| - 1]) + DigitValue(s[|s| - 1])
  }

  lemma {:induction false} ParseDecimalOfDecimal(n: nat)
    ensures ParseDecimal(Decimal(n)) == n
    decreases n
  {
    if n >= 10 {
      var r := Decimal(n);
      assert r[..|r| - 1] == Decimal(n / 10);
      ParseDecimalOfDecimal(n / 10);
    }
  }

  lemma {:induction false} LeadingZeroIgnored(s: string)
    requires AllDigits(s)
    ensures AllDigits("0" + s) && ParseDecimal("0" + s) == ParseDecimal(s)
    decreases |s|
  {
    if |s| > 0 {
      var t := "0" + s;
      assert t[..|t| - 1] == "0" + s[..|s| - 1];
      LeadingZeroIgnored(s[..|s| - 1]);
    }
  }

  /** Zero padding never changes the number a field reads as. */
  lemma ParsePad2(n: nat)
    ensures ParseDecimal(Pad2(n)) == n
  {
    ParseDecimalOfDecimal(n);
    if n < 10 {
      LeadingZeroIgnored(Decimal(n));
    }
  }
}
