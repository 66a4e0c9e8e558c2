/** Connection identifiers: a 64-bit counter written in base 36. */
module Base36 {
  const DIGITS := "0123456789abcdefghijklmnopqrstuvwxyz"
  const BUFFER := 13
  const MAX_INT64 := 0x7fff_ffff_ffff_ffff
  const MIN_INT64 := -0x8000_0000_0000_0000

  predicate IsInt64(n: int) {
    MIN_INT64 <= n <= MAX_INT64
  }

  /** Reading a numeral from the left, one digit at a time; None for a foreign character. */
  function DigitValue(c: char): (v: int)
    ensures -1 <= v < 36
  {
    if '0' <= c <= '9' then c as int - '0' as int
    else if 'a' <= c <= 'z' then c as int - 'a' as int + 10
    else -1
  }

  function Value(s: string): int {
    if s == "" then 0 else 36 * Value(s[..|s| - 1]) + DigitValue(s[|s| - 1])
  }

  function Power(k: nat): nat {
    if k == 0 then 1 else 36 * Power(k - 1)
  }

  predicate IsNumeral(s: string) {
    forall i :: 0 <= i < |s| ==> DigitValue(s[i]) >= 0
  }

  /** A numeral with no leading zero, except for zero itself. */
  predicate IsShortest(s: string) {
    |s| > 0 && IsNumeral(s) && (s[0] == '0' ==> s == "0")
  }

  lemma DigitRoundTrip(d: int)
    requires 0 <= d < 36
    ensures DigitValue(DIGITS[d]) == d
    ensures DIGITS[d] == '0' <==> d == 0
  {
    if d < 10 {
      assert DIGITS[d] as int == 48 + d;
    } else {
      assert DIGITS[d] as int == 87 + d;
    }
  }

  /** The digits after 9 are the small letters, and the first digit weighs most. */
  lemma Examples()
    ensures IsText(9, "9") && IsText(10, "a") && IsText(35, "z") && IsText(36, "10") && IsText(1295, "zz")
  {
    assert "10"[..1] == "1" && "zz"[..1] == "z";
    assert "9"[..0] == "a"[..0] == "z"[..0] == "1"[..0] == "";
    assert Value("1") == 1 && Value("z") == 35;
  }

  /** Putting a digit in front of a numeral. */
  lemma {:induction false} ValueFront(c: char, s: string)
    ensures Value([c] + s) == DigitValue(c) * Power(|s|) + Value(s)
  {
    if s == "" {
      assert [c] + s == [c] && [c][..0] == "";
      assert Value([c]) == 36 * Value("") + DigitValue(c);
    } else {
      var n := |s| - 1;
      ValueFront(c, s[..n]);
      assert ([c] + s)[..n + 1] == [c] + s[..n];
      assert ([c] + s)[n + 1] == s[n];
      assert Power(|s|) == 36 * Power(n);
      assert DigitValue(c) * (36 * Power(n)) == 36 * (DigitValue(c) * Power(n));
    }
  }

  lemma Distribute(q: int, r: int, p: int)
    ensures (36 * q + r) * p == q * (36 * p) + r * p
  {
    assert 36 * q * p == q * (36 * p);
  }

  /** What is still to be written times the weight of what is written, plus that, is the number. */
  lemma OneDigit(n: int, q: int, c: char, written: string)
    requires n == (36 * q + DigitValue(c)) * Power(|written|) + Value(written)
    ensures n == q * Power(|written| + 1) + Value([c] + written)
  {
    ValueFront(c, written);
    Distribute(q, DigitValue(c), Power(|written|));
  }

  lemma {:induction false} ValueBounds(s: string)
    requires IsNumeral(s)
    ensures 0 <= Value(s) < Power(|s|)
  {
    if s != "" {
      ValueBounds(s[..|s| - 1]);
    }
  }

  /** The weight left after 12 digits exceeds half the 64-bit range, after 13 all of it. */
  lemma RoomForAll()
    ensures Power(12) <= MAX_INT64 < Power(13)
  {
    assert Power(2) == 1296;
    assert Power(4) == 1296 * 1296;
    assert Power(8) == Power(4) * 1679616 by {
      assert Power(5) == 60466176 && Power(6) == 2176782336;
      assert Power(7) == 78364164096;
    }
    assert Power(10) == 3656158440062976 by {
      assert Power(9) == 101559956668416;
    }
    assert Power(11) == 131621703842267136;
    assert Power(12) == 4738381338321616896;
  }

  lemma PowerStep(written: nat, m: int)
    requires m >= 1 && m * Power(written) <= MAX_INT64
    ensures written < BUFFER
  {
    assert m * Power(written) >= Power(written);
    if written >= BUFFER {
      PowerMonotone(BUFFER, written);
      RoomForAll();
      assert false;
    }
  }

  lemma {:induction false} PowerMonotone(a: nat, b: nat)
    requires a <= b
    ensures 1 <= Power(a) <= Power(b)
    decreases b
  {
    if a < b {
      PowerMonotone(a, b - 1);
    } else if a > 0 {
      PowerMonotone(a - 1, a - 1);
    }
  }

  /**
   The numeral is written backwards into a buffer of 13 bytes, which is never
   underrun. Zero is special; a negative number, which only a wrapped counter
   has, gives the empty string.
   */
  method FormatInt36(n: int) returns (s: string)
    requires IsInt64(n)
    ensures n >= 0 ==> IsShortest(s) && Value(s) == n && |s| <= 13
    ensures n < 0 ==> s == ""
  {
    if n == 0 {
      assert "0"[..0] == "";
      return "0";
    }
    var buf := new char[BUFFER];
    var i := buf.Length;
    var m := n;
    while m > 0
      invariant 0 <= i <= buf.Length
      invariant n < 0 ==> m == n && i == buf.Length
      invariant n > 0 ==> m >= 0 && n == m * Power(buf.Length - i) + Value(buf[i..])
      invariant IsNumeral(buf[i..])
      invariant n > 0 && m == 0 ==> i < buf.Length && buf[i] != '0'
      decreases m
    {
      ghost var written := buf[i..];
      ValueBounds(written);
      PowerStep(|written|, m);
      DigitRoundTrip(m % 36);
      OneDigit(n, m / 36, DIGITS[m % 36], written);
      i := i - 1;
      buf[i] := DIGITS[m % 36];
      m := m / 36;
      assert buf[i..] == [buf[i]] + written;
    }
    s := buf[i..];
  }

  // ----- one numeral per number -----

  lemma {:induction false} FirstDigit(s: string)
    requires IsNumeral(s) && |s| > 0 && s[0] != '0'
    ensures Value(s) >= Power(|s| - 1)
  {
    var n := |s| - 1;
    if n == 0 {
      assert s[..0] == "";
    } else {
      FirstDigit(s[..n]);
    }
  }

  lemma SameLength(a: string, b: string)
    requires IsShortest(a) && IsShortest(b) && Value(a) == Value(b)
    ensures |a| <= |b|
  {
    ValueBounds(b);
    if |b| < |a| {
      FirstDigit(a);
      PowerMonotone(|b|, |a| - 1);
    }
  }

  lemma SameSplit(x: int, d: int, y: int, e: int)
    requires 36 * x + d == 36 * y + e && 0 <= d < 36 && 0 <= e < 36
    ensures x == y && d == e
  {
  }

  lemma SameDigit(a: char, b: char)
    requires DigitValue(a) == DigitValue(b) >= 0
    ensures a == b
  {
  }

  lemma {:induction false} SameNumeral(a: string, b: string)
    requires IsNumeral(a) && IsNumeral(b) && |a| == |b| && Value(a) == Value(b)
    ensures a == b
  {
    if a != "" {
      var n := |a| - 1;
      SameSplit(Value(a[..n]), DigitValue(a[n]), Value(b[..n]), DigitValue(b[n]));
      SameDigit(a[n], b[n]);
      SameNumeral(a[..n], b[..n]);
      assert a == a[..n] + [a[n]] && b == b[..n] + [b[n]];
    }
  }

  /** Reading is one-to-one on shortest numerals: the text of a number is determined by it. */
  lemma ShortestUnique(a: string, b: string)
    requires IsShortest(a) && IsShortest(b) && Value(a) == Value(b)
    ensures a == b
  {
    SameLength(a, b);
    SameLength(b, a);
    SameNumeral(a, b);
  }

  /** What FormatInt36 promises about its result. */
  predicate IsText(n: int, s: string) {
    if n >= 0 then IsShortest(s) && Value(s) == n else s == ""
  }

  /** Two counters have the same text exactly when they are equal or have both wrapped below zero. */
  lemma TextsDistinct(m: int, a: string, n: int, b: string)
    requires IsText(m, a) && IsText(n, b)
    ensures a == b <==> m == n || (m < 0 && n < 0)
  {
    if m >= 0 && n >= 0 && m == n {
      ShortestUnique(a, b);
    }
  }

  /** The buffer is as small as it can be: the largest counter needs all 13 digits. */
  lemma LargestFills(s: string)
    requires IsText(MAX_INT64, s)
    ensures |s| == 13
  {
    RoomForAll();
    ValueBounds(s);
    if |s| > BUFFER {
      FirstDigit(s);
      PowerMonotone(BUFFER, |s| - 1);
    }
    if |s| < BUFFER {
      PowerMonotone(|s|, BUFFER - 1);
    }
  }

  // ----- connection identifiers -----

  class IdSource {
    var counter: int  // an atomic int64

    constructor ()
      ensures counter == 0
    {
      counter := 0;
    }

    method NextId() returns (id: string)
      requires IsInt64(counter)
      modifies this
      ensures counter == if old(counter) == MAX_INT64 then MIN_INT64 else old(counter) + 1
      ensures |id| >= 3 && id[..3] == "sb-" && IsText(counter, id[3..])
    {
      counter := if counter == MAX_INT64 then MIN_INT64 else counter + 1;
      var text := FormatInt36(counter);
      id := "sb-" + text;
      assert id[3..] == text;
    }
  }

  /** However many identifiers are drawn, short of 2^63 of them, no two are equal. */
  method DrawAll(source: IdSource, count: nat) returns (ids: seq<string>)
    requires 0 <= source.counter && source.counter + count <= MAX_INT64
    modifies source
    ensures |ids| == count && source.counter == old(source.counter) + count
    ensures forall i, j :: 0 <= i < j < |ids| ==> ids[i] != ids[j]
  {
    ids := [];
    while |ids| < count
      invariant |ids| <= count && source.counter == old(source.counter) + |ids|
      invariant forall i :: 0 <= i < |ids| ==> |ids[i]| >= 3 && IsText(old(source.counter) + 1 + i, ids[i][3..])
      invariant forall i, j :: 0 <= i < j < |ids| ==> ids[i] != ids[j]
    {
      var id := source.NextId();
      forall i | 0 <= i < |ids|
        ensures ids[i] != id
      {
        TextsDistinct(old(source.counter) + 1 + i, ids[i][3..], source.counter, id[3..]);
      }
      ids := ids + [id];
    }
  }
}
