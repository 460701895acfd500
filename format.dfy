/**
  The few pieces of C++ iostream behaviour that the recorder relies on when it
  builds names: `os << n` for an int, and `std::setfill('0')` together with
  `std::setw(w)`.  Beside them, the lexicographic (character-wise) order in
  which the generated names sort.  Characters are Dafny chars; every name
  built here is ASCII.
*/
module Format {

  /** 10 to the power w. */
  function Pow10(w: nat): (p: nat)
    ensures p >= 1
  {
    if w == 0 then 1 else 10 * Pow10(w - 1)
  }

  predicate IsDigit(c: char) {
    '0' <= c <= '9'
  }

  predicate AllDigits(s: string) {
    forall k | 0 <= k < |s| :: IsDigit(s[k])
  }

  function DigitChar(d: nat): (c: char)
    requires d < 10
    ensures IsDigit(c)
  {
    ('0' as int + d) as char
  }

  function DigitValue(c: char): (d: nat)
    requires IsDigit(c)
    ensures d < 10
  {
    c as int - '0' as int
  }

  /** The characters `os << n` writes for a non-negative int: no leading zeros. */
  function Unsigned(n: nat): (s: string)
    ensures |s| >= 1
  {
    if n < 10 then [DigitChar(n)] else Unsigned(n / 10) + [DigitChar(n % 10)]
  }

  /** The characters `os << n` writes for any int when no width is in effect. */
  function Decimal(n: int): string {
    if n < 0 then "-" + Unsigned(-n) else Unsigned(n)
  }

  /**
    `os << std::setfill(fill) << std::setw(w) << s`.  With the default (right)
    adjustment the fill characters go in front of the whole text, a minus sign
    included, and a text longer than w is written in full.
  */
  function PadLeft(s: string, w: nat, fill: char): (r: string)
    ensures |r| == if |s| < w then w else |s|
    ensures r[|r| - |s|..] == s
    ensures forall k | 0 <= k < |r| - |s| :: r[k] == fill
    ensures |s| >= w ==> r == s
  {
    if |s| < w then seq(w - |s|, _ => fill) + s else s
  }

  /** `os << std::setfill('0') << std::setw(w) << n`. */
  function Padded(n: int, w: nat): string {
    PadLeft(Decimal(n), w, '0')
  }

  /** The w lowest decimal digits of n, most significant first (a reference layout). */
  function FixedDigits(n: nat, w: nat): (s: string)
    ensures |s| == w
  {
    if w == 0 then [] else FixedDigits(n / 10, w - 1) + [DigitChar(n % 10)]
  }

  /** The number a string of digits denotes; the inverse of the two writers above. */
  function DigitsValue(s: string): (v: nat)
    requires AllDigits(s)
    ensures v < Pow10(|s|)
  {
    if s == [] then 0 else 10 * DigitsValue(s[..|s| - 1]) + DigitValue(s[|s| - 1])
  }

  /** The order the generated names sort in: character by character, and a proper prefix is smaller. */
  predicate LexLess(a: string, b: string)
    decreases |a|
  {
    if |a| == 0 then |b| > 0
    else if |b| == 0 then false
    else a[0] < b[0] || (a[0] == b[0] && LexLess(a[1..], b[1..]))
  }

  /** Every character except those at the listed positions is a digit. */
  predicate DigitsExcept(s: string, seps: set<int>) {
    forall k | 0 <= k < |s| && k !in seps :: IsDigit(s[k])
  }

  // ---------------------------------------------------------------------------
  // Lemmas

  lemma Pow10Values()
    ensures Pow10(2) == 100 && Pow10(3) == 1000 && Pow10(4) == 10000 && Pow10(6) == 1000000
  {
    assert Pow10(1) == 10;
    assert Pow10(5) == 100000 by { assert Pow10(4) == 10000 by { assert Pow10(3) == 1000; } }
  }

  /** Appending a block of digits keeps "digits everywhere else" when no separator position falls inside it. */
  lemma AppendDigits(s: string, b: string, seps: set<int>)
    requires DigitsExcept(s, seps) && AllDigits(b)
    ensures DigitsExcept(s + b, seps)
    ensures forall k | 0 <= k < |s| :: (s + b)[k] == s[k]
  {
  }

  /** Appending one separator character at a listed position. */
  lemma AppendSeparator(s: string, c: char, seps: set<int>)
    requires DigitsExcept(s, seps) && |s| in seps
    ensures DigitsExcept(s + [c], seps)
    ensures (s + [c])[|s|] == c
    ensures forall k | 0 <= k < |s| :: (s + [c])[k] == s[k]
  {
  }

  /** `os << n` writes only digits. */
  lemma {:induction false} UnsignedDigits(n: nat)
    ensures AllDigits(Unsigned(n))
  {
    if n >= 10 {
      UnsignedDigits(n / 10);
    }
  }

  lemma {:induction false} FixedDigitsDigits(n: nat, w: nat)
    ensures AllDigits(FixedDigits(n, w))
  {
    if w > 0 {
      FixedDigitsDigits(n / 10, w - 1);
    }
  }

  /** Reading back what `os << n` wrote gives n. */
  lemma {:induction false} UnsignedRoundTrip(n: nat)
    ensures AllDigits(Unsigned(n)) && DigitsValue(Unsigned(n)) == n
  {
    UnsignedDigits(n);
    var s := Unsigned(n);
    if n >= 10 {
      UnsignedRoundTrip(n / 10);
      assert s[..|s| - 1] == Unsigned(n / 10);
    }
  }

  /** Reading back a fixed-width field gives the number, provided it fits. */
  lemma {:induction false} FixedDigitsRoundTrip(n: nat, w: nat)
    requires n < Pow10(w)
    ensures AllDigits(FixedDigits(n, w)) && DigitsValue(FixedDigits(n, w)) == n
  {
    FixedDigitsDigits(n, w);
    if w > 0 {
      var s := FixedDigits(n, w);
      assert n / 10 < Pow10(w - 1);
      FixedDigitsRoundTrip(n / 10, w - 1);
      assert s[..|s| - 1] == FixedDigits(n / 10, w - 1);
    }
  }

  lemma FixedDigitsInjective(n: nat, m: nat, w: nat)
    requires n < Pow10(w) && m < Pow10(w)
    ensures FixedDigits(n, w) == FixedDigits(m, w) <==> n == m
  {
    FixedDigitsRoundTrip(n, w);
    FixedDigitsRoundTrip(m, w);
  }

  /** `os << n` writes exactly |Unsigned(n)| digits: n fits in them, and needs all of them. */
  lemma {:induction false} UnsignedIsFixed(n: nat)
    ensures Unsigned(n) == FixedDigits(n, |Unsigned(n)|)
    ensures n < Pow10(|Unsigned(n)|)
    ensures |Unsigned(n)| > 1 ==> Pow10(|Unsigned(n)| - 1) <= n
  {
    if n >= 10 {
      UnsignedIsFixed(n / 10);
    }
  }

  lemma {:induction false} FixedDigitsOfZero(w: nat)
    ensures FixedDigits(0, w) == seq(w, _ => '0')
  {
    if w > 0 {
      FixedDigitsOfZero(w - 1);
    }
  }

  /** Widening a fixed-width field that already holds n only adds leading zeros. */
  lemma {:induction false} FixedDigitsWiden(n: nat, k: nat, w: nat)
    requires n < Pow10(k) && k <= w
    ensures FixedDigits(n, w) == seq(w - k, _ => '0') + FixedDigits(n, k)
  {
    if k == 0 {
      FixedDigitsOfZero(w);
    } else {
      assert n / 10 < Pow10(k - 1);
      FixedDigitsWiden(n / 10, k - 1, w - 1);
    }
  }

  /** A number below 10^w needs at most w digits. */
  lemma {:induction false} UnsignedFits(n: nat, w: nat)
    requires 1 <= w && n < Pow10(w)
    ensures |Unsigned(n)| <= w
  {
    if n >= 10 {
      assert w >= 2;
      assert n / 10 < Pow10(w - 1);
      UnsignedFits(n / 10, w - 1);
    }
  }

  /** A number of at least 10^(w-1) needs at least w digits. */
  lemma {:induction false} UnsignedNeeds(n: nat, w: nat)
    requires 1 <= w && Pow10(w - 1) <= n
    ensures w <= |Unsigned(n)|
  {
    if w > 1 {
      assert n / 10 >= Pow10(w - 2);
      UnsignedNeeds(n / 10, w - 1);
    }
  }

  /** Zero-padding a number that fits in w digits gives exactly its w-digit field. */
  lemma PaddedIsFixed(n: nat, w: nat)
    requires 1 <= w && n < Pow10(w)
    ensures Padded(n, w) == FixedDigits(n, w)
  {
    UnsignedIsFixed(n);
    UnsignedFits(n, w);
    FixedDigitsWiden(n, |Unsigned(n)|, w);
  }

  /** A number with exactly w digits is written as its w-digit field. */
  lemma DecimalIsFixed(n: nat, w: nat)
    requires 1 <= w && Pow10(w - 1) <= n < Pow10(w)
    ensures Decimal(n) == FixedDigits(n, w)
  {
    UnsignedIsFixed(n);
    UnsignedFits(n, w);
    UnsignedNeeds(n, w);
  }

  lemma LexIrreflexive(a: string)
    ensures !LexLess(a, a)
    decreases |a|
  {
    if |a| > 0 {
      LexIrreflexive(a[1..]);
    }
  }

  /** Comparing two strings that start with blocks of the same length compares the blocks first. */
  lemma {:induction false} LexAppend(a1: string, a2: string, b1: string, b2: string)
    requires |a1| == |b1|
    ensures LexLess(a1 + a2, b1 + b2) <==> LexLess(a1, b1) || (a1 == b1 && LexLess(a2, b2))
    decreases |a1|
  {
    if |a1| == 0 {
      assert a1 + a2 == a2 && b1 + b2 == b2;
    } else {
      assert (a1 + a2)[1..] == a1[1..] + a2;
      assert (b1 + b2)[1..] == b1[1..] + b2;
      LexAppend(a1[1..], a2, b1[1..], b2);
      if a1[0] == b1[0] {
        assert a1 == b1 <==> a1[1..] == b1[1..] by {
          if a1[1..] == b1[1..] {
            assert a1 == [a1[0]] + a1[1..] && b1 == [b1[0]] + b1[1..];
          }
        }
      }
    }
  }

  lemma DivModLess(n: nat, m: nat)
    ensures n < m <==> n / 10 < m / 10 || (n / 10 == m / 10 && n % 10 < m % 10)
  {
    assert n == 10 * (n / 10) + n % 10;
    assert m == 10 * (m / 10) + m % 10;
  }

  /** Fixed-width digit fields compare as strings exactly as their numbers compare. */
  lemma {:induction false} FixedDigitsOrder(n: nat, m: nat, w: nat)
    requires n < Pow10(w) && m < Pow10(w)
    ensures LexLess(FixedDigits(n, w), FixedDigits(m, w)) <==> n < m
  {
    if w == 0 {
      LexIrreflexive([]);
    } else {
      assert n / 10 < Pow10(w - 1) && m / 10 < Pow10(w - 1);
      var hn, hm := FixedDigits(n / 10, w - 1), FixedDigits(m / 10, w - 1);
      var dn, dm := DigitChar(n % 10), DigitChar(m % 10);
      LexAppend(hn, [dn], hm, [dm]);
      FixedDigitsOrder(n / 10, m / 10, w - 1);
      FixedDigitsInjective(n / 10, m / 10, w - 1);
      assert LexLess([dn], [dm]) <==> n % 10 < m % 10;
      DivModLess(n, m);
    }
  }
}
