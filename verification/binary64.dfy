/** Whole numbers as IEEE 754 binary64 words (section 3.4 of IEEE 754): what `struct`
    makes of an integer handed to a GAUGE field. Below 2^53 that is exact; above, the
    number is rounded to the nearest word, ties to even (section 4.3.1). */
module Binary64 {
  import opened Wrappers
  import opened Bytes

  const TWO_52: int := 0x10_0000_0000_0000
  const TWO_53: int := 0x20_0000_0000_0000

  type Word = w: nat | w < TWO_64

  function Pow2(k: nat): (p: int)
    ensures p > 0
  {
    if k == 0 then 1 else 2 * Pow2(k - 1)
  }

  lemma {:induction false} Pow2Adds(a: nat, b: nat)
    ensures Pow2(a + b) == Pow2(a) * Pow2(b)
  {
    if a > 0 {
      Pow2Adds(a - 1, b);
      assert Pow2(a + b) == 2 * Pow2(a - 1 + b);
      assert Pow2(a) * Pow2(b) == 2 * (Pow2(a - 1) * Pow2(b));
    }
  }

  lemma Pow2At52()
    ensures Pow2(52) == TWO_52
  {
    assert Pow2(13) == 0x2000;
    Pow2Adds(13, 13);
    Pow2Adds(26, 26);
  }

  /** Position of the leading bit. */
  function Exponent(n: int): (e: nat)
    requires n > 0
    ensures Pow2(e) <= n < 2 * Pow2(e)
  {
    if n == 1 then 0 else 1 + Exponent(n / 2)
  }

  lemma ScaleBounds(n: int, a: int, p: int)
    requires a <= n < 2 * a && p > 0
    ensures a * p <= n * p < 2 * (a * p)
  {
    assert (n - a) * p >= 0;
    assert (2 * a - n) * p > 0;
  }

  lemma {:induction false} Pow2Monotone(a: nat, b: nat)
    requires a <= b
    ensures Pow2(a) <= Pow2(b)
  {
    Pow2Adds(a, b - a);
    assert Pow2(a) * (Pow2(b - a) - 1) >= 0;
  }

  /** The significand, leading bit included, has 53 bits. */
  lemma {:induction false} Significand(n: int)
    requires 0 < n < TWO_53
    ensures Exponent(n) <= 52
    ensures TWO_52 <= n * Pow2(52 - Exponent(n)) < TWO_53
  {
    var e := Exponent(n);
    Pow2At52();
    assert Pow2(53) == TWO_53;
    if e > 52 {
      Pow2Monotone(53, e);
    }
    ScaleBounds(n, Pow2(e), Pow2(52 - e));
    Pow2Adds(e, 52 - e);
  }

  function Abs(x: int): nat {
    if x >= 0 then x else -x
  }

  /** `n / p` to the nearest whole number, ties to even. */
  function RoundedQuotient(n: nat, p: int): nat
    requires p > 0
  {
    var q, r := n / p, n % p;
    if 2 * r > p || (2 * r == p && q % 2 == 1) then q + 1 else q
  }

  /** The word of a positive number; INFINITE or more when no double is that large. */
  function RoundedWord(n: int): (w: nat)
    requires n > 0
  {
    var e := Exponent(n);
    if e <= 52 then
      assert n < TWO_53 by { SmallExponent(n); }
      Significand(n);
      (e + 1023) * TWO_52 + (n * Pow2(52 - e) - TWO_52)
    else
      RoundedSignificand(n);
      // a significand rounded up to 2^53 carries into the exponent
      (e + 1023) * TWO_52 + (RoundedQuotient(n, Pow2(e - 52)) - TWO_52)
  }

  /** The greatest exponent of a double, and the first word past all doubles. */
  const TOP: nat := 1023
  const INFINITE: int := 2047 * TWO_52

  lemma {:induction false} SmallExponent(n: int)
    requires n > 0
    ensures Exponent(n) <= 52 <==> n < TWO_53
  {
    Pow2At52();
    var e := Exponent(n);
    if e <= 52 {
      Pow2Monotone(e, 52);
    } else {
      assert Pow2(53) == TWO_53;
      Pow2Monotone(53, e);
    }
  }

  lemma {:induction false} RoundedSignificand(n: int)
    requires n > 0 && Exponent(n) > 52
    ensures TWO_52 <= RoundedQuotient(n, Pow2(Exponent(n) - 52)) <= TWO_53
  {
    var e := Exponent(n);
    Pow2At52();
    Pow2Adds(52, e - 52);
    QuotientBounds(n, TWO_52, Pow2(e - 52));
  }

  lemma QuotientBounds(n: int, a: int, p: int)
    requires p > 0 && a > 0 && a * p <= n < 2 * (a * p)
    ensures a <= n / p < 2 * a
  {
    var q, r := n / p, n % p;
    assert n == q * p + r;
    assert (q - a) * p == q * p - a * p;
    assert (q - 2 * a) * p == q * p - 2 * (a * p);
    MultipleAtLeast(q - a, p);
    MultipleAtLeast(q - 2 * a, p);
  }

  /** None when no double is large enough. */
  function WordOf(n: int): Option<Word> {
    if n == 0 then Some(0)
    else
      var w := RoundedWord(Abs(n));
      if w >= INFINITE then None else Some(if n > 0 then w else TWO_63 + w)
  }

  /** The whole number a word stands for; None when it is not one below 2^53. */
  function WholeOfPositive(w: nat): Option<int>
    requires w < TWO_63
  {
    var exponent, mantissa := w / TWO_52 - 1023, w % TWO_52;
    if 0 <= exponent <= 52 && (TWO_52 + mantissa) % Pow2(52 - exponent) == 0
    then Some((TWO_52 + mantissa) / Pow2(52 - exponent))
    else None
  }

  function WholeOf(w: Word): Option<int> {
    var magnitude := if w >= TWO_63 then w - TWO_63 else w;
    if magnitude == 0 then Some(0)
    else
      match WholeOfPositive(magnitude)
      case None => None
      case Some(n) => Some(if w >= TWO_63 then -n else n)
  }

  lemma MultipleAtLeast(d: int, p: int)
    requires p > 0
    ensures d >= 1 ==> d * p >= p
    ensures d <= -1 ==> d * p <= -p
  {
    if d >= 1 {
      assert (d - 1) * p >= 0;
    } else if d <= -1 {
      assert (-d - 1) * p >= 0;
    }
  }

  lemma DivideBack(n: int, p: int)
    requires p > 0
    ensures (n * p) % p == 0 && (n * p) / p == n
  {
    var q, r := (n * p) / p, (n * p) % p;
    assert n * p == q * p + r;
    assert (n - q) * p == r;
    MultipleAtLeast(n - q, p);
  }

  lemma SplitFields(hi: int, lo: int)
    requires 0 <= lo < TWO_52
    ensures (hi * TWO_52 + lo) / TWO_52 == hi && (hi * TWO_52 + lo) % TWO_52 == lo
  {
  }

  lemma PositiveRoundTrip(n: int)
    requires 0 < n < TWO_53
    ensures 0 < RoundedWord(n) < INFINITE && WholeOfPositive(RoundedWord(n)) == Some(n)
  {
    SmallExponent(n);
    Significand(n);
    var e := Exponent(n);
    var scaled := n * Pow2(52 - e);
    SplitFields(e + 1023, scaled - TWO_52);
    DivideBack(n, Pow2(52 - e));
    assert RoundedWord(n) == (e + 1023) * TWO_52 + (scaled - TWO_52);
  }

  /** Every whole number below 2^53 in magnitude survives the trip through a double. */
  lemma WholeRoundTrip(n: int)
    requires -TWO_53 < n < TWO_53
    ensures WordOf(n).Some? && WholeOf(WordOf(n).value) == Some(n)
  {
    if n > 0 {
      PositiveRoundTrip(n);
    } else if n < 0 {
      PositiveRoundTrip(-n);
    }
  }

  // ----- Larger numbers -----

  /** The number a positive word of exponent 52 or more stands for. */
  function LargeValue(w: nat): int
    requires w / TWO_52 >= 1023 + 52
  {
    (TWO_52 + w % TWO_52) * Pow2(w / TWO_52 - 1023 - 52)
  }

  lemma NearestMultiple(n: nat, p: int, m: int)
    requires p > 0
    ensures var q := RoundedQuotient(n, p);
      Abs(q * p - n) <= Abs(m * p - n) && 2 * Abs(q * p - n) <= p && (2 * Abs(q * p - n) == p ==> q % 2 == 0)
  {
    var a, r := n / p, n % p;
    assert n == a * p + r;
    assert (a + 1) * p == a * p + p;
    assert m * p == a * p + (m - a) * p;
    MultipleAtLeast(m - a, p);
    MultipleAtLeast(m - a - 1, p);
    assert (m - a - 1) * p == (m - a) * p - p;
  }

  /** A word put together from a biased exponent and a significand of 53 bits, or of
      one more by rounding up. */
  lemma WordParts(w: nat, e: nat, q: nat)
    requires e > 52 && TWO_52 <= q <= TWO_53 && w == (e + 1023) * TWO_52 + (q - TWO_52)
    ensures w / TWO_52 > 1023 + 52 && LargeValue(w) == q * Pow2(e - 52)
  {
    if q == TWO_53 {
      assert w == (e + 1 + 1023) * TWO_52 + 0;
      SplitFields(e + 1 + 1023, 0);
      assert Pow2(e + 1 - 52) == 2 * Pow2(e - 52);
    } else {
      SplitFields(e + 1023, q - TWO_52);
    }
  }

  lemma {:induction false} LargeValueIs(n: int)
    requires n >= TWO_53
    ensures Exponent(n) > 52 && RoundedWord(n) / TWO_52 > 1023 + 52
    ensures var p := Pow2(Exponent(n) - 52);
      LargeValue(RoundedWord(n)) == RoundedQuotient(n, p) * p
  {
    SmallExponent(n);
    RoundedSignificand(n);
    var e := Exponent(n);
    WordParts(RoundedWord(n), e, RoundedQuotient(n, Pow2(e - 52)));
  }

  /** Above 2^53 a number becomes a nearest one among the multiples of the unit in the
      last place, which all doubles of its size are; of two nearest, the even one. */
  lemma {:induction false} LargeRoundsToNearest(n: int, m: int)
    requires n >= TWO_53
    ensures Exponent(n) > 52 && RoundedWord(n) / TWO_52 >= 1023 + 52
    ensures var v, unit := LargeValue(RoundedWord(n)), Pow2(Exponent(n) - 52);
      && Abs(v - n) <= Abs(m * unit - n)
      && (2 * Abs(v - n) == unit ==> v / unit % 2 == 0)
  {
    LargeValueIs(n);
    NearestMultiple(n, Pow2(Exponent(n) - 52), m);
    DivideBack(RoundedQuotient(n, Pow2(Exponent(n) - 52)), Pow2(Exponent(n) - 52));
  }

  /** 2^1024 less half the last unit before it. */
  function Limit(): int {
    TWO_53 * Pow2(TOP - 52) - Pow2(TOP - 53)
  }

  /** A number has a word iff it is below the limit. */
  lemma HasWordIff(n: int)
    ensures WordOf(n).Some? <==> Abs(n) < Limit()
  {
    if n != 0 {
      PositiveHasWordIff(Abs(n));
    } else {
      assert Limit() > 0 by {
        assert Pow2(TOP - 52) == 2 * Pow2(TOP - 53);
      }
    }
  }

  /** The limit lies among the numbers of the greatest exponent. */
  lemma LimitBounds()
    ensures Pow2(TOP) <= Limit() <= 2 * Pow2(TOP)
    ensures Limit() == TWO_53 * Pow2(TOP - 52) - Pow2(TOP - 53) && Pow2(TOP - 52) == 2 * Pow2(TOP - 53)
    ensures Pow2(TOP) == TWO_52 * Pow2(TOP - 52)
  {
    Pow2At52();
    Pow2Adds(52, TOP - 52);
  }

  lemma PositiveHasWordIff(n: int)
    requires n > 0
    ensures RoundedWord(n) < INFINITE <==> n < Limit()
  {
    var e := Exponent(n);
    if e < TOP {
      SmallerHasWord(n);
    } else if e > TOP {
      LargerHasNone(n);
    } else {
      TopHasWordIff(n);
    }
  }

  lemma {:induction false} TopHasWordIff(n: int)
    requires n > 0 && Exponent(n) == TOP
    ensures RoundedWord(n) < INFINITE <==> n < Limit()
  {
    LimitBounds();
    TopRound(n, Pow2(TOP - 52), Pow2(TOP - 53));
  }

  lemma {:induction false} LargerHasNone(n: int)
    requires n > 0 && Exponent(n) > TOP
    ensures RoundedWord(n) >= INFINITE && n >= Limit()
  {
    LimitBounds();
    Pow2Monotone(TOP + 1, Exponent(n));
    RoundedSignificand(n);
  }

  lemma {:induction false} SmallerHasWord(n: int)
    requires n > 0 && Exponent(n) < TOP
    ensures RoundedWord(n) < INFINITE && n < Limit()
  {
    LimitBounds();
    Pow2Monotone(Exponent(n) + 1, TOP);
    if Exponent(n) <= 52 {
      SmallExponent(n);
      Significand(n);
    } else {
      RoundedSignificand(n);
    }
  }

  lemma TopRound(n: int, p: int, half: int)
    requires p == 2 * half && half > 0 && TWO_52 * p <= n < TWO_53 * p
    ensures RoundedQuotient(n, p) <= TWO_53
    ensures RoundedQuotient(n, p) == TWO_53 <==> n >= TWO_53 * p - half
  {
    var q, r := n / p, n % p;
    assert n == q * p + r;
    QuotientBounds(n, TWO_52, p);
    MultipleAtLeast(q - (TWO_53 - 1), p);
    assert (q - (TWO_53 - 1)) * p == q * p - TWO_53 * p + p;
  }

  /** No word of such a number is read as a whole number below 2^53. */
  lemma LargeIsNotWhole(n: int)
    requires Abs(n) >= TWO_53 && WordOf(n).Some?
    ensures WholeOf(WordOf(n).value) == None
  {
    LargeValueIs(Abs(n));
  }

  /** So a word made of a whole number is read as that number or not at all. */
  lemma WholeOrNothing(n: int)
    requires WordOf(n).Some?
    ensures WholeOf(WordOf(n).value) == if Abs(n) < TWO_53 then Some(n) else None
  {
    if Abs(n) < TWO_53 {
      WholeRoundTrip(n);
    } else {
      LargeIsNotWhole(n);
    }
  }

  // ----- What the bits mean -----

  /** Sign in bit 63, the exponent with a bias of 1023 in the next eleven, and 52 bits of
      the significand without its leading one: below 2^53 these are the number's own. */
  lemma WordMeans(n: int)
    requires 0 < Abs(n) < 0x20_0000_0000_0000
    ensures WordOf(n).Some?
    ensures var w := WordOf(n).value;
      var e, f := w % 0x8000_0000_0000_0000 / 0x10_0000_0000_0000, w % 0x10_0000_0000_0000;
      && (w >= 0x8000_0000_0000_0000 <==> n < 0)
      && 1023 <= e <= 1023 + 52
      && Abs(n) * Pow2(1023 + 52 - e) == 0x10_0000_0000_0000 + f
  {
    WholeRoundTrip(n);
    RoundedWordMeans(Abs(n));
    SignApart(RoundedWord(Abs(n)));
  }

  lemma RoundedWordMeans(m: int)
    requires 0 < m < TWO_53
    ensures var w := RoundedWord(m);
      && w < TWO_63 && 1023 <= w / TWO_52 <= 1023 + 52
      && m * Pow2(1023 + 52 - w / TWO_52) == TWO_52 + w % TWO_52
  {
    SmallExponent(m);
    Significand(m);
    SplitFields(Exponent(m) + 1023, m * Pow2(52 - Exponent(m)) - TWO_52);
  }

  lemma SignApart(m: nat)
    requires m < TWO_63
    ensures m % TWO_63 == m && (TWO_63 + m) % TWO_63 == m
    ensures (TWO_63 + m) % TWO_52 == m % TWO_52
  {
    assert TWO_63 == 2048 * TWO_52;
  }

  /** And zero is all bits zero. */
  lemma ZeroWord()
    ensures WordOf(0) == Some(0)
  {
  }
}
