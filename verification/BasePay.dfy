/** Base pay: hours × wage accumulated as decimals, rounded up to whole won once. Every decimal operation is
    rounded by the ambient context; the context is the parameter `rnd`. */
module BasePay {
  datatype RatedSegment = RatedSegment(hours: real, hourlyWage: nat)
  datatype Line = Line(hours: real, hourlyWage: nat, subtotal: real)
  datatype PayResult = NegativeHours | Paid(amountKrw: int, gross: real, explanation: seq<Line>)

  /** ROUND_CEILING to whole won. */
  function CeilWon(amount: real): int { -(-amount).Floor }

  function Times(hours: real, wage: nat): real { hours * wage as real }

  function GrossTotal(segments: seq<RatedSegment>, rnd: real -> real): real {
    if segments == [] then 0.0
    else
      var last := segments[|segments| - 1];
      rnd(GrossTotal(segments[..|segments| - 1], rnd) + rnd(Times(last.hours, last.hourlyWage)))
  }

  function Explained(segments: seq<RatedSegment>, rnd: real -> real): seq<Line> {
    seq(|segments|, i requires 0 <= i < |segments| =>
      Line(segments[i].hours, segments[i].hourlyWage, rnd(Times(segments[i].hours, segments[i].hourlyWage))))
  }

  method CalculateBasePay(segments: seq<RatedSegment>, rnd: real -> real) returns (r: PayResult)
    ensures r.NegativeHours? <==> exists i :: 0 <= i < |segments| && segments[i].hours < 0.0
    ensures r.Paid? ==> r.gross == GrossTotal(segments, rnd) && r.amountKrw == CeilWon(r.gross)
    ensures r.Paid? ==> r.explanation == Explained(segments, rnd)
  {
    var total := 0.0;
    var explanation: seq<Line> := [];
    for i := 0 to |segments|
      invariant forall k :: 0 <= k < i ==> segments[k].hours >= 0.0
      invariant total == GrossTotal(segments[..i], rnd)
      invariant explanation == Explained(segments, rnd)[..i]
    {
      var seg := segments[i];
      if seg.hours < 0.0 {
        return NegativeHours;
      }
      var subtotal := rnd(Times(seg.hours, seg.hourlyWage));
      assert segments[..i + 1][..i] == segments[..i];
      total := rnd(total + subtotal);
      explanation := explanation + [Line(seg.hours, seg.hourlyWage, subtotal)];
    }
    assert segments[..|segments|] == segments;
    r := Paid(CeilWon(total), total, explanation);
  }

  // ---- The exact pay, and what rounding can do to it ----

  /** Whole microseconds worked at one wage. */
  datatype Work = Work(micros: nat, hourlyWage: nat)

  function PerHour(micros: real): real { micros / 3_600_000_000.0 }

  function HoursOf(micros: nat, rnd: real -> real): real { rnd(PerHour(micros as real)) }

  function Rated(work: seq<Work>, rnd: real -> real): seq<RatedSegment> {
    seq(|work|, i requires 0 <= i < |work| => RatedSegment(HoursOf(work[i].micros, rnd), work[i].hourlyWage))
  }

  function WonMicros(work: seq<Work>): nat {
    if work == [] then 0
    else WonMicros(work[..|work| - 1]) + work[|work| - 1].micros * work[|work| - 1].hourlyWage
  }

  function ExactPay(work: seq<Work>): real { PerHour(WonMicros(work) as real) }

  /** Half a unit in the last of 28 significant digits is at most this. */
  function HalfUnit(x: real): real { x / 2_000_000_000_000_000_000_000_000_000.0 }

  predicate Near(x: real, y: real, tolerance: real) { x - tolerance <= y <= x + tolerance }

  /** A context whose every result is within half a unit in the last place. */
  ghost predicate HalfUlp(rnd: real -> real) { forall x :: x >= 0.0 ==> Near(x, rnd(x), HalfUnit(x)) }

  lemma MulKeeps(a: real, b: real, w: real)
    requires a <= b && 0.0 <= w
    ensures a * w <= b * w
  {
  }

  lemma TimesNear(x: real, h: real, w: nat)
    requires 0.0 <= x && Near(x, h, HalfUnit(x))
    ensures 0.0 <= Times(x, w) && Near(Times(x, w), Times(h, w), HalfUnit(Times(x, w)))
  {
    MulKeeps(x - HalfUnit(x), h, w as real);
    MulKeeps(h, x + HalfUnit(x), w as real);
    MulKeeps(0.0, x, w as real);
    assert (x - HalfUnit(x)) * w as real == x * w as real - HalfUnit(x * w as real);
    assert (x + HalfUnit(x)) * w as real == x * w as real + HalfUnit(x * w as real);
  }

  lemma ProductNear(x: real, h: real, w: nat, s: real)
    requires 0.0 <= x && Near(x, h, HalfUnit(x)) && Near(Times(h, w), s, HalfUnit(Times(h, w)))
    ensures 0.0 <= Times(h, w) && Near(Times(x, w), s, 3.0 * HalfUnit(Times(x, w))) && s >= 0.0
  {
    TimesNear(x, h, w);
  }

  /** One more segment adds at most 2.5e-16 won of error while the pay is at most 10^11 won. */
  lemma SumNear(p: real, t: real, n: nat, q: real, s: real, r: real)
    requires 0.0 <= p && 0.0 <= q && p + q <= 100_000_000_000.0 && n < 1_000_000 && 0.0 <= t && 0.0 <= s
    requires Near(p, t, n as real * 0.000_000_000_000_000_25)
    requires Near(q, s, 3.0 * HalfUnit(q)) && Near(t + s, r, HalfUnit(t + s))
    ensures Near(p + q, r, (n + 1) as real * 0.000_000_000_000_000_25) && r >= 0.0
  {
  }

  lemma {:induction false} TotalDrift(work: seq<Work>, rnd: real -> real)
    requires HalfUlp(rnd) && |work| <= 1_000_000 && ExactPay(work) <= 100_000_000_000.0
    ensures Near(ExactPay(work), GrossTotal(Rated(work, rnd), rnd), |work| as real * 0.000_000_000_000_000_25)
    ensures GrossTotal(Rated(work, rnd), rnd) >= 0.0
  {
    if work != [] {
      var n := |work| - 1;
      var front, last := work[..n], work[n];
      PaySplits(work);
      var x, w := PerHour(last.micros as real), last.hourlyWage;
      var h := rnd(x);
      TimesNear(x, h, w);
      var t, s := GrossTotal(Rated(front, rnd), rnd), rnd(Times(h, w));
      ProductNear(x, h, w, s);
      TotalDrift(front, rnd);
      SumNear(ExactPay(front), t, n, Times(x, w), s, rnd(t + s));
      GrossSplits(work, rnd);
    }
  }

  lemma PaySplits(work: seq<Work>)
    requires work != []
    ensures var front, last := work[..|work| - 1], work[|work| - 1];
      ExactPay(work) == ExactPay(front) + Times(PerHour(last.micros as real), last.hourlyWage)
    ensures Times(PerHour(work[|work| - 1].micros as real), work[|work| - 1].hourlyWage) >= 0.0
  {
    var last := work[|work| - 1];
    assert (last.micros * last.hourlyWage) as real == last.micros as real * last.hourlyWage as real;
  }

  lemma GrossSplits(work: seq<Work>, rnd: real -> real)
    requires work != []
    ensures var front, last := work[..|work| - 1], work[|work| - 1];
      GrossTotal(Rated(work, rnd), rnd)
        == rnd(GrossTotal(Rated(front, rnd), rnd) + rnd(Times(HoursOf(last.micros, rnd), last.hourlyWage)))
  {
    var r := Rated(work, rnd);
    assert r[..|r| - 1] == Rated(work[..|work| - 1], rnd);
    assert r[|r| - 1] == RatedSegment(HoursOf(work[|work| - 1].micros, rnd), work[|work| - 1].hourlyWage);
  }

  /** A total closer to the exact pay than one won-microsecond can only be off by the last won. */
  lemma CeilGap(n: nat, t: real)
    requires PerHour(n as real) - PerHour(1.0) < t < PerHour(n as real) + PerHour(1.0)
    ensures var p := PerHour(n as real);
      || CeilWon(t) == CeilWon(p)
      || (CeilWon(t) == CeilWon(p) + 1 && p == CeilWon(p) as real)
  {
    var q, r := n / 3_600_000_000, n % 3_600_000_000;
    assert n as real == 3_600_000_000.0 * q as real + r as real;
    var p := PerHour(n as real);
    assert p == q as real + PerHour(r as real);
    if r == 0 {
      CeilIs(p, q);
      if t <= p { CeilIs(t, q); } else { CeilIs(t, q + 1); }
    } else {
      CeilIs(p, q + 1);
      CeilIs(t, q + 1);
    }
  }

  lemma CeilIs(x: real, c: int)
    requires c as real - 1.0 < x <= c as real
    ensures CeilWon(x) == c
  {
  }

  /** For any number of segments up to a million and any pay up to 10^11 won: the gross amount is the ceiling
      of the exact pay, or one won more — the latter only when the exact pay is a whole number of won. */
  lemma GrossIsCeilingOrOneMore(work: seq<Work>, rnd: real -> real)
    requires HalfUlp(rnd) && |work| <= 1_000_000 && ExactPay(work) <= 100_000_000_000.0
    ensures var amount := CeilWon(GrossTotal(Rated(work, rnd), rnd));
      || amount == CeilWon(ExactPay(work))
      || (amount == CeilWon(ExactPay(work)) + 1 && ExactPay(work) == CeilWon(ExactPay(work)) as real)
  {
    TotalDrift(work, rnd);
    CeilGap(WonMicros(work), GrossTotal(Rated(work, rnd), rnd));
  }

  /** With exact arithmetic an employee is never short-changed and never gains a whole won. */
  lemma ExactGross(work: seq<Work>, id: real -> real)
    requires forall x :: id(x) == x
    ensures var amount := CeilWon(GrossTotal(Rated(work, id), id));
      ExactPay(work) <= amount as real < ExactPay(work) + 1.0
  {
    ExactTotal(work, id);
  }

  lemma {:induction false} ExactTotal(work: seq<Work>, id: real -> real)
    requires forall x :: id(x) == x
    ensures GrossTotal(Rated(work, id), id) == ExactPay(work)
  {
    if work != [] {
      ExactTotal(work[..|work| - 1], id);
      GrossSplits(work, id);
      PaySplits(work);
    }
  }

  // ---- The extra won does happen ----

  function Pow10(k: nat): real { if k == 0 then 1.0 else 10.0 * Pow10(k - 1) }

  lemma {:induction false} Pow10Positive(k: nat)
    ensures Pow10(k) >= 1.0
  {
    if k > 0 { Pow10Positive(k - 1); }
  }

  function Scale(k: int): real {
    if k >= 0 then Pow10(k) else (Pow10Positive(-k); 1.0 / Pow10(-k))
  }

  const TEN_27 := 1_000_000_000_000_000_000_000_000_000.0

  function Scaled(x: real, k: int): real { x * Scale(k) }

  /** `x` has 28 digits when written in units of 10^-k. */
  predicate Digits28(x: real, k: int) { TEN_27 <= Scaled(x, k) < 10.0 * TEN_27 }

  function HalfEven(x: real): int {
    var d := x - x.Floor as real;
    if d < 0.5 || (d == 0.5 && x.Floor % 2 == 0) then x.Floor else x.Floor + 1
  }

  ghost predicate HasDigits(x: real) { exists k: int :: Digits28(x, k) }

  ghost function DigitsOf(x: real): int
    requires HasDigits(x)
  {
    var k: int :| Digits28(x, k); k
  }

  /** Python's default context: 28 significant digits, ROUND_HALF_EVEN (for positive values). */
  ghost function Round28(x: real): real {
    if HasDigits(x) then
      RoundAt(x, DigitsOf(x))
    else x
  }

  function RoundAt(x: real, k: int): real {
    ScalePositive(k);
    HalfEven(Scaled(x, k)) as real / Scale(k)
  }

  lemma ScalePositive(k: int)
    ensures Scale(k) > 0.0
  {
    Pow10Positive(if k >= 0 then k else -k);
  }

  lemma {:induction false} ScaleGrows(k: int, l: int)
    requires k < l
    ensures Scale(l) >= 10.0 * Scale(k)
    decreases l - k
  {
    ScaleNext(l - 1);
    ScalePositive(l - 1);
    if k < l - 1 { ScaleGrows(k, l - 1); }
  }

  lemma ScaleNext(k: int)
    ensures Scale(k + 1) == 10.0 * Scale(k)
  {
    if k < -1 {
      Pow10Positive(-k);
      Pow10Positive(-k - 1);
      assert Pow10(-k) == 10.0 * Pow10(-k - 1);
    }
  }

  lemma TenTimes(x: real, a: real, b: real, bound: real)
    requires x > 0.0 && 10.0 * a <= b && bound <= x * a
    ensures 10.0 * bound <= x * b
  {
    MulKeeps(10.0 * a, b, x);
  }

  lemma PositiveFactor(x: real, a: real)
    requires a > 0.0 && x * a > 0.0
    ensures x > 0.0
  {
  }

  lemma DigitsUnique(x: real, k: int, l: int)
    requires Digits28(x, k) && Digits28(x, l)
    ensures k == l
  {
    var a, b := Scale(k), Scale(l);
    ScalePositive(k);
    PositiveFactor(x, a);
    if k < l { ScaleGrows(k, l); TenTimes(x, a, b, TEN_27); }
    if l < k { ScaleGrows(l, k); TenTimes(x, b, a, TEN_27); }
  }

  lemma Round28At(x: real, k: int)
    requires Digits28(x, k)
    ensures Round28(x) == RoundAt(x, k)
  {
    assert HasDigits(x);
    DigitsUnique(x, k, DigitsOf(x));
  }

  /** Python's context is one of those the main result is about. */
  lemma Round28IsHalfUlp()
    ensures HalfUlp(Round28)
  {
    forall x | x >= 0.0 ensures Near(x, Round28(x), HalfUnit(x)) { Round28Near(x); }
  }

  lemma Round28Near(x: real)
    requires x >= 0.0
    ensures Near(x, Round28(x), HalfUnit(x))
  {
    if HasDigits(x) {
      var k := DigitsOf(x);
      ScalePositive(k);
      RoundedNear(x, Scale(k), Scaled(x, k), HalfEven(Scaled(x, k)) as real);
    }
  }

  lemma RoundedNear(x: real, c: real, y: real, z: real)
    requires c > 0.0 && y == x * c && y >= TEN_27 && y - 0.5 <= z <= y + 0.5
    ensures Near(x, z / c, HalfUnit(x))
  {
    var r := z / c;
    assert r * c == z;
    assert (x - HalfUnit(x)) * c == y - HalfUnit(y);
    assert (x + HalfUnit(x)) * c == y + HalfUnit(y);
    DivideOut(x - HalfUnit(x), r, c);
    DivideOut(r, x + HalfUnit(x), c);
  }

  lemma DivideOut(a: real, b: real, c: real)
    requires c > 0.0 && a * c <= b * c
    ensures a <= b
  {
  }

  lemma PowersOfTen()
    ensures Pow10(23) == 100_000_000_000_000_000_000_000.0 && Pow10(27) == TEN_27
  {
    assert Pow10(2) == 100.0;
    assert Pow10(4) == 10_000.0;
    assert Pow10(6) == 1_000_000.0;
    assert Pow10(8) == 100_000_000.0;
    assert Pow10(10) == 10_000_000_000.0;
    assert Pow10(12) == 1_000_000_000_000.0;
    assert Pow10(14) == 100_000_000_000_000.0;
    assert Pow10(16) == 10_000_000_000_000_000.0;
    assert Pow10(18) == 1_000_000_000_000_000_000.0;
    assert Pow10(20) == 100_000_000_000_000_000_000.0;
    assert Pow10(22) == 10_000_000_000_000_000_000_000.0;
    assert Pow10(24) == 1_000_000_000_000_000_000_000_000.0;
    assert Pow10(26) == 100_000_000_000_000_000_000_000_000.0;
  }

  /** One hour and forty minutes at 18,000 won is exactly 30,000 won, and is paid 30,001. */
  lemma OneWonTooMuch(work: seq<Work>)
    requires work == [Work(6_000_000_000, 18_000)]
    ensures ExactPay(work) == 30_000.0
    ensures CeilWon(GrossTotal(Rated(work, Round28), Round28)) == 30_001
  {
    assert work[..0] == [] && WonMicros(work) == 108_000_000_000_000;
    GrossSplits(work, Round28);
    assert HoursOf(work[0].micros, Round28) == HOURS by { RoundHours(); }
    RoundSubtotal();
    CeilIs(SUBTOTAL, 30_001);
  }

  const HOURS := 1.666_666_666_666_666_666_666_666_667
  const SUBTOTAL := 30_000.000_000_000_000_000_000_000_01

  lemma RoundHours()
    ensures Round28(PerHour(6_000_000_000.0)) == HOURS
  {
    PowersOfTen();
    var x := PerHour(6_000_000_000.0);
    RoundsTo(x, 27, 1_666_666_666_666_666_666_666_666_667);
  }

  lemma RoundSubtotal()
    ensures Round28(Times(HOURS, 18_000)) == SUBTOTAL && Round28(SUBTOTAL) == SUBTOTAL
  {
    PowersOfTen();
    RoundsTo(Times(HOURS, 18_000), 23, 3_000_000_000_000_000_000_000_000_001);
    RoundsTo(SUBTOTAL, 23, 3_000_000_000_000_000_000_000_000_001);
  }

  /** The number written with 28 digits that is nearest, and of two equally near the one whose last digit is even. */
  lemma RoundsTo(x: real, k: int, digits: int)
    requires Digits28(x, k) && digits as real - 0.5 <= Scaled(x, k) <= digits as real + 0.5
    requires Scaled(x, k) == digits as real - 0.5 || Scaled(x, k) == digits as real + 0.5 ==> digits % 2 == 0
    ensures Scale(k) > 0.0 && Round28(x) == digits as real / Scale(k)
  {
    ScalePositive(k);
    HalfEvenIs(Scaled(x, k), digits);
    Round28At(x, k);
  }

  lemma HalfEvenIs(y: real, digits: int)
    requires digits as real - 0.5 <= y <= digits as real + 0.5
    requires y == digits as real - 0.5 || y == digits as real + 0.5 ==> digits % 2 == 0
    ensures HalfEven(y) == digits
  {
  }
}
