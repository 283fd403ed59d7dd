/**
 Saturating arithmetic on fixed-width integers, from the operations that wrap around and report
 overflow, and the durations that are computed with it.

 `Int` is 64 bits wide. The conversion of attoseconds to milliseconds, which the source does on
 floating-point numbers, is taken to be exact.
 */
module Saturating {
  import opened Common

  type Bits = n: nat | 1 <= n witness 64

  datatype Width = Signed(bits: Bits) | Unsigned(bits: Bits) {
    function Size(): nat {
      Pow2(bits)
    }

    function Min(): int {
      if Signed? then 0 - Pow2(bits - 1) else 0
    }

    function Max(): int {
      Min() + Size() - 1
    }

    predicate Holds(x: int) {
      Min() <= x <= Max()
    }

    function Clamp(x: int): int {
      if x < Min() then Min() else if x > Max() then Max() else x
    }
  }

  function Pow2(n: nat): (r: nat)
    ensures 1 <= r
  {
    if n == 0 then 1 else 2 * Pow2(n - 1)
  }

  function Distance(w: Width, x: int): nat {
    if x < w.Min() then w.Min() - x else if x > w.Max() then x - w.Max() else 0
  }

  /** The value of this width that differs from `x` by a multiple of the size. */
  function Wrap(w: Width, x: int): int
    decreases Distance(w, x)
  {
    if x < w.Min() then Wrap(w, x + w.Size())
    else if x > w.Max() then Wrap(w, x - w.Size())
    else x
  }

  function Signum(x: int): int {
    if x < 0 then -1 else if x == 0 then 0 else 1
  }

  function ReportingOverflow(w: Width, x: int): (int, bool) {
    (Wrap(w, x), !w.Holds(x))
  }

  function SaturatingMultiplication(w: Width, x: int, y: int): int {
    var (partialValue, isOverflow) := ReportingOverflow(w, x * y);
    if isOverflow then (if Signum(x) == Signum(y) then w.Max() else w.Min()) else partialValue
  }

  function SaturatingAddition(w: Width, x: int, y: int): int {
    var (partialValue, isOverflow) := ReportingOverflow(w, x + y);
    if isOverflow then (if Signum(partialValue) >= 0 then w.Min() else w.Max()) else partialValue
  }

  function SaturatingSubtraction(w: Width, x: int, y: int): int {
    var (partialValue, isOverflow) := ReportingOverflow(w, x - y);
    if isOverflow then (if Signum(partialValue) >= 0 then w.Min() else w.Max()) else partialValue
  }

  function Multiple(k: int, n: nat): int {
    k * n
  }

  lemma NextMultiple(k: int, n: nat)
    ensures Multiple(k + 1, n) == Multiple(k, n) + n
  {}

  /** Wrapping keeps the residue. */
  lemma {:induction false} WrapIsCongruent(w: Width, x: int) returns (k: int)
    ensures w.Holds(Wrap(w, x))
    ensures Wrap(w, x) == x + Multiple(k, w.Size())
    decreases Distance(w, x)
  {
    k := 0;
    if x < w.Min() {
      var l := WrapIsCongruent(w, x + w.Size());
      NextMultiple(l, w.Size());
      k := l + 1;
    } else if x > w.Max() {
      var l := WrapIsCongruent(w, x - w.Size());
      NextMultiple(l - 1, w.Size());
      k := l - 1;
    }
  }

  lemma HalfSize(w: Width)
    ensures w.Size() == 2 * Pow2(w.bits - 1)
    ensures w.Min() < w.Max() || w.bits == 1
  {}

  /** A sum or difference that overflows is one size away from its wrapped value. */
  lemma WrapOnce(w: Width, x: int)
    requires w.Min() - w.Size() <= x <= w.Max() + w.Size()
    ensures Wrap(w, x) == if x < w.Min() then x + w.Size() else if x > w.Max() then x - w.Size() else x
  {
    if x < w.Min() {
      assert w.Holds(x + w.Size());
    } else if x > w.Max() {
      assert w.Holds(x - w.Size());
    }
  }

  /**
   Addition clamps at every signed width. At an unsigned width it does so exactly when nothing
   overflows: the wrapped sum is then never negative, and the minimum is returned.
   */
  lemma AdditionClampsIff(w: Width, x: int, y: int)
    requires w.Holds(x) && w.Holds(y)
    ensures SaturatingAddition(w, x, y) == w.Clamp(x + y) <==> w.Signed? || x + y <= w.Max()
  {
    HalfSize(w);
    WrapOnce(w, x + y);
  }

  /** Subtraction clamps at every width. */
  lemma SubtractionClamps(w: Width, x: int, y: int)
    requires w.Holds(x) && w.Holds(y)
    ensures SaturatingSubtraction(w, x, y) == w.Clamp(x - y)
  {
    HalfSize(w);
    WrapOnce(w, x - y);
  }

  lemma SignOfProduct(x: int, y: int)
    ensures x * y > 0 <==> Signum(x) == Signum(y) != 0
    ensures x * y == 0 <==> x == 0 || y == 0
  {
    if x > 0 && y < 0 {
      assert x * -y > 0;
    } else if x < 0 && y > 0 {
      assert -x * y > 0;
    } else if x < 0 && y < 0 {
      assert -x * -y > 0;
    }
  }

  /** Multiplication clamps at every width. */
  lemma {:induction false} MultiplicationClamps(w: Width, x: int, y: int)
    requires w.Holds(x) && w.Holds(y)
    ensures SaturatingMultiplication(w, x, y) == w.Clamp(x * y)
  {
    SignOfProduct(x, y);
    HalfSize(w);
  }

  /** An unsigned counter that is advanced by saturating addition starts over at zero. */
  lemma UnsignedCounterRestarts(bits: Bits)
    ensures var w := Unsigned(bits);
            SaturatingAddition(w, w.Max(), 1) == 0 < w.Clamp(w.Max() + 1)
  {
    HalfSize(Unsigned(bits));
    WrapOnce(Unsigned(bits), Unsigned(bits).Max() + 1);
  }

  // ----- durations

  const INT := Signed(64)
  const ATTOSECONDS_IN_MILLISECOND := 1_000_000_000_000_000

  datatype Duration = Duration(seconds: int, attoseconds: int)

  /** Division that rounds toward zero. */
  function Quotient(x: int, y: int): int
    requires y > 0
  {
    if x >= 0 then x / y else -(-x / y)
  }

  /** The remainder that goes with it and has the sign of `x`. */
  function Remainder(x: int, y: int): int
    requires y > 0
  {
    x - Quotient(x, y) * y
  }

  predicate IsDuration(d: Duration) {
    INT.Holds(d.seconds) && INT.Holds(d.attoseconds)
  }

  lemma Pow2Byte(n: nat)
    ensures Pow2(n + 8) == 256 * Pow2(n)
  {
    assert Pow2(n + 8) == 2 * Pow2(n + 7) == 4 * Pow2(n + 6) == 8 * Pow2(n + 5);
    assert Pow2(n + 5) == 2 * Pow2(n + 4) == 4 * Pow2(n + 3) == 8 * Pow2(n + 2);
    assert Pow2(n + 2) == 2 * Pow2(n + 1) == 4 * Pow2(n);
  }

  lemma IntBounds()
    ensures INT.Min() == -0x8000_0000_0000_0000 && INT.Max() == 0x7fff_ffff_ffff_ffff
  {
    Pow2Byte(0);
    Pow2Byte(8);
    Pow2Byte(16);
    Pow2Byte(24);
    Pow2Byte(32);
    Pow2Byte(40);
    Pow2Byte(48);
    Pow2Byte(56);
    assert Pow2(64) == 0x1_0000_0000_0000_0000 == 2 * Pow2(63);
  }

  /** `Duration.milliseconds`. */
  function Milliseconds(ms: int): Duration {
    var subSeconds := Remainder(ms, 1000);
    Duration(Quotient(ms - subSeconds, 1000), subSeconds * ATTOSECONDS_IN_MILLISECOND)
  }

  /** Reading a duration in milliseconds; the sum is a plain one, which traps on overflow. */
  function ReadMilliseconds(d: Duration): Option<int> {
    var sum := SaturatingMultiplication(INT, d.seconds, 1000) + Quotient(d.attoseconds, ATTOSECONDS_IN_MILLISECOND);
    if INT.Holds(sum) then Some(sum) else None
  }

  function Plus(a: Duration, b: Duration): Option<Duration> {
    match (ReadMilliseconds(a), ReadMilliseconds(b))
    case (Some(x), Some(y)) => Some(Milliseconds(SaturatingAddition(INT, x, y)))
    case _ => None
  }

  function Minus(a: Duration, b: Duration): Option<Duration> {
    match (ReadMilliseconds(a), ReadMilliseconds(b))
    case (Some(x), Some(y)) => Some(Milliseconds(SaturatingSubtraction(INT, x, y)))
    case _ => None
  }

  function Times(a: Duration, n: int): Option<Duration> {
    match ReadMilliseconds(a)
    case Some(x) => Some(Milliseconds(SaturatingMultiplication(INT, x, n)))
    case None => None
  }

  /** Every number of milliseconds becomes a proper duration and is read back unchanged. */
  lemma {:induction false} MillisecondsRoundTrip(ms: int)
    requires INT.Holds(ms)
    ensures IsDuration(Milliseconds(ms)) && ReadMilliseconds(Milliseconds(ms)) == Some(ms)
    ensures var d := Milliseconds(ms);
            && d.seconds * 1000 * ATTOSECONDS_IN_MILLISECOND + d.attoseconds == ms * ATTOSECONDS_IN_MILLISECOND
            && -1000 * ATTOSECONDS_IN_MILLISECOND < d.attoseconds < 1000 * ATTOSECONDS_IN_MILLISECOND
  {
    IntBounds();
    var q, r := Quotient(ms, 1000), Remainder(ms, 1000);
    assert Quotient(q * 1000, 1000) == q;
    assert Quotient(r * ATTOSECONDS_IN_MILLISECOND, ATTOSECONDS_IN_MILLISECOND) == r;
    MultiplicationClamps(INT, q, 1000);
  }

  /**
   Reading gives the exact number of milliseconds exactly when neither the seconds alone nor the
   whole exceed the range.
   */
  lemma {:induction false} ReadsExactlyIff(d: Duration)
    requires IsDuration(d)
    ensures var exact := d.seconds * 1000 + Quotient(d.attoseconds, ATTOSECONDS_IN_MILLISECOND);
            ReadMilliseconds(d) == Some(exact) <==> INT.Holds(d.seconds * 1000) && INT.Holds(exact)
  {
    IntBounds();
    MultiplicationClamps(INT, d.seconds, 1000);
  }

  /** The operators are clamped integer arithmetic on milliseconds, whenever their operands can be read. */
  lemma {:induction false} OperatorsClamp(a: Duration, b: Duration, x: int, y: int, n: int)
    requires ReadMilliseconds(a) == Some(x) && ReadMilliseconds(b) == Some(y) && INT.Holds(n)
    ensures Plus(a, b).Some? && ReadMilliseconds(Plus(a, b).value) == Some(INT.Clamp(x + y))
    ensures Minus(a, b).Some? && ReadMilliseconds(Minus(a, b).value) == Some(INT.Clamp(x - y))
    ensures Times(a, n).Some? && ReadMilliseconds(Times(a, n).value) == Some(INT.Clamp(x * n))
  {
    IntBounds();
    AdditionClampsIff(INT, x, y);
    MillisecondsRoundTrip(INT.Clamp(x + y));
    SubtractionClamps(INT, x, y);
    MillisecondsRoundTrip(INT.Clamp(x - y));
    MultiplicationClamps(INT, x, n);
    MillisecondsRoundTrip(INT.Clamp(x * n));
  }
}
