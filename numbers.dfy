/** Floating-point column values as pandas holds them, reduced to what the
    model needs: a finite value or one of the three special values that
    division by zero and arithmetic on them produce. Rounding is not
    modelled (finite values are exact reals) and a negative zero is not
    distinguished from zero. */
module Numbers {

  datatype Num = Fin(v: real) | PosInf | NegInf | NaN

  predicate IsInf(x: Num) { x.PosInf? || x.NegInf? }

  /** -x */
  function Neg(x: Num): Num
  {
    match x
    case Fin(v) => Fin(-v)
    case PosInf => NegInf
    case NegInf => PosInf
    case NaN => NaN
  }

  /** The infinity whose sign is `positive`. */
  function Inf(positive: bool): (r: Num)
    ensures IsInf(r)
  {
    if positive then PosInf else NegInf
  }

  /** x + y */
  function Add(x: Num, y: Num): (r: Num)
    ensures x.Fin? && y.Fin? ==> r == Fin(x.v + y.v)
    ensures x.NaN? || y.NaN? ==> r.NaN?
  {
    match (x, y)
    case (NaN, _) => NaN
    case (_, NaN) => NaN
    case (Fin(a), Fin(b)) => Fin(a + b)
    case (PosInf, NegInf) => NaN
    case (NegInf, PosInf) => NaN
    case (PosInf, _) => PosInf
    case (NegInf, _) => NegInf
    case (_, PosInf) => PosInf
    case (_, NegInf) => NegInf
  }

  /** x - y */
  function Sub(x: Num, y: Num): (r: Num)
    ensures x.Fin? && y.Fin? ==> r == Fin(x.v - y.v)
  {
    Add(x, Neg(y))
  }

  /** The sign of a non-NaN value: +1, 0 or -1. */
  function Sign(x: Num): int
    requires !x.NaN?
  {
    match x
    case Fin(v) => if v > 0.0 then 1 else if v < 0.0 then -1 else 0
    case PosInf => 1
    case NegInf => -1
  }

  /** x * y */
  function Mul(x: Num, y: Num): (r: Num)
    ensures x.Fin? && y.Fin? ==> r == Fin(x.v * y.v)
  {
    if x.NaN? || y.NaN? then NaN
    else if x.Fin? && y.Fin? then Fin(x.v * y.v)
    else if Sign(x) == 0 || Sign(y) == 0 then NaN      // infinity times zero
    else Inf(Sign(x) == Sign(y))
  }

  /** x / y; a zero divisor is taken as +0. */
  function Div(x: Num, y: Num): (r: Num)
    ensures x.Fin? && y.Fin? && y.v != 0.0 ==> r == Fin(x.v / y.v)
  {
    if x.NaN? || y.NaN? then NaN
    else if IsInf(x) && IsInf(y) then NaN
    else if IsInf(y) then Fin(0.0)
    else if y.v == 0.0 then (if Sign(x) == 0 then NaN else Inf(Sign(x) > 0))
    else if IsInf(x) then Inf(Sign(x) == Sign(y))
    else Fin(x.v / y.v)
  }

  /** `fillna(0)`: NaN becomes 0, every other value is kept. */
  function FillNaN(x: Num): (r: Num)
    ensures !r.NaN?
    ensures x.NaN? ==> r == Fin(0.0)
    ensures !x.NaN? ==> r == x
  {
    if x.NaN? then Fin(0.0) else x
  }

  /** `replace([np.nan, np.inf], 0)`: NaN and +inf become 0, -inf is kept. */
  function ZeroNaNAndPosInf(x: Num): (r: Num)
    ensures !r.NaN? && !r.PosInf?
    ensures x.NaN? || x.PosInf? ==> r == Fin(0.0)
    ensures !x.NaN? && !x.PosInf? ==> r == x
  {
    if x.NaN? || x.PosInf? then Fin(0.0) else x
  }

  /** A finite ratio with a zero divisor: 0/0 becomes 0 once NaN is filled,
      a positive or negative numerator becomes an infinity that filling
      keeps. */
  lemma RatioWithZeroDivisor(numerator: real)
    ensures numerator == 0.0 ==> FillNaN(Div(Fin(numerator), Fin(0.0))) == Fin(0.0)
    ensures numerator > 0.0 ==> FillNaN(Div(Fin(numerator), Fin(0.0))) == PosInf
    ensures numerator < 0.0 ==> FillNaN(Div(Fin(numerator), Fin(0.0))) == NegInf
  {
  }

  /** Division undoes multiplication by a finite non-zero value, and
      multiplication undoes division by one. */
  lemma DivMulInverse(x: Num, d: real)
    requires d != 0.0
    ensures Div(Mul(x, Fin(d)), Fin(d)) == x
    ensures Mul(Div(x, Fin(d)), Fin(d)) == x
  {
    match x
    case Fin(a) =>
      assert a * d / d == a;
      assert a / d * d == a;
    case _ =>
  }

  /** The column cleaning of a derived column leaves only finite values
      and -inf, and is idempotent. */
  lemma ZeroNaNAndPosInfIdempotent(x: Num)
    ensures ZeroNaNAndPosInf(ZeroNaNAndPosInf(x)) == ZeroNaNAndPosInf(x)
    ensures ZeroNaNAndPosInf(x).Fin? || ZeroNaNAndPosInf(x) == NegInf
  {
  }
}
