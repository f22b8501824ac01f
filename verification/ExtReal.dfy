/** Extended numbers of the attention kernels.
    A kernel register holds a finite number, the sentinel -inf, or a value that is undefined
    (what IEEE calls NaN or +inf, first met when -inf is subtracted from -inf). */
module ExtReal {
  datatype Ext = NegInf | Fin(r: real) | Undef

  /** Multiplication under a name: most steps need only that equal factors give equal products. */
  function Times(x: real, y: real): real {
    x * y
  }

  lemma TimesAdd(x: real, a: real, c: real)
    ensures Times(x + a, c) == Times(x, c) + Times(a, c)
  {
  }

  lemma TimesSwap(x: real, c: real, y: real)
    ensures Times(Times(x, c), y) == Times(Times(x, y), c)
  {
  }

  function Add(a: Ext, b: Ext): Ext {
    if a.Fin? && b.Fin? then Fin(a.r + b.r)
    else if a.Undef? || b.Undef? then Undef
    else NegInf
  }

  /** -inf - -inf and x - -inf are undefined. */
  function Sub(a: Ext, b: Ext): Ext {
    if a.Fin? && b.Fin? then Fin(a.r - b.r)
    else if a.NegInf? && b.Fin? then NegInf
    else Undef
  }

  function Mul(a: Ext, b: Ext): Ext {
    if a.Fin? && b.Fin? then Fin(Times(a.r, b.r)) else Undef
  }

  function Max(a: Ext, b: Ext): Ext {
    if a.Undef? || b.Undef? then Undef
    else if a.NegInf? then b
    else if b.NegInf? then a
    else if a.r <= b.r then b else a
  }

  predicate Positive(a: Ext) {
    a.Fin? && a.r > 0.0
  }

  /** A quotient; used only behind a positive denominator. */
  function Div(a: Ext, b: Ext): Ext {
    if a.Fin? && b.Fin? && b.r != 0.0 then Fin(a.r / b.r) else Undef
  }

  /** exp on extended numbers, over an exponential of the finite ones. */
  function Exp(e: real -> real, a: Ext): Ext {
    match a
    case NegInf => Fin(0.0)
    case Fin(r) => Fin(e(r))
    case Undef => Undef
  }

  // Row reductions.
  function RowSum(xs: seq<Ext>): Ext {
    if xs == [] then Fin(0.0) else Add(xs[0], RowSum(xs[1..]))
  }

  function RowMax(xs: seq<Ext>): Ext {
    if xs == [] then NegInf else Max(xs[0], RowMax(xs[1..]))
  }

  /** One entry of the product of a row of weights with a column of values. */
  function RowDot(p: seq<Ext>, v: seq<real>): Ext
    requires |p| == |v|
  {
    if p == [] then Fin(0.0) else Add(Mul(p[0], Fin(v[0])), RowDot(p[1..], v[1..]))
  }

  /** Undef comes from -inf - -inf, x - -inf, a product with -inf and a quotient by -inf or 0, and stays. */
  lemma UndefStays(e: real -> real, a: Ext)
    ensures Undef == Add(Undef, a) == Add(a, Undef) == Sub(Undef, a) == Sub(a, Undef) == Mul(Undef, a) == Mul(a, Undef)
    ensures Undef == Max(Undef, a) == Max(a, Undef) == Div(Undef, a) == Div(a, Undef) == Exp(e, Undef)
    ensures Undef == Sub(a, NegInf) == Mul(NegInf, a) == Mul(a, NegInf) == Div(a, NegInf) == Div(a, Fin(0.0))
  {
  }

  /** One undefined entry spoils a row. */
  lemma {:induction false} UndefSpoilsRow(xs: seq<Ext>, i: nat)
    requires i < |xs| && xs[i] == Undef
    ensures RowSum(xs) == Undef && RowMax(xs) == Undef
  {
    if i > 0 {
      UndefSpoilsRow(xs[1..], i - 1);
    }
  }

  // The two laws of an exponential. Each law is a predicate of its own, so that it is used only where it is named.
  ghost predicate AddLaw(e: real -> real, a: real, b: real) {
    e(a + b) == Times(e(a), e(b))
  }

  ghost predicate PositiveLaw(e: real -> real, a: real) {
    e(a) > 0.0
  }

  ghost predicate IsExp(e: real -> real) {
    && (forall a :: PositiveLaw(e, a))
    && (forall a, b :: AddLaw(e, a, b))
  }
}
