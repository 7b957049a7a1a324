/**
 The expression type model the oracles work over: a shape and a lifetime.

 SeExprType itself is not part of this model; this module keeps to what the
 type tester uses of it: the Error, string and floating-point (FP1 / FPN)
 shapes, the three lifetimes, becomeLifetime, isUnderNumeric, isUnderValue,
 isa and equality.
 */
module ExprTypes {

  /** How a value may vary across evaluations, ordered Constant < Uniform < Varying. */
  datatype Lifetime = Constant | Uniform | Varying

  function Rank(l: Lifetime): nat
  {
    match l
    case Constant => 0
    case Uniform => 1
    case Varying => 2
  }

  predicate AtMost(a: Lifetime, b: Lifetime)
  {
    Rank(a) <= Rank(b)
  }

  /** The lifetime that becomeLifetime gives to a type built from two operands: their maximum. */
  function Join(a: Lifetime, b: Lifetime): (r: Lifetime)
    ensures AtMost(a, r) && AtMost(b, r)
    ensures r == a || r == b
  {
    if Rank(a) >= Rank(b) then a else b
  }

  /** becomeLifetime over three operands. */
  function Join3(a: Lifetime, b: Lifetime, c: Lifetime): (r: Lifetime)
    ensures AtMost(a, r) && AtMost(b, r) && AtMost(c, r)
    ensures r == a || r == b || r == c
  {
    Join(Join(a, b), c)
  }

  /** The lattice laws of the lifetime join. */
  lemma JoinLaws(a: Lifetime, b: Lifetime, c: Lifetime)
    ensures Join(a, b) == Join(b, a)
    ensures Join(Join(a, b), c) == Join(a, Join(b, c))
    ensures Join(a, a) == a
    ensures Join(Constant, a) == a
    ensures Join(Varying, a) == Varying
  {
  }

  /** The number of components of an FP type: FP1 is the scalar, FPN (N > 1) a vector. */
  type Dim = n: nat | 1 <= n witness 1

  /** The structural part of a type. StringShape is the one non-numeric value shape. */
  datatype Shape = ErrorShape | StringShape | FP(dim: Dim)

  /**
   An expression type. Equality of two ExprType values is the source's
   operator ==: both shape and lifetime must agree.
   */
  datatype ExprType = ExprType(shape: Shape, lifetime: Lifetime) {

    predicate IsError()
    {
      shape.ErrorShape?
    }

    /** The type's isValid: any shape but Error. */
    predicate IsValid()
    {
      !IsError()
    }

    predicate IsUnderNumeric()
    {
      shape.FP?
    }

    predicate IsUnderValue()
    {
      shape.FP? || shape.StringShape?
    }

    predicate IsFP1()
    {
      shape == FP(1)
    }

    /**
     Shape compatibility. Two FP types are compatible when both are FP1,
     when either one is FP1 and the other FPN, or when both are FPN with
     the same N; any other pair is compatible only when the shapes agree.
     Lifetimes play no part. So equal shapes are always compatible, a
     scalar is compatible with every numeric type, and compatible types
     are both numeric or both not, both errors or both not.
     */
    predicate Isa(other: ExprType)
      ensures shape == other.shape ==> Isa(other)
      ensures Isa(other) ==> (IsUnderNumeric() <==> other.IsUnderNumeric())
      ensures Isa(other) ==> (IsError() <==> other.IsError())
      ensures (IsFP1() && other.IsUnderNumeric()) || (IsUnderNumeric() && other.IsFP1()) ==> Isa(other)
    {
      match (shape, other.shape)
      case (FP(n), FP(m)) => n == 1 || m == 1 || n == m
      case _ => shape == other.shape
    }

    /** The invariant the type model keeps: an Error type carries the Varying lifetime. */
    predicate WellFormed()
    {
      IsError() ==> lifetime == Varying
    }
  }

  /** ErrorType_varying: the one error value the oracles produce. */
  function ErrorType(): (t: ExprType)
    ensures t.IsError() && t.WellFormed()
  {
    ExprType(ErrorShape, Varying)
  }

  /** FP1Type_varying followed by becomeLifetime: a scalar of lifetime l. */
  function FP1Type(l: Lifetime): (t: ExprType)
    ensures t.IsFP1() && t.IsUnderNumeric() && t.lifetime == l
  {
    ExprType(FP(1), l)
  }

  /** FPNType_varying(n) followed by becomeLifetime: an n-component FP type of lifetime l. */
  function FPNType(n: Dim, l: Lifetime): (t: ExprType)
    ensures t.IsUnderNumeric() && t.shape.dim == n && t.lifetime == l
  {
    ExprType(FP(n), l)
  }

  /** The laws of isa: reflexive, symmetric, scalar broadcast, and vectors only of one dimension. */
  lemma IsaLaws(a: ExprType, b: ExprType, n: Dim, m: Dim, l: Lifetime, l': Lifetime)
    ensures a.Isa(a)
    ensures a.Isa(b) == b.Isa(a)
    ensures FP1Type(l).Isa(FPNType(n, l')) && FPNType(n, l').Isa(FP1Type(l))
    ensures n > 1 && m > 1 ==> (FPNType(n, l).Isa(FPNType(m, l')) <==> n == m)
  {
  }

  /** Lifetimes never make two shapes incompatible. */
  lemma IsaIgnoresLifetimes(a: ExprType, b: ExprType, l: Lifetime, l': Lifetime)
    ensures a.Isa(b) == ExprType(a.shape, l).Isa(ExprType(b.shape, l'))
  {
  }
}
