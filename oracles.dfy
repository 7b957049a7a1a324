/**
 The type-rule oracles of the type tester: for each tested construct, the
 type the checker should infer from the operand types, or ErrorType()
 when the operands fall outside the construct's domain.
 */
module Oracles {
  import opened ExprTypes

  function Max(a: nat, b: nat): nat
  {
    if a >= b then a else b
  }

  /** identity: assignment passes its operand's type through. */
  function Identity(t: ExprType): (r: ExprType)
    ensures r == t
  {
    t
  }

  /** numeric: negation, logical and bitwise not keep a numeric type and reject every other. */
  function Numeric(t: ExprType): (r: ExprType)
    ensures r.IsValid() <==> t.IsUnderNumeric()
    ensures r.IsError() ==> r == ErrorType()
    ensures r.IsValid() ==> r == t
  {
    if t.IsUnderNumeric() then t else ErrorType()
  }

  /** numericToScalar, one operand: a scalar of the operand's lifetime. */
  function UnaryNumericToScalar(t: ExprType): (r: ExprType)
    ensures r.IsValid() <==> t.IsUnderNumeric()
    ensures r.IsError() ==> r == ErrorType()
    ensures r.IsValid() ==> r.IsFP1() && r.lifetime == t.lifetime
  {
    if t.IsUnderNumeric() then FP1Type(t.lifetime) else ErrorType()
  }

  /** numericToScalar, two operands: both numeric, of any dimensions, give a scalar. */
  function NumericToScalar(a: ExprType, b: ExprType): (r: ExprType)
    ensures r.IsValid() <==> a.IsUnderNumeric() && b.IsUnderNumeric()
    ensures r.IsError() ==> r == ErrorType()
    ensures r.IsValid() ==> r.IsFP1() && r.lifetime == Join(a.lifetime, b.lifetime)
  {
    if a.IsUnderNumeric() && b.IsUnderNumeric() then FP1Type(Join(a.lifetime, b.lifetime))
    else ErrorType()
  }

  /** generalComparison (== and !=): two compatible values give a scalar. */
  function GeneralComparison(a: ExprType, b: ExprType): (r: ExprType)
    ensures r.IsValid() <==> a.IsUnderValue() && b.IsUnderValue() && a.Isa(b)
    ensures r.IsError() ==> r == ErrorType()
    ensures r.IsValid() ==> r.IsFP1() && r.lifetime == Join(a.lifetime, b.lifetime)
  {
    if a.IsUnderValue() && b.IsUnderValue() && a.Isa(b) then FP1Type(Join(a.lifetime, b.lifetime))
    else ErrorType()
  }

  /** numericComparison (<, >, <=, >=): two compatible numeric types give a scalar. */
  function NumericComparison(a: ExprType, b: ExprType): (r: ExprType)
    ensures r.IsValid() <==> a.IsUnderNumeric() && b.IsUnderNumeric() && a.Isa(b)
    ensures r.IsError() ==> r == ErrorType()
    ensures r.IsValid() ==> r.IsFP1() && r.lifetime == Join(a.lifetime, b.lifetime)
  {
    if a.IsUnderNumeric() && b.IsUnderNumeric() && a.Isa(b) then FP1Type(Join(a.lifetime, b.lifetime))
    else ErrorType()
  }

  /**
   numericToNumeric (+, -, *, /, %, ^): two compatible numeric types give
   the larger of their dimensions, that is the vector operand's dimension,
   or a scalar when both are scalars.
   */
  function NumericToNumeric(a: ExprType, b: ExprType): (r: ExprType)
    ensures r.IsValid() <==> a.IsUnderNumeric() && b.IsUnderNumeric() && a.Isa(b)
    ensures r.IsError() ==> r == ErrorType()
    ensures r.IsValid() ==> r.shape == FP(Max(a.shape.dim, b.shape.dim))
    ensures r.IsValid() ==> r.lifetime == Join(a.lifetime, b.lifetime)
  {
    if a.IsUnderNumeric() && b.IsUnderNumeric() && a.Isa(b) then
      FPNType(if a.IsFP1() then b.shape.dim else a.shape.dim, Join(a.lifetime, b.lifetime))
    else ErrorType()
  }

  /** numericTo2Vector ([x, y]): two numeric types of any dimensions give an FP2. */
  function NumericTo2Vector(a: ExprType, b: ExprType): (r: ExprType)
    ensures r.IsValid() <==> a.IsUnderNumeric() && b.IsUnderNumeric()
    ensures r.IsError() ==> r == ErrorType()
    ensures r.IsValid() ==> r.shape == FP(2) && r.lifetime == Join(a.lifetime, b.lifetime)
  {
    if a.IsUnderNumeric() && b.IsUnderNumeric() then FPNType(2, Join(a.lifetime, b.lifetime))
    else ErrorType()
  }

  /** numericTo3Vector ([x, y, z]): three numeric types of any dimensions give an FP3. */
  function NumericTo3Vector(a: ExprType, b: ExprType, c: ExprType): (r: ExprType)
    ensures r.IsValid() <==> a.IsUnderNumeric() && b.IsUnderNumeric() && c.IsUnderNumeric()
    ensures r.IsError() ==> r == ErrorType()
    ensures r.IsValid() ==> r.shape == FP(3) && r.lifetime == Join3(a.lifetime, b.lifetime, c.lifetime)
  {
    if a.IsUnderNumeric() && b.IsUnderNumeric() && c.IsUnderNumeric() then
      FPNType(3, Join3(a.lifetime, b.lifetime, c.lifetime))
    else ErrorType()
  }

  /**
   conditional (x ? y : z and if/else assignment): a numeric condition and
   two value branches of equal type, lifetime included, give the branches'
   shape. Since both branches have one lifetime, the result's lifetime is
   the join of the condition's and the branches'.
   */
  function Conditional(c: ExprType, t: ExprType, e: ExprType): (r: ExprType)
    ensures r.IsValid() <==> c.IsUnderNumeric() && t.IsUnderValue() && e.IsUnderValue() && t == e
    ensures r.IsError() ==> r == ErrorType()
    ensures r.IsValid() ==> r.shape == t.shape == e.shape
    ensures r.IsValid() ==> r.lifetime == Join(c.lifetime, t.lifetime) == Join3(c.lifetime, t.lifetime, e.lifetime)
  {
    if c.IsUnderNumeric() && t.IsUnderValue() && e.IsUnderValue() && t == e then
      ExprType(t.shape, Join3(c.lifetime, t.lifetime, e.lifetime))
    else ErrorType()
  }

  /**
   The ordering comparisons are the equality comparisons restricted to
   numeric operands: wherever the numeric one succeeds the general one
   gives the same type, and the two differ only on two string operands.
   */
  lemma ComparisonsAgree(a: ExprType, b: ExprType)
    ensures NumericComparison(a, b).IsValid() ==> GeneralComparison(a, b) == NumericComparison(a, b)
    ensures a.IsUnderNumeric() && b.IsUnderNumeric() ==> GeneralComparison(a, b) == NumericComparison(a, b)
    ensures GeneralComparison(a, b) != NumericComparison(a, b) ==>
              a.shape == StringShape && b.shape == StringShape
  {
  }

  /** Arithmetic does not depend on the order of its operands. */
  lemma ArithmeticSymmetric(a: ExprType, b: ExprType)
    ensures NumericToNumeric(a, b) == NumericToNumeric(b, a)
  {
  }

  /** Vectors of two different dimensions cannot be combined arithmetically. */
  lemma ArithmeticDimensionMismatch(n: Dim, m: Dim, l: Lifetime, l': Lifetime)
    requires n > 1 && m > 1 && n != m
    ensures NumericToNumeric(FPNType(n, l), FPNType(m, l')) == ErrorType()
  {
  }

  /** A scalar broadcasts against a vector of any dimension on either side. */
  lemma ArithmeticBroadcast(n: Dim, l: Lifetime, l': Lifetime)
    ensures NumericToNumeric(FP1Type(l), FPNType(n, l')) == FPNType(n, Join(l, l'))
    ensures NumericToNumeric(FPNType(n, l'), FP1Type(l)) == FPNType(n, Join(l, l'))
  {
  }

  /** Arithmetic succeeds exactly where ordering comparison does; it shares its domain. */
  lemma ArithmeticDomainIsComparisonDomain(a: ExprType, b: ExprType)
    ensures NumericToNumeric(a, b).IsValid() == NumericComparison(a, b).IsValid()
    ensures NumericTo2Vector(a, b).IsValid() == NumericToScalar(a, b).IsValid()
  {
  }

  /** Arithmetic results are numeric again, so the numeric rule passes them through. */
  lemma ArithmeticClosed(a: ExprType, b: ExprType)
    ensures Numeric(NumericToNumeric(a, b)) == NumericToNumeric(a, b)
  {
  }

  /** The vector literals ignore their operands' dimensions. */
  lemma VectorLiteralsIgnoreDimensions(a: ExprType, b: ExprType, c: ExprType, n: Dim, m: Dim, k: Dim)
    ensures NumericTo2Vector(ExprType(FP(n), a.lifetime), ExprType(FP(m), b.lifetime)) ==
            FPNType(2, Join(a.lifetime, b.lifetime))
    ensures NumericTo3Vector(ExprType(FP(n), a.lifetime), ExprType(FP(m), b.lifetime), ExprType(FP(k), c.lifetime)) ==
            FPNType(3, Join3(a.lifetime, b.lifetime, c.lifetime))
  {
  }

  /** Scenario: assignment keeps a uniform FP3. */
  lemma IdentityScenario()
    ensures Identity(FPNType(3, Uniform)) == FPNType(3, Uniform)
  {
  }

  /** Scenario: a constant scalar plus a varying FP2 is a varying FP2. */
  lemma BroadcastScenario()
    ensures NumericToNumeric(FP1Type(Constant), FPNType(2, Varying)) == FPNType(2, Varying)
  {
  }

  /** Scenario: a uniform FP2 plus a uniform FP3 is an error. */
  lemma MismatchScenario()
    ensures NumericToNumeric(FPNType(2, Uniform), FPNType(3, Uniform)) == ErrorType()
  {
  }

  /**
   Scenario: an FP2 conditional with a constant then-branch and a uniform
   else-branch is an error, because the branches are compared with their
   lifetimes; with two uniform branches it is a uniform FP2.
   */
  lemma ConditionalScenario()
    ensures Conditional(FP1Type(Uniform), FPNType(2, Constant), FPNType(2, Uniform)) == ErrorType()
    ensures Conditional(FP1Type(Uniform), FPNType(2, Uniform), FPNType(2, Uniform)) == FPNType(2, Uniform)
  {
  }
}
