/**
 The table of expression templates the conformance sweep runs, each paired
 with the oracle that predicts its type.
 */
module Templates {
  import opened ExprTypes
  import opened Oracles

  /** One tested language construct per template of the sweep. */
  datatype Construct =
    | Assign | Subscript | Negate | Not | BitNot
    | And | Or | Index | Equal | NotEqual | Less | Greater | LessEqual | GreaterEqual
    | Add | Subtract | Multiply | Divide | Modulo | Power | Vector2
    | Vector3 | Ternary | IfElse

  /** The number of placeholders of a construct's template: v; x, y; or x, y, z. */
  function Arity(c: Construct): nat
  {
    match c
    case Assign | Subscript | Negate | Not | BitNot => 1
    case Vector3 | Ternary | IfElse => 3
    case _ => 2
  }

  /** The expression text the checker is asked to type. */
  function Template(c: Construct): string
  {
    match c
    case Assign => "$a = $v; $a"
    case Subscript => "[$v]"
    case Negate => "-$v"
    case Not => "!$v"
    case BitNot => "~$v"
    case And => "$x && $y"
    case Or => "$x || $y"
    case Index => "$x[$y]"
    case Equal => "$x == $y"
    case NotEqual => "$x != $y"
    case Less => "$x <  $y"
    case Greater => "$x >  $y"
    case LessEqual => "$x <= $y"
    case GreaterEqual => "$x >= $y"
    case Add => "$x + $y"
    case Subtract => "$x - $y"
    case Multiply => "$x * $y"
    case Divide => "$x / $y"
    case Modulo => "$x % $y"
    case Power => "$x ^ $y"
    case Vector2 => "[$x, $y]"
    case Vector3 => "[$x, $y, $z]"
    case Ternary => "$x ? $y : $z"
    case IfElse => "if($x) { $a = $y; } else { $a = $z; } $a"
  }

  /** The templates in the order the sweep runs them. */
  function SweepOrder(): seq<Construct>
  {
    [Assign, Subscript, Negate, Not, BitNot,
     And, Or, Index, Equal, NotEqual, Less, Greater, LessEqual, GreaterEqual,
     Add, Subtract, Multiply, Divide, Modulo, Power, Vector2,
     Vector3, Ternary, IfElse]
  }

  lemma SweepOrderCovers(c: Construct)
    ensures c in SweepOrder()
  {
  }

  /**
   The templates the sweep runs, in order: every one of the 24 constructs,
   none twice, and no two with the same expression text.
   */
  function Sweep(): (s: seq<Construct>)
    ensures |s| == 24
    ensures forall c :: c in s
    ensures forall i, j :: 0 <= i < j < |s| ==> s[i] != s[j] && Template(s[i]) != Template(s[j])
  {
    assert forall c :: c in SweepOrder() by {
      forall c
        ensures c in SweepOrder()
      {
        SweepOrderCovers(c);
      }
    }
    SweepOrder()
  }

  /** The join of the lifetimes of any number of operands; Constant, the bottom, for none. */
  function JoinAll(args: seq<ExprType>): (r: Lifetime)
    ensures forall i :: 0 <= i < |args| ==> AtMost(args[i].lifetime, r)
    ensures |args| > 0 ==> exists i :: 0 <= i < |args| && r == args[i].lifetime
    ensures |args| == 0 ==> r == Constant
  {
    if |args| == 0 then Constant
    else Join(JoinAll(args[..|args| - 1]), args[|args| - 1].lifetime)
  }

  lemma JoinAllSmall(args: seq<ExprType>)
    ensures |args| == 1 ==> JoinAll(args) == args[0].lifetime
    ensures |args| == 2 ==> JoinAll(args) == Join(args[0].lifetime, args[1].lifetime)
    ensures |args| == 3 ==> JoinAll(args) == Join3(args[0].lifetime, args[1].lifetime, args[2].lifetime)
  {
  }

  predicate AllWellFormed(args: seq<ExprType>)
  {
    forall i :: 0 <= i < |args| ==> args[i].WellFormed()
  }

  /**
   The oracle a construct is checked against, applied to one binding of
   its placeholders. Whatever the construct: a failing rule yields exactly
   ErrorType(); a result that is not an error needs every operand to be
   valid and has the join of all the operands' lifetimes; and well-formed
   operands give a well-formed result.
   */
  function Expected(c: Construct, args: seq<ExprType>): (r: ExprType)
    requires |args| == Arity(c)
    ensures r.IsValid() ==> r.lifetime == JoinAll(args)
    ensures r.IsValid() ==> forall i :: 0 <= i < |args| ==> args[i].IsValid()
    ensures c != Assign && r.IsError() ==> r == ErrorType()
    ensures AllWellFormed(args) ==> r.WellFormed()
  {
    JoinAllSmall(args);
    match c
    case Assign => Identity(args[0])
    case Subscript => UnaryNumericToScalar(args[0])
    case Negate | Not | BitNot => Numeric(args[0])
    case And | Or | Index => NumericToScalar(args[0], args[1])
    case Equal | NotEqual => GeneralComparison(args[0], args[1])
    case Less | Greater | LessEqual | GreaterEqual => NumericComparison(args[0], args[1])
    case Add | Subtract | Multiply | Divide | Modulo | Power => NumericToNumeric(args[0], args[1])
    case Vector2 => NumericTo2Vector(args[0], args[1])
    case Vector3 => NumericTo3Vector(args[0], args[1], args[2])
    case Ternary | IfElse => Conditional(args[0], args[1], args[2])
  }

  predicate SameShapes(args: seq<ExprType>, args': seq<ExprType>)
  {
    |args| == |args'| && forall i :: 0 <= i < |args| ==> args[i].shape == args'[i].shape
  }

  /**
   Apart from the conditional, whether a construct accepts its operands,
   and the shape it then gives, depend on their shapes only, never on
   their lifetimes.
   */
  lemma ShapeDecidesSuccess(c: Construct, args: seq<ExprType>, args': seq<ExprType>)
    requires |args| == Arity(c) && SameShapes(args, args')
    requires c != Ternary && c != IfElse
    ensures Expected(c, args).IsValid() == Expected(c, args').IsValid()
    ensures Expected(c, args).shape == Expected(c, args').shape
  {
    if Arity(c) == 1 {
      assert args == [args[0]] && args' == [args'[0]];
      UnaryShapeDecides(c, args[0], args'[0]);
    } else if Arity(c) == 2 {
      assert args == [args[0], args[1]] && args' == [args'[0], args'[1]];
      BinaryShapeDecides(c, args[0], args[1], args'[0], args'[1]);
    } else {
      assert args == [args[0], args[1], args[2]] && args' == [args'[0], args'[1], args'[2]];
    }
  }

  /** ShapeDecidesSuccess for the one-operand constructs. */
  lemma UnaryShapeDecides(c: Construct, a: ExprType, a': ExprType)
    requires Arity(c) == 1 && a.shape == a'.shape
    ensures Expected(c, [a]).IsValid() == Expected(c, [a']).IsValid()
    ensures Expected(c, [a]).shape == Expected(c, [a']).shape
  {
  }

  /** ShapeDecidesSuccess for the two-operand constructs. */
  lemma BinaryShapeDecides(c: Construct, a: ExprType, b: ExprType, a': ExprType, b': ExprType)
    requires Arity(c) == 2 && a.shape == a'.shape && b.shape == b'.shape
    ensures Expected(c, [a, b]).IsValid() == Expected(c, [a', b']).IsValid()
    ensures Expected(c, [a, b]).shape == Expected(c, [a', b']).shape
  {
  }

  /** The conditional is the exception: two bindings of the same shapes, one accepted and one not. */
  lemma ConditionalSeesLifetimes()
    ensures var args := [FP1Type(Uniform), FPNType(2, Uniform), FPNType(2, Uniform)];
            var args' := [FP1Type(Uniform), FPNType(2, Constant), FPNType(2, Uniform)];
            SameShapes(args, args') &&
            Expected(Ternary, args).IsValid() && !Expected(Ternary, args').IsValid()
  {
  }
}
