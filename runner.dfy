/**
 The conformance runner: the pass/fail decision for one test case, and the
 loop that runs one template over every binding the type iterator yields.

 The external parser and type checker is not part of this model. What the
 runner reads back from it after setExpr (isValid and returnType) is the
 input CheckerReply.
 */
module Runner {
  import opened ExprTypes
  import opened Templates

  /** What the checker reports for one expression: whether it parsed and typed, and the type it inferred. */
  datatype CheckerReply = CheckerReply(valid: bool, ret: ExprType)

  /** How a checker's reply relates to the oracle's prediction. */
  datatype Outcome =
    | Match           // accepted with exactly the predicted type, or rejected where the oracle predicts an error
    | UnderConstraint // accepted where the oracle predicts an error
    | OverConstraint  // rejected, or typed as an error, where the oracle predicts a valid type
    | Divergence      // accepted with a valid type other than the predicted valid type

  /**
   A reference classification of one case, not code of the type tester:
   an accepted expression matches when its type is the prediction, a
   rejected one (or one typed as an error) when the prediction is an error.
   */
  function Classify(reply: CheckerReply, expected: ExprType): (o: Outcome)
    ensures o == Match <==>
              if reply.valid && reply.ret.IsValid() then reply.ret == expected else expected.IsError()
    ensures o == UnderConstraint <==> reply.valid && reply.ret.IsValid() && expected.IsError()
    ensures o == OverConstraint <==> !(reply.valid && reply.ret.IsValid()) && expected.IsValid()
  {
    var accepted := reply.valid && reply.ret.IsValid();
    if !accepted then
      if expected.IsValid() then OverConstraint else Match
    else if expected.IsError() then UnderConstraint
    else if reply.ret == expected then Match
    else Divergence
  }

  /**
   The failure rule of test: an expression the checker accepts must have
   exactly the expected type; one it rejects must have been expected to
   be an error.
   */
  predicate Mismatch(reply: CheckerReply, expected: ExprType)
  {
    if reply.valid then expected != reply.ret else expected.IsValid()
  }

  /**
   TypeTesterExpr::test without its output: error says whether the case
   failed, parseError whether the checker rejected the expression, and
   returned is the type reported as received. When both types keep the
   Error-is-Varying invariant, a case fails exactly when its outcome is
   not a Match.

   The parameter expected is the source's actual_result, the oracle's
   prediction, which is what lines 69 and 73 compare. The source's
   expected_result only goes to setReturnType, a call into the checker
   that is not part of this model.
   */
  method Test(reply: CheckerReply, expected: ExprType) returns (error: bool, parseError: bool, returned: ExprType)
    ensures parseError <==> !reply.valid
    ensures reply.valid ==> (error <==> expected != reply.ret)
    ensures !reply.valid ==> (error <==> expected.IsValid())
    ensures !reply.valid ==> returned == ErrorType()
    ensures reply.valid ==> returned == reply.ret
    ensures error == Mismatch(reply, expected)
    ensures reply.ret.WellFormed() && expected.WellFormed() ==> (error <==> Classify(reply, expected) != Match)
  {
    error := false;
    parseError := false;
    returned := ErrorType();
    if reply.valid {
      if expected != reply.ret {
        error := true;
      }
    } else {
      parseError := true;
      if expected.IsValid() {
        error := true;
      }
    }
    if !parseError {
      returned := reply.ret;
    }
  }

  /** With the Error-is-Varying invariant, the failure rule fails exactly the outcomes that are not a Match. */
  lemma MismatchIsNotMatch(reply: CheckerReply, expected: ExprType)
    requires reply.ret.WellFormed() && expected.WellFormed()
    ensures Mismatch(reply, expected) <==> Classify(reply, expected) != Match
  {
  }

  /**
   testSingle, testDouble and testTriple: test the iterator's first
   binding, then advance while bindings remain, testing each one against
   the construct's oracle. The type iterator is not part of this model;
   its bindings are the input cases, in order, and check stands for the
   checker, whose reply depends on the binding alone.
   */
  method RunTemplate(c: Construct, cases: seq<seq<ExprType>>, check: seq<ExprType> -> CheckerReply)
    returns (failures: seq<bool>)
    requires |cases| > 0
    requires forall k :: 0 <= k < |cases| ==> |cases[k]| == Arity(c)
    ensures |failures| == |cases|
    ensures forall k :: 0 <= k < |cases| ==> failures[k] == Mismatch(check(cases[k]), Expected(c, cases[k]))
  {
    var k := 0;
    var remaining := |cases| - 1;
    var error, parseError, returned := Test(check(cases[k]), Expected(c, cases[k]));
    failures := [error];
    while remaining != 0
      invariant 0 <= k < |cases| && remaining == |cases| - 1 - k
      invariant |failures| == k + 1
      invariant forall j :: 0 <= j <= k ==> failures[j] == Mismatch(check(cases[j]), Expected(c, cases[j]))
    {
      k, remaining := k + 1, remaining - 1;
      error, parseError, returned := Test(check(cases[k]), Expected(c, cases[k]));
      failures := failures + [error];
    }
  }
}
