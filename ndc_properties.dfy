/**
 * What the NDC v0.1 translation guarantees: which plans it refuses and why, that
 * connectives, paths and names come out in the same order and number, and that a
 * local predicate can be read back from its translation.
 */
module NdcProperties {
  import opened Wrappers
  import opened NdcPlan
  import opened NdcModels
  import opened NdcV01

  // ---------------------------------------------------------------- collecting results

  /** A collected map succeeds exactly when every element does, and then holds their values in order. */
  lemma {:induction false} CollectOk<A, B>(xs: seq<A>, f: A -> Result<B, FieldError>)
    ensures Collect(xs, f).Ok? <==> forall i :: 0 <= i < |xs| ==> f(xs[i]).Ok?
    ensures Collect(xs, f).Ok? ==> forall i :: 0 <= i < |xs| ==> Collect(xs, f).value[i] == f(xs[i]).value
  {
    if xs != [] {
      CollectOk(xs[1..], f);
      assert forall i :: 1 <= i < |xs| ==> xs[i] == xs[1..][i - 1];
    }
  }

  /** The values of a fully successful map are the collected sequence. */
  lemma CollectAllOk<A, B>(xs: seq<A>, f: A -> Result<B, FieldError>, ys: seq<B>)
    requires |ys| == |xs|
    requires forall i :: 0 <= i < |xs| ==> f(xs[i]) == Ok(ys[i])
    ensures Collect(xs, f) == Ok(ys)
  {
    CollectOk(xs, f);
    assert Collect(xs, f).value == ys;
  }

  /** The first failing element's error is the error of the whole map. */
  lemma {:induction false} CollectStops<A, B>(xs: seq<A>, f: A -> Result<B, FieldError>, i: nat)
    requires i < |xs|
    requires forall j :: 0 <= j < i ==> f(xs[j]).Ok?
    requires f(xs[i]).Err?
    ensures Collect(xs, f) == Err(f(xs[i]).error)
  {
    if i > 0 {
      assert forall j :: 0 <= j < i - 1 ==> xs[1..][j] == xs[j + 1];
      CollectStops(xs[1..], f, i - 1);
    }
  }

  /** A failed map failed at some element, all of whose predecessors succeeded. */
  lemma {:induction false} CollectFirstError<A, B>(xs: seq<A>, f: A -> Result<B, FieldError>) returns (i: nat)
    requires Collect(xs, f).Err?
    ensures i < |xs|
    ensures forall j :: 0 <= j < i ==> f(xs[j]).Ok?
    ensures f(xs[i]) == Err(Collect(xs, f).error)
  {
    if f(xs[0]).Err? {
      i := 0;
    } else {
      var k := CollectFirstError(xs[1..], f);
      i := k + 1;
      assert forall j :: 1 <= j < i ==> xs[j] == xs[1..][j - 1];
    }
  }

  // ---------------------------------------------------------------- connectives

  /** The children of a connective are collected like any other sequence. */
  lemma {:induction false} ExpressionsCollect(es: seq<FilterExpression>)
    ensures MakeExpressions(es) == Collect(es, MakeExpression)
  {
    if es != [] {
      ExpressionsCollect(es[1..]);
    }
  }

  /**
   * `And` and `Or` keep their connective and translate exactly their children, in order:
   * they succeed iff every child does, and otherwise fail with the first failing child's error.
   */
  lemma ConnectiveTranslation(es: seq<FilterExpression>)
    ensures MakeExpression(And(es)).Ok? <==> forall i :: 0 <= i < |es| ==> MakeExpression(es[i]).Ok?
    ensures MakeExpression(Or(es)).Ok? <==> MakeExpression(And(es)).Ok?
    ensures MakeExpression(And(es)).Ok? ==>
      MakeExpression(And(es)).value.NdcAnd? && MakeExpression(Or(es)).value.NdcOr?
      && MakeExpression(And(es)).value.expressions == MakeExpression(Or(es)).value.expressions
      && |MakeExpression(And(es)).value.expressions| == |es|
      && forall i :: 0 <= i < |es| ==> MakeExpression(And(es)).value.expressions[i] == MakeExpression(es[i]).value
  {
    ExpressionsCollect(es);
    CollectOk(es, MakeExpression);
  }

  /** A failed connective failed at its first failing child, for `And` and `Or` alike. */
  lemma ConnectiveFirstError(es: seq<FilterExpression>) returns (i: nat)
    requires MakeExpression(And(es)).Err?
    ensures i < |es|
    ensures forall j :: 0 <= j < i ==> MakeExpression(es[j]).Ok?
    ensures MakeExpression(es[i]) == Err(MakeExpression(And(es)).error)
    ensures MakeExpression(Or(es)) == MakeExpression(And(es))
  {
    ExpressionsCollect(es);
    i := CollectFirstError(es, MakeExpression);
  }

  /** `Not` wraps the translated child, and fails exactly as the child does. */
  lemma NotTranslation(e: FilterExpression)
    ensures MakeExpression(Not(e)).Ok? <==> MakeExpression(e).Ok?
    ensures MakeExpression(Not(e)).Ok? ==> MakeExpression(Not(e)).value == NdcNot(MakeExpression(e).value)
    ensures MakeExpression(Not(e)).Err? ==> MakeExpression(Not(e)).error == MakeExpression(e).error
  {
  }

  // ---------------------------------------------------------------- comparisons NDC v0.1 cannot express

  /** Comparisons against the elements of a scalar array are always refused. */
  lemma NestedScalarArrayRefused(column: string, fieldPath: seq<string>)
    ensures MakeExpression(LocalNestedScalarArray(column, fieldPath))
      == Err(NdcV01Compatibility(NestedScalarArrayComparisonsNotSupported))
  {
  }

  /**
   * A relationship comparison fails iff it reaches the relationship through a nested
   * field or its predicate fails; the field path is checked first. Otherwise it becomes
   * an `Exists` over the related collection, with no arguments and the translated predicate.
   */
  lemma RelationshipComparisonTranslation(fieldPath: seq<string>, relationship: string, filter: FilterExpression)
    ensures MakeExpression(LocalRelationshipComparison(fieldPath, relationship, filter)).Err?
      <==> fieldPath != [] || MakeExpression(filter).Err?
    ensures fieldPath != [] ==>
      MakeExpression(LocalRelationshipComparison(fieldPath, relationship, filter))
        == Err(NdcV01Compatibility(NestedRelationshipsInExpressionsNotSupported))
    ensures MakeExpression(LocalRelationshipComparison(fieldPath, relationship, filter)).Ok? ==>
      MakeExpression(LocalRelationshipComparison(fieldPath, relationship, filter)).value
        == Exists(Related(relationship, []), Some(MakeExpression(filter).value))
  {
  }

  /** A comparison handled by another connector is sent as the always-true `And []`. */
  lemma RemoteComparisonIsTrue(remotePredicateId: nat)
    ensures MakeExpression(RemoteRelationshipComparison(remotePredicateId)) == Ok(NdcAnd([]))
  {
  }

  // ---------------------------------------------------------------- which expressions translate

  /** The predicates NDC v0.1 can state: no scalar-array comparison and no relationship reached through a nested field. */
  predicate Expressible(e: FilterExpression)
    decreases e
  {
    match e
    case And(es) => forall i :: 0 <= i < |es| ==> Expressible(es[i])
    case Or(es) => forall i :: 0 <= i < |es| ==> Expressible(es[i])
    case Not(inner) => Expressible(inner)
    case LocalNestedArray(_, _, filter) => Expressible(filter)
    case LocalNestedScalarArray(_, _) => false
    case LocalRelationshipComparison(fieldPath, _, filter) => fieldPath == [] && Expressible(filter)
    case _ => true
  }

  /** An expression translates exactly when it is expressible in NDC v0.1. */
  lemma {:induction false} ExpressionTranslatesIff(e: FilterExpression)
    ensures MakeExpression(e).Ok? <==> Expressible(e)
    decreases e, 1
  {
    match e
    case And(es) => ExpressionsTranslateIff(es);
    case Or(es) => ExpressionsTranslateIff(es);
    case Not(inner) => ExpressionTranslatesIff(inner);
    case LocalNestedArray(_, _, filter) => ExpressionTranslatesIff(filter);
    case LocalRelationshipComparison(_, _, filter) => ExpressionTranslatesIff(filter);
    case _ =>
  }

  lemma {:induction false} ExpressionsTranslateIff(es: seq<FilterExpression>)
    ensures MakeExpressions(es).Ok? <==> forall i :: 0 <= i < |es| ==> Expressible(es[i])
    decreases es, 0
  {
    if es != [] {
      ExpressionTranslatesIff(es[0]);
      ExpressionsTranslateIff(es[1..]);
      assert forall i :: 1 <= i < |es| ==> es[i] == es[1..][i - 1];
    }
  }

  // ---------------------------------------------------------------- reading a translation back

  function PathOf(fieldPath: Option<seq<string>>): seq<string> {
    match fieldPath
    case None => []
    case Some(p) => p
  }

  function RecoverTarget(target: NdcComparisonTarget): ComparisonTarget {
    Column(target.name, PathOf(target.fieldPath))
  }

  /**
   * Comparison targets translate one to one: the translation can be read back, and every
   * NDC target with no relationship path and no empty nested path is a translation.
   */
  lemma ComparisonTargetRoundTrip(target: ComparisonTarget, ndcTarget: NdcComparisonTarget)
    ensures RecoverTarget(MakeComparisonTarget(target)) == target
    ensures ndcTarget.path == [] && ndcTarget.fieldPath != Some([]) ==>
      MakeComparisonTarget(RecoverTarget(ndcTarget)) == ndcTarget
  {
  }

  function RecoverValue(value: NdcComparisonValue): ComparisonValue {
    match value
    case NdcScalar(v) => Scalar(v)
    case NdcVariable(name) => Variable(name)
  }

  /** The plan predicate an NDC expression reads as. */
  function RecoverExpression(x: Expression): FilterExpression
    decreases x, 1
  {
    match x
    case NdcAnd(xs) => And(seq(|xs|, i requires 0 <= i < |xs| => RecoverExpression(xs[i])))
    case NdcOr(xs) => Or(seq(|xs|, i requires 0 <= i < |xs| => RecoverExpression(xs[i])))
    case NdcNot(y) => Not(RecoverExpression(y))
    case NdcUnaryComparison(column, NdcIsNull) => UnaryComparison(RecoverTarget(column), IsNull)
    case NdcBinaryComparison(column, operator, value) =>
      BinaryComparison(RecoverTarget(column), operator, RecoverValue(value))
    case Exists(Related(relationship, _), p) => LocalRelationshipComparison([], relationship, RecoverPredicate(p))
    case Exists(NestedCollection(column, fieldPath, _), p) => LocalNestedArray(column, fieldPath, RecoverPredicate(p))
  }

  function RecoverPredicate(p: Option<Expression>): FilterExpression
    decreases p, 0
  {
    match p
    case None => And([])
    case Some(y) => RecoverExpression(y)
  }

  /** No part of the predicate is evaluated by another connector. */
  predicate Local(e: FilterExpression)
    decreases e
  {
    match e
    case And(es) => forall i :: 0 <= i < |es| ==> Local(es[i])
    case Or(es) => forall i :: 0 <= i < |es| ==> Local(es[i])
    case Not(inner) => Local(inner)
    case LocalNestedArray(_, _, filter) => Local(filter)
    case LocalRelationshipComparison(_, _, filter) => Local(filter)
    case RemoteRelationshipComparison(_) => false
    case _ => true
  }

  /** A local predicate is determined by its translation: reading it back gives the predicate. */
  lemma {:induction false} RecoverTranslation(e: FilterExpression)
    requires Local(e) && MakeExpression(e).Ok?
    ensures RecoverExpression(MakeExpression(e).value) == e
    decreases e
  {
    match e
    case And(es) =>
      ConnectiveTranslation(es);
      RecoverChildren(es);
    case Or(es) =>
      ConnectiveTranslation(es);
      RecoverChildren(es);
    case Not(inner) => RecoverTranslation(inner);
    case LocalNestedArray(_, _, filter) => RecoverTranslation(filter);
    case LocalRelationshipComparison(_, _, filter) => RecoverTranslation(filter);
    case _ =>
  }

  lemma {:induction false} RecoverChildren(es: seq<FilterExpression>)
    requires forall i :: 0 <= i < |es| ==> Local(es[i]) && MakeExpression(es[i]).Ok?
    ensures forall i :: 0 <= i < |es| ==> RecoverExpression(MakeExpression(es[i]).value) == es[i]
    decreases es
  {
    forall i | 0 <= i < |es|
      ensures RecoverExpression(MakeExpression(es[i]).value) == es[i]
    {
      RecoverTranslation(es[i]);
    }
  }
}
