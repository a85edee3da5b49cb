/**
 * The two builders that work by filling a vector in a loop: the `And`/`Or` arms of
 * `make_expression` and `make_order_by_target`. Each pushes one translated item per
 * input item and returns at the first error; each is proved to compute the
 * corresponding translation function.
 */
module NdcTranslate {
  import opened Wrappers
  import opened NdcPlan
  import opened NdcModels
  import opened NdcV01
  import opened NdcProperties

  /** `make_expression`: translates a resolved filter expression. */
  method TranslateExpression(e: FilterExpression) returns (r: Result<Expression, FieldError>)
    ensures r == MakeExpression(e)
    decreases e, 1
  {
    match e {
      case And(es) =>
        var children := TranslateChildren(es);
        if children.Err? {
          return Err(children.error);
        }
        r := Ok(NdcAnd(children.value));
      case Or(es) =>
        var children := TranslateChildren(es);
        if children.Err? {
          return Err(children.error);
        }
        r := Ok(NdcOr(children.value));
      case Not(inner) =>
        var x := TranslateExpression(inner);
        if x.Err? {
          return Err(x.error);
        }
        r := Ok(NdcNot(x.value));
      case BinaryComparison(column, operator, value) =>
        r := Ok(NdcBinaryComparison(MakeComparisonTarget(column), operator, MakeComparisonValue(value)));
      case LocalNestedArray(column, fieldPath, filter) =>
        var x := TranslateExpression(filter);
        if x.Err? {
          return Err(x.error);
        }
        r := Ok(Exists(NestedCollection(column, fieldPath, []), Some(x.value)));
      case LocalNestedScalarArray(_, _) =>
        r := Err(Compatibility(NestedScalarArrayComparisonsNotSupported));
      case UnaryComparison(column, IsNull) =>
        r := Ok(NdcUnaryComparison(MakeComparisonTarget(column), NdcIsNull));
      case LocalRelationshipComparison(fieldPath, relationship, filter) =>
        if fieldPath != [] {
          return Err(Compatibility(NestedRelationshipsInExpressionsNotSupported));
        }
        var x := TranslateExpression(filter);
        if x.Err? {
          return Err(x.error);
        }
        r := Ok(Exists(Related(relationship, []), Some(x.value)));
      case RemoteRelationshipComparison(_) =>
        r := Ok(NdcAnd([]));
    }
  }

  /** The loop of the connective arms: pushes each translated child, in order, stopping at the first error. */
  method TranslateChildren(es: seq<FilterExpression>) returns (r: Result<seq<Expression>, FieldError>)
    ensures r == MakeExpressions(es)
    decreases es, 0
  {
    ExpressionsCollect(es);
    var translated: seq<Expression> := [];
    for i := 0 to |es|
      invariant |translated| == i
      invariant forall j :: 0 <= j < i ==> MakeExpression(es[j]) == Ok(translated[j])
    {
      var x := TranslateExpression(es[i]);
      if x.Err? {
        CollectStops(es, MakeExpression, i);
        return Err(x.error);
      }
      translated := translated + [x.value];
    }
    CollectAllOk(es, MakeExpression, translated);
    r := Ok(translated);
  }

  /**
   * `make_order_by_target`: pushes one path element per relationship hop, refusing a hop
   * reached through a nested field and reading a missing predicate as `And []`.
   */
  method TranslateOrderByTarget(target: OrderByTarget) returns (r: Result<NdcOrderByTarget, FieldError>)
    ensures r == MakeOrderByTarget(target)
  {
    var hops := target.relationshipPath;
    var path: seq<PathElement> := [];
    for i := 0 to |hops|
      invariant |path| == i
      invariant forall j :: 0 <= j < i ==> MakePathElement(hops[j]) == Ok(path[j])
    {
      var element := hops[i];
      if element.fieldPath != [] {
        CollectStops(hops, MakePathElement, i);
        return Err(Compatibility(NestedRelationshipsInOrderByTargetsNotSupported));
      }
      var condition: Expression;
      match element.filterPredicate {
        case Some(filter) =>
          var x := TranslateExpression(filter);
          if x.Err? {
            CollectStops(hops, MakePathElement, i);
            return Err(x.error);
          }
          condition := x.value;
        case None =>
          condition := NdcAnd([]);
      }
      path := path + [PathElement(element.relationshipName, [], Some(condition))];
    }
    CollectAllOk(hops, MakePathElement, path);
    r := Ok(NdcOrderByColumn(target.name, path, OptionalPath(target.fieldPath)));
  }
}
