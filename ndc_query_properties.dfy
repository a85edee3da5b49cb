/**
 * What the translation guarantees for order-by targets, aggregates, arguments, whole
 * queries and mutation requests.
 */
module NdcQueryProperties {
  import opened Wrappers
  import opened NdcPlan
  import opened NdcModels
  import opened NdcV01
  import opened NdcProperties

  // ---------------------------------------------------------------- order-by targets

  /** A path hop NDC v0.1 can follow: reached directly, and with a translatable predicate if any. */
  predicate PathElementTranslates(element: RelationshipPathElement) {
    element.fieldPath == [] && MakePathPredicate(element.filterPredicate).Ok?
  }

  /**
   * An order-by target translates iff every hop of its relationship path does; a hop
   * reached through a nested field is refused. The translated path has the same hops,
   * in the same order, each with no arguments and its predicate, a missing one read as
   * the always-true `And []`.
   */
  lemma OrderByTargetTranslation(target: OrderByTarget)
    ensures MakeOrderByTarget(target).Ok? <==>
      forall i :: 0 <= i < |target.relationshipPath| ==> PathElementTranslates(target.relationshipPath[i])
    ensures (exists i :: 0 <= i < |target.relationshipPath| && target.relationshipPath[i].fieldPath != []) ==>
      MakeOrderByTarget(target).Err?
    ensures MakeOrderByTarget(target).Ok? ==>
      var r := MakeOrderByTarget(target).value;
      r.name == target.name && r.fieldPath == OptionalPath(target.fieldPath)
      && |r.path| == |target.relationshipPath|
      && forall i :: 0 <= i < |r.path| ==>
        r.path[i].relationship == target.relationshipPath[i].relationshipName
        && r.path[i].arguments == []
        && (target.relationshipPath[i].filterPredicate.None? ==> r.path[i].ndcPredicate == Some(NdcAnd([])))
        && (target.relationshipPath[i].filterPredicate.Some? ==>
              r.path[i].ndcPredicate == Some(MakeExpression(target.relationshipPath[i].filterPredicate.value).value))
  {
    CollectOk(target.relationshipPath, MakePathElement);
  }

  /**
   * A refused order-by target was refused at its first failing hop: with the
   * nested-relationship error when that hop has a field path, with its predicate's
   * error otherwise.
   */
  lemma OrderByTargetFirstError(target: OrderByTarget) returns (i: nat)
    requires MakeOrderByTarget(target).Err?
    ensures i < |target.relationshipPath|
    ensures forall j :: 0 <= j < i ==> PathElementTranslates(target.relationshipPath[j])
    ensures target.relationshipPath[i].fieldPath != [] ==>
      MakeOrderByTarget(target).error == NdcV01Compatibility(NestedRelationshipsInOrderByTargetsNotSupported)
    ensures target.relationshipPath[i].fieldPath == [] ==>
      MakePathPredicate(target.relationshipPath[i].filterPredicate) == Err(MakeOrderByTarget(target).error)
  {
    i := CollectFirstError(target.relationshipPath, MakePathElement);
  }

  /** The order-by keeps its elements, their order and their directions. */
  lemma OrderByTranslation(elements: seq<OrderByElement>)
    ensures MakeOrderBy(elements).Ok? <==> forall i :: 0 <= i < |elements| ==> MakeOrderByTarget(elements[i].target).Ok?
    ensures MakeOrderBy(elements).Ok? ==>
      |MakeOrderBy(elements).value.elements| == |elements|
      && forall i :: 0 <= i < |elements| ==>
        MakeOrderBy(elements).value.elements[i]
          == NdcOrderByElement(MakeOrderDirection(elements[i].orderDirection), MakeOrderByTarget(elements[i].target).value)
  {
    CollectOk(elements, MakeOrderByElement);
  }

  // ---------------------------------------------------------------- aggregates

  /** The column path an aggregate selection reads. */
  function SelectionPath(selection: AggregateFieldSelection): seq<string> {
    match selection
    case Count(path) => path
    case CountDistinct(path) => path
    case AggregationFunction(_, head, tail) => [head] + tail
  }

  /** The column path an NDC aggregate reads: its column, then its nested path. */
  function AggregatedPath(aggregate: Aggregate): seq<string> {
    match aggregate
    case StarCount => []
    case ColumnCount(column, fieldPath, _) => [column] + PathOf(fieldPath)
    case SingleColumn(column, fieldPath, _) => [column] + PathOf(fieldPath)
  }

  lemma PathOfOptional(path: seq<string>)
    ensures PathOf(OptionalPath(path)) == path
  {
  }

  lemma HeadTail(path: seq<string>)
    requires path != []
    ensures [path[0]] + path[1..] == path
  {
  }

  /**
   * An aggregate reads the same column path it was selected with; counts become a row
   * count exactly when that path is empty, and a column count is distinct exactly when
   * `CountDistinct` was selected; an aggregation function keeps its name.
   */
  lemma AggregateTranslation(selection: AggregateFieldSelection)
    ensures AggregatedPath(MakeAggregate(selection)) == SelectionPath(selection)
    ensures MakeAggregate(selection).StarCount? <==> !selection.AggregationFunction? && SelectionPath(selection) == []
    ensures MakeAggregate(selection).ColumnCount? <==> !selection.AggregationFunction? && SelectionPath(selection) != []
    ensures MakeAggregate(selection).ColumnCount? ==> (MakeAggregate(selection).distinct <==> selection.CountDistinct?)
    ensures MakeAggregate(selection).SingleColumn? <==> selection.AggregationFunction?
    ensures selection.AggregationFunction? ==> MakeAggregate(selection).functionName == selection.functionName
    ensures !MakeAggregate(selection).StarCount? ==> MakeAggregate(selection).fieldPath != Some([])
  {
    match selection
    case Count(path) =>
      if path != [] {
        PathOfOptional(path[1..]);
        HeadTail(path);
      }
    case CountDistinct(path) =>
      if path != [] {
        PathOfOptional(path[1..]);
        HeadTail(path);
      }
    case AggregationFunction(_, _, tail) =>
      PathOfOptional(tail);
  }

  // ---------------------------------------------------------------- arguments

  /**
   * Arguments keep their names and order; literals and variables are copied, and a
   * boolean expression is sent as the serialised translation of its predicate.
   */
  lemma ArgumentsTranslation(arguments: seq<NamedArgument>, ser: Serializer)
    ensures MakeArguments(arguments, ser).Ok? <==>
      forall i :: 0 <= i < |arguments| ==> MakeArgument(arguments[i].argument, ser).Ok?
    ensures MakeArguments(arguments, ser).Ok? ==>
      var r := MakeArguments(arguments, ser).value;
      |r| == |arguments|
      && forall i :: 0 <= i < |r| ==>
        r[i].name == arguments[i].name
        && (arguments[i].argument.Literal? ==> r[i].argument == ArgumentLiteral(arguments[i].argument.value))
        && (arguments[i].argument.VariableArgument? ==> r[i].argument == ArgumentVariable(arguments[i].argument.variable))
        && (arguments[i].argument.BooleanExpression? ==>
              r[i].argument.ArgumentLiteral?
              && r[i].argument.value == ser(MakeExpression(arguments[i].argument.filter).value).value)
  {
    CollectOk(arguments, a => MakeNamedArgument(a, ser));
  }

  /** The same for the arguments of a relationship field, sent as relationship arguments. */
  lemma RelationshipArgumentsTranslation(arguments: seq<NamedArgument>, ser: Serializer)
    ensures MakeRelationshipArgumentsFromArguments(arguments, ser).Ok? <==>
      forall i :: 0 <= i < |arguments| ==> MakeRelationshipArgumentFromArgument(arguments[i].argument, ser).Ok?
    ensures MakeRelationshipArgumentsFromArguments(arguments, ser).Ok? ==>
      var r := MakeRelationshipArgumentsFromArguments(arguments, ser).value;
      |r| == |arguments|
      && forall i :: 0 <= i < |r| ==>
        r[i].name == arguments[i].name
        && (arguments[i].argument.Literal? ==> r[i].argument == RelationshipLiteral(arguments[i].argument.value))
        && (arguments[i].argument.VariableArgument? ==> r[i].argument == RelationshipVariable(arguments[i].argument.variable))
        && (arguments[i].argument.BooleanExpression? ==>
              r[i].argument.RelationshipLiteral?
              && r[i].argument.value == ser(MakeExpression(arguments[i].argument.filter).value).value)
  {
    CollectOk(arguments, a => MakeNamedRelationshipArgumentFromArgument(a, ser));
  }

  /** An argument fails exactly when it is a boolean expression that does not translate or does not serialise. */
  lemma ArgumentFails(argument: Argument, ser: Serializer)
    ensures MakeArgument(argument, ser).Err? <==>
      argument.BooleanExpression?
      && (MakeExpression(argument.filter).Err? || ser(MakeExpression(argument.filter).value).Err?)
    ensures MakeRelationshipArgumentFromArgument(argument, ser).Err? <==> MakeArgument(argument, ser).Err?
  {
  }

  // ---------------------------------------------------------------- queries

  /**
   * A grouping is refused; otherwise the query translates exactly when its predicate,
   * its fields and its order-by do, and it carries their translations, the limit, the
   * offset and the aggregates. A local predicate is read back from the translation.
   */
  lemma QueryTranslation(node: QueryNode, ser: Serializer)
    ensures node.groupBy ==> MakeQuery(node, ser) == Err(NdcV01Compatibility(GroupByNotSupported))
    ensures MakeQuery(node, ser).Ok? <==>
      !node.groupBy && MakeOptionalExpression(node.filter).Ok?
      && MakeFieldsSelection(node.fields, ser).Ok? && MakeOptionalOrderBy(node.orderBy).Ok?
    ensures MakeQuery(node, ser).Ok? ==>
      var q := MakeQuery(node, ser).value;
      q.limit == node.limit && q.offset == node.offset
      && q.aggregates == MakeOptionalAggregates(node.aggregates)
      && q.ndcPredicate == MakeOptionalExpression(node.filter).value
      && q.fields == MakeFieldsSelection(node.fields, ser).value
      && q.orderBy == MakeOptionalOrderBy(node.orderBy).value
      && (q.ndcPredicate.None? <==> node.filter.None?)
      && (q.fields.None? <==> node.fields.None?)
      && (q.orderBy.None? <==> node.orderBy.None?)
    ensures MakeQuery(node, ser).Ok? && node.filter.Some? && Local(node.filter.value) ==>
      RecoverPredicate(MakeQuery(node, ser).value.ndcPredicate) == node.filter.value
  {
    if MakeQuery(node, ser).Ok? && node.filter.Some? && Local(node.filter.value) {
      RecoverTranslation(node.filter.value);
    }
  }

  predicate OptionalExpressible(filter: Option<FilterExpression>) {
    filter.Some? ==> Expressible(filter.value)
  }

  predicate ArgumentsExpressible(arguments: seq<NamedArgument>) {
    forall i :: 0 <= i < |arguments| ==>
      arguments[i].argument.BooleanExpression? ==> Expressible(arguments[i].argument.filter)
  }

  predicate OrderByExpressible(orderBy: Option<seq<OrderByElement>>) {
    orderBy.Some? ==>
      forall i, j :: 0 <= i < |orderBy.value| && 0 <= j < |orderBy.value[i].target.relationshipPath| ==>
        orderBy.value[i].target.relationshipPath[j].fieldPath == []
        && OptionalExpressible(orderBy.value[i].target.relationshipPath[j].filterPredicate)
  }

  /**
   * The queries NDC v0.1 can state: no grouping at any level, and only expressible
   * predicates and order-by paths, in the node and in every relationship field below it.
   */
  predicate QueryExpressible(node: QueryNode)
    decreases node, 1
  {
    !node.groupBy && OptionalExpressible(node.filter) && OrderByExpressible(node.orderBy)
    && SelectionExpressible(node.fields)
  }

  predicate SelectionExpressible(selection: Option<FieldsSelection>)
    decreases selection, 0
  {
    match selection
    case None => true
    case Some(s) => FieldsExpressible(s.fields)
  }

  predicate FieldsExpressible(fields: seq<NamedField>)
    decreases fields, 0
  {
    forall i :: 0 <= i < |fields| ==> FieldExpressible(fields[i].field)
  }

  predicate FieldExpressible(field: Field)
    decreases field, 1
  {
    match field
    case ColumnField(_, nested, arguments) => NestedOptionExpressible(nested) && ArgumentsExpressible(arguments)
    case RelationshipField(queryNode, _, arguments) => QueryExpressible(queryNode) && ArgumentsExpressible(arguments)
  }

  predicate NestedOptionExpressible(nested: Option<NestedField>)
    decreases nested, 0
  {
    match nested
    case None => true
    case Some(n) => NestedExpressible(n)
  }

  predicate NestedExpressible(nested: NestedField)
    decreases nested, 1
  {
    match nested
    case NestedObject(fields) => FieldsExpressible(fields)
    case NestedArray(inner) => NestedExpressible(inner)
  }

  /** The serialiser accepts every expression. */
  ghost predicate Serializes(ser: Serializer) {
    forall x :: ser(x).Ok?
  }

  lemma OptionalExpressionIff(filter: Option<FilterExpression>)
    ensures MakeOptionalExpression(filter).Ok? <==> OptionalExpressible(filter)
  {
    if filter.Some? {
      ExpressionTranslatesIff(filter.value);
    }
  }

  lemma ArgumentsIff(arguments: seq<NamedArgument>, ser: Serializer)
    ensures MakeArguments(arguments, ser).Ok? ==> ArgumentsExpressible(arguments)
    ensures MakeRelationshipArgumentsFromArguments(arguments, ser).Ok? ==> ArgumentsExpressible(arguments)
    ensures Serializes(ser) && ArgumentsExpressible(arguments) ==>
      MakeArguments(arguments, ser).Ok? && MakeRelationshipArgumentsFromArguments(arguments, ser).Ok?
  {
    ArgumentsTranslation(arguments, ser);
    RelationshipArgumentsTranslation(arguments, ser);
    forall i | 0 <= i < |arguments| && arguments[i].argument.BooleanExpression?
      ensures MakeExpression(arguments[i].argument.filter).Ok? <==> Expressible(arguments[i].argument.filter)
    {
      ExpressionTranslatesIff(arguments[i].argument.filter);
    }
  }

  lemma PathElementIff(element: RelationshipPathElement)
    ensures PathElementTranslates(element) <==>
      element.fieldPath == [] && OptionalExpressible(element.filterPredicate)
  {
    if element.filterPredicate.Some? {
      ExpressionTranslatesIff(element.filterPredicate.value);
    }
  }

  lemma OrderByTargetIff(target: OrderByTarget)
    ensures MakeOrderByTarget(target).Ok? <==>
      forall j :: 0 <= j < |target.relationshipPath| ==>
        target.relationshipPath[j].fieldPath == [] && OptionalExpressible(target.relationshipPath[j].filterPredicate)
  {
    OrderByTargetTranslation(target);
    forall j | 0 <= j < |target.relationshipPath|
      ensures PathElementTranslates(target.relationshipPath[j]) <==>
        target.relationshipPath[j].fieldPath == [] && OptionalExpressible(target.relationshipPath[j].filterPredicate)
    {
      PathElementIff(target.relationshipPath[j]);
    }
  }

  lemma OrderByIff(orderBy: Option<seq<OrderByElement>>)
    ensures MakeOptionalOrderBy(orderBy).Ok? <==> OrderByExpressible(orderBy)
  {
    if orderBy.Some? {
      var elements := orderBy.value;
      OrderByTranslation(elements);
      forall i | 0 <= i < |elements|
        ensures MakeOrderByTarget(elements[i].target).Ok? <==>
          forall j :: 0 <= j < |elements[i].target.relationshipPath| ==>
            elements[i].target.relationshipPath[j].fieldPath == []
            && OptionalExpressible(elements[i].target.relationshipPath[j].filterPredicate)
      {
        OrderByTargetIff(elements[i].target);
      }
    }
  }

  /**
   * A query that translates is expressible in NDC v0.1, and with a serialiser that
   * accepts every expression, every expressible query translates.
   */
  lemma {:induction false} QueryTranslatesIff(node: QueryNode, ser: Serializer)
    ensures MakeQuery(node, ser).Ok? ==> QueryExpressible(node)
    ensures Serializes(ser) && QueryExpressible(node) ==> MakeQuery(node, ser).Ok?
    decreases node, 1
  {
    OptionalExpressionIff(node.filter);
    OrderByIff(node.orderBy);
    SelectionTranslatesIff(node.fields, ser);
  }

  lemma {:induction false} SelectionTranslatesIff(selection: Option<FieldsSelection>, ser: Serializer)
    ensures MakeFieldsSelection(selection, ser).Ok? ==> SelectionExpressible(selection)
    ensures Serializes(ser) && SelectionExpressible(selection) ==> MakeFieldsSelection(selection, ser).Ok?
    decreases selection, 0
  {
    match selection
    case None =>
    case Some(s) => FieldsTranslateIff(s.fields, ser);
  }

  lemma {:induction false} FieldsTranslateIff(fields: seq<NamedField>, ser: Serializer)
    ensures MakeNamedFields(fields, ser).Ok? ==> FieldsExpressible(fields)
    ensures Serializes(ser) && FieldsExpressible(fields) ==> MakeNamedFields(fields, ser).Ok?
    decreases fields, 0
  {
    if fields != [] {
      FieldTranslatesIff(fields[0].field, ser);
      FieldsTranslateIff(fields[1..], ser);
      assert forall i :: 1 <= i < |fields| ==> fields[i] == fields[1..][i - 1];
    }
  }

  lemma {:induction false} FieldTranslatesIff(field: Field, ser: Serializer)
    ensures MakeField(field, ser).Ok? ==> FieldExpressible(field)
    ensures Serializes(ser) && FieldExpressible(field) ==> MakeField(field, ser).Ok?
    decreases field, 1
  {
    match field
    case ColumnField(_, nested, arguments) =>
      NestedOptionTranslatesIff(nested, ser);
      ArgumentsIff(arguments, ser);
    case RelationshipField(queryNode, _, arguments) =>
      QueryTranslatesIff(queryNode, ser);
      ArgumentsIff(arguments, ser);
  }

  lemma {:induction false} NestedOptionTranslatesIff(nested: Option<NestedField>, ser: Serializer)
    ensures MakeOptionalNestedField(nested, ser).Ok? ==> NestedOptionExpressible(nested)
    ensures Serializes(ser) && NestedOptionExpressible(nested) ==> MakeOptionalNestedField(nested, ser).Ok?
    decreases nested, 0
  {
    match nested
    case None =>
    case Some(n) => NestedTranslatesIff(n, ser);
  }

  lemma {:induction false} NestedTranslatesIff(nested: NestedField, ser: Serializer)
    ensures MakeNestedField(nested, ser).Ok? ==> NestedExpressible(nested)
    ensures Serializes(ser) && NestedExpressible(nested) ==> MakeNestedField(nested, ser).Ok?
    decreases nested, 1
  {
    match nested
    case NestedObject(fields) => FieldsTranslateIff(fields, ser);
    case NestedArray(inner) => NestedTranslatesIff(inner, ser);
  }

  // ---------------------------------------------------------------- field contents

  /**
   * A field map translates exactly when each of its fields does; the names are kept in
   * order and each entry carries its field's translation.
   */
  lemma {:induction false} NamedFieldsTranslation(fields: seq<NamedField>, ser: Serializer)
    ensures MakeNamedFields(fields, ser).Ok? <==> forall i :: 0 <= i < |fields| ==> MakeField(fields[i].field, ser).Ok?
    ensures MakeNamedFields(fields, ser).Ok? ==>
      forall i :: 0 <= i < |fields| ==>
        MakeNamedFields(fields, ser).value[i] == NdcNamedField(fields[i].name, MakeField(fields[i].field, ser).value)
  {
    if fields != [] {
      NamedFieldsTranslation(fields[1..], ser);
      assert forall i :: 1 <= i < |fields| ==> fields[i] == fields[1..][i - 1];
    }
  }

  /**
   * A column field keeps its column and carries its translated nested selection and
   * arguments; a relationship field carries the translated query of its node, its
   * relationship and its translated arguments. Each fails exactly when a part does.
   */
  lemma FieldTranslation(field: Field, ser: Serializer)
    ensures field.ColumnField? ==>
      (MakeField(field, ser).Ok? <==>
        MakeOptionalNestedField(field.fields, ser).Ok? && MakeArguments(field.arguments, ser).Ok?)
      && (MakeField(field, ser).Ok? ==>
        MakeField(field, ser).value == NdcColumnField(field.column,
          MakeOptionalNestedField(field.fields, ser).value, MakeArguments(field.arguments, ser).value))
    ensures field.RelationshipField? ==>
      (MakeField(field, ser).Ok? <==>
        MakeQuery(field.queryNode, ser).Ok?
        && MakeRelationshipArgumentsFromArguments(field.relationshipArguments, ser).Ok?)
      && (MakeField(field, ser).Ok? ==>
        MakeField(field, ser).value == NdcRelationshipField(MakeQuery(field.queryNode, ser).value,
          field.relationship, MakeRelationshipArgumentsFromArguments(field.relationshipArguments, ser).value))
  {
  }

  /** A nested object stays an object of the translated fields, a nested array an array of the translated element. */
  lemma NestedTranslation(nested: NestedField, ser: Serializer)
    ensures nested.NestedObject? ==>
      (MakeNestedField(nested, ser).Ok? <==> MakeNamedFields(nested.objectFields, ser).Ok?)
      && (MakeNestedField(nested, ser).Ok? ==>
        MakeNestedField(nested, ser).value == NdcNestedObject(MakeNamedFields(nested.objectFields, ser).value))
    ensures nested.NestedArray? ==>
      (MakeNestedField(nested, ser).Ok? <==> MakeNestedField(nested.elementFields, ser).Ok?)
      && (MakeNestedField(nested, ser).Ok? ==>
        MakeNestedField(nested, ser).value == NdcNestedArray(MakeNestedField(nested.elementFields, ser).value))
  {
  }

  // ---------------------------------------------------------------- response shape

  /**
   * An NDC selection has the shape of a plan selection: the same fields under the same
   * names in the same order, each reading the same column, nested the same way, or
   * following the same relationship with a selection of the same shape, at every level.
   */
  predicate SelectionMatches(selection: Option<FieldsSelection>, ndcFields: Option<seq<NdcNamedField>>)
    decreases selection, 0
  {
    match selection
    case None => ndcFields.None?
    case Some(s) => ndcFields.Some? && FieldsMatch(s.fields, ndcFields.value)
  }

  predicate FieldsMatch(fields: seq<NamedField>, ndcFields: seq<NdcNamedField>)
    decreases fields, 0
  {
    |ndcFields| == |fields|
    && forall i :: 0 <= i < |fields| ==>
      ndcFields[i].name == fields[i].name && FieldMatches(fields[i].field, ndcFields[i].field)
  }

  predicate FieldMatches(field: Field, ndcField: NdcField)
    decreases field, 1
  {
    match field
    case ColumnField(column, nested, _) =>
      ndcField.NdcColumnField? && ndcField.column == column && NestedOptionMatches(nested, ndcField.fields)
    case RelationshipField(queryNode, relationship, _) =>
      ndcField.NdcRelationshipField? && ndcField.relationship == relationship
      && SelectionMatches(queryNode.fields, ndcField.query.fields)
  }

  predicate NestedOptionMatches(nested: Option<NestedField>, ndcNested: Option<NdcNestedField>)
    decreases nested, 0
  {
    match nested
    case None => ndcNested.None?
    case Some(n) => ndcNested.Some? && NestedMatches(n, ndcNested.value)
  }

  predicate NestedMatches(nested: NestedField, ndcNested: NdcNestedField)
    decreases nested, 1
  {
    match nested
    case NestedObject(fields) => ndcNested.NdcNestedObject? && FieldsMatch(fields, ndcNested.objectFields)
    case NestedArray(inner) => ndcNested.NdcNestedArray? && NestedMatches(inner, ndcNested.elementFields)
  }

  /** A translated query selects the shape of its plan, at every level of relationship fields. */
  lemma {:induction false} QueryShapeKept(node: QueryNode, ser: Serializer)
    ensures MakeQuery(node, ser).Ok? ==> SelectionMatches(node.fields, MakeQuery(node, ser).value.fields)
    decreases node, 1
  {
    if MakeQuery(node, ser).Ok? {
      QueryTranslation(node, ser);
      SelectionShapeKept(node.fields, ser);
    }
  }

  lemma {:induction false} SelectionShapeKept(selection: Option<FieldsSelection>, ser: Serializer)
    ensures MakeFieldsSelection(selection, ser).Ok? ==>
      SelectionMatches(selection, MakeFieldsSelection(selection, ser).value)
    decreases selection, 0
  {
    match selection
    case None =>
    case Some(s) => FieldsShapeKept(s.fields, ser);
  }

  lemma {:induction false} FieldsShapeKept(fields: seq<NamedField>, ser: Serializer)
    ensures MakeNamedFields(fields, ser).Ok? ==> FieldsMatch(fields, MakeNamedFields(fields, ser).value)
    decreases fields, 0
  {
    if MakeNamedFields(fields, ser).Ok? {
      var r := MakeNamedFields(fields, ser).value;
      NamedFieldsTranslation(fields, ser);
      forall i | 0 <= i < |fields|
        ensures FieldMatches(fields[i].field, r[i].field)
      {
        FieldShapeKept(fields[i].field, ser);
      }
    }
  }

  lemma {:induction false} FieldShapeKept(field: Field, ser: Serializer)
    ensures MakeField(field, ser).Ok? ==> FieldMatches(field, MakeField(field, ser).value)
    decreases field, 1
  {
    match field
    case ColumnField(_, nested, _) => NestedOptionShapeKept(nested, ser);
    case RelationshipField(queryNode, _, _) => QueryShapeKept(queryNode, ser);
  }

  lemma {:induction false} NestedOptionShapeKept(nested: Option<NestedField>, ser: Serializer)
    ensures MakeOptionalNestedField(nested, ser).Ok? ==>
      NestedOptionMatches(nested, MakeOptionalNestedField(nested, ser).value)
    decreases nested, 0
  {
    match nested
    case None =>
    case Some(n) => NestedShapeKept(n, ser);
  }

  lemma {:induction false} NestedShapeKept(nested: NestedField, ser: Serializer)
    ensures MakeNestedField(nested, ser).Ok? ==> NestedMatches(nested, MakeNestedField(nested, ser).value)
    decreases nested, 1
  {
    match nested
    case NestedObject(fields) => FieldsShapeKept(fields, ser);
    case NestedArray(inner) => NestedShapeKept(inner, ser);
  }

  // ---------------------------------------------------------------- requests

  /**
   * A mutation request is one procedure call, named after the plan's procedure, with the
   * plan's arguments under their own names, literal values unchanged and a boolean
   * expression sent as its serialised translation, and the plan's fields translated, of
   * the same shape; it fails exactly when an argument or the returned fields do.
   */
  lemma MutationRequestTranslation(plan: MutationExecutionPlan, ser: Serializer)
    ensures MakeMutationRequest(plan, ser).Ok? <==>
      MakeMutationArguments(plan.procedureArguments, ser).Ok? && MakeOptionalNestedField(plan.procedureFields, ser).Ok?
    ensures MakeMutationArguments(plan.procedureArguments, ser).Ok? <==>
      forall i :: 0 <= i < |plan.procedureArguments| ==> MakeMutationArgument(plan.procedureArguments[i].argument, ser).Ok?
    ensures MakeMutationRequest(plan, ser).Ok? ==>
      var r := MakeMutationRequest(plan, ser).value;
      |r.operations| == 1
      && r.operations[0].name == plan.procedureName
      && r.operations[0].fields == MakeOptionalNestedField(plan.procedureFields, ser).value
      && (r.operations[0].fields.None? <==> plan.procedureFields.None?)
      && NestedOptionMatches(plan.procedureFields, r.operations[0].fields)
      && |r.operations[0].arguments| == |plan.procedureArguments|
      && (forall i :: 0 <= i < |plan.procedureArguments| ==>
            r.operations[0].arguments[i].name == plan.procedureArguments[i].name
            && (plan.procedureArguments[i].argument.MutationLiteral? ==>
                  r.operations[0].arguments[i].value == plan.procedureArguments[i].argument.value)
            && (plan.procedureArguments[i].argument.MutationBooleanExpression? ==>
                  r.operations[0].arguments[i].value
                    == ser(MakeExpression(plan.procedureArguments[i].argument.filter).value).value))
      && r.collectionRelationships == MakeCollectionRelationships(plan.collectionRelationships)
  {
    CollectOk(plan.procedureArguments, a => MakeNamedMutationArgument(a, ser));
    NestedOptionShapeKept(plan.procedureFields, ser);
  }

  /**
   * A query request queries the plan's collection with the translated query, selecting
   * the plan's shape, and the translated arguments, and carries the relationships and
   * variable rows over; it fails exactly when the query or an argument does.
   */
  lemma QueryRequestTranslation(plan: QueryExecutionPlan, ser: Serializer)
    ensures MakeQueryRequest(plan, ser).Ok? <==>
      MakeQuery(plan.queryNode, ser).Ok? && MakeArguments(plan.arguments, ser).Ok?
    ensures MakeQueryRequest(plan, ser).Ok? ==>
      var r := MakeQueryRequest(plan, ser).value;
      r.collection == plan.collection
      && r.query == MakeQuery(plan.queryNode, ser).value
      && SelectionMatches(plan.queryNode.fields, r.query.fields)
      && r.arguments == MakeArguments(plan.arguments, ser).value
      && r.collectionRelationships == MakeCollectionRelationships(plan.collectionRelationships)
      && r.variables == MakeVariables(plan.variables)
  {
    QueryShapeKept(plan.queryNode, ser);
  }
}
