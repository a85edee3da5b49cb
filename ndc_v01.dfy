/**
 * The translation of an execution plan into an NDC v0.1 request. Every builder either
 * returns the translated value or the first error met, walking its inputs in order as
 * the source's `?` and `collect::<Result<..>>()` do.
 */
module NdcV01 {
  import opened Wrappers
  import opened NdcPlan
  import opened NdcModels

  /** The constructs NDC v0.1 cannot express. */
  datatype CompatibilityError =
    | NestedRelationshipsInExpressionsNotSupported
    | NestedRelationshipsInOrderByTargetsNotSupported
    | NestedScalarArrayComparisonsNotSupported
    | GroupByNotSupported

  /** The two internal errors the translation can raise. */
  datatype FieldError =
    | NdcV01Compatibility(compatibility: CompatibilityError)
    | ExpressionSerialization(message: string)

  /**
   * `serde_json::to_value` applied to a translated expression: a foreign serialiser
   * that may fail with a message.
   */
  type Serializer = Expression -> Result<NdcPlan.JsonValue, string>

  /** `collect::<Result<Vec<_>, _>>()`: maps `f` over `xs` and stops at the first error. */
  function Collect<A, B>(xs: seq<A>, f: A -> Result<B, FieldError>): (r: Result<seq<B>, FieldError>)
    ensures r.Ok? ==> |r.value| == |xs|
  {
    if xs == [] then Ok([])
    else
      var y :- f(xs[0]);
      var ys :- Collect(xs[1..], f);
      Ok([y] + ys)
  }

  /** An empty path is sent as an absent one. */
  function OptionalPath(path: seq<string>): (r: Option<seq<string>>)
    ensures r.None? <==> path == []
    ensures r.Some? ==> r.value == path
  {
    if path == [] then None else Some(path)
  }

  function Compatibility(e: CompatibilityError): FieldError {
    NdcV01Compatibility(e)
  }

  // ---------------------------------------------------------------- expressions

  function MakeComparisonTarget(target: ComparisonTarget): (r: NdcComparisonTarget)
    ensures r.name == target.name && r.path == []
    ensures r.fieldPath.None? <==> target.fieldPath == []
    ensures r.fieldPath.Some? ==> r.fieldPath.value == target.fieldPath
  {
    NdcColumn(target.name, OptionalPath(target.fieldPath), [])
  }

  function MakeComparisonValue(value: ComparisonValue): NdcComparisonValue {
    match value
    case Scalar(v) => NdcScalar(v)
    case Variable(name) => NdcVariable(name)
  }

  function MakeExpression(e: FilterExpression): Result<Expression, FieldError>
    decreases e, 1
  {
    match e
    case And(es) =>
      var xs :- MakeExpressions(es);
      Ok(NdcAnd(xs))
    case Or(es) =>
      var xs :- MakeExpressions(es);
      Ok(NdcOr(xs))
    case Not(inner) =>
      var x :- MakeExpression(inner);
      Ok(NdcNot(x))
    case BinaryComparison(column, operator, value) =>
      Ok(NdcBinaryComparison(MakeComparisonTarget(column), operator, MakeComparisonValue(value)))
    case LocalNestedArray(column, fieldPath, filter) =>
      var x :- MakeExpression(filter);
      Ok(Exists(NestedCollection(column, fieldPath, []), Some(x)))
    case LocalNestedScalarArray(_, _) =>
      Err(Compatibility(NestedScalarArrayComparisonsNotSupported))
    case UnaryComparison(column, IsNull) =>
      Ok(NdcUnaryComparison(MakeComparisonTarget(column), NdcIsNull))
    case LocalRelationshipComparison(fieldPath, relationship, filter) =>
      if fieldPath != [] then Err(Compatibility(NestedRelationshipsInExpressionsNotSupported))
      else
        var x :- MakeExpression(filter);
        Ok(Exists(Related(relationship, []), Some(x)))
    case RemoteRelationshipComparison(_) =>
      // only the local connector's part of the predicate is sent: the rest is "true"
      Ok(NdcAnd([]))
  }

  /** The children of a connective, translated in order; the first failing child aborts. */
  function MakeExpressions(es: seq<FilterExpression>): (r: Result<seq<Expression>, FieldError>)
    ensures r.Ok? ==> |r.value| == |es|
    decreases es, 0
  {
    if es == [] then Ok([])
    else
      var x :- MakeExpression(es[0]);
      var xs :- MakeExpressions(es[1..]);
      Ok([x] + xs)
  }

  function MakeOptionalExpression(e: Option<FilterExpression>): Result<Option<Expression>, FieldError> {
    match e
    case None => Ok(None)
    case Some(f) =>
      var x :- MakeExpression(f);
      Ok(Some(x))
  }

  /** `serde_json::to_value` of a translated expression, its failure wrapped as a field error. */
  function Serialize(ser: Serializer, x: Expression): (r: Result<NdcPlan.JsonValue, FieldError>)
    ensures r.Err? <==> ser(x).Err?
    ensures r.Ok? ==> r.value == ser(x).value
  {
    match ser(x)
    case Ok(v) => Ok(v)
    case Err(message) => Err(ExpressionSerialization(message))
  }

  // ---------------------------------------------------------------- arguments

  /** A boolean-expression argument travels as the serialised translated expression. */
  function MakeArgument(argument: Argument, ser: Serializer): Result<NdcArgument, FieldError> {
    match argument
    case Literal(value) => Ok(ArgumentLiteral(value))
    case VariableArgument(name) => Ok(ArgumentVariable(name))
    case BooleanExpression(filter) =>
      var x :- MakeExpression(filter);
      var value :- Serialize(ser, x);
      Ok(ArgumentLiteral(value))
  }

  function MakeNamedArgument(argument: NamedArgument, ser: Serializer): (r: Result<NdcNamedArgument, FieldError>)
    ensures r.Ok? ==> r.value.name == argument.name
  {
    var a :- MakeArgument(argument.argument, ser);
    Ok(NdcNamedArgument(argument.name, a))
  }

  function MakeArguments(arguments: seq<NamedArgument>, ser: Serializer): Result<seq<NdcNamedArgument>, FieldError> {
    Collect(arguments, a => MakeNamedArgument(a, ser))
  }

  function MakeRelationshipArgumentFromArgument(argument: Argument, ser: Serializer): Result<NdcRelationshipArgument, FieldError> {
    match argument
    case Literal(value) => Ok(RelationshipLiteral(value))
    case VariableArgument(name) => Ok(RelationshipVariable(name))
    case BooleanExpression(filter) =>
      var x :- MakeExpression(filter);
      var value :- Serialize(ser, x);
      Ok(RelationshipLiteral(value))
  }

  function MakeNamedRelationshipArgumentFromArgument(argument: NamedArgument, ser: Serializer): (r: Result<NdcNamedRelationshipArgument, FieldError>)
    ensures r.Ok? ==> r.value.name == argument.name
  {
    var a :- MakeRelationshipArgumentFromArgument(argument.argument, ser);
    Ok(NdcNamedRelationshipArgument(argument.name, a))
  }

  function MakeRelationshipArgumentsFromArguments(arguments: seq<NamedArgument>, ser: Serializer): Result<seq<NdcNamedRelationshipArgument>, FieldError> {
    Collect(arguments, a => MakeNamedRelationshipArgumentFromArgument(a, ser))
  }

  function MakeRelationshipArgument(argument: RelationshipArgument): NdcRelationshipArgument {
    match argument
    case ColumnArgument(name) => RelationshipColumn(name)
  }

  function MakeRelationshipArguments(arguments: seq<NamedRelationshipArgument>): (r: seq<NdcNamedRelationshipArgument>)
    ensures |r| == |arguments|
    ensures forall i :: 0 <= i < |r| ==>
      r[i] == NdcNamedRelationshipArgument(arguments[i].name, RelationshipColumn(arguments[i].argument.columnName))
  {
    seq(|arguments|, i requires 0 <= i < |arguments| =>
      NdcNamedRelationshipArgument(arguments[i].name, MakeRelationshipArgument(arguments[i].argument)))
  }

  function MakeMutationArgument(argument: MutationArgument, ser: Serializer): Result<NdcPlan.JsonValue, FieldError> {
    match argument
    case MutationLiteral(value) => Ok(value)
    case MutationBooleanExpression(filter) =>
      var x :- MakeExpression(filter);
      Serialize(ser, x)
  }

  function MakeNamedMutationArgument(argument: NamedMutationArgument, ser: Serializer): (r: Result<NdcMutationArgument, FieldError>)
    ensures r.Ok? ==> r.value.name == argument.name
  {
    var value :- MakeMutationArgument(argument.argument, ser);
    Ok(NdcMutationArgument(argument.name, value))
  }

  function MakeMutationArguments(arguments: seq<NamedMutationArgument>, ser: Serializer): Result<seq<NdcMutationArgument>, FieldError> {
    Collect(arguments, a => MakeNamedMutationArgument(a, ser))
  }

  // ---------------------------------------------------------------- relationships and variables

  function MakeRelationshipType(t: RelationshipType): NdcRelationshipType {
    match t
    case ObjectRelationship => NdcObject
    case ArrayRelationship => NdcArray
  }

  function MakeColumnMapping(mapping: seq<ColumnMapping>): (r: seq<NdcColumnMapping>)
    ensures |r| == |mapping|
    ensures forall i :: 0 <= i < |r| ==>
      r[i].sourceColumn == mapping[i].sourceColumn && r[i].targetColumn == mapping[i].targetColumn
  {
    seq(|mapping|, i requires 0 <= i < |mapping| =>
      NdcColumnMapping(mapping[i].sourceColumn, mapping[i].targetColumn))
  }

  function MakeRelationship(relationship: Relationship): NdcRelationship {
    NdcRelationship(
      MakeColumnMapping(relationship.columnMapping),
      MakeRelationshipType(relationship.relationshipType),
      relationship.targetCollection,
      MakeRelationshipArguments(relationship.arguments))
  }

  function MakeCollectionRelationships(relationships: seq<NamedRelationship>): (r: seq<NdcNamedRelationship>)
    ensures |r| == |relationships|
    ensures forall i :: 0 <= i < |r| ==>
      r[i].name == relationships[i].name && r[i].relationship == MakeRelationship(relationships[i].relationship)
  {
    seq(|relationships|, i requires 0 <= i < |relationships| =>
      NdcNamedRelationship(relationships[i].name, MakeRelationship(relationships[i].relationship)))
  }

  function MakeVariableRow(row: seq<VariableBinding>): (r: seq<NdcVariableBinding>)
    ensures |r| == |row|
    ensures forall i :: 0 <= i < |r| ==> r[i].name == row[i].name && r[i].value == row[i].value
  {
    seq(|row|, i requires 0 <= i < |row| => NdcVariableBinding(row[i].name, row[i].value))
  }

  function MakeVariables(variables: Option<seq<seq<VariableBinding>>>): (r: Option<seq<seq<NdcVariableBinding>>>)
    ensures r.None? <==> variables.None?
    ensures r.Some? ==> |r.value| == |variables.value|
    ensures r.Some? ==> forall i :: 0 <= i < |r.value| ==> r.value[i] == MakeVariableRow(variables.value[i])
  {
    match variables
    case None => None
    case Some(rows) => Some(seq(|rows|, i requires 0 <= i < |rows| => MakeVariableRow(rows[i])))
  }

  // ---------------------------------------------------------------- order by

  /** A hop without a predicate gets the always-true `And []`. */
  function MakePathPredicate(filter: Option<FilterExpression>): Result<Expression, FieldError> {
    match filter
    case Some(f) => MakeExpression(f)
    case None => Ok(NdcAnd([]))
  }

  function MakePathElement(element: RelationshipPathElement): Result<PathElement, FieldError> {
    if element.fieldPath != [] then Err(Compatibility(NestedRelationshipsInOrderByTargetsNotSupported))
    else
      var condition :- MakePathPredicate(element.filterPredicate);
      Ok(PathElement(element.relationshipName, [], Some(condition)))
  }

  function MakeOrderByTarget(target: OrderByTarget): Result<NdcOrderByTarget, FieldError> {
    var path :- Collect(target.relationshipPath, MakePathElement);
    Ok(NdcOrderByColumn(target.name, path, OptionalPath(target.fieldPath)))
  }

  function MakeOrderDirection(d: OrderByDirection): OrderDirection {
    match d
    case Asc => NdcAsc
    case Desc => NdcDesc
  }

  function MakeOrderByElement(element: OrderByElement): Result<NdcOrderByElement, FieldError> {
    var target :- MakeOrderByTarget(element.target);
    Ok(NdcOrderByElement(MakeOrderDirection(element.orderDirection), target))
  }

  function MakeOrderBy(elements: seq<OrderByElement>): Result<OrderBy, FieldError> {
    var ndcElements :- Collect(elements, MakeOrderByElement);
    Ok(OrderBy(ndcElements))
  }

  function MakeOptionalOrderBy(orderBy: Option<seq<OrderByElement>>): Result<Option<OrderBy>, FieldError> {
    match orderBy
    case None => Ok(None)
    case Some(elements) =>
      var o :- MakeOrderBy(elements);
      Ok(Some(o))
  }

  // ---------------------------------------------------------------- aggregates

  /** A count over no column counts rows; otherwise the path's head is the column, its tail the nested path. */
  function MakeCountAggregate(columnPath: seq<string>, distinct: bool): (r: Aggregate)
    ensures r.StarCount? <==> columnPath == []
    ensures columnPath != [] ==> r.ColumnCount? && r.column == columnPath[0] && r.distinct == distinct
    ensures columnPath != [] ==> (r.fieldPath.None? <==> |columnPath| == 1)
    ensures columnPath != [] && r.fieldPath.Some? ==> r.fieldPath.value == columnPath[1..]
  {
    if columnPath == [] then StarCount
    else ColumnCount(columnPath[0], OptionalPath(columnPath[1..]), distinct)
  }

  function MakeAggregate(selection: AggregateFieldSelection): Aggregate {
    match selection
    case Count(path) => MakeCountAggregate(path, false)
    case CountDistinct(path) => MakeCountAggregate(path, true)
    case AggregationFunction(functionName, head, tail) =>
      SingleColumn(head, OptionalPath(tail), functionName)
  }

  function MakeAggregates(selection: AggregateSelectionSet): (r: seq<NdcNamedAggregate>)
    ensures |r| == |selection.fields|
    ensures forall i :: 0 <= i < |r| ==>
      r[i].name == selection.fields[i].name && r[i].aggregate == MakeAggregate(selection.fields[i].selection)
  {
    seq(|selection.fields|, i requires 0 <= i < |selection.fields| =>
      NdcNamedAggregate(selection.fields[i].name, MakeAggregate(selection.fields[i].selection)))
  }

  function MakeOptionalAggregates(selection: Option<AggregateSelectionSet>): Option<seq<NdcNamedAggregate>> {
    match selection
    case None => None
    case Some(s) => Some(MakeAggregates(s))
  }

  // ---------------------------------------------------------------- queries and fields

  /**
   * `make_query`: a grouping is refused; otherwise the predicate, then the fields, then
   * the order-by are translated, and the limit, offset and aggregates are carried over.
   */
  function MakeQuery(node: QueryNode, ser: Serializer): Result<Query, FieldError>
    decreases node, 1
  {
    if node.groupBy then Err(Compatibility(GroupByNotSupported))
    else
      var condition :- MakeOptionalExpression(node.filter);
      var fields :- MakeFieldsSelection(node.fields, ser);
      var orderBy :- MakeOptionalOrderBy(node.orderBy);
      Ok(Query(MakeOptionalAggregates(node.aggregates), fields, node.limit, node.offset, orderBy, condition))
  }

  function MakeFieldsSelection(selection: Option<FieldsSelection>, ser: Serializer): Result<Option<seq<NdcNamedField>>, FieldError>
    decreases selection, 0
  {
    match selection
    case None => Ok(None)
    case Some(s) =>
      var fields :- MakeNamedFields(s.fields, ser);
      Ok(Some(fields))
  }

  /** A field map, translated entry by entry; names are kept and the first failure aborts. */
  function MakeNamedFields(fields: seq<NamedField>, ser: Serializer): (r: Result<seq<NdcNamedField>, FieldError>)
    ensures r.Ok? ==> |r.value| == |fields|
    ensures r.Ok? ==> forall i :: 0 <= i < |fields| ==> r.value[i].name == fields[i].name
    decreases fields, 0
  {
    if fields == [] then Ok([])
    else
      var f :- MakeField(fields[0].field, ser);
      var rest :- MakeNamedFields(fields[1..], ser);
      Ok([NdcNamedField(fields[0].name, f)] + rest)
  }

  function MakeField(field: Field, ser: Serializer): Result<NdcField, FieldError>
    decreases field, 1
  {
    match field
    case ColumnField(column, nested, arguments) =>
      var nestedFields :- MakeOptionalNestedField(nested, ser);
      var ndcArguments :- MakeArguments(arguments, ser);
      Ok(NdcColumnField(column, nestedFields, ndcArguments))
    case RelationshipField(queryNode, relationship, arguments) =>
      var query :- MakeQuery(queryNode, ser);
      var ndcArguments :- MakeRelationshipArgumentsFromArguments(arguments, ser);
      Ok(NdcRelationshipField(query, relationship, ndcArguments))
  }

  function MakeOptionalNestedField(nested: Option<NestedField>, ser: Serializer): Result<Option<NdcNestedField>, FieldError>
    decreases nested, 0
  {
    match nested
    case None => Ok(None)
    case Some(n) =>
      var x :- MakeNestedField(n, ser);
      Ok(Some(x))
  }

  function MakeNestedField(nested: NestedField, ser: Serializer): Result<NdcNestedField, FieldError>
    decreases nested, 1
  {
    match nested
    case NestedObject(fields) =>
      var ndcFields :- MakeNamedFields(fields, ser);
      Ok(NdcNestedObject(ndcFields))
    case NestedArray(inner) =>
      var x :- MakeNestedField(inner, ser);
      Ok(NdcNestedArray(x))
  }

  // ---------------------------------------------------------------- requests

  /** `make_query_request`: the query, then the collection arguments; relationships and variables cannot fail. */
  function MakeQueryRequest(plan: QueryExecutionPlan, ser: Serializer): Result<QueryRequest, FieldError>
  {
    var query :- MakeQuery(plan.queryNode, ser);
    var arguments :- MakeArguments(plan.arguments, ser);
    Ok(QueryRequest(
      plan.collection,
      query,
      arguments,
      MakeCollectionRelationships(plan.collectionRelationships),
      MakeVariables(plan.variables)))
  }

  /** `make_mutation_request`: one procedure call carrying the plan's arguments and fields. */
  function MakeMutationRequest(plan: MutationExecutionPlan, ser: Serializer): Result<MutationRequest, FieldError>
  {
    var arguments :- MakeMutationArguments(plan.procedureArguments, ser);
    var fields :- MakeOptionalNestedField(plan.procedureFields, ser);
    Ok(MutationRequest(
      [Procedure(plan.procedureName, arguments, fields)],
      MakeCollectionRelationships(plan.collectionRelationships)))
  }
}
