/**
 * The execution plan the NDC request builders read: query nodes, resolved filter
 * expressions, field selections, order-by elements, aggregate selections and the
 * mutation plan. Names are plain strings (the source's name newtypes convert into one
 * another without change), and an ordered map is the sequence of its entries in
 * iteration order.
 */
module NdcPlan {
  import opened Wrappers

  /** A JSON value (`serde_json::Value`); the translator passes these through untouched. */
  datatype JsonValue =
    | JNull
    | JBool(b: bool)
    | JNumber(n: int)
    | JString(s: string)
    | JArray(items: seq<JsonValue>)
    | JObject(entries: seq<JsonEntry>)

  datatype JsonEntry = JsonEntry(key: string, value: JsonValue)

  /** A variable binding of one row of `variables`. */
  datatype VariableBinding = VariableBinding(name: string, value: JsonValue)

  /** The operators of an unary comparison; `IsNull` is the only one. */
  datatype UnaryComparisonOperator = IsNull

  /** A column of the queried collection, reached through `fieldPath` inside nested objects. */
  datatype ComparisonTarget = Column(name: string, fieldPath: seq<string>)

  datatype ComparisonValue =
    | Scalar(value: JsonValue)
    | Variable(name: string)

  /** A filter predicate after resolution (`ResolvedFilterExpression`). */
  datatype FilterExpression =
    | And(expressions: seq<FilterExpression>)
    | Or(expressions: seq<FilterExpression>)
    | Not(expression: FilterExpression)
    | BinaryComparison(column: ComparisonTarget, operator: string, value: ComparisonValue)
    | UnaryComparison(column: ComparisonTarget, unaryOperator: UnaryComparisonOperator)
    | LocalNestedArray(arrayColumn: string, fieldPath: seq<string>, filter: FilterExpression)
      /** A comparison against the elements of a scalar array; the translator reads none of its parts. */
    | LocalNestedScalarArray(scalarColumn: string, scalarFieldPath: seq<string>)
    | LocalRelationshipComparison(relationshipFieldPath: seq<string>, relationship: string, filter: FilterExpression)
      /** A predicate evaluated by another connector, known here only by its identifier. */
    | RemoteRelationshipComparison(remotePredicateId: nat)

  /** An argument of a field or of a collection. */
  datatype Argument =
    | Literal(value: JsonValue)
    | VariableArgument(variable: string)
    | BooleanExpression(filter: FilterExpression)

  datatype NamedArgument = NamedArgument(name: string, argument: Argument)

  /** An argument of a collection relationship: a column of the source row. */
  datatype RelationshipArgument = ColumnArgument(columnName: string)

  datatype NamedRelationshipArgument = NamedRelationshipArgument(name: string, argument: RelationshipArgument)

  datatype OrderByDirection = Asc | Desc

  /** One hop of an order-by target's relationship path. */
  datatype RelationshipPathElement = RelationshipPathElement(
    fieldPath: seq<string>,
    relationshipName: string,
    filterPredicate: Option<FilterExpression>)

  datatype OrderByTarget = OrderByColumn(
    name: string,
    fieldPath: seq<string>,
    relationshipPath: seq<RelationshipPathElement>)

  datatype OrderByElement = OrderByElement(orderDirection: OrderByDirection, target: OrderByTarget)

  /** One selected aggregate; `AggregationFunction` takes a non-empty column path `head` + `tail`. */
  datatype AggregateFieldSelection =
    | Count(countPath: seq<string>)
    | CountDistinct(distinctPath: seq<string>)
    | AggregationFunction(functionName: string, head: string, tail: seq<string>)

  datatype NamedAggregate = NamedAggregate(name: string, selection: AggregateFieldSelection)

  datatype AggregateSelectionSet = AggregateSelectionSet(fields: seq<NamedAggregate>)

  /** The field selection of a query node, in selection order. */
  datatype FieldsSelection = FieldsSelection(fields: seq<NamedField>)

  datatype NamedField = NamedField(name: string, field: Field)

  datatype Field =
    | ColumnField(column: string, fields: Option<NestedField>, arguments: seq<NamedArgument>)
    | RelationshipField(queryNode: QueryNode, relationship: string, relationshipArguments: seq<NamedArgument>)

  datatype NestedField =
    | NestedObject(objectFields: seq<NamedField>)
    | NestedArray(elementFields: NestedField)

  /**
   * One level of a query. Of the grouping only its presence matters to the translator,
   * so `groupBy` records whether the node asks for one.
   */
  datatype QueryNode = QueryNode(
    limit: Option<nat>,
    offset: Option<nat>,
    orderBy: Option<seq<OrderByElement>>,
    filter: Option<FilterExpression>,
    aggregates: Option<AggregateSelectionSet>,
    fields: Option<FieldsSelection>,
    groupBy: bool)

  datatype RelationshipType = ObjectRelationship | ArrayRelationship

  datatype ColumnMapping = ColumnMapping(sourceColumn: string, targetColumn: string)

  datatype Relationship = Relationship(
    columnMapping: seq<ColumnMapping>,
    relationshipType: RelationshipType,
    targetCollection: string,
    arguments: seq<NamedRelationshipArgument>)

  datatype NamedRelationship = NamedRelationship(name: string, relationship: Relationship)

  datatype QueryExecutionPlan = QueryExecutionPlan(
    collection: string,
    queryNode: QueryNode,
    arguments: seq<NamedArgument>,
    collectionRelationships: seq<NamedRelationship>,
    variables: Option<seq<seq<VariableBinding>>>)

  datatype MutationArgument =
    | MutationLiteral(value: JsonValue)
    | MutationBooleanExpression(filter: FilterExpression)

  datatype NamedMutationArgument = NamedMutationArgument(name: string, argument: MutationArgument)

  datatype MutationExecutionPlan = MutationExecutionPlan(
    procedureName: string,
    procedureArguments: seq<NamedMutationArgument>,
    procedureFields: Option<NestedField>,
    collectionRelationships: seq<NamedRelationship>)
}
