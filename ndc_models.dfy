/**
 * The NDC v0.1 request types the translator produces (`ndc_models_v01`): queries,
 * expressions, fields, order-by targets, aggregates, relationships and mutation
 * operations. Ordered maps are the sequences of their entries.
 */
module NdcModels {
  import opened Wrappers
  import NdcPlan

  /** A hop through a relationship, with the predicate the related rows must satisfy. */
  datatype PathElement = PathElement(
    relationship: string,
    arguments: seq<NdcNamedRelationshipArgument>,
    ndcPredicate: Option<Expression>)

  datatype NdcComparisonTarget = NdcColumn(
    name: string,
    fieldPath: Option<seq<string>>,
    path: seq<PathElement>)

  datatype NdcUnaryOperator = NdcIsNull

  datatype NdcComparisonValue =
    | NdcScalar(value: NdcPlan.JsonValue)
    | NdcVariable(name: string)

  datatype NdcRelationshipArgument =
    | RelationshipLiteral(value: NdcPlan.JsonValue)
    | RelationshipVariable(variable: string)
    | RelationshipColumn(column: string)

  datatype NdcNamedRelationshipArgument = NdcNamedRelationshipArgument(name: string, argument: NdcRelationshipArgument)

  datatype ExistsInCollection =
    | Related(relationship: string, relatedArguments: seq<NdcNamedRelationshipArgument>)
    | NestedCollection(columnName: string, fieldPath: seq<string>, nestedArguments: seq<NdcNamedRelationshipArgument>)

  datatype Expression =
    | NdcAnd(expressions: seq<Expression>)
    | NdcOr(expressions: seq<Expression>)
    | NdcNot(expression: Expression)
    | NdcUnaryComparison(column: NdcComparisonTarget, unaryOperator: NdcUnaryOperator)
    | NdcBinaryComparison(column: NdcComparisonTarget, operator: string, value: NdcComparisonValue)
    | Exists(inCollection: ExistsInCollection, ndcPredicate: Option<Expression>)

  datatype NdcArgument =
    | ArgumentLiteral(value: NdcPlan.JsonValue)
    | ArgumentVariable(variable: string)

  datatype NdcNamedArgument = NdcNamedArgument(name: string, argument: NdcArgument)

  datatype OrderDirection = NdcAsc | NdcDesc

  datatype NdcOrderByTarget = NdcOrderByColumn(
    name: string,
    path: seq<PathElement>,
    fieldPath: Option<seq<string>>)

  datatype NdcOrderByElement = NdcOrderByElement(orderDirection: OrderDirection, target: NdcOrderByTarget)

  datatype OrderBy = OrderBy(elements: seq<NdcOrderByElement>)

  datatype Aggregate =
    | ColumnCount(column: string, fieldPath: Option<seq<string>>, distinct: bool)
    | SingleColumn(column: string, fieldPath: Option<seq<string>>, functionName: string)
    | StarCount

  datatype NdcNamedAggregate = NdcNamedAggregate(name: string, aggregate: Aggregate)

  datatype NdcNamedField = NdcNamedField(name: string, field: NdcField)

  datatype NdcField =
    | NdcColumnField(column: string, fields: Option<NdcNestedField>, arguments: seq<NdcNamedArgument>)
    | NdcRelationshipField(query: Query, relationship: string, relationshipArguments: seq<NdcNamedRelationshipArgument>)

  datatype NdcNestedField =
    | NdcNestedObject(objectFields: seq<NdcNamedField>)
    | NdcNestedArray(elementFields: NdcNestedField)

  datatype Query = Query(
    aggregates: Option<seq<NdcNamedAggregate>>,
    fields: Option<seq<NdcNamedField>>,
    limit: Option<nat>,
    offset: Option<nat>,
    orderBy: Option<OrderBy>,
    ndcPredicate: Option<Expression>)

  datatype NdcRelationshipType = NdcObject | NdcArray

  datatype NdcColumnMapping = NdcColumnMapping(sourceColumn: string, targetColumn: string)

  datatype NdcRelationship = NdcRelationship(
    columnMapping: seq<NdcColumnMapping>,
    relationshipType: NdcRelationshipType,
    targetCollection: string,
    arguments: seq<NdcNamedRelationshipArgument>)

  datatype NdcNamedRelationship = NdcNamedRelationship(name: string, relationship: NdcRelationship)

  datatype NdcVariableBinding = NdcVariableBinding(name: string, value: NdcPlan.JsonValue)

  datatype QueryRequest = QueryRequest(
    collection: string,
    query: Query,
    arguments: seq<NdcNamedArgument>,
    collectionRelationships: seq<NdcNamedRelationship>,
    variables: Option<seq<seq<NdcVariableBinding>>>)

  datatype NdcMutationArgument = NdcMutationArgument(name: string, value: NdcPlan.JsonValue)

  datatype MutationOperation = Procedure(
    name: string,
    arguments: seq<NdcMutationArgument>,
    fields: Option<NdcNestedField>)

  datatype MutationRequest = MutationRequest(
    operations: seq<MutationOperation>,
    collectionRelationships: seq<NdcNamedRelationship>)
}
