/**
 * The relationship records the nested-mutations plugins pass between their hooks:
 * `PgNestedMutationRelationship` and the `mutationFields` it carries.
 */
module NestedTypes {
  import opened Wrappers
  import opened Host

  /**
   * The unique constraint chosen for one side of a relation: its attribute names, whether it
   * is the primary key, and the codec attributes it covers, in codec order. A side with no
   * covering unique has no attributes and is not primary.
   */
  datatype UniqueInfo = UniqueInfo(attributes: seq<string>, isPrimary: bool, codecs: seq<(string, PgAttribute)>)

  /** `{fieldName, typeName}`: an input field and the input type it carries. */
  datatype MutationField = MutationField(fieldName: string, typeName: string)

  /**
   * `PgNestedTableMutationFields`. A key the record holds is `Some`; a key it lacks is
   * `None`. A present object or array is truthy whatever it holds.
   */
  datatype MutationFields = MutationFields(
    input: MutationField,
    create: Option<MutationField>,
    connectByKeys: Option<seq<MutationField>>,
    connectByNodeId: Option<MutationField>,
    updateByKeys: Option<seq<MutationField>>,
    updateByNodeId: Option<MutationField>,
    deleteByKeys: Option<seq<MutationField>>,
    deleteByNodeId: Option<MutationField>)

  /**
   * A relationship record without its `fieldName` and `mutationFields`: what the nested
   * inflectors are given. `leftTable` is the table holding the relation, `rightTable` its
   * remote resource, and `tableFieldName` the left table's field name.
   */
  datatype NestedDetails = NestedDetails(
    leftTable: RegistryResource,
    rightTable: PgResource,
    relationName: string,
    isUnique: bool,
    localUnique: UniqueInfo,
    remoteUnique: UniqueInfo,
    isReverse: bool,
    localAttributes: seq<string>,
    remoteAttributes: seq<string>,
    tableFieldName: string)

  /** `PgNestedMutationRelationship`: the details, the connector field name and the mutation fields. */
  datatype NestedRelationship = NestedRelationship(
    details: NestedDetails,
    fieldName: string,
    mutationFields: MutationFields)

  /** `pgNestedMutationFields`: the keys of a mutation-fields record, in declaration order. */
  const PgNestedMutationFields: seq<string> := [
    "input", "create", "connectByKeys", "connectByNodeId",
    "updateByKeys", "updateByNodeId", "deleteByKeys", "deleteByNodeId"]

  /**
   * `Object.keys(mutationFields)`: `input`, then the optional keys the record holds, in the
   * order the record literal lists them, which is the order of `PgNestedMutationFields`.
   */
  function Keys(m: MutationFields): (r: seq<string>)
    ensures forall k :: k in r ==> k in PgNestedMutationFields
    ensures |r| >= 1 && r[0] == "input"
  {
    ["input"]
    + (if m.create.Some? then ["create"] else [])
    + (if m.connectByKeys.Some? then ["connectByKeys"] else [])
    + (if m.connectByNodeId.Some? then ["connectByNodeId"] else [])
    + (if m.updateByKeys.Some? then ["updateByKeys"] else [])
    + (if m.updateByNodeId.Some? then ["updateByNodeId"] else [])
    + (if m.deleteByKeys.Some? then ["deleteByKeys"] else [])
    + (if m.deleteByNodeId.Some? then ["deleteByNodeId"] else [])
  }

  /** Whether the record holds a key other than `input`. */
  predicate HasNestedFields(m: MutationFields) {
    exists k :: k in Keys(m) && k != "input"
  }

  /** A record has nested fields exactly when one of its optional keys is present. */
  lemma HasNestedFieldsIff(m: MutationFields)
    ensures HasNestedFields(m) <==>
      m.create.Some? || m.connectByKeys.Some? || m.connectByNodeId.Some? || m.updateByKeys.Some?
      || m.updateByNodeId.Some? || m.deleteByKeys.Some? || m.deleteByNodeId.Some?
  {
    var keys := Keys(m);
    if m.create.Some? { assert "create" in keys; }
    if m.connectByKeys.Some? { assert "connectByKeys" in keys; }
    if m.connectByNodeId.Some? { assert "connectByNodeId" in keys; }
    if m.updateByKeys.Some? { assert "updateByKeys" in keys; }
    if m.updateByNodeId.Some? { assert "updateByNodeId" in keys; }
    if m.deleteByKeys.Some? { assert "deleteByKeys" in keys; }
    if m.deleteByNodeId.Some? { assert "deleteByNodeId" in keys; }
  }
}
