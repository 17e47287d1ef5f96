/**
 * `getNestedRelationships`: one relationship record per relation of a table, in
 * `getRelations()` order, with the unique constraint each side is keyed by and the
 * mutation fields the type-registration plugins read.
 */
module NestedRelationships {
  import opened Wrappers
  import opened Host
  import opened NestedTypes
  import opened NestedInflection

  /** `u.attributes.every((a) => attrs.includes(a))`; a unique with no attributes is covered. */
  predicate Covers(attrs: seq<string>, u: Unique) {
    forall a :: a in u.attributes ==> a in attrs
  }

  /** `uniques.find(...)`: the index of the first unique the attributes cover, or -1. */
  function FirstCovered(uniques: seq<Unique>, attrs: seq<string>): (k: int)
    ensures -1 <= k < |uniques|
    ensures k == -1 <==> forall i :: 0 <= i < |uniques| ==> !Covers(attrs, uniques[i])
    ensures k >= 0 ==> Covers(attrs, uniques[k]) && forall i :: 0 <= i < k ==> !Covers(attrs, uniques[i])
  {
    if |uniques| == 0 then -1
    else if Covers(attrs, uniques[0]) then 0
    else
      var k := FirstCovered(uniques[1..], attrs);
      if k == -1 then -1 else k + 1
  }

  /** The reduce over the codec's attributes that keeps those whose key is in `keys`, in codec order. */
  function CodecsOf(attributes: seq<(string, PgAttribute)>, keys: seq<string>): (r: seq<(string, PgAttribute)>)
    ensures |r| <= |attributes|
    ensures forall p :: p in r <==> p in attributes && p.0 in keys
  {
    if |attributes| == 0 then []
    else
      var front := CodecsOf(attributes[..|attributes| - 1], keys);
      var last := attributes[|attributes| - 1];
      assert forall p :: p in attributes <==> p in attributes[..|attributes| - 1] || p == last;
      if last.0 in keys then front + [last] else front
  }

  /**
   * The unique a side is keyed by: the first of the table's uniques whose attributes are all
   * among `attrs`, with the codec attributes it names; when there is none, no attributes, not
   * primary, and no codecs.
   */
  function ChosenUnique(table: PgResource, attrs: seq<string>): (u: UniqueInfo)
    ensures var k := FirstCovered(table.uniques, attrs);
      && (k == -1 ==> u.attributes == [] && !u.isPrimary)
      && (k >= 0 ==> u.attributes == table.uniques[k].attributes && u.isPrimary == table.uniques[k].isPrimary)
    ensures forall a :: a in u.attributes ==> a in attrs
    ensures forall p :: p in u.codecs <==> p in table.codec.attributes && p.0 in u.attributes
  {
    var k := FirstCovered(table.uniques, attrs);
    if k < 0 then UniqueInfo([], false, CodecsOf(table.codec.attributes, []))
    else
      var unique := table.uniques[k];
      UniqueInfo(unique.attributes, unique.isPrimary, CodecsOf(table.codec.attributes, unique.attributes))
  }

  /** The record before its field name and mutation fields are filled in. */
  function DetailsOf(inflection: Inflection, leftTable: RegistryResource, relationName: string, relation: Relation)
    : NestedDetails
  {
    NestedDetails(
      leftTable, relation.remoteResource, relationName, relation.isUnique,
      ChosenUnique(leftTable.resource, relation.localAttributes),
      ChosenUnique(relation.remoteResource, relation.remoteAttributes),
      relation.isReferencee, relation.localAttributes, relation.remoteAttributes,
      inflection.tableFieldName(leftTable.resource))
  }

  /**
   * The mutation fields of a relationship: the connector input field, the create field,
   * one connect-by-key entry, the connect- and update-by-node-id fields when a node-id
   * handler exists, no update-by-key or delete-by-key entries, and a delete-by-node-id
   * entry with empty names.
   */
  function MutationFieldsOf(inflection: Inflection, d: NestedDetails, hasNodeIdHandler: bool): MutationFields {
    MutationFields(
      MutationField(NestedConnectorFieldName(inflection, d), NestedConnectorFieldType(inflection, d)),
      Some(MutationField("create", NestedCreateInputType(inflection, d))),
      Some([MutationField(NestedConnectByKeyFieldName(inflection, d), NestedConnectByKeyInputType(inflection, d))]),
      if hasNodeIdHandler then
        Some(MutationField(NestedConnectByNodeIdFieldName(inflection), NestedConnectByNodeIdInputType(inflection, d)))
      else None,
      Some([]),
      if hasNodeIdHandler then
        Some(MutationField(NestedUpdateByNodeIdFieldName(inflection), NestedUpdateByNodeIdInputType(inflection, d)))
      else None,
      Some([]),
      Some(MutationField("", "")))
  }

  /** The record for one `[relationName, relation]` entry. */
  function RelationshipOf(
    inflection: Inflection, leftTable: RegistryResource, hasNodeIdHandler: bool, entry: (string, Relation)
  ): NestedRelationship {
    var d := DetailsOf(inflection, leftTable, entry.0, entry.1);
    NestedRelationship(d, NestedConnectorFieldName(inflection, d), MutationFieldsOf(inflection, d, hasNodeIdHandler))
  }

  /**
   * `getNestedRelationships(leftTable, build)`. `hasHandlerGetter` is whether the build has
   * `getNodeIdHandlerByTypeName`, and `hasNodeIdHandler` whether calling it returns a
   * handler. The missing-getter check sits inside the reduce, so it throws only for a table
   * with relations.
   */
  function GetNestedRelationships(
    inflection: Inflection, leftTable: RegistryResource, hasHandlerGetter: bool, hasNodeIdHandler: bool
  ): (r: Result<seq<NestedRelationship>>)
    ensures r.Failure? <==> |leftTable.relations| > 0 && !hasHandlerGetter
    ensures r.Failure? ==> r.error == "getNodeIdHandler not found on build"
    ensures r.Success? ==> |r.value| == |leftTable.relations|
  {
    var relations := leftTable.relations;
    if |relations| > 0 && !hasHandlerGetter then Failure("getNodeIdHandler not found on build")
    else Success(seq(|relations|, i requires 0 <= i < |relations| =>
      RelationshipOf(inflection, leftTable, hasNodeIdHandler, relations[i])))
  }

  /**
   * Each record describes its relation: the relation's name, remote resource, uniqueness,
   * attribute lists and left table are copied, each side's unique is the one `ChosenUnique`
   * picks for that side's attributes, `isReverse` is `isReferencee`, the table
   * field name is the left table's, and the record's field name is its connector input
   * field name.
   */
  lemma GetNestedRelationshipsDescribe(
    inflection: Inflection, leftTable: RegistryResource, hasHandlerGetter: bool, hasNodeIdHandler: bool, i: nat)
    requires GetNestedRelationships(inflection, leftTable, hasHandlerGetter, hasNodeIdHandler).Success?
    requires i < |leftTable.relations|
    ensures var rel := GetNestedRelationships(inflection, leftTable, hasHandlerGetter, hasNodeIdHandler).value[i];
      var (name, relation) := leftTable.relations[i];
      && rel.details.relationName == name
      && rel.details.leftTable == leftTable
      && rel.details.rightTable == relation.remoteResource
      && rel.details.isUnique == relation.isUnique
      && rel.details.isReverse == relation.isReferencee
      && rel.details.localAttributes == relation.localAttributes
      && rel.details.remoteAttributes == relation.remoteAttributes
      && rel.details.localUnique == ChosenUnique(leftTable.resource, relation.localAttributes)
      && rel.details.remoteUnique == ChosenUnique(relation.remoteResource, relation.remoteAttributes)
      && rel.details.tableFieldName == inflection.tableFieldName(leftTable.resource)
      && rel.fieldName == rel.mutationFields.input.fieldName
      && rel.fieldName == NestedConnectorFieldName(inflection, rel.details)
      && rel.mutationFields.input.typeName == NestedConnectorFieldType(inflection, rel.details)
  {
  }

  /**
   * The mutation fields every record holds: `create` named `create`, exactly one
   * connect-by-key entry, no update-by-key or delete-by-key entries, a delete-by-node-id
   * entry with empty names, and the connect- and update-by-node-id fields exactly when a
   * node-id handler exists. So every record has nested fields besides `input`.
   */
  lemma GetNestedRelationshipsFields(
    inflection: Inflection, leftTable: RegistryResource, hasHandlerGetter: bool, hasNodeIdHandler: bool, i: nat)
    requires GetNestedRelationships(inflection, leftTable, hasHandlerGetter, hasNodeIdHandler).Success?
    requires i < |leftTable.relations|
    ensures var m := GetNestedRelationships(inflection, leftTable, hasHandlerGetter, hasNodeIdHandler).value[i].mutationFields;
      && m.create.Some? && m.create.value.fieldName == "create"
      && m.connectByKeys.Some? && |m.connectByKeys.value| == 1
      && m.updateByKeys == Some([]) && m.deleteByKeys == Some([])
      && m.deleteByNodeId == Some(MutationField("", ""))
      && (m.connectByNodeId.Some? <==> hasNodeIdHandler)
      && (m.updateByNodeId.Some? <==> hasNodeIdHandler)
      && HasNestedFields(m)
  {
    var m := GetNestedRelationships(inflection, leftTable, hasHandlerGetter, hasNodeIdHandler).value[i].mutationFields;
    HasNestedFieldsIff(m);
  }

  /**
   * When some unique of the table is covered by the side's attributes, the chosen unique is
   * a covered one at or before it, so a later covered unique is never chosen.
   */
  lemma ChosenUniqueIsFirst(table: PgResource, attrs: seq<string>, j: nat)
    requires j < |table.uniques| && Covers(attrs, table.uniques[j])
    ensures var k := FirstCovered(table.uniques, attrs);
      0 <= k <= j && ChosenUnique(table, attrs).attributes == table.uniques[k].attributes
  {
  }
}
