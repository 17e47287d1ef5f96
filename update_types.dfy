/**
 * `PgNestedMutationsUpdateTypesPlugin`: registers each update-by-node-id input type once,
 * holding the node id field and a `patch` field whose type copies the table's patch type,
 * and claims the update-by-key type names without registering anything for them.
 */
module UpdateTypes {
  import opened Wrappers
  import opened Host
  import opened Records
  import opened NestedTypes
  import opened NestedInflection
  import opened NestedState

  /** The update-by-key entries of a record; a missing key iterates nothing. */
  function UpdateByKeysOf(rel: NestedRelationship): seq<MutationField> {
    if rel.mutationFields.updateByKeys.Some? then rel.mutationFields.updateByKeys.value else []
  }

  /** Whether the step registers an update-by-node-id type: the entry is present and its name unseen. */
  predicate RegistersNodeId(st: PassState, rel: NestedRelationship) {
    rel.mutationFields.updateByNodeId.Some? && rel.mutationFields.updateByNodeId.value.typeName !in st.seen
  }

  /**
   * The update type's fields: the node id field, then `patch`, typed by the patch type the
   * field builds. With a node id field named `patch` the object literal keeps one key.
   */
  function UpdateFields(inflection: Inflection, d: NestedDetails): seq<InputField> {
    Put(NodeIdFields(inflection), InputField("patch", Named(NestedUpdatePatchType(d))))
  }

  /**
   * The fields of the patch field's type: a copy of the right table's patch type's fields,
   * or the error thrown when that type is not an input object type.
   */
  function PatchFields(schema: Schema, rightTable: PgResource): (r: Result<seq<InputField>>)
    ensures r.Failure? <==> schema.patchFields(rightTable).None?
    ensures r.Failure? ==> r.error == "Expected " + rightTable.name + " to be an input object type"
    ensures r.Success? ==> r.value == schema.patchFields(rightTable).value
  {
    match schema.patchFields(rightTable)
    case None => Failure("Expected " + rightTable.name + " to be an input object type")
    case Some(fields) => Success(fields)
  }

  /** The update-type plugin's work on one relationship: the node-id type first, then the key type names. */
  function UpdateStep(inflection: Inflection, schema: Schema, st: PassState, rel: NestedRelationship): (r: PassState)
    ensures AddsOnce(st, r) && r.objMap == st.objMap
    ensures |r.registered| > |st.registered| <==> RegistersNodeId(st, rel)
    ensures |r.registered| <= |st.registered| + 1
    ensures r.seen == st.seen + TypeNames(UpdateByKeysOf(rel))
      + (if RegistersNodeId(st, rel) then {rel.mutationFields.updateByNodeId.value.typeName} else {})
  {
    var st1 :=
      if RegistersNodeId(st, rel) then
        var name := rel.mutationFields.updateByNodeId.value.typeName;
        var spec := UpdateByNodeIdType(rel.details.rightTable, UpdateFields(inflection, rel.details), PatchFields(schema, rel.details.rightTable));
        PassState(st.seen + {name}, st.objMap, st.registered + [NestedRegistration(name, spec)])
      else st;
    PassState(st1.seen + TypeNames(UpdateByKeysOf(rel)), st1.objMap, st1.registered)
  }

  function UpdateStepFn(inflection: Inflection, schema: Schema): Step {
    (st, rel) => UpdateStep(inflection, schema, st, rel)
  }

  /** The body of the inner loop, on the build object. */
  method RegisterUpdateTypes(inflection: Inflection, schema: Schema, b: NestedBuild, rel: NestedRelationship)
    modifies b
    ensures b.State() == UpdateStep(inflection, schema, old(b.State()), rel)
  {
    var updateByNodeId := rel.mutationFields.updateByNodeId;
    if updateByNodeId.Some? && updateByNodeId.value.typeName !in b.inputTypes {
      b.inputTypes := b.inputTypes + {updateByNodeId.value.typeName};
      var spec := UpdateByNodeIdType(rel.details.rightTable, UpdateFields(inflection, rel.details), PatchFields(schema, rel.details.rightTable));
      b.registered := b.registered + [NestedRegistration(updateByNodeId.value.typeName, spec)];
    }
    if rel.mutationFields.updateByKeys.Some? {
      AddTypeNames(b, rel.mutationFields.updateByKeys.value);
    }
  }

  /** The `init` hook: every table's relationships, in resource order. */
  method InitUpdateTypes(inflection: Inflection, schema: Schema, b: NestedBuild, resources: seq<PgResource>)
    modifies b
    ensures b.State() == PassFold(UpdateStepFn(inflection, schema), b.relationships, old(b.State()), resources)
    ensures AddsOnce(old(b.State()), b.State())
  {
    var i := 0;
    while i < |resources|
      invariant 0 <= i <= |resources|
      invariant b.State() == PassFold(UpdateStepFn(inflection, schema), b.relationships, old(b.State()), resources[..i])
    {
      PassFoldNext(UpdateStepFn(inflection, schema), b.relationships, old(b.State()), resources, i);
      var resource := resources[i];
      if !resource.isTable || resource.codec !in b.relationships {
        i := i + 1;
        continue;
      }
      var rels := b.relationships[resource.codec];
      ghost var before := b.State();
      var j := 0;
      while j < |rels|
        invariant 0 <= j <= |rels|
        invariant b.State() == RelationshipsFold(UpdateStepFn(inflection, schema), before, rels[..j])
      {
        RelationshipsFoldNext(UpdateStepFn(inflection, schema), before, rels, j);
        RegisterUpdateTypes(inflection, schema, b, rels[j]);
        j := j + 1;
      }
      assert rels[..j] == rels;
      i := i + 1;
    }
    assert resources[..i] == resources;
    UpdateTypesOnce(inflection, schema, b.relationships, old(b.State()), resources);
  }

  /** Over a whole pass, each update-by-node-id type name is registered at most once, and only if unseen before. */
  lemma UpdateTypesOnce(
    inflection: Inflection, schema: Schema, relationships: map<Codec, seq<NestedRelationship>>,
    st: PassState, resources: seq<PgResource>)
    ensures AddsOnce(st, PassFold(UpdateStepFn(inflection, schema), relationships, st, resources))
  {
    PassFoldAddsOnce(UpdateStepFn(inflection, schema), relationships, st, resources);
  }

  /**
   * A registered update-by-node-id type is for the right table; its fields are the non-null
   * `ID` node id field and `patch`, typed by the (empty) patch type name, two fields unless
   * the node id field is itself named `patch`; and its patch type copies the table's patch
   * fields or fails exactly when the table has no patch input type.
   */
  lemma UpdateStepRegisters(inflection: Inflection, schema: Schema, st: PassState, rel: NestedRelationship)
    requires RegistersNodeId(st, rel)
    ensures var r := UpdateStep(inflection, schema, st, rel);
      var entry := r.registered[|st.registered|];
      var fields := entry.spec.fields;
      && entry.name == rel.mutationFields.updateByNodeId.value.typeName
      && entry.spec.UpdateByNodeIdType?
      && entry.spec.remote == rel.details.rightTable
      && (inflection.nodeIdFieldName != "patch" ==>
            fields == [InputField(inflection.nodeIdFieldName, NonNull(Named("ID"))), InputField("patch", Named(""))])
      && (inflection.nodeIdFieldName == "patch" ==> fields == [InputField("patch", Named(""))])
      && (entry.spec.patch.Success? <==> schema.patchFields(rel.details.rightTable).Some?)
      && (entry.spec.patch.Success? ==> entry.spec.patch.value == schema.patchFields(rel.details.rightTable).value)
  {
    var nodeId := NodeIdFields(inflection);
    if inflection.nodeIdFieldName != "patch" {
      assert NameIndex(nodeId, "patch") == -1;
    } else {
      assert NameIndex(nodeId, "patch") == 0;
    }
  }
}
