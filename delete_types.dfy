/**
 * `PgNestedMutationsDeleteTypesPlugin`: registers a delete-by-node-id input type holding the
 * single node id field. As written the plugin checks the shared set of type names but never
 * adds to it, so the same name is registered again for every later relationship carrying
 * it; `DeleteStepCorrected` claims the name first, as the sibling plugins do, and
 * `InitDeleteTypesCorrected` is the init loop with it.
 */
module DeleteTypes {
  import opened Wrappers
  import opened Host
  import opened Records
  import opened NestedTypes
  import opened NestedState

  /** Whether the step registers a delete-by-node-id type: the entry is present and its name not in the set. */
  predicate RegistersNodeId(st: PassState, rel: NestedRelationship) {
    rel.mutationFields.deleteByNodeId.Some? && rel.mutationFields.deleteByNodeId.value.typeName !in st.seen
  }

  function DeleteEntry(inflection: Inflection, rel: NestedRelationship): NestedRegistration
    requires rel.mutationFields.deleteByNodeId.Some?
  {
    NestedRegistration(rel.mutationFields.deleteByNodeId.value.typeName, DeleteByNodeIdType(rel.details.rightTable, NodeIdFields(inflection)))
  }

  /**
   * The delete-type plugin's work on one relationship as written: the type is registered
   * when present and not in the set, and the set is left as it is. The delete-by-key loop
   * has an empty body.
   */
  function DeleteStep(inflection: Inflection, st: PassState, rel: NestedRelationship): (r: PassState)
    ensures r.seen == st.seen && r.objMap == st.objMap
    ensures |r.registered| > |st.registered| <==> RegistersNodeId(st, rel)
    ensures |st.registered| <= |r.registered| && r.registered[..|st.registered|] == st.registered
    ensures RegistersNodeId(st, rel) ==> r.registered == st.registered + [DeleteEntry(inflection, rel)]
    ensures !RegistersNodeId(st, rel) ==> r == st
  {
    if RegistersNodeId(st, rel) then PassState(st.seen, st.objMap, st.registered + [DeleteEntry(inflection, rel)])
    else st
  }

  function DeleteStepFn(inflection: Inflection): Step {
    (st, rel) => DeleteStep(inflection, st, rel)
  }

  /** The delete-by-key entries play no part: the step is the same whatever they are. */
  lemma DeleteStepIgnoresKeys(inflection: Inflection, st: PassState, rel: NestedRelationship, keys: Option<seq<MutationField>>)
    ensures DeleteStep(inflection, st, rel) == DeleteStep(inflection, st, rel.(mutationFields := rel.mutationFields.(deleteByKeys := keys)))
  {
  }

  /** As written, one table's loop leaves the set of type names as it was. */
  lemma {:induction false} DeleteRelationshipsKeepSet(inflection: Inflection, st: PassState, rels: seq<NestedRelationship>)
    ensures RelationshipsFold(DeleteStepFn(inflection), st, rels).seen == st.seen
    decreases |rels|
  {
    if |rels| > 0 {
      DeleteRelationshipsKeepSet(inflection, st, rels[..|rels| - 1]);
    }
  }

  /** As written, the whole pass leaves the set of type names as it was. */
  lemma {:induction false} DeleteTypesKeepSet(
    inflection: Inflection, relationships: map<Codec, seq<NestedRelationship>>, st: PassState, resources: seq<PgResource>)
    ensures PassFold(DeleteStepFn(inflection), relationships, st, resources).seen == st.seen
    decreases |resources|
  {
    if |resources| > 0 {
      var mid := PassFold(DeleteStepFn(inflection), relationships, st, resources[..|resources| - 1]);
      DeleteTypesKeepSet(inflection, relationships, st, resources[..|resources| - 1]);
      var resource := resources[|resources| - 1];
      if resource.isTable && resource.codec in relationships {
        DeleteRelationshipsKeepSet(inflection, mid, relationships[resource.codec]);
      }
    }
  }

  /**
   * As written, two relationships carrying the same unseen delete-by-node-id entry register
   * that type name twice, so the pass is not register-once. Every record
   * `getNestedRelationships` builds carries the entry with the empty name, so any table with
   * two relations does this.
   */
  lemma DeleteRegistersTwice(inflection: Inflection, st: PassState, rel: NestedRelationship, other: NestedRelationship)
    requires RegistersNodeId(st, rel)
    requires other.mutationFields.deleteByNodeId == rel.mutationFields.deleteByNodeId
    ensures var r := RelationshipsFold(DeleteStepFn(inflection), st, [rel, other]);
      && |r.registered| == |st.registered| + 2
      && r.registered[|st.registered|].name == r.registered[|st.registered| + 1].name
      && !AddsOnce(st, r)
  {
    var st1 := DeleteStep(inflection, st, rel);
    assert [rel, other][..1] == [rel];
    assert [rel][..0] == [];
    assert RelationshipsFold(DeleteStepFn(inflection), st, [rel]) == st1;
    assert RelationshipsFold(DeleteStepFn(inflection), st, [rel, other]) == DeleteStep(inflection, st1, other);
  }

  /** The delete step with the name claimed before registering, as the other type plugins do. */
  function DeleteStepCorrected(inflection: Inflection, st: PassState, rel: NestedRelationship): (r: PassState)
    ensures AddsOnce(st, r) && r.objMap == st.objMap
    ensures |r.registered| > |st.registered| <==> RegistersNodeId(st, rel)
    ensures RegistersNodeId(st, rel) ==> r.registered == st.registered + [DeleteEntry(inflection, rel)]
  {
    if RegistersNodeId(st, rel) then
      PassState(st.seen + {rel.mutationFields.deleteByNodeId.value.typeName}, st.objMap, st.registered + [DeleteEntry(inflection, rel)])
    else st
  }

  function DeleteStepCorrectedFn(inflection: Inflection): Step {
    (st, rel) => DeleteStepCorrected(inflection, st, rel)
  }

  /** The body of the inner loop, on the build object, as written: the set is only read. */
  method RegisterDeleteType(inflection: Inflection, b: NestedBuild, rel: NestedRelationship)
    modifies b
    ensures b.State() == DeleteStep(inflection, old(b.State()), rel)
  {
    var deleteByNodeId := rel.mutationFields.deleteByNodeId;
    if deleteByNodeId.Some? && deleteByNodeId.value.typeName !in b.inputTypes {
      var nodeIdField := NodeIdFields(inflection);
      b.registered := b.registered + [NestedRegistration(deleteByNodeId.value.typeName, DeleteByNodeIdType(rel.details.rightTable, nodeIdField))];
    }
  }

  /**
   * The `init` hook as written: every table's relationships, in resource order. The set of
   * type names comes out as it went in, and a name is registered again for each relationship
   * carrying it.
   */
  method InitDeleteTypes(inflection: Inflection, b: NestedBuild, resources: seq<PgResource>)
    modifies b
    ensures b.State() == PassFold(DeleteStepFn(inflection), b.relationships, old(b.State()), resources)
    ensures b.inputTypes == old(b.inputTypes)
  {
    var i := 0;
    while i < |resources|
      invariant 0 <= i <= |resources|
      invariant b.State() == PassFold(DeleteStepFn(inflection), b.relationships, old(b.State()), resources[..i])
    {
      PassFoldNext(DeleteStepFn(inflection), b.relationships, old(b.State()), resources, i);
      var resource := resources[i];
      if !resource.isTable || resource.codec !in b.relationships {
        i := i + 1;
        continue;
      }
      var rels := b.relationships[resource.codec];
      ghost var before := b.State();
      var j := 0;
      while j < |rels|
        invariant 0 <= j <= |rels|
        invariant b.State() == RelationshipsFold(DeleteStepFn(inflection), before, rels[..j])
      {
        RelationshipsFoldNext(DeleteStepFn(inflection), before, rels, j);
        RegisterDeleteType(inflection, b, rels[j]);
        j := j + 1;
      }
      assert rels[..j] == rels;
      i := i + 1;
    }
    assert resources[..i] == resources;
    DeleteTypesKeepSet(inflection, b.relationships, old(b.State()), resources);
  }

  /** The body of the inner loop with the correction: the name is claimed before registering. */
  method RegisterDeleteTypeCorrected(inflection: Inflection, b: NestedBuild, rel: NestedRelationship)
    modifies b
    ensures b.State() == DeleteStepCorrected(inflection, old(b.State()), rel)
  {
    var deleteByNodeId := rel.mutationFields.deleteByNodeId;
    if deleteByNodeId.Some? && deleteByNodeId.value.typeName !in b.inputTypes {
      b.inputTypes := b.inputTypes + {deleteByNodeId.value.typeName};
      var nodeIdField := NodeIdFields(inflection);
      b.registered := b.registered + [NestedRegistration(deleteByNodeId.value.typeName, DeleteByNodeIdType(rel.details.rightTable, nodeIdField))];
    }
  }

  /** The `init` hook with the corrected step: each delete type name is registered at most once. */
  method InitDeleteTypesCorrected(inflection: Inflection, b: NestedBuild, resources: seq<PgResource>)
    modifies b
    ensures b.State() == PassFold(DeleteStepCorrectedFn(inflection), b.relationships, old(b.State()), resources)
    ensures AddsOnce(old(b.State()), b.State())
  {
    var i := 0;
    while i < |resources|
      invariant 0 <= i <= |resources|
      invariant b.State() == PassFold(DeleteStepCorrectedFn(inflection), b.relationships, old(b.State()), resources[..i])
    {
      PassFoldNext(DeleteStepCorrectedFn(inflection), b.relationships, old(b.State()), resources, i);
      var resource := resources[i];
      if !resource.isTable || resource.codec !in b.relationships {
        i := i + 1;
        continue;
      }
      var rels := b.relationships[resource.codec];
      ghost var before := b.State();
      var j := 0;
      while j < |rels|
        invariant 0 <= j <= |rels|
        invariant b.State() == RelationshipsFold(DeleteStepCorrectedFn(inflection), before, rels[..j])
      {
        RelationshipsFoldNext(DeleteStepCorrectedFn(inflection), before, rels, j);
        RegisterDeleteTypeCorrected(inflection, b, rels[j]);
        j := j + 1;
      }
      assert rels[..j] == rels;
      i := i + 1;
    }
    assert resources[..i] == resources;
    DeleteTypesOnce(inflection, b.relationships, old(b.State()), resources);
  }

  /** With the correction, each delete-by-node-id type name is registered at most once per pass. */
  lemma DeleteTypesOnce(
    inflection: Inflection, relationships: map<Codec, seq<NestedRelationship>>, st: PassState, resources: seq<PgResource>)
    ensures AddsOnce(st, PassFold(DeleteStepCorrectedFn(inflection), relationships, st, resources))
  {
    PassFoldAddsOnce(DeleteStepCorrectedFn(inflection), relationships, st, resources);
  }

  /** A registered delete type is for the right table and has exactly the non-null `ID` node id field. */
  lemma DeleteEntryShape(inflection: Inflection, rel: NestedRelationship)
    requires rel.mutationFields.deleteByNodeId.Some?
    ensures var entry := DeleteEntry(inflection, rel);
      && entry.name == rel.mutationFields.deleteByNodeId.value.typeName
      && entry.spec.DeleteByNodeIdType? && entry.spec.remote == rel.details.rightTable
      && entry.spec.fields == [InputField(inflection.nodeIdFieldName, NonNull(Named("ID")))]
  {
  }
}
