/**
 * `PgNestedMutationsConnectTypesPlugin`: registers each connect-by-node-id input type once,
 * holding the single node id field, and claims the connect-by-key type names without
 * registering anything for them.
 */
module ConnectTypes {
  import opened Host
  import opened Records
  import opened NestedTypes
  import opened NestedState

  /** The connect-by-key entries of a record; a missing key iterates nothing. */
  function ConnectByKeysOf(rel: NestedRelationship): seq<MutationField> {
    if rel.mutationFields.connectByKeys.Some? then rel.mutationFields.connectByKeys.value else []
  }

  /** Whether the step registers a connect-by-node-id type: the entry is present and its name unseen. */
  predicate RegistersNodeId(st: PassState, rel: NestedRelationship) {
    rel.mutationFields.connectByNodeId.Some? && rel.mutationFields.connectByNodeId.value.typeName !in st.seen
  }

  /**
   * The connect-type plugin's work on one relationship: the connect-by-node-id type first,
   * then the connect-by-key type names. A name claimed by the key loop blocks a later
   * node-id type of the same name.
   */
  function ConnectStep(inflection: Inflection, st: PassState, rel: NestedRelationship): (r: PassState)
    ensures AddsOnce(st, r) && r.objMap == st.objMap
    ensures |r.registered| > |st.registered| <==> RegistersNodeId(st, rel)
    ensures |r.registered| <= |st.registered| + 1
    ensures r.seen == st.seen + TypeNames(ConnectByKeysOf(rel))
      + (if RegistersNodeId(st, rel) then {rel.mutationFields.connectByNodeId.value.typeName} else {})
  {
    var st1 :=
      if RegistersNodeId(st, rel) then
        var name := rel.mutationFields.connectByNodeId.value.typeName;
        var spec := ConnectByNodeIdType(rel.details.rightTable, NodeIdFields(inflection));
        PassState(st.seen + {name}, st.objMap, st.registered + [NestedRegistration(name, spec)])
      else st;
    PassState(st1.seen + TypeNames(ConnectByKeysOf(rel)), st1.objMap, st1.registered)
  }

  function ConnectStepFn(inflection: Inflection): Step {
    (st, rel) => ConnectStep(inflection, st, rel)
  }

  /** The body of the inner loop, on the build object. */
  method RegisterConnectTypes(inflection: Inflection, b: NestedBuild, rel: NestedRelationship)
    modifies b
    ensures b.State() == ConnectStep(inflection, old(b.State()), rel)
  {
    var connectByNodeId := rel.mutationFields.connectByNodeId;
    if connectByNodeId.Some? && connectByNodeId.value.typeName !in b.inputTypes {
      b.inputTypes := b.inputTypes + {connectByNodeId.value.typeName};
      var nodeIdField := NodeIdFields(inflection);
      b.registered := b.registered + [NestedRegistration(connectByNodeId.value.typeName, ConnectByNodeIdType(rel.details.rightTable, nodeIdField))];
    }
    if rel.mutationFields.connectByKeys.Some? {
      AddTypeNames(b, rel.mutationFields.connectByKeys.value);
    }
  }

  /** The `init` hook: every table's relationships, in resource order. */
  method InitConnectTypes(inflection: Inflection, b: NestedBuild, resources: seq<PgResource>)
    modifies b
    ensures b.State() == PassFold(ConnectStepFn(inflection), b.relationships, old(b.State()), resources)
    ensures AddsOnce(old(b.State()), b.State())
  {
    var i := 0;
    while i < |resources|
      invariant 0 <= i <= |resources|
      invariant b.State() == PassFold(ConnectStepFn(inflection), b.relationships, old(b.State()), resources[..i])
    {
      PassFoldNext(ConnectStepFn(inflection), b.relationships, old(b.State()), resources, i);
      var resource := resources[i];
      if !resource.isTable || resource.codec !in b.relationships {
        i := i + 1;
        continue;
      }
      var rels := b.relationships[resource.codec];
      ghost var before := b.State();
      var j := 0;
      while j < |rels|
        invariant 0 <= j <= |rels|
        invariant b.State() == RelationshipsFold(ConnectStepFn(inflection), before, rels[..j])
      {
        RelationshipsFoldNext(ConnectStepFn(inflection), before, rels, j);
        RegisterConnectTypes(inflection, b, rels[j]);
        j := j + 1;
      }
      assert rels[..j] == rels;
      i := i + 1;
    }
    assert resources[..i] == resources;
    ConnectTypesOnce(inflection, b.relationships, old(b.State()), resources);
  }

  /** Over a whole pass, each connect-by-node-id type name is registered at most once, and only if unseen before. */
  lemma ConnectTypesOnce(
    inflection: Inflection, relationships: map<Codec, seq<NestedRelationship>>, st: PassState, resources: seq<PgResource>)
    ensures AddsOnce(st, PassFold(ConnectStepFn(inflection), relationships, st, resources))
  {
    PassFoldAddsOnce(ConnectStepFn(inflection), relationships, st, resources);
  }

  /**
   * A registered connect-by-node-id type is named by the entry, is for the right table, and
   * has exactly one field: the node id field, a non-null `ID`.
   */
  lemma ConnectStepRegisters(inflection: Inflection, st: PassState, rel: NestedRelationship)
    requires RegistersNodeId(st, rel)
    ensures var r := ConnectStep(inflection, st, rel);
      var entry := r.registered[|st.registered|];
      && entry.name == rel.mutationFields.connectByNodeId.value.typeName
      && entry.spec.ConnectByNodeIdType?
      && entry.spec.remote == rel.details.rightTable
      && |entry.spec.fields| == 1
      && entry.spec.fields[0] == InputField(inflection.nodeIdFieldName, NonNull(Named("ID")))
  {
  }
}
