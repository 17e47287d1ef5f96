/**
 * `PgNestedMutationsCreateTypesPlugin`: for every relationship whose mutation fields hold a
 * `create` entry, the create input type named there is registered once, holding a copy of
 * the right table's input fields.
 */
module CreateTypes {
  import opened Host
  import opened Records
  import opened NestedTypes
  import opened NestedState

  /** The create type's fields: the reduce that puts each field of the table's input type. */
  function CreateFields(schema: Schema, rightTable: PgResource): seq<InputField> {
    Extend([], schema.inputFields(rightTable))
  }

  /**
   * The create-type plugin's work on one relationship: when `create` is present and its type
   * name unseen, the name is added to the set and the type is registered.
   */
  function CreateStep(schema: Schema, st: PassState, rel: NestedRelationship): (r: PassState)
    ensures AddsOnce(st, r) && r.objMap == st.objMap
    ensures |r.registered| > |st.registered|
      <==> rel.mutationFields.create.Some? && rel.mutationFields.create.value.typeName !in st.seen
    ensures |r.registered| == |st.registered| ==> r == st
  {
    match rel.mutationFields.create
    case Some(create) =>
      if create.typeName in st.seen then st
      else
        var spec := CreateType(rel.details.isReverse, rel.details.rightTable, CreateFields(schema, rel.details.rightTable));
        PassState(st.seen + {create.typeName}, st.objMap, st.registered + [NestedRegistration(create.typeName, spec)])
    case None => st
  }

  function CreateStepFn(schema: Schema): Step {
    (st, rel) => CreateStep(schema, st, rel)
  }

  /** The body of the inner loop, on the build object. */
  method RegisterCreateType(schema: Schema, b: NestedBuild, rel: NestedRelationship)
    modifies b
    ensures b.State() == CreateStep(schema, old(b.State()), rel)
  {
    var create := rel.mutationFields.create;
    if create.Some? && create.value.typeName !in b.inputTypes {
      b.inputTypes := b.inputTypes + {create.value.typeName};
      var fields := CreateFields(schema, rel.details.rightTable);
      b.registered := b.registered + [NestedRegistration(create.value.typeName, CreateType(rel.details.isReverse, rel.details.rightTable, fields))];
    }
  }

  /** The `init` hook: every table's relationships, in resource order. */
  method InitCreateTypes(schema: Schema, b: NestedBuild, resources: seq<PgResource>)
    modifies b
    ensures b.State() == PassFold(CreateStepFn(schema), b.relationships, old(b.State()), resources)
    ensures AddsOnce(old(b.State()), b.State())
  {
    var i := 0;
    while i < |resources|
      invariant 0 <= i <= |resources|
      invariant b.State() == PassFold(CreateStepFn(schema), b.relationships, old(b.State()), resources[..i])
    {
      PassFoldNext(CreateStepFn(schema), b.relationships, old(b.State()), resources, i);
      var resource := resources[i];
      if !resource.isTable || resource.codec !in b.relationships {
        i := i + 1;
        continue;
      }
      var rels := b.relationships[resource.codec];
      ghost var before := b.State();
      var j := 0;
      while j < |rels|
        invariant 0 <= j <= |rels|
        invariant b.State() == RelationshipsFold(CreateStepFn(schema), before, rels[..j])
      {
        RelationshipsFoldNext(CreateStepFn(schema), before, rels, j);
        RegisterCreateType(schema, b, rels[j]);
        j := j + 1;
      }
      assert rels[..j] == rels;
      i := i + 1;
    }
    assert resources[..i] == resources;
    CreateTypesOnce(schema, b.relationships, old(b.State()), resources);
  }

  /** Over a whole pass, each create type name is registered at most once, and only if unseen before. */
  lemma CreateTypesOnce(
    schema: Schema, relationships: map<Codec, seq<NestedRelationship>>, st: PassState, resources: seq<PgResource>)
    ensures AddsOnce(st, PassFold(CreateStepFn(schema), relationships, st, resources))
  {
    PassFoldAddsOnce(CreateStepFn(schema), relationships, st, resources);
  }

  /**
   * A registered create type carries the relationship's inverse flag and right table, and its
   * fields name exactly the input type's fields, once each; when the input type's names are
   * distinct they are its fields, in order.
   */
  lemma CreateStepRegisters(schema: Schema, st: PassState, rel: NestedRelationship)
    requires rel.mutationFields.create.Some? && rel.mutationFields.create.value.typeName !in st.seen
    ensures var r := CreateStep(schema, st, rel);
      var entry := r.registered[|st.registered|];
      var input := schema.inputFields(rel.details.rightTable);
      && entry.name == rel.mutationFields.create.value.typeName
      && entry.spec.CreateType?
      && entry.spec.inverse == rel.details.isReverse
      && entry.spec.remote == rel.details.rightTable
      && DistinctNames(entry.spec.fields)
      && FieldNameSet(entry.spec.fields) == FieldNameSet(input)
      && (DistinctNames(input) ==> entry.spec.fields == input)
  {
    var input := schema.inputFields(rel.details.rightTable);
    var entry := CreateStep(schema, st, rel).registered[|st.registered|];
    assert entry == NestedRegistration(rel.mutationFields.create.value.typeName,
      CreateType(rel.details.isReverse, rel.details.rightTable, Extend([], input)));
    ExtendNames([], input);
    if DistinctNames(input) {
      assert [] + input == input;
      ExtendDistinct([], input);
    }
  }
}
