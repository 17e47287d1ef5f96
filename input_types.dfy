/**
 * `PgNestedMutationsInputTypePlugin`: registers each relationship's connector input type
 * once, records which root mutation fields belong to which table, adds the connector fields
 * to a table's input and patch types, and wraps the plan of those root mutation fields.
 */
module InputTypes {
  import opened Wrappers
  import opened Host
  import opened Records
  import opened NestedTypes
  import opened NestedState

  /** `getInputType(name, single)` is `FieldType`; one field of the connector type, when the entry is present. */
  function EntryField(entry: Option<MutationField>, single: bool): (r: seq<InputField>)
    ensures entry.None? ==> r == []
    ensures entry.Some? ==> r == [InputField(entry.value.fieldName, FieldType(entry.value.typeName, single))]
  {
    match entry
    case None => []
    case Some(f) => [InputField(f.fieldName, FieldType(f.typeName, single))]
  }

  /** Whether the connector type's fields are the named types themselves rather than lists. */
  predicate SingleFields(d: NestedDetails) {
    !d.isReverse || d.isUnique
  }

  /**
   * The connector type's fields: the object spread of the create, connect-by-node-id and
   * update-by-node-id fields, in that order; the by-key and delete entries spread nothing.
   */
  function ConnectorTypeFields(rel: NestedRelationship): seq<InputField> {
    Extend([], ConnectorEntries(rel))
  }

  /** The three optional fields of the connector type, before they are put into one object. */
  function ConnectorEntries(rel: NestedRelationship): (r: seq<InputField>)
    ensures OfKind(r, SingleFields(rel.details))
  {
    var m := rel.mutationFields;
    var single := SingleFields(rel.details);
    EntryField(m.create, single) + EntryField(m.connectByNodeId, single) + EntryField(m.updateByNodeId, single)
  }

  /** The left table of a relationship, as a resource. */
  function LeftResource(rel: NestedRelationship): PgResource {
    rel.details.leftTable.resource
  }

  /** Whether the step registers the connector type: it has nested fields and its name is unseen. */
  predicate RegistersConnector(st: PassState, rel: NestedRelationship) {
    HasNestedFields(rel.mutationFields) && rel.mutationFields.input.typeName !in st.seen
  }

  /**
   * The input-type plugin's work on one relationship: the left table's create and
   * update-by-node field names are mapped to its codec whatever follows; then a relationship
   * without nested fields, or whose connector type name is seen, is skipped; otherwise the
   * name is claimed and the connector type registered.
   */
  function InputStep(inflection: Inflection, st: PassState, rel: NestedRelationship): (r: PassState)
    ensures AddsOnce(st, r)
    ensures var left := LeftResource(rel);
      && r.objMap.Keys == st.objMap.Keys + {inflection.createField(left), inflection.updateNodeField(left, rel.details.localUnique.attributes)}
      && r.objMap[inflection.createField(left)] == left.codec
      && r.objMap[inflection.updateNodeField(left, rel.details.localUnique.attributes)] == left.codec
      && forall k :: (k in st.objMap && k != inflection.createField(left)
           && k != inflection.updateNodeField(left, rel.details.localUnique.attributes)) ==> r.objMap[k] == st.objMap[k]
    ensures |r.registered| > |st.registered| <==> RegistersConnector(st, rel)
    ensures RegistersConnector(st, rel) ==>
      r.registered == st.registered + [NestedRegistration(rel.mutationFields.input.typeName, ConnectorType(rel.details.isReverse, LeftResource(rel), ConnectorTypeFields(rel)))]
  {
    var left := LeftResource(rel);
    var objMap := st.objMap[inflection.createField(left) := left.codec][inflection.updateNodeField(left, rel.details.localUnique.attributes) := left.codec];
    var name := rel.mutationFields.input.typeName;
    if !HasNestedFields(rel.mutationFields) || name in st.seen then PassState(st.seen, objMap, st.registered)
    else
      var spec := ConnectorType(rel.details.isReverse, left, ConnectorTypeFields(rel));
      PassState(st.seen + {name}, objMap, st.registered + [NestedRegistration(name, spec)])
  }

  function InputStepFn(inflection: Inflection): Step {
    (st, rel) => InputStep(inflection, st, rel)
  }

  /** The body of the inner loop, on the build object. */
  method RegisterInputType(inflection: Inflection, b: NestedBuild, rel: NestedRelationship)
    modifies b
    ensures b.State() == InputStep(inflection, old(b.State()), rel)
  {
    var left := LeftResource(rel);
    b.inputObjMap := b.inputObjMap[inflection.createField(left) := left.codec];
    b.inputObjMap := b.inputObjMap[inflection.updateNodeField(left, rel.details.localUnique.attributes) := left.codec];
    var m := rel.mutationFields;
    var hasNestedFields := m.create.Some? || m.connectByKeys.Some? || m.connectByNodeId.Some? || m.updateByKeys.Some?
      || m.updateByNodeId.Some? || m.deleteByKeys.Some? || m.deleteByNodeId.Some?;
    HasNestedFieldsIff(m);
    if !hasNestedFields {
      return;
    }
    if m.input.typeName in b.inputTypes {
      return;
    }
    b.inputTypes := b.inputTypes + {m.input.typeName};
    var fields := ConnectorTypeFields(rel);
    b.registered := b.registered + [NestedRegistration(m.input.typeName, ConnectorType(rel.details.isReverse, left, fields))];
  }

  /** The `init` hook: every table's relationships, in resource order. */
  method InitInputTypes(inflection: Inflection, b: NestedBuild, resources: seq<PgResource>)
    modifies b
    ensures b.State() == PassFold(InputStepFn(inflection), b.relationships, old(b.State()), resources)
    ensures AddsOnce(old(b.State()), b.State())
  {
    var i := 0;
    while i < |resources|
      invariant 0 <= i <= |resources|
      invariant b.State() == PassFold(InputStepFn(inflection), b.relationships, old(b.State()), resources[..i])
    {
      PassFoldNext(InputStepFn(inflection), b.relationships, old(b.State()), resources, i);
      var resource := resources[i];
      if !resource.isTable || resource.codec !in b.relationships {
        i := i + 1;
        continue;
      }
      var rels := b.relationships[resource.codec];
      ghost var before := b.State();
      var j := 0;
      while j < |rels|
        invariant 0 <= j <= |rels|
        invariant b.State() == RelationshipsFold(InputStepFn(inflection), before, rels[..j])
      {
        RelationshipsFoldNext(InputStepFn(inflection), before, rels, j);
        RegisterInputType(inflection, b, rels[j]);
        j := j + 1;
      }
      assert rels[..j] == rels;
      i := i + 1;
    }
    assert resources[..i] == resources;
    InputTypesOnce(inflection, b.relationships, old(b.State()), resources);
  }

  /** Over a whole pass, each connector type name is registered at most once, and only if unseen before. */
  lemma InputTypesOnce(
    inflection: Inflection, relationships: map<Codec, seq<NestedRelationship>>, st: PassState, resources: seq<PgResource>)
    ensures AddsOnce(st, PassFold(InputStepFn(inflection), relationships, st, resources))
  {
    PassFoldAddsOnce(InputStepFn(inflection), relationships, st, resources);
  }

  /**
   * Every connector field is the named type itself when the relationship is forward or
   * unique and a list of the non-null named type otherwise; the fields are named by the
   * present create, connect-by-node-id and update-by-node-id entries, once each, and are
   * exactly those entries in order when their names differ.
   */
  lemma ConnectorTypeFieldsShape(rel: NestedRelationship)
    ensures var fields := ConnectorTypeFields(rel);
      var entries := ConnectorEntries(rel);
      && DistinctNames(fields)
      && FieldNameSet(fields) == FieldNameSet(entries)
      && OfKind(fields, SingleFields(rel.details))
      && (DistinctNames(entries) ==> fields == entries)
  {
    var entries := ConnectorEntries(rel);
    ExtendNames([], entries);
    ExtendKind([], entries, SingleFields(rel.details));
    if DistinctNames(entries) {
      assert [] + entries == entries;
      ExtendDistinct([], entries);
    }
  }

  /** Every field is the named type itself when `single`, and a list otherwise. */
  predicate OfKind(fields: seq<InputField>, single: bool) {
    forall i :: 0 <= i < |fields| ==> (fields[i].fieldType.Named? <==> single)
  }

  /** Putting fields all of one kind keeps every field of that kind. */
  lemma {:induction false} ExtendKind(fields: seq<InputField>, extra: seq<InputField>, single: bool)
    requires OfKind(fields, single) && OfKind(extra, single)
    ensures OfKind(Extend(fields, extra), single)
    decreases |extra|
  {
    if |extra| > 0 {
      var put := Put(fields, extra[0]);
      assert extra[0].fieldType.Named? <==> single;
      assert OfKind(put, single) by {
        if NameIndex(fields, extra[0].name) >= 0 {
          assert put == fields[NameIndex(fields, extra[0].name) := extra[0]];
        } else {
          assert put == fields + [extra[0]];
        }
      }
      assert OfKind(extra[1..], single) by {
        forall i | 0 <= i < |extra[1..]| ensures (extra[1..][i].fieldType.Named? <==> single) {
          assert extra[1..][i] == extra[i + 1];
        }
      }
      ExtendKind(put, extra[1..], single);
    }
  }

  /** The connector fields the fields hook adds for a table: one per relationship, named by its field name, typed by its connector type. */
  function HookFields(rels: seq<NestedRelationship>): seq<InputField> {
    Extend([], seq(|rels|, i requires 0 <= i < |rels| => InputField(rels[i].fieldName, Named(rels[i].mutationFields.input.typeName))))
  }

  /** Whether the fields hook acts on a type: a patch type or an input row type, with a codec. */
  predicate HookApplies(scope: FieldsScope) {
    (scope.isPgPatch || (scope.isInputType && scope.isPgRowType)) && scope.pgCodec.Some?
  }

  /**
   * The `GraphQLInputObjectType_fields` hook: a table's input or patch type gets one field
   * per relationship of its codec; any other type, and a codec without a relationship list,
   * keeps its fields.
   */
  function NestedFieldsHook(relationships: map<Codec, seq<NestedRelationship>>, scope: FieldsScope, fields: seq<InputField>)
    : (r: seq<InputField>)
    ensures !HookApplies(scope) ==> r == fields
    ensures HookApplies(scope) && scope.pgCodec.value !in relationships ==> r == fields
  {
    if (!scope.isPgPatch && (!scope.isInputType || !scope.isPgRowType)) || scope.pgCodec.None? then fields
    else if scope.pgCodec.value !in relationships then fields
    else Extend(fields, HookFields(relationships[scope.pgCodec.value]))
  }

  /**
   * When the hook acts on a type whose fields have distinct names, the result still has
   * distinct names, and names exactly the type's fields and the relationships' field names.
   */
  lemma NestedFieldsHookNames(relationships: map<Codec, seq<NestedRelationship>>, scope: FieldsScope, fields: seq<InputField>)
    requires HookApplies(scope) && scope.pgCodec.value in relationships
    requires DistinctNames(fields)
    ensures var rels := relationships[scope.pgCodec.value];
      var r := NestedFieldsHook(relationships, scope, fields);
      && DistinctNames(r)
      && FieldNameSet(r) == FieldNameSet(fields) + (set i | 0 <= i < |rels| :: rels[i].fieldName)
  {
    var rels := relationships[scope.pgCodec.value];
    var added := seq(|rels|, i requires 0 <= i < |rels| => InputField(rels[i].fieldName, Named(rels[i].mutationFields.input.typeName)));
    ExtendNames([], added);
    ExtendNames(fields, HookFields(rels));
    assert FieldNameSet(added) == (set i | 0 <= i < |rels| :: rels[i].fieldName) by {
      forall n | n in (set i | 0 <= i < |rels| :: rels[i].fieldName) ensures n in FieldNameSet(added) {
        var i :| 0 <= i < |rels| && rels[i].fieldName == n;
        assert added[i].name == n;
      }
    }
  }

  /** A root mutation field: the step its own plan returns, when it has a plan. */
  datatype RootField = RootField(plan: Option<nat>)

  /** What the root-field hook returns: the field as it came, or the field with the delegating plan. */
  datatype HookedField = AsIs(field: RootField) | Delegating(field: RootField)

  /** Whether the hook wraps a field: a root mutation field mapped to a codec with a first relationship. */
  predicate WrapsField(b: NestedBuild, isRootMutation: bool, fieldName: string)
    reads b
  {
    isRootMutation && fieldName in b.inputObjMap && b.inputObjMap[fieldName] in b.relationships
    && |b.relationships[b.inputObjMap[fieldName]]| > 0
  }

  /** The `GraphQLObjectType_fields_field` hook. */
  function RootFieldHook(b: NestedBuild, isRootMutation: bool, fieldName: string, field: RootField): (r: HookedField)
    reads b
    ensures r.field == field
    ensures r.Delegating? <==> WrapsField(b, isRootMutation, fieldName)
  {
    if isRootMutation && fieldName in b.inputObjMap then
      var codec := b.inputObjMap[fieldName];
      if codec !in b.relationships || |b.relationships[codec]| == 0 then AsIs(field)
      else Delegating(field)
    else AsIs(field)
  }

  /** Running the delegating plan: nothing without the field's own plan, otherwise what that plan returns. */
  function RunDelegating(field: RootField): (r: Option<nat>)
    ensures field.plan.None? ==> r.None?
    ensures field.plan.Some? ==> r == field.plan
  {
    if field.plan.None? then None else Some(field.plan.value)
  }

  /** The step a hooked field's plan returns. */
  function PlanResult(h: HookedField): Option<nat> {
    match h
    case AsIs(field) => field.plan
    case Delegating(field) => RunDelegating(field)
  }

  /** The wrapper is transparent: whatever the hook decides, the field's plan returns the same step. */
  lemma RootFieldHookTransparent(b: NestedBuild, isRootMutation: bool, fieldName: string, field: RootField)
    ensures PlanResult(RootFieldHook(b, isRootMutation, fieldName, field)) == field.plan
  {
  }
}
