/**
 * The build-state hooks of the relationship-mutations plugin: `build` sets up the shared
 * maps, and `init` walks every table resource's relationships, registering for each new
 * relationship input type name a create type (when the remote resource is insertable), a
 * connect-by-node-id type (when it is updatable) and the relationship input type itself.
 */
module RelationshipInit {
  import opened Wrappers
  import opened Host
  import opened Records
  import opened Relationships
  import opened RelationshipInflection

  /** `{name, type}`: a field name and the name of the input type it carries. */
  datatype FieldEntry = FieldEntry(name: string, typeName: string)

  /** The parts of `ResourceRelationshipMutationFields` the init hook fills in. */
  datatype MutationFields = MutationFields(insertable: Option<FieldEntry>, connectByNodeId: Option<FieldEntry>)

  /** What a registered input object type holds, as the hook describes it to the host. */
  datatype TypeSpec =
    | CreateInput(remote: PgResource, fields: seq<InputField>)
    | NodeIdConnectInput(remote: PgResource, fields: seq<InputField>)
    | RelationshipInput(
        relationName: string, inverse: bool, remote: PgResource, fields: seq<InputField>,
        // the remote resource's relationship field names known when the type was
        // registered; the connect-by-node-id plan applies the list arguments to them
        connectPlanFieldNames: seq<string>)

  /** One `registerInputObjectType` call that returned. */
  datatype Registration = Registration(name: string, spec: TypeSpec)

  /** An entry of `build.pgRelationshipConnectorFields`. */
  datatype ConnectorFieldInfo = ConnectorFieldInfo(fieldName: string, typeName: string, remoteResource: PgResource)

  /** The state the hooks share through the `build` object. */
  class RelationshipBuild {
    var relationshipInputTypes: map<string, seq<RelationshipData>>
    var mutationFieldsByType: map<string, MutationFields>
    var connectorFields: map<string, seq<ConnectorFieldInfo>>
    var mutationRootFields: map<string, seq<seq<string>>>
    var rootFieldNamesToCodec: map<string, PgResource>
    var registered: seq<Registration>

    /** The `build` hook: every map starts empty. */
    constructor ()
      ensures relationshipInputTypes == map[] && mutationFieldsByType == map[]
      ensures connectorFields == map[] && mutationRootFields == map[] && rootFieldNamesToCodec == map[]
      ensures registered == []
    {
      relationshipInputTypes := map[];
      mutationFieldsByType := map[];
      connectorFields := map[];
      mutationRootFields := map[];
      rootFieldNamesToCodec := map[];
      registered := [];
    }

    /** The maps the init hook writes. */
    function InitMaps(): (map<string, seq<RelationshipData>>, map<string, MutationFields>, seq<Registration>)
      reads this
    {
      (relationshipInputTypes, mutationFieldsByType, registered)
    }

    /** The maps the fields hook writes for the root-field hook. */
    function RootMaps(): (map<string, seq<seq<string>>>, map<string, PgResource>)
      reads this
    {
      (mutationRootFields, rootFieldNamesToCodec)
    }
  }

  /** The field-naming inflector `getRelationships` is given in this plugin. */
  function FieldNameOf(inflection: Inflection): RelationshipData -> string {
    r => InputFieldName(inflection, r)
  }

  /**
   * The create type's fields: the remote table's input fields under the same names and in
   * the same order, with one non-null wrapper removed from each when the relation is a
   * referencee.
   */
  function CreateFields(tableFields: seq<InputField>, isReferencee: bool): (r: seq<InputField>)
    ensures |r| == |tableFields|
    ensures forall i :: 0 <= i < |r| ==> r[i].name == tableFields[i].name
    ensures !isReferencee ==> r == tableFields
    ensures isReferencee ==> forall i :: 0 <= i < |r| ==>
      if tableFields[i].fieldType.NonNull? then NonNull(r[i].fieldType) == tableFields[i].fieldType
      else r[i] == tableFields[i]
  {
    if |tableFields| == 0 then []
    else
      var f := tableFields[0];
      var stripped := if isReferencee && f.fieldType.NonNull? then f.(fieldType := f.fieldType.ofType) else f;
      [stripped] + CreateFields(tableFields[1..], isReferencee)
  }

  /**
   * The relationship input type's fields: the create field, then the connect-by-node-id
   * field, each present when its type was registered, each singular when `single`.
   */
  function RelationshipInputFields(fields: MutationFields, single: bool): (r: seq<InputField>)
    ensures |r| == (if fields.insertable.Some? then 1 else 0) + (if fields.connectByNodeId.Some? then 1 else 0)
    ensures forall f :: f in r ==> (f.fieldType.Named? <==> single)
    ensures fields.insertable.Some? ==>
      r[0] == InputField(fields.insertable.value.name, FieldType(fields.insertable.value.typeName, single))
    ensures fields.connectByNodeId.Some? ==>
      r[|r| - 1] == InputField(fields.connectByNodeId.value.name, FieldType(fields.connectByNodeId.value.typeName, single))
  {
    (if fields.insertable.Some? then
       [InputField(fields.insertable.value.name, FieldType(fields.insertable.value.typeName, single))]
     else [])
    + (if fields.connectByNodeId.Some? then
         [InputField(fields.connectByNodeId.value.name, FieldType(fields.connectByNodeId.value.typeName, single))]
       else [])
  }

  function FieldNames(relationships: seq<RelationshipData>): (r: seq<string>)
    ensures |r| == |relationships|
    ensures forall i :: 0 <= i < |r| ==> r[i] == relationships[i].fieldName
  {
    seq(|relationships|, i requires 0 <= i < |relationships| => relationships[i].fieldName)
  }

  /** The init hook's state: its seen-set, the build maps it writes, and what it pushed to `inputFields`. */
  datatype InitState = InitState(
    seen: set<string>,
    registered: seq<Registration>,
    inputTypes: map<string, seq<RelationshipData>>,
    fieldsByType: map<string, MutationFields>,
    pushed: seq<FieldEntry>)

  /** Whether the create type is registered: the remote is insertable and the host accepts the name. */
  predicate Created(inflection: Inflection, behavior: Behavior, schema: Schema, rel: RelationshipData) {
    behavior.isInsertable(rel.remoteResource) && schema.registers(CreateInputType(inflection, rel))
  }

  /** Whether the connect-by-node-id type is registered: connectable means updatable. */
  predicate Connected(inflection: Inflection, behavior: Behavior, schema: Schema, rel: RelationshipData) {
    behavior.isUpdatable(rel.remoteResource) && schema.registers(ConnectByNodeIdInputType(inflection, rel))
  }

  /** The `fields` record once both recoverable blocks have run. */
  function StepFields(inflection: Inflection, behavior: Behavior, schema: Schema, rel: RelationshipData): MutationFields {
    MutationFields(
      if Created(inflection, behavior, schema, rel) then
        Some(FieldEntry(CreateFieldName(inflection, rel), CreateInputType(inflection, rel)))
      else None,
      if Connected(inflection, behavior, schema, rel) then
        Some(FieldEntry(ConnectByNodeIdFieldName(inflection, rel), ConnectByNodeIdInputType(inflection, rel)))
      else None)
  }

  /** The create type's registration, when it happens. */
  function CreateRegistration(inflection: Inflection, behavior: Behavior, schema: Schema, rel: RelationshipData): seq<Registration> {
    if Created(inflection, behavior, schema, rel) then
      [Registration(CreateInputType(inflection, rel),
        CreateInput(rel.remoteResource, CreateFields(schema.inputFields(rel.remoteResource), rel.isReferencee)))]
    else []
  }

  /** The connect-by-node-id type's registration, when it happens. */
  function ConnectRegistration(inflection: Inflection, behavior: Behavior, schema: Schema, rel: RelationshipData): seq<Registration> {
    if Connected(inflection, behavior, schema, rel) then
      [Registration(ConnectByNodeIdInputType(inflection, rel), NodeIdConnectInput(rel.remoteResource, NodeIdFields(inflection)))]
    else []
  }

  /** The relationship input type's registration, when it happens. */
  function OwnRegistration(
    inflection: Inflection, behavior: Behavior, schema: Schema,
    inputTypes: map<string, seq<RelationshipData>>, rel: RelationshipData
  ): seq<Registration> {
    var remote := rel.remoteResource;
    var typeName := InputType(inflection, rel);
    if schema.registers(typeName) then
      [Registration(typeName, RelationshipInput(
        rel.name, rel.isReferencee, remote,
        RelationshipInputFields(StepFields(inflection, behavior, schema, rel), rel.isUnique || !rel.isReferencee),
        FieldNames(if remote.name in inputTypes then inputTypes[remote.name] else [])))]
    else []
  }

  /** The registrations one unseen relationship adds, in call order. */
  function StepRegistrations(
    inflection: Inflection, behavior: Behavior, schema: Schema,
    inputTypes: map<string, seq<RelationshipData>>, rel: RelationshipData
  ): seq<Registration> {
    CreateRegistration(inflection, behavior, schema, rel)
    + ConnectRegistration(inflection, behavior, schema, rel)
    + OwnRegistration(inflection, behavior, schema, inputTypes, rel)
  }

  /** `inputFields.push({fieldName, typeName})`: the entry every relationship pushes. */
  function PushEntry(inflection: Inflection, rel: RelationshipData): FieldEntry {
    FieldEntry(InputFieldName(inflection, rel), InputType(inflection, rel))
  }

  /** What the hook does with one relationship. */
  function RelationshipStep(
    inflection: Inflection, behavior: Behavior, schema: Schema, st: InitState, rel: RelationshipData
  ): InitState {
    var pushed := st.pushed + [PushEntry(inflection, rel)];
    var typeName := InputType(inflection, rel);
    if typeName in st.seen then st.(pushed := pushed)
    else
      InitState(
        st.seen + {typeName},
        st.registered + StepRegistrations(inflection, behavior, schema, st.inputTypes, rel),
        st.inputTypes,
        if schema.registers(typeName) then st.fieldsByType[typeName := StepFields(inflection, behavior, schema, rel)]
        else st.fieldsByType,
        pushed)
  }

  /** The relationships of one resource, in order. */
  function RelationshipsFold(
    inflection: Inflection, behavior: Behavior, schema: Schema, st: InitState, rels: seq<RelationshipData>
  ): InitState
    decreases |rels|
  {
    if |rels| == 0 then st
    else RelationshipStep(inflection, behavior, schema,
      RelationshipsFold(inflection, behavior, schema, st, rels[..|rels| - 1]), rels[|rels| - 1])
  }

  /** The hook's state and, when `getRelationships` threw, its message. */
  datatype Outcome = Outcome(state: InitState, error: Option<string>)

  /** What the hook does with one resource of the registry. */
  function ResourceStep(
    inflection: Inflection, behavior: Behavior, schema: Schema, st: InitState, res: RegistryResource
  ): Outcome {
    if !res.resource.isTable then Outcome(st, None)
    else
      match GetRelationships(behavior, FieldNameOf(inflection), res.resource, res.relations)
      case Failure(e) => Outcome(st, Some(e))
      case Success(rels) =>
        var st' := st.(inputTypes := st.inputTypes[res.resource.name := rels]);
        Outcome(RelationshipsFold(inflection, behavior, schema, st', rels), None)
  }

  /** The whole pass over the registry's resources; a throw ends it. */
  function InitFold(
    inflection: Inflection, behavior: Behavior, schema: Schema, st: InitState, resources: seq<RegistryResource>
  ): Outcome
    decreases |resources|
  {
    if |resources| == 0 then Outcome(st, None)
    else
      var prev := InitFold(inflection, behavior, schema, st, resources[..|resources| - 1]);
      if prev.error.Some? then prev
      else ResourceStep(inflection, behavior, schema, prev.state, resources[|resources| - 1])
  }

  /**
   * The `init` hook. Returns the error `getRelationships` threw, if any, and the entries
   * pushed to each resource's `inputFields` list, laid end to end.
   */
  method Init(
    inflection: Inflection, behavior: Behavior, schema: Schema, b: RelationshipBuild,
    resources: seq<RegistryResource>
  ) returns (error: Option<string>, inputFields: seq<FieldEntry>)
    modifies b
    ensures var out := InitFold(inflection, behavior, schema,
      InitState({}, old(b.registered), old(b.relationshipInputTypes), old(b.mutationFieldsByType), []), resources);
      && error == out.error
      && inputFields == out.state.pushed
      && b.registered == out.state.registered
      && b.relationshipInputTypes == out.state.inputTypes
      && b.mutationFieldsByType == out.state.fieldsByType
    ensures b.connectorFields == old(b.connectorFields)
    ensures b.mutationRootFields == old(b.mutationRootFields)
    ensures b.rootFieldNamesToCodec == old(b.rootFieldNamesToCodec)
  {
    ghost var start := InitState({}, b.registered, b.relationshipInputTypes, b.mutationFieldsByType, []);
    var seen: set<string> := {};
    inputFields := [];
    error := None;
    var i := 0;
    while i < |resources|
      invariant 0 <= i <= |resources|
      invariant InitFold(inflection, behavior, schema, start, resources[..i]) ==
        Outcome(InitState(seen, b.registered, b.relationshipInputTypes, b.mutationFieldsByType, inputFields), error)
      invariant error == None
      invariant b.connectorFields == old(b.connectorFields)
      invariant b.mutationRootFields == old(b.mutationRootFields)
      invariant b.rootFieldNamesToCodec == old(b.rootFieldNamesToCodec)
    {
      InitFoldNext(inflection, behavior, schema, start, resources, i);
      error, seen, inputFields := ProcessResource(inflection, behavior, schema, b, resources[i], seen, inputFields);
      if error.Some? {
        FoldStopsAtError(inflection, behavior, schema, start, resources, i + 1);
        return;
      }
      i := i + 1;
    }
    assert resources[..i] == resources;
  }

  /** Unfolding `InitFold` at the next resource. */
  lemma InitFoldNext(
    inflection: Inflection, behavior: Behavior, schema: Schema, st: InitState, resources: seq<RegistryResource>, i: nat)
    requires i < |resources|
    ensures var prev := InitFold(inflection, behavior, schema, st, resources[..i]);
      InitFold(inflection, behavior, schema, st, resources[..i + 1]) ==
        if prev.error.Some? then prev else ResourceStep(inflection, behavior, schema, prev.state, resources[i])
  {
    assert resources[..i + 1][..i] == resources[..i];
  }

  /** The hook's work on one resource of the registry, from its current locals. */
  method ProcessResource(
    inflection: Inflection, behavior: Behavior, schema: Schema, b: RelationshipBuild,
    resource: RegistryResource, seen0: set<string>, pushed0: seq<FieldEntry>
  ) returns (error: Option<string>, seen: set<string>, pushed: seq<FieldEntry>)
    modifies b
    ensures ResourceStep(inflection, behavior, schema,
      InitState(seen0, old(b.registered), old(b.relationshipInputTypes), old(b.mutationFieldsByType), pushed0),
      resource) ==
      Outcome(InitState(seen, b.registered, b.relationshipInputTypes, b.mutationFieldsByType, pushed), error)
    ensures b.connectorFields == old(b.connectorFields)
    ensures b.mutationRootFields == old(b.mutationRootFields)
    ensures b.rootFieldNamesToCodec == old(b.rootFieldNamesToCodec)
  {
    error, seen, pushed := None, seen0, pushed0;
    if resource.resource.isTable {
      var got := GetRelationships(behavior, FieldNameOf(inflection), resource.resource, resource.relations);
      if got.Failure? {
        error := Some(got.error);
        return;
      }
      b.relationshipInputTypes := b.relationshipInputTypes[resource.resource.name := got.value];
      seen, pushed := ProcessRelationships(inflection, behavior, schema, b, got.value, seen, pushed);
    }
  }

  /** `relationships.forEach(...)` for one resource, from the hook's current locals. */
  method ProcessRelationships(
    inflection: Inflection, behavior: Behavior, schema: Schema, b: RelationshipBuild,
    relationships: seq<RelationshipData>, seen0: set<string>, pushed0: seq<FieldEntry>
  ) returns (seen: set<string>, pushed: seq<FieldEntry>)
    modifies b
    ensures RelationshipsFold(inflection, behavior, schema,
      InitState(seen0, old(b.registered), old(b.relationshipInputTypes), old(b.mutationFieldsByType), pushed0),
      relationships) ==
      InitState(seen, b.registered, b.relationshipInputTypes, b.mutationFieldsByType, pushed)
    ensures b.connectorFields == old(b.connectorFields)
    ensures b.mutationRootFields == old(b.mutationRootFields)
    ensures b.rootFieldNamesToCodec == old(b.rootFieldNamesToCodec)
  {
    ghost var base := InitState(seen0, b.registered, b.relationshipInputTypes, b.mutationFieldsByType, pushed0);
    seen, pushed := seen0, pushed0;
    var j := 0;
    while j < |relationships|
      invariant 0 <= j <= |relationships|
      invariant RelationshipsFold(inflection, behavior, schema, base, relationships[..j]) ==
        InitState(seen, b.registered, b.relationshipInputTypes, b.mutationFieldsByType, pushed)
      invariant b.connectorFields == old(b.connectorFields)
      invariant b.mutationRootFields == old(b.mutationRootFields)
      invariant b.rootFieldNamesToCodec == old(b.rootFieldNamesToCodec)
    {
      var relationship := relationships[j];
      assert relationships[..j + 1][..j] == relationships[..j];
      pushed := pushed + [FieldEntry(InputFieldName(inflection, relationship), InputType(inflection, relationship))];
      var relationshipTypeName := InputType(inflection, relationship);
      if relationshipTypeName !in seen {
        seen := seen + {relationshipTypeName};
        RegisterRelationship(inflection, behavior, schema, b, relationship);
      }
      j := j + 1;
    }
    assert relationships[..j] == relationships;
  }

  /**
   * The body of `relationships.forEach` past the seen-check: register the create,
   * connect-by-node-id and relationship input types, each inside its own recoverable block,
   * so a registration that throws only leaves its own entry out.
   */
  method RegisterRelationship(
    inflection: Inflection, behavior: Behavior, schema: Schema, b: RelationshipBuild, rel: RelationshipData)
    modifies b
    ensures b.registered == old(b.registered) +
      StepRegistrations(inflection, behavior, schema, old(b.relationshipInputTypes), rel)
    ensures b.mutationFieldsByType == if schema.registers(InputType(inflection, rel)) then
      old(b.mutationFieldsByType)[InputType(inflection, rel) := StepFields(inflection, behavior, schema, rel)]
      else old(b.mutationFieldsByType)
    ensures b.relationshipInputTypes == old(b.relationshipInputTypes)
    ensures b.connectorFields == old(b.connectorFields)
    ensures b.mutationRootFields == old(b.mutationRootFields)
    ensures b.rootFieldNamesToCodec == old(b.rootFieldNamesToCodec)
  {
    var relationshipTypeName := InputType(inflection, rel);
    var remoteResource := rel.remoteResource;
    var createEntry := RegisterCreate(inflection, behavior, schema, b, rel);
    var connectEntry := RegisterConnect(inflection, behavior, schema, b, rel);
    var fields := MutationFields(createEntry, connectEntry);
    var relFieldNames := FieldNames(
      if remoteResource.name in b.relationshipInputTypes then b.relationshipInputTypes[remoteResource.name] else []);
    var own: seq<Registration> := [];
    if schema.registers(relationshipTypeName) {
      own := [Registration(relationshipTypeName, RelationshipInput(
        rel.name, rel.isReferencee, remoteResource,
        RelationshipInputFields(fields, rel.isUnique || !rel.isReferencee), relFieldNames))];
      b.mutationFieldsByType := b.mutationFieldsByType[relationshipTypeName := fields];
    }
    assert own == OwnRegistration(inflection, behavior, schema, old(b.relationshipInputTypes), rel);
    b.registered := b.registered + own;
  }

  /** The first recoverable block: register the create type when the remote is insertable. */
  method RegisterCreate(
    inflection: Inflection, behavior: Behavior, schema: Schema, b: RelationshipBuild, rel: RelationshipData
  ) returns (entry: Option<FieldEntry>)
    modifies b
    ensures b.registered == old(b.registered) + CreateRegistration(inflection, behavior, schema, rel)
    ensures entry == StepFields(inflection, behavior, schema, rel).insertable
    ensures b.relationshipInputTypes == old(b.relationshipInputTypes)
    ensures b.mutationFieldsByType == old(b.mutationFieldsByType)
    ensures b.connectorFields == old(b.connectorFields)
    ensures b.mutationRootFields == old(b.mutationRootFields)
    ensures b.rootFieldNamesToCodec == old(b.rootFieldNamesToCodec)
  {
    entry := None;
    var remoteResource := rel.remoteResource;
    if behavior.isInsertable(remoteResource) {
      var createFieldName := CreateFieldName(inflection, rel);
      var createTypeName := CreateInputType(inflection, rel);
      if schema.registers(createTypeName) {
        b.registered := b.registered + [Registration(createTypeName,
          CreateInput(remoteResource, CreateFields(schema.inputFields(remoteResource), rel.isReferencee)))];
        entry := Some(FieldEntry(createFieldName, createTypeName));
      }
    }
  }

  /** The second recoverable block: register the connect-by-node-id type when the remote is updatable. */
  method RegisterConnect(
    inflection: Inflection, behavior: Behavior, schema: Schema, b: RelationshipBuild, rel: RelationshipData
  ) returns (entry: Option<FieldEntry>)
    modifies b
    ensures b.registered == old(b.registered) + ConnectRegistration(inflection, behavior, schema, rel)
    ensures entry == StepFields(inflection, behavior, schema, rel).connectByNodeId
    ensures b.relationshipInputTypes == old(b.relationshipInputTypes)
    ensures b.mutationFieldsByType == old(b.mutationFieldsByType)
    ensures b.connectorFields == old(b.connectorFields)
    ensures b.mutationRootFields == old(b.mutationRootFields)
    ensures b.rootFieldNamesToCodec == old(b.rootFieldNamesToCodec)
  {
    entry := None;
    var connectable := behavior.isUpdatable(rel.remoteResource);
    if connectable {
      var fieldName := ConnectByNodeIdFieldName(inflection, rel);
      var typeName := ConnectByNodeIdInputType(inflection, rel);
      if schema.registers(typeName) {
        b.registered := b.registered + [Registration(typeName, NodeIdConnectInput(rel.remoteResource, NodeIdFields(inflection)))];
        entry := Some(FieldEntry(fieldName, typeName));
      }
    }
  }

  /** Once the pass has thrown, the remaining resources change nothing. */
  lemma {:induction false} FoldStopsAtError(
    inflection: Inflection, behavior: Behavior, schema: Schema, st: InitState,
    resources: seq<RegistryResource>, n: nat)
    requires n <= |resources|
    requires InitFold(inflection, behavior, schema, st, resources[..n]).error.Some?
    ensures InitFold(inflection, behavior, schema, st, resources) == InitFold(inflection, behavior, schema, st, resources[..n])
    decreases |resources| - n
  {
    if n < |resources| {
      assert resources[..n + 1][..n] == resources[..n];
      FoldStopsAtError(inflection, behavior, schema, st, resources, n + 1);
    } else {
      assert resources[..n] == resources;
    }
  }

  /**
   * What a pass keeps true of the registrations it made: every create type's remote is
   * insertable, every connect-by-node-id type's remote is updatable, every relationship
   * input type's name is in the seen-set, and no relationship input type name is
   * registered twice.
   */
  predicate PassInvariant(behavior: Behavior, log: seq<Registration>, seen: set<string>) {
    && (forall i :: 0 <= i < |log| && log[i].spec.CreateInput? ==> behavior.isInsertable(log[i].spec.remote))
    && (forall i :: 0 <= i < |log| && log[i].spec.NodeIdConnectInput? ==> behavior.isUpdatable(log[i].spec.remote))
    && (forall i :: 0 <= i < |log| && log[i].spec.RelationshipInput? ==> log[i].name in seen)
    && (forall i, j :: 0 <= i < j < |log| && log[i].spec.RelationshipInput? && log[j].spec.RelationshipInput? ==>
          log[i].name != log[j].name)
  }

  /** The log a pass appends: `st`'s log from index `k` on, with everything before `k` kept. */
  predicate Extends(st: InitState, st': InitState, k: nat) {
    k <= |st.registered| <= |st'.registered| && st'.registered[..k] == st.registered[..k] && st.seen <= st'.seen
  }

  /** The registrations for one relationship: gated on behaviour, one relationship input type at the end. */
  lemma StepRegistrationsShape(
    inflection: Inflection, behavior: Behavior, schema: Schema,
    inputTypes: map<string, seq<RelationshipData>>, rel: RelationshipData)
    ensures var regs := StepRegistrations(inflection, behavior, schema, inputTypes, rel);
      && PassInvariant(behavior, regs, {InputType(inflection, rel)})
      && (schema.registers(InputType(inflection, rel)) <==>
            exists i :: 0 <= i < |regs| && regs[i].spec.RelationshipInput?)
  {
    var head := CreateRegistration(inflection, behavior, schema, rel) + ConnectRegistration(inflection, behavior, schema, rel);
    var own := OwnRegistration(inflection, behavior, schema, inputTypes, rel);
    assert forall i :: 0 <= i < |head| ==> (!head[i].spec.RelationshipInput?
      && (head[i].spec.CreateInput? ==> behavior.isInsertable(head[i].spec.remote))
      && (head[i].spec.NodeIdConnectInput? ==> behavior.isUpdatable(head[i].spec.remote)));
    assert |own| == (if schema.registers(InputType(inflection, rel)) then 1 else 0);
    AppendOwnKeeps(behavior, head, own, InputType(inflection, rel));
  }

  /**
   * A log of create and connect types gated on behaviour, followed by at most one
   * relationship input type named `typeName`, keeps the pass invariant; it holds a
   * relationship input type exactly when that one is there.
   */
  lemma AppendOwnKeeps(behavior: Behavior, head: seq<Registration>, own: seq<Registration>, typeName: string)
    requires forall i :: 0 <= i < |head| ==> (!head[i].spec.RelationshipInput?
      && (head[i].spec.CreateInput? ==> behavior.isInsertable(head[i].spec.remote))
      && (head[i].spec.NodeIdConnectInput? ==> behavior.isUpdatable(head[i].spec.remote)))
    requires |own| <= 1 && forall i :: 0 <= i < |own| ==> own[i].spec.RelationshipInput? && own[i].name == typeName
    ensures PassInvariant(behavior, head + own, {typeName})
    ensures (exists i :: 0 <= i < |head + own| && (head + own)[i].spec.RelationshipInput?) <==> |own| == 1
  {
    var regs := head + own;
    assert forall i :: 0 <= i < |regs| ==> regs[i] == if i < |head| then head[i] else own[i - |head|];
    if |own| == 1 {
      assert regs[|head|].spec.RelationshipInput?;
    }
  }

  /** The log and seen-set after one relationship. */
  lemma RelationshipStepLog(
    inflection: Inflection, behavior: Behavior, schema: Schema, st: InitState, rel: RelationshipData)
    ensures var st' := RelationshipStep(inflection, behavior, schema, st, rel);
      var typeName := InputType(inflection, rel);
      && st'.pushed == st.pushed + [PushEntry(inflection, rel)]
      && st'.seen == st.seen + {typeName}
      && st'.registered == st.registered +
           (if typeName in st.seen then [] else StepRegistrations(inflection, behavior, schema, st.inputTypes, rel))
  {
  }

  /** Appending one unseen relationship's registrations to a log keeps the pass invariant. */
  lemma AppendKeeps(
    behavior: Behavior, prior: seq<Registration>, seen: set<string>, regs: seq<Registration>, typeName: string)
    requires PassInvariant(behavior, prior, seen) && typeName !in seen
    requires PassInvariant(behavior, regs, {typeName})
    ensures PassInvariant(behavior, prior + regs, seen + {typeName})
  {
    var log := prior + regs;
    forall i | 0 <= i < |log|
      ensures log[i] == if i < |prior| then prior[i] else regs[i - |prior|]
    {
    }
  }

  /**
   * A step that adds `typeName` to the seen-set, and appends `regs` only when the name was
   * unseen, keeps the pass invariant on the log from `k` on.
   */
  lemma StepKeeps(
    behavior: Behavior, st: InitState, st': InitState, regs: seq<Registration>, typeName: string, k: nat)
    requires k <= |st.registered| && PassInvariant(behavior, st.registered[k..], st.seen)
    requires st'.seen == st.seen + {typeName}
    requires st'.registered == st.registered + (if typeName in st.seen then [] else regs)
    requires typeName !in st.seen ==> PassInvariant(behavior, regs, {typeName})
    ensures Extends(st, st', k) && PassInvariant(behavior, st'.registered[k..], st'.seen)
  {
    if typeName in st.seen {
      assert st'.registered == st.registered;
    } else {
      assert st'.registered[k..] == st.registered[k..] + regs;
      assert st'.registered[..k] == st.registered[..k];
      AppendKeeps(behavior, st.registered[k..], st.seen, regs, typeName);
    }
  }

  /** One relationship keeps the pass invariant on the part of the log from `k` on. */
  lemma RelationshipStepKeeps(
    inflection: Inflection, behavior: Behavior, schema: Schema, st: InitState, rel: RelationshipData, k: nat)
    requires k <= |st.registered| && PassInvariant(behavior, st.registered[k..], st.seen)
    ensures var st' := RelationshipStep(inflection, behavior, schema, st, rel);
      Extends(st, st', k) && PassInvariant(behavior, st'.registered[k..], st'.seen)
  {
    RelationshipStepLog(inflection, behavior, schema, st, rel);
    StepRegistrationsShape(inflection, behavior, schema, st.inputTypes, rel);
    StepKeeps(behavior, st, RelationshipStep(inflection, behavior, schema, st, rel),
      StepRegistrations(inflection, behavior, schema, st.inputTypes, rel), InputType(inflection, rel), k);
  }

  /** A resource's relationships keep the pass invariant. */
  lemma {:induction false} RelationshipsFoldKeeps(
    inflection: Inflection, behavior: Behavior, schema: Schema, st: InitState, rels: seq<RelationshipData>, k: nat)
    requires k <= |st.registered| && PassInvariant(behavior, st.registered[k..], st.seen)
    ensures var st' := RelationshipsFold(inflection, behavior, schema, st, rels);
      Extends(st, st', k) && PassInvariant(behavior, st'.registered[k..], st'.seen)
    decreases |rels|
  {
    if |rels| > 0 {
      var mid := RelationshipsFold(inflection, behavior, schema, st, rels[..|rels| - 1]);
      RelationshipsFoldKeeps(inflection, behavior, schema, st, rels[..|rels| - 1], k);
      RelationshipStepKeeps(inflection, behavior, schema, mid, rels[|rels| - 1], k);
    }
  }

  /** The whole pass keeps the pass invariant on the log from `k` on. */
  lemma {:induction false} InitFoldKeeps(
    inflection: Inflection, behavior: Behavior, schema: Schema, st: InitState, resources: seq<RegistryResource>, k: nat)
    requires k <= |st.registered| && PassInvariant(behavior, st.registered[k..], st.seen)
    ensures var out := InitFold(inflection, behavior, schema, st, resources);
      Extends(st, out.state, k) && PassInvariant(behavior, out.state.registered[k..], out.state.seen)
    decreases |resources|
  {
    if |resources| > 0 {
      var prev := InitFold(inflection, behavior, schema, st, resources[..|resources| - 1]);
      InitFoldKeeps(inflection, behavior, schema, st, resources[..|resources| - 1], k);
      var res := resources[|resources| - 1];
      if prev.error.None? && res.resource.isTable {
        var got := GetRelationships(behavior, FieldNameOf(inflection), res.resource, res.relations);
        if got.Success? {
          var st' := prev.state.(inputTypes := prev.state.inputTypes[res.resource.name := got.value]);
          RelationshipsFoldKeeps(inflection, behavior, schema, st', got.value, k);
        }
      }
    }
  }

  /**
   * Over one `init` pass, the types registered are gated on the remote resource's
   * behaviour and no relationship input type name is registered twice, whatever the
   * build held before.
   */
  lemma InitRegistersOnce(
    inflection: Inflection, behavior: Behavior, schema: Schema, b0: InitState, resources: seq<RegistryResource>)
    requires b0.seen == {}
    ensures var out := InitFold(inflection, behavior, schema, b0, resources);
      && |b0.registered| <= |out.state.registered|
      && out.state.registered[..|b0.registered|] == b0.registered
      && PassInvariant(behavior, out.state.registered[|b0.registered|..], out.state.seen)
  {
    assert b0.registered[|b0.registered|..] == [];
    InitFoldKeeps(inflection, behavior, schema, b0, resources, |b0.registered|);
    assert b0.registered[..|b0.registered|] == b0.registered;
  }

  /** The entries pushed for a resource's relationships, in order: one per relationship, skipped ones included. */
  function PushedEntries(inflection: Inflection, rels: seq<RelationshipData>): (r: seq<FieldEntry>)
    ensures |r| == |rels|
    decreases |rels|
  {
    if |rels| == 0 then [] else PushedEntries(inflection, rels[..|rels| - 1]) + [PushEntry(inflection, rels[|rels| - 1])]
  }

  /**
   * `inputFields.push` runs before the seen-check, so every relationship pushes its entry,
   * including those whose type name was seen earlier.
   */
  lemma {:induction false} RelationshipsFoldPushesAll(
    inflection: Inflection, behavior: Behavior, schema: Schema, st: InitState, rels: seq<RelationshipData>)
    ensures RelationshipsFold(inflection, behavior, schema, st, rels).pushed == st.pushed + PushedEntries(inflection, rels)
    decreases |rels|
  {
    if |rels| > 0 {
      var front := rels[..|rels| - 1];
      var last := rels[|rels| - 1];
      var mid := RelationshipsFold(inflection, behavior, schema, st, front);
      RelationshipsFoldPushesAll(inflection, behavior, schema, st, front);
      RelationshipStepLog(inflection, behavior, schema, mid, last);
      assert RelationshipsFold(inflection, behavior, schema, st, rels) == RelationshipStep(inflection, behavior, schema, mid, last);
    }
  }
}
