/**
 * The field hooks of the relationship-mutations plugin: the input-object fields hook adds a
 * connector field per relationship to a table's input and patch types and records the root
 * mutation paths those connectors are reached by; the root-field hook wraps a root mutation's
 * plan so the recorded paths are applied to the row it inserts.
 */
module RelationshipFields {
  import opened Wrappers
  import opened Host
  import opened Records
  import opened Relationships
  import opened RelationshipInflection
  import opened RelationshipInit

  /** The connector field of a relationship: its input field name, typed by its relationship input type. */
  function ConnectorField(inflection: Inflection, rel: RelationshipData): InputField {
    InputField(InputFieldName(inflection, rel), Named(InputType(inflection, rel)))
  }

  function ConnectorInfo(inflection: Inflection, rel: RelationshipData): ConnectorFieldInfo {
    ConnectorFieldInfo(InputFieldName(inflection, rel), InputType(inflection, rel), rel.remoteResource)
  }

  /** The connector field the reduce puts for a relationship. */
  function ConnectorFieldOf(inflection: Inflection): RelationshipData -> InputField {
    r => ConnectorField(inflection, r)
  }

  /** The `connectorFields` record after the reduce has seen the first `n` relationships. */
  function ConnectorFields(inflection: Inflection, rels: seq<RelationshipData>, n: nat): seq<InputField>
    requires n <= |rels|
  {
    PutEach(ConnectorFieldOf(inflection), rels, n)
  }

  /** The infos the reduce appends, one per relationship. */
  function ConnectorInfos(inflection: Inflection, rels: seq<RelationshipData>): (r: seq<ConnectorFieldInfo>)
    ensures |r| == |rels|
    ensures forall i :: 0 <= i < |rels| ==> r[i] == ConnectorInfo(inflection, rels[i])
  {
    seq(|rels|, i requires 0 <= i < |rels| => ConnectorInfo(inflection, rels[i]))
  }

  /**
   * The connector record names each relationship's field once, and every name in it is a
   * relationship's field name.
   */
  lemma ConnectorFieldsNames(inflection: Inflection, rels: seq<RelationshipData>, n: nat)
    requires n <= |rels|
    ensures DistinctNames(ConnectorFields(inflection, rels, n))
    ensures FieldNameSet(ConnectorFields(inflection, rels, n)) == set i | 0 <= i < n :: InputFieldName(inflection, rels[i])
  {
    PutEachNames(ConnectorFieldOf(inflection), rels, n);
    assert (set i | 0 <= i < n :: ConnectorFieldOf(inflection)(rels[i]).name) == set i | 0 <= i < n :: InputFieldName(inflection, rels[i]);
  }

  /**
   * `mapPgRelationshipRootFields`: when the table is insertable, its create mutation maps to
   * one path per connector field, `input`, the table's field name, then the connector; an
   * insert-less table maps nothing.
   */
  function MapRootFields(inflection: Inflection, behavior: Behavior, resource: PgResource, connectorNames: seq<string>)
    : (r: seq<(string, seq<seq<string>>)>)
    ensures !behavior.isInsertable(resource) <==> r == []
    ensures behavior.isInsertable(resource) ==>
      && |r| == 1 && r[0].0 == inflection.createField(resource)
      && |r[0].1| == |connectorNames|
      && forall i :: 0 <= i < |connectorNames| ==>
           r[0].1[i] == ["input", inflection.tableFieldName(resource), connectorNames[i]]
  {
    var fieldNames := if behavior.isInsertable(resource) then [inflection.createField(resource)] else [];
    var paths := if behavior.isInsertable(resource) then [["input", inflection.tableFieldName(resource)]] else [];
    var allPaths := AllPaths(paths, connectorNames);
    seq(|fieldNames|, i requires 0 <= i < |fieldNames| => (fieldNames[i], allPaths))
  }

  /** The reduce over the connector names: each base path extended by each name, name by name. */
  function AllPaths(paths: seq<seq<string>>, names: seq<string>): (r: seq<seq<string>>)
    ensures |paths| == 0 ==> r == []
    ensures |paths| == 1 ==> |r| == |names| && forall i :: 0 <= i < |names| ==> r[i] == paths[0] + [names[i]]
  {
    if |names| == 0 then []
    else
      var front := AllPaths(paths, names[..|names| - 1]);
      var last := seq(|paths|, j requires 0 <= j < |paths| => paths[j] + [names[|names| - 1]]);
      assert |paths| == 1 ==> forall i :: 0 <= i < |names| - 1 ==> names[..|names| - 1][i] == names[i];
      front + last
  }

  /** The table resource the hook works on, when the scope and the registry give one. */
  function HookResource(scope: FieldsScope, registry: map<string, RegistryResource>): Option<RegistryResource> {
    if scope.isPgRowType && scope.pgCodec.Some? && (scope.isInputType || scope.isPgPatch)
       && scope.pgCodec.value.name in registry && registry[scope.pgCodec.value.name].resource.isTable
    then Some(registry[scope.pgCodec.value.name])
    else None
  }

  /**
   * The `GraphQLInputObjectType_fields` hook. For the input or patch type of a table, it adds
   * one connector field per relationship, appends a connector info per relationship under
   * the codec's name, and records the create mutation's root paths; any other type's fields
   * come back unchanged. A `getRelationships` throw is the failure.
   */
  method InputObjectFieldsHook(
    inflection: Inflection, behavior: Behavior, b: RelationshipBuild,
    registry: map<string, RegistryResource>, scope: FieldsScope, fields: seq<InputField>
  ) returns (r: Result<seq<InputField>>)
    modifies b
    ensures HookResource(scope, registry).None? ==> r == Success(fields) && b.connectorFields == old(b.connectorFields)
    ensures HookResource(scope, registry).Some? ==>
      var res := HookResource(scope, registry).value;
      var got := GetRelationships(behavior, FieldNameOf(inflection), res.resource, res.relations);
      && (got.Failure? ==> r == Failure(got.error))
      && (got.Success? ==>
            var rels := got.value;
            var key := scope.pgCodec.value.name;
            var connectors := ConnectorFields(inflection, rels, |rels|);
            var roots := MapRootFields(inflection, behavior, res.resource, KeysOf(connectors));
            && r == Success(Extend(fields, connectors))
            && b.connectorFields == AppendInfos(old(b.connectorFields), key, ConnectorInfos(inflection, rels))
            && b.mutationRootFields == RecordPaths(old(b.mutationRootFields), roots)
            && b.rootFieldNamesToCodec == RecordResource(old(b.rootFieldNamesToCodec), roots, res.resource))
    ensures HookResource(scope, registry).None? || r.Failure? ==>
      && b.connectorFields == old(b.connectorFields)
      && b.mutationRootFields == old(b.mutationRootFields) && b.rootFieldNamesToCodec == old(b.rootFieldNamesToCodec)
    ensures b.relationshipInputTypes == old(b.relationshipInputTypes)
    ensures b.mutationFieldsByType == old(b.mutationFieldsByType)
    ensures b.registered == old(b.registered)
  {
    var found := HookResource(scope, registry);
    if found.None? {
      return Success(fields);
    }
    var resource := found.value;
    var codecName := scope.pgCodec.value.name;
    var got := GetRelationships(behavior, FieldNameOf(inflection), resource.resource, resource.relations);
    if got.Failure? {
      return Failure(got.error);
    }
    var relationships := got.value;
    var connectorFields := AddConnectorFields(inflection, b, codecName, relationships);
    var rootFields := MapRootFields(inflection, behavior, resource.resource, KeysOf(connectorFields));
    RecordRootFields(b, rootFields, resource.resource);
    return Success(Extend(fields, connectorFields));
  }

  /**
   * The reduce over the relationships: builds the connector record and appends each
   * relationship's connector info under the codec's name.
   */
  method AddConnectorFields(inflection: Inflection, b: RelationshipBuild, codecName: string, relationships: seq<RelationshipData>)
    returns (connectorFields: seq<InputField>)
    modifies b
    ensures connectorFields == ConnectorFields(inflection, relationships, |relationships|)
    ensures b.connectorFields == AppendInfos(old(b.connectorFields), codecName, ConnectorInfos(inflection, relationships))
    ensures b.InitMaps() == old(b.InitMaps()) && b.RootMaps() == old(b.RootMaps())
  {
    ghost var infos := ConnectorInfos(inflection, relationships);
    connectorFields := [];
    var i := 0;
    while i < |relationships|
      invariant 0 <= i <= |relationships|
      invariant connectorFields == ConnectorFields(inflection, relationships, i)
      invariant b.connectorFields == AppendInfos(old(b.connectorFields), codecName, infos[..i])
      invariant b.InitMaps() == old(b.InitMaps()) && b.RootMaps() == old(b.RootMaps())
    {
      connectorFields := AddConnector(inflection, b, codecName, connectorFields, relationships, i, old(b.connectorFields));
      i := i + 1;
    }
    assert infos[..i] == infos;
  }

  /** One step of the reduce: record the relationship's connector info and put its connector field. */
  method AddConnector(
    inflection: Inflection, b: RelationshipBuild, codecName: string, memo: seq<InputField>,
    relationships: seq<RelationshipData>, i: nat, ghost m0: map<string, seq<ConnectorFieldInfo>>
  ) returns (connectorFields: seq<InputField>)
    requires i < |relationships| && memo == ConnectorFields(inflection, relationships, i)
    requires b.connectorFields == AppendInfos(m0, codecName, ConnectorInfos(inflection, relationships)[..i])
    modifies b
    ensures connectorFields == ConnectorFields(inflection, relationships, i + 1)
    ensures b.connectorFields == AppendInfos(m0, codecName, ConnectorInfos(inflection, relationships)[..i + 1])
    ensures b.InitMaps() == old(b.InitMaps()) && b.RootMaps() == old(b.RootMaps())
  {
    AppendInfosNext(m0, codecName, ConnectorInfos(inflection, relationships), i, b.connectorFields);
    var relationship := relationships[i];
    var fieldName := InputFieldName(inflection, relationship);
    var typeName := InputType(inflection, relationship);
    var existing := if codecName in b.connectorFields then b.connectorFields[codecName] else [];
    b.connectorFields := b.connectorFields[codecName := existing + [ConnectorFieldInfo(fieldName, typeName, relationship.remoteResource)]];
    connectorFields := Put(memo, InputField(fieldName, Named(typeName)));
  }


  /** `Object.entries(rootFields).forEach(...)`: record each root field's paths and its resource. */
  method RecordRootFields(b: RelationshipBuild, rootFields: seq<(string, seq<seq<string>>)>, resource: PgResource)
    modifies b
    ensures b.mutationRootFields == RecordPaths(old(b.mutationRootFields), rootFields)
    ensures b.rootFieldNamesToCodec == RecordResource(old(b.rootFieldNamesToCodec), rootFields, resource)
    ensures b.connectorFields == old(b.connectorFields)
    ensures b.relationshipInputTypes == old(b.relationshipInputTypes)
    ensures b.mutationFieldsByType == old(b.mutationFieldsByType)
    ensures b.registered == old(b.registered)
  {
    var j := 0;
    while j < |rootFields|
      invariant 0 <= j <= |rootFields|
      invariant b.mutationRootFields == RecordPaths(old(b.mutationRootFields), rootFields[..j])
      invariant b.rootFieldNamesToCodec == RecordResource(old(b.rootFieldNamesToCodec), rootFields[..j], resource)
      invariant b.connectorFields == old(b.connectorFields)
      invariant b.relationshipInputTypes == old(b.relationshipInputTypes)
      invariant b.mutationFieldsByType == old(b.mutationFieldsByType)
      invariant b.registered == old(b.registered)
    {
      assert rootFields[..j + 1][..j] == rootFields[..j];
      b.mutationRootFields := b.mutationRootFields[rootFields[j].0 := rootFields[j].1];
      b.rootFieldNamesToCodec := b.rootFieldNamesToCodec[rootFields[j].0 := resource];
      j := j + 1;
    }
    assert rootFields[..j] == rootFields;
  }

  /**
   * `connectorFields[key] = [...(connectorFields[key] ?? []), info]` for each info in turn:
   * the entry is created only when there is an info to append.
   */
  function AppendInfos(m: map<string, seq<ConnectorFieldInfo>>, key: string, infos: seq<ConnectorFieldInfo>)
    : map<string, seq<ConnectorFieldInfo>>
  {
    if infos == [] then m else m[key := (if key in m then m[key] else []) + infos]
  }

  /** The reduce's next step appends the next info to the map so far. */
  lemma AppendInfosNext(
    m0: map<string, seq<ConnectorFieldInfo>>, key: string, infos: seq<ConnectorFieldInfo>, i: nat, m: map<string, seq<ConnectorFieldInfo>>)
    requires i < |infos| && m == AppendInfos(m0, key, infos[..i])
    ensures m[key := (if key in m then m[key] else []) + [infos[i]]] == AppendInfos(m0, key, infos[..i + 1])
  {
    AppendInfosSnoc(m0, key, infos[..i], infos[i]);
    assert infos[..i + 1] == infos[..i] + [infos[i]];
  }

  /** Appending one info after several is appending them all at once. */
  lemma AppendInfosSnoc(m: map<string, seq<ConnectorFieldInfo>>, key: string, infos: seq<ConnectorFieldInfo>, info: ConnectorFieldInfo)
    ensures var m' := AppendInfos(m, key, infos);
      m'[key := (if key in m' then m'[key] else []) + [info]] == AppendInfos(m, key, infos + [info])
  {
    var m' := AppendInfos(m, key, infos);
    var prior := if key in m then m[key] else [];
    if infos != [] {
      assert m'[key] == prior + infos;
      assert prior + infos + [info] == prior + (infos + [info]);
    } else {
      assert infos + [info] == [info];
    }
  }

  /** `Object.keys` of the connector record, in order. */
  function KeysOf(fields: seq<InputField>): (r: seq<string>)
    ensures |r| == |fields|
    ensures forall i :: 0 <= i < |r| ==> r[i] == fields[i].name
  {
    seq(|fields|, i requires 0 <= i < |fields| => fields[i].name)
  }

  /** `pgRelationshipMutationRootFields.set(fieldName, paths)` for each entry, in order. */
  function RecordPaths(m: map<string, seq<seq<string>>>, roots: seq<(string, seq<seq<string>>)>): map<string, seq<seq<string>>>
    decreases |roots|
  {
    if |roots| == 0 then m
    else RecordPaths(m, roots[..|roots| - 1])[roots[|roots| - 1].0 := roots[|roots| - 1].1]
  }

  /** `pgRootFieldNamesToCodec.set(fieldName, resource)` for each entry, in order. */
  function RecordResource(m: map<string, PgResource>, roots: seq<(string, seq<seq<string>>)>, resource: PgResource)
    : map<string, PgResource>
    decreases |roots|
  {
    if |roots| == 0 then m
    else RecordResource(m, roots[..|roots| - 1], resource)[roots[|roots| - 1].0 := resource]
  }

  /** A root mutation field's plan, as far as the root-field hook is concerned. */
  datatype FieldPlan =
    | Missing
    | Original
      // the field's own plan, left as it was
    | Wrapped(innerPresent: bool, paths: seq<seq<string>>)
      // the hook's plan around the original (absent when `innerPresent` is false)

  /** What running a wrapped plan does. */
  datatype PlanRun =
    | ReturnsParent
    | ReturnsObject(appliedToResult: seq<seq<string>>)
      // runs the original plan, applies each path to its `result` step in order, returns its object

  /** The wrapper's plan: without an inner plan, the parent; otherwise every path applied, in order. */
  function RunWrapped(innerPresent: bool, paths: seq<seq<string>>): (run: PlanRun)
    ensures !innerPresent <==> run.ReturnsParent?
    ensures run.ReturnsObject? ==> run.appliedToResult == paths
  {
    if !innerPresent then ReturnsParent else ReturnsObject(paths)
  }

  /**
   * The `GraphQLObjectType_fields_field` hook: a root mutation field whose name the fields
   * hook recorded has its plan wrapped with the recorded paths; every other field is returned
   * as it came.
   */
  function RootFieldHook(b: RelationshipBuild, isRootMutation: bool, fieldName: string, plan: FieldPlan): (r: FieldPlan)
    reads b
    ensures isRootMutation && fieldName in b.rootFieldNamesToCodec && fieldName in b.mutationRootFields ==>
      r == Wrapped(!plan.Missing?, b.mutationRootFields[fieldName])
    ensures !(isRootMutation && fieldName in b.rootFieldNamesToCodec && fieldName in b.mutationRootFields) ==>
      r == plan
  {
    if isRootMutation && fieldName in b.rootFieldNamesToCodec && fieldName in b.mutationRootFields
    then Wrapped(!plan.Missing?, b.mutationRootFields[fieldName])
    else plan
  }

  /**
   * The two hooks together: once the fields hook has recorded an insertable table's root
   * fields on the build, the root-field hook wraps the table's create mutation, and its plan,
   * when the mutation has one, applies after it one path per connector field under `input`
   * and the table's field name, in order.
   */
  lemma CreateMutationAppliesConnectors(
    inflection: Inflection, behavior: Behavior, resource: PgResource, connectorNames: seq<string>,
    rootFields: map<string, seq<seq<string>>>, codecs: map<string, PgResource>,
    b: RelationshipBuild, plan: FieldPlan)
    requires behavior.isInsertable(resource)
    requires b.mutationRootFields == RecordPaths(rootFields, MapRootFields(inflection, behavior, resource, connectorNames))
    requires b.rootFieldNamesToCodec == RecordResource(codecs, MapRootFields(inflection, behavior, resource, connectorNames), resource)
    ensures var name := inflection.createField(resource);
      && name in b.mutationRootFields && name in b.rootFieldNamesToCodec
      && b.rootFieldNamesToCodec[name] == resource
      && RootFieldHook(b, true, name, plan) == Wrapped(!plan.Missing?, b.mutationRootFields[name])
      && (plan.Missing? <==> RunWrapped(!plan.Missing?, b.mutationRootFields[name]).ReturnsParent?)
      && (!plan.Missing? ==>
            var applied := RunWrapped(true, b.mutationRootFields[name]).appliedToResult;
            && |applied| == |connectorNames|
            && forall i :: 0 <= i < |connectorNames| ==>
                 applied[i] == ["input", inflection.tableFieldName(resource), connectorNames[i]])
  {
    var roots := MapRootFields(inflection, behavior, resource, connectorNames);
    assert roots[..0] == [];
  }
}
