/**
 * The second draft of `PgNestedMutationsInitSchemaPlugin`: its inflectors, the `init` hook
 * that registers, per nested-mutable relation, a create input type (when the remote table is
 * insertable) and a connector input type named after the relation, each connector name once,
 * and the fields hook that adds a connector field per relation to a table's input and patch
 * types.
 */
module NestedInitSchema {
  import opened Wrappers
  import opened Host
  import opened Records
  import opened Relationships
  import opened CreateTypes

  /** `relationshipCreateFieldName`: `create-` and the remote table's field name, camel-cased. */
  function RelationshipCreateFieldName(inflection: Inflection, remote: PgResource): string {
    inflection.camelCase("create-" + inflection.tableFieldName(remote))
  }

  /** `relationshipCreateInputType`: `create-<relation>-input`, upper-camel-cased. */
  function RelationshipCreateInputType(inflection: Inflection, relationName: string): string {
    inflection.upperCamelCase("create-" + relationName + "-input")
  }

  /** `relationshipInputFieldName`: the relation's name itself. */
  function RelationshipInputFieldName(relationName: string): (r: string)
    ensures r == relationName
  {
    relationName
  }

  /** `relationshipInputType`: `<relation>Input`, upper-camel-cased. */
  function RelationshipInputType(inflection: Inflection, relationName: string): string {
    inflection.upperCamelCase(relationName + "Input")
  }

  /**
   * Every name but the create field name depends on the relation's name alone, so a relation
   * name repeated on another table names the same connector and create types; the create
   * field name depends on the remote table alone.
   */
  lemma DraftNamesByRelationName(inflection: Inflection, e1: (string, Relation), e2: (string, Relation))
    requires e1.0 == e2.0
    ensures RelationshipInputType(inflection, e1.0) == RelationshipInputType(inflection, e2.0)
    ensures RelationshipCreateInputType(inflection, e1.0) == RelationshipCreateInputType(inflection, e2.0)
    ensures RelationshipInputFieldName(e1.0) == RelationshipInputFieldName(e2.0)
    ensures e1.1.remoteResource == e2.1.remoteResource ==>
      RelationshipCreateFieldName(inflection, e1.1.remoteResource) == RelationshipCreateFieldName(inflection, e2.1.remoteResource)
  {
  }

  /** What this draft registers. */
  datatype DraftTypeSpec =
    | RelationshipCreateType(remote: PgResource, fields: seq<InputField>)
      // `connectorFields` is the connector's create field, or the error reading `fields.insertable.type` throws
    | RelationshipConnectorType(relationName: string, inverse: bool, remote: PgResource, connectorFields: Result<seq<InputField>>)

  datatype DraftRegistration = DraftRegistration(name: string, spec: DraftTypeSpec)

  /** The hook's local set of connector names and its log of registrations. */
  datatype DraftState = DraftState(seen: set<string>, log: seq<DraftRegistration>)

  /** The error the connector fields raise when the remote table is not insertable. */
  const MissingInsertable := "Cannot read properties of undefined (reading 'type')"

  /** The connector type's fields: the create field, singular for a unique or forward relation, else a list. */
  function ConnectorFields(inflection: Inflection, behavior: Behavior, e: (string, Relation)): (r: Result<seq<InputField>>)
    ensures r.Failure? <==> !behavior.isInsertable(e.1.remoteResource)
    ensures r.Failure? ==> r.error == MissingInsertable
    ensures r.Success? ==>
      && |r.value| == 1
      && r.value[0].name == RelationshipCreateFieldName(inflection, e.1.remoteResource)
      && r.value[0].fieldType == FieldType(RelationshipCreateInputType(inflection, e.0), e.1.isUnique || !e.1.isReferencee)
  {
    if !behavior.isInsertable(e.1.remoteResource) then Failure(MissingInsertable)
    else
      var createType := RelationshipCreateInputType(inflection, e.0);
      Success([InputField(RelationshipCreateFieldName(inflection, e.1.remoteResource), FieldType(createType, e.1.isUnique || !e.1.isReferencee))])
  }

  /** The registration of a relation's connector type. */
  function ConnectorEntry(inflection: Inflection, behavior: Behavior, e: (string, Relation)): DraftRegistration {
    DraftRegistration(RelationshipInputType(inflection, e.0),
      RelationshipConnectorType(e.0, e.1.isReferencee, e.1.remoteResource, ConnectorFields(inflection, behavior, e)))
  }

  /** The registration of a relation's create type: a copy of the remote table's input fields. */
  function CreateEntry(inflection: Inflection, schema: Schema, e: (string, Relation)): DraftRegistration {
    DraftRegistration(RelationshipCreateInputType(inflection, e.0),
      RelationshipCreateType(e.1.remoteResource, CreateFields(schema, e.1.remoteResource)))
  }

  /**
   * The hook's work on one tagged relation: a seen connector name is skipped; otherwise it is
   * claimed, the create type registered when the remote table is insertable, and the
   * connector type registered.
   */
  function DraftStep(inflection: Inflection, behavior: Behavior, schema: Schema, st: DraftState, e: (string, Relation))
    : (r: DraftState)
    ensures r.seen == st.seen + {RelationshipInputType(inflection, e.0)}
    ensures |st.log| <= |r.log| <= |st.log| + 2 && r.log[..|st.log|] == st.log
    ensures |r.log| > |st.log| <==> RelationshipInputType(inflection, e.0) !in st.seen
    ensures |r.log| > |st.log| ==> r.log[|r.log| - 1] == ConnectorEntry(inflection, behavior, e)
    ensures |r.log| == |st.log| + 2
      <==> RelationshipInputType(inflection, e.0) !in st.seen && behavior.isInsertable(e.1.remoteResource)
    ensures |r.log| == |st.log| + 2 ==> r.log[|st.log|] == CreateEntry(inflection, schema, e)
  {
    var name := RelationshipInputType(inflection, e.0);
    if name in st.seen then st
    else
      var creates := if behavior.isInsertable(e.1.remoteResource) then [CreateEntry(inflection, schema, e)] else [];
      DraftState(st.seen + {name}, st.log + creates + [ConnectorEntry(inflection, behavior, e)])
  }

  /** One table's tagged relations, in order. */
  function DraftRelationsFold(inflection: Inflection, behavior: Behavior, schema: Schema, st: DraftState, es: seq<(string, Relation)>)
    : DraftState
    decreases |es|
  {
    if |es| == 0 then st
    else DraftStep(inflection, behavior, schema, DraftRelationsFold(inflection, behavior, schema, st, es[..|es| - 1]), es[|es| - 1])
  }

  /** The tables, in order, each with its nested-mutable relations. */
  function DraftPass(inflection: Inflection, behavior: Behavior, schema: Schema, st: DraftState, tables: seq<RegistryResource>)
    : DraftState
    decreases |tables|
  {
    if |tables| == 0 then st
    else
      var t := tables[|tables| - 1];
      DraftRelationsFold(inflection, behavior, schema, DraftPass(inflection, behavior, schema, st, tables[..|tables| - 1]), Kept(behavior, t.relations))
  }

  /** The registry's table resources, in order. */
  function Tables(resources: seq<RegistryResource>): (r: seq<RegistryResource>)
    ensures |r| <= |resources|
    ensures forall t :: t in r <==> t in resources && t.resource.isTable
    ensures |resources| == 1 ==> r == if resources[0].resource.isTable then resources else []
  {
    if |resources| == 0 then []
    else
      var front := Tables(resources[..|resources| - 1]);
      var last := resources[|resources| - 1];
      assert forall t :: t in resources <==> t in resources[..|resources| - 1] || t == last;
      if last.resource.isTable then front + [last] else front
  }

  /** The filter keeps the registry's order: the tables of two runs are those of the first, then the second's. */
  lemma {:induction false} TablesAppend(xs: seq<RegistryResource>, ys: seq<RegistryResource>)
    ensures Tables(xs + ys) == Tables(xs) + Tables(ys)
    decreases |ys|
  {
    if |ys| == 0 {
      assert xs + ys == xs;
    } else {
      assert (xs + ys)[..|xs + ys| - 1] == xs + ys[..|ys| - 1];
      TablesAppend(xs, ys[..|ys| - 1]);
    }
  }

  /** Every connector in the log is claimed in the set, and no two connectors share a name. */
  predicate ConnectorsOnce(st: DraftState) {
    && (forall i :: 0 <= i < |st.log| && st.log[i].spec.RelationshipConnectorType? ==> st.log[i].name in st.seen)
    && (forall i, j :: (0 <= i < j < |st.log| && st.log[i].spec.RelationshipConnectorType?
          && st.log[j].spec.RelationshipConnectorType?) ==> st.log[i].name != st.log[j].name)
  }

  lemma DraftStepOnce(inflection: Inflection, behavior: Behavior, schema: Schema, st: DraftState, e: (string, Relation))
    requires ConnectorsOnce(st)
    ensures ConnectorsOnce(DraftStep(inflection, behavior, schema, st, e))
    ensures st.seen <= DraftStep(inflection, behavior, schema, st, e).seen
  {
    var r := DraftStep(inflection, behavior, schema, st, e);
    var name := RelationshipInputType(inflection, e.0);
    if name !in st.seen {
      assert r.log[|r.log| - 1].name == name;
      assert forall i :: 0 <= i < |st.log| ==> r.log[i] == st.log[i];
      assert forall i :: |st.log| <= i < |r.log| - 1 ==> r.log[i].spec.RelationshipCreateType?;
    }
  }

  lemma {:induction false} DraftRelationsOnce(
    inflection: Inflection, behavior: Behavior, schema: Schema, st: DraftState, es: seq<(string, Relation)>)
    requires ConnectorsOnce(st)
    ensures ConnectorsOnce(DraftRelationsFold(inflection, behavior, schema, st, es))
    ensures st.seen <= DraftRelationsFold(inflection, behavior, schema, st, es).seen
    decreases |es|
  {
    if |es| > 0 {
      DraftRelationsOnce(inflection, behavior, schema, st, es[..|es| - 1]);
      DraftStepOnce(inflection, behavior, schema, DraftRelationsFold(inflection, behavior, schema, st, es[..|es| - 1]), es[|es| - 1]);
    }
  }

  /** Over the whole hook, starting from the empty set, each connector name is registered at most once. */
  lemma {:induction false} DraftPassOnce(
    inflection: Inflection, behavior: Behavior, schema: Schema, st: DraftState, tables: seq<RegistryResource>)
    requires ConnectorsOnce(st)
    ensures ConnectorsOnce(DraftPass(inflection, behavior, schema, st, tables))
    ensures st.seen <= DraftPass(inflection, behavior, schema, st, tables).seen
    decreases |tables|
  {
    if |tables| > 0 {
      DraftPassOnce(inflection, behavior, schema, st, tables[..|tables| - 1]);
      DraftRelationsOnce(inflection, behavior, schema, DraftPass(inflection, behavior, schema, st, tables[..|tables| - 1]),
        Kept(behavior, tables[|tables| - 1].relations));
    }
  }

  /** A table's loop claims the connector name of each of its relations. */
  lemma {:induction false} DraftRelationsClaim(
    inflection: Inflection, behavior: Behavior, schema: Schema, st: DraftState, es: seq<(string, Relation)>, k: nat)
    requires k < |es|
    ensures RelationshipInputType(inflection, es[k].0) in DraftRelationsFold(inflection, behavior, schema, st, es).seen
    decreases |es|
  {
    if k < |es| - 1 {
      DraftRelationsClaim(inflection, behavior, schema, st, es[..|es| - 1], k);
      assert es[..|es| - 1][k] == es[k];
    }
  }

  /** Later tables only add to the set. */
  lemma {:induction false} DraftPassGrows(
    inflection: Inflection, behavior: Behavior, schema: Schema, st: DraftState, tables: seq<RegistryResource>, n: nat)
    requires n <= |tables|
    ensures DraftPass(inflection, behavior, schema, st, tables[..n]).seen <= DraftPass(inflection, behavior, schema, st, tables).seen
    decreases |tables|
  {
    if n < |tables| {
      var front := tables[..|tables| - 1];
      assert tables[..n] == front[..n];
      DraftPassGrows(inflection, behavior, schema, st, front, n);
      DraftRelationsGrows(inflection, behavior, schema, DraftPass(inflection, behavior, schema, st, front), Kept(behavior, tables[|tables| - 1].relations));
    } else {
      assert tables[..n] == tables;
    }
  }

  lemma {:induction false} DraftRelationsGrows(
    inflection: Inflection, behavior: Behavior, schema: Schema, st: DraftState, es: seq<(string, Relation)>)
    ensures st.seen <= DraftRelationsFold(inflection, behavior, schema, st, es).seen
    decreases |es|
  {
    if |es| > 0 {
      DraftRelationsGrows(inflection, behavior, schema, st, es[..|es| - 1]);
    }
  }

  /**
   * After the hook, the connector name of every nested-mutable relation of every table is
   * claimed: each connector field the fields hook adds names a type the hook registered, for
   * this relation or for an earlier one with the same name.
   */
  lemma DraftPassClaims(
    inflection: Inflection, behavior: Behavior, schema: Schema, st: DraftState, tables: seq<RegistryResource>, t: nat, e: (string, Relation))
    requires t < |tables| && e in Kept(behavior, tables[t].relations)
    ensures RelationshipInputType(inflection, e.0) in DraftPass(inflection, behavior, schema, st, tables).seen
  {
    var es := Kept(behavior, tables[t].relations);
    var k :| 0 <= k < |es| && es[k] == e;
    assert tables[..t + 1][..t] == tables[..t];
    DraftRelationsClaim(inflection, behavior, schema, DraftPass(inflection, behavior, schema, st, tables[..t]), es, k);
    DraftPassGrows(inflection, behavior, schema, st, tables, t + 1);
  }

  /** The body of the inner loop, on the hook's local set and the registration log. */
  method RegisterRelation(
    inflection: Inflection, behavior: Behavior, schema: Schema, seen: set<string>, log: seq<DraftRegistration>, e: (string, Relation)
  ) returns (seen': set<string>, log': seq<DraftRegistration>)
    ensures DraftState(seen', log') == DraftStep(inflection, behavior, schema, DraftState(seen, log), e)
  {
    seen', log' := seen, log;
    var connectorTypeName := RelationshipInputType(inflection, e.0);
    if connectorTypeName in seen' {
      return;
    }
    seen' := seen' + {connectorTypeName};
    if behavior.isInsertable(e.1.remoteResource) {
      log' := log' + [CreateEntry(inflection, schema, e)];
    }
    log' := log' + [ConnectorEntry(inflection, behavior, e)];
  }

  /** The inner loop: one table's nested-mutable relations, in order. */
  method RegisterRelations(
    inflection: Inflection, behavior: Behavior, schema: Schema, seen: set<string>, log: seq<DraftRegistration>,
    relationships: seq<(string, Relation)>
  ) returns (seen': set<string>, log': seq<DraftRegistration>)
    ensures DraftState(seen', log') == DraftRelationsFold(inflection, behavior, schema, DraftState(seen, log), relationships)
  {
    seen', log' := seen, log;
    var j := 0;
    while j < |relationships|
      invariant 0 <= j <= |relationships|
      invariant DraftState(seen', log') == DraftRelationsFold(inflection, behavior, schema, DraftState(seen, log), relationships[..j])
    {
      assert relationships[..j + 1][..j] == relationships[..j];
      seen', log' := RegisterRelation(inflection, behavior, schema, seen', log', relationships[j]);
      j := j + 1;
    }
    assert relationships[..j] == relationships;
  }

  /**
   * The `init` hook: a fresh set of connector names, then every table's nested-mutable
   * relations in order. No connector name is registered twice.
   */
  method InitSchema(inflection: Inflection, behavior: Behavior, schema: Schema, resources: seq<RegistryResource>)
    returns (registered: seq<DraftRegistration>)
    ensures registered == DraftPass(inflection, behavior, schema, DraftState({}, []), Tables(resources)).log
    ensures forall i, j :: (0 <= i < j < |registered| && registered[i].spec.RelationshipConnectorType?
      && registered[j].spec.RelationshipConnectorType?) ==> registered[i].name != registered[j].name
  {
    var connectorInputTypes: set<string> := {};
    registered := [];
    var tableResources := Tables(resources);
    var i := 0;
    while i < |tableResources|
      invariant 0 <= i <= |tableResources|
      invariant DraftState(connectorInputTypes, registered) == DraftPass(inflection, behavior, schema, DraftState({}, []), tableResources[..i])
    {
      assert tableResources[..i + 1][..i] == tableResources[..i];
      connectorInputTypes, registered :=
        RegisterRelations(inflection, behavior, schema, connectorInputTypes, registered, Kept(behavior, tableResources[i].relations));
      i := i + 1;
    }
    assert tableResources[..i] == tableResources;
    DraftPassOnce(inflection, behavior, schema, DraftState({}, []), tableResources);
  }

  /** The connector field the fields hook adds for a tagged relation. */
  function HookField(inflection: Inflection, e: (string, Relation)): InputField {
    InputField(RelationshipInputFieldName(e.0), Named(RelationshipInputType(inflection, e.0)))
  }

  /** The connector fields for a table's nested-mutable relations, in order. */
  function HookFields(inflection: Inflection, es: seq<(string, Relation)>): (r: seq<InputField>)
    ensures |r| == |es|
    ensures forall i :: 0 <= i < |es| ==> r[i] == HookField(inflection, es[i])
  {
    seq(|es|, i requires 0 <= i < |es| => HookField(inflection, es[i]))
  }

  /** The connector fields are named by their relations. */
  lemma HookFieldsNames(inflection: Inflection, es: seq<(string, Relation)>)
    ensures FieldNameSet(HookFields(inflection, es)) == set e | e in es :: e.0
  {
    var added := HookFields(inflection, es);
    forall n | n in (set e | e in es :: e.0) ensures n in FieldNameSet(added) {
      var e :| e in es && e.0 == n;
      var i :| 0 <= i < |es| && es[i] == e;
      assert added[i].name == n;
    }
  }

  /** Whether the hook acts on a type: a row type with a codec that is an input or patch type. */
  predicate DraftHookApplies(scope: FieldsScope) {
    scope.isPgRowType && scope.pgCodec.Some? && (scope.isInputType || scope.isPgPatch)
  }

  /**
   * The `GraphQLInputObjectType_fields` hook: for a row type's input or patch type whose codec
   * names a registry resource, one connector field per nested-mutable relation, put in order
   * and then added to the fields; any other type keeps its fields.
   */
  function DraftFieldsHook(
    inflection: Inflection, behavior: Behavior, registry: map<string, RegistryResource>, scope: FieldsScope, fields: seq<InputField>
  ): (r: seq<InputField>)
    ensures !DraftHookApplies(scope) ==> r == fields
    ensures DraftHookApplies(scope) && scope.pgCodec.value.name !in registry ==> r == fields
  {
    if scope.isPgRowType && scope.pgCodec.Some? && (scope.isInputType || scope.isPgPatch) then
      if scope.pgCodec.value.name in registry then
        var es := Kept(behavior, registry[scope.pgCodec.value.name].relations);
        Extend(fields, Extend([], HookFields(inflection, es)))
      else fields
    else fields
  }

  /**
   * When the hook acts on a type whose fields have distinct names, the result has distinct
   * names: the type's own and the names of the resource's nested-mutable relations.
   */
  lemma DraftFieldsHookNames(
    inflection: Inflection, behavior: Behavior, registry: map<string, RegistryResource>, scope: FieldsScope, fields: seq<InputField>)
    requires DraftHookApplies(scope) && scope.pgCodec.value.name in registry
    requires DistinctNames(fields)
    ensures var es := Kept(behavior, registry[scope.pgCodec.value.name].relations);
      var r := DraftFieldsHook(inflection, behavior, registry, scope, fields);
      && DistinctNames(r)
      && FieldNameSet(r) == FieldNameSet(fields) + (set e | e in es :: e.0)
  {
    var es := Kept(behavior, registry[scope.pgCodec.value.name].relations);
    var added := HookFields(inflection, es);
    ExtendNames([], added);
    ExtendNames(fields, Extend([], added));
    HookFieldsNames(inflection, es);
  }
}
