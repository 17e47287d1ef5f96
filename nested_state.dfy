/**
 * The build state the nested-mutations type-registration plugins share: the relationship
 * records per table codec, the set of input type names already claimed, the map from root
 * mutation field names to table codecs, and the log of `registerInputObjectType` calls.
 * Each plugin's `init` hook walks the registry's resources and, for every table with a
 * relationship list, every relationship in it; the folds below are that walk with the
 * plugin's step for one relationship.
 */
module NestedState {
  import opened Wrappers
  import opened Host
  import opened NestedTypes

  /** What a registered input object type holds, as the plugin describes it to the host. */
  datatype NestedTypeSpec =
    | CreateType(inverse: bool, remote: PgResource, fields: seq<InputField>)
    | ConnectByNodeIdType(remote: PgResource, fields: seq<InputField>)
      // `patch` is the fields of the patch field's own input type, or the error building it throws
    | UpdateByNodeIdType(remote: PgResource, fields: seq<InputField>, patch: Result<seq<InputField>>)
    | DeleteByNodeIdType(remote: PgResource, fields: seq<InputField>)
    | ConnectorType(inverse: bool, leftTable: PgResource, fields: seq<InputField>)

  /** One `registerInputObjectType` call. */
  datatype NestedRegistration = NestedRegistration(name: string, spec: NestedTypeSpec)

  /** The shared state one relationship step reads and writes. */
  datatype PassState = PassState(seen: set<string>, objMap: map<string, Codec>, registered: seq<NestedRegistration>)

  /** The state on the `build` object. */
  class NestedBuild {
    // `pgNestedMutationRelationships`, keyed by the left table's codec
    const relationships: map<Codec, seq<NestedRelationship>>
    // `pgNestedMutationInputTypes`
    var inputTypes: set<string>
    // `pgNestedMutationInputObjMap`
    var inputObjMap: map<string, Codec>
    var registered: seq<NestedRegistration>

    constructor (relationships: map<Codec, seq<NestedRelationship>>, inputTypes: set<string>, inputObjMap: map<string, Codec>)
      ensures this.relationships == relationships && this.inputTypes == inputTypes && this.inputObjMap == inputObjMap
      ensures registered == []
    {
      this.relationships := relationships;
      this.inputTypes := inputTypes;
      this.inputObjMap := inputObjMap;
      registered := [];
    }

    /** The state a relationship step works on. */
    function State(): PassState
      reads this
    {
      PassState(inputTypes, inputObjMap, registered)
    }
  }

  /** A plugin's work on one relationship. */
  type Step = (PassState, NestedRelationship) -> PassState

  /** The loop over one table's relationships, in order. */
  function RelationshipsFold(step: Step, st: PassState, rels: seq<NestedRelationship>): PassState
    decreases |rels|
  {
    if |rels| == 0 then st
    else step(RelationshipsFold(step, st, rels[..|rels| - 1]), rels[|rels| - 1])
  }

  /** One resource: skipped unless it is a table with a relationship list. */
  function ResourceStep(step: Step, relationships: map<Codec, seq<NestedRelationship>>, st: PassState, resource: PgResource)
    : PassState
  {
    if !resource.isTable || resource.codec !in relationships then st
    else RelationshipsFold(step, st, relationships[resource.codec])
  }

  /** The loop over the registry's resources, in order. */
  function PassFold(step: Step, relationships: map<Codec, seq<NestedRelationship>>, st: PassState, resources: seq<PgResource>)
    : PassState
    decreases |resources|
  {
    if |resources| == 0 then st
    else ResourceStep(step, relationships, PassFold(step, relationships, st, resources[..|resources| - 1]), resources[|resources| - 1])
  }

  /**
   * `st'` extends `st` registering each name at most once: the seen-set only grows, the log
   * only grows at the end, and every name registered in between is one that was not seen
   * before, is seen after, and is registered only once.
   */
  predicate AddsOnce(st: PassState, st': PassState) {
    && st.seen <= st'.seen
    && |st.registered| <= |st'.registered|
    && st'.registered[..|st.registered|] == st.registered
    && (forall i :: |st.registered| <= i < |st'.registered| ==> st'.registered[i].name in st'.seen - st.seen)
    && (forall i, j :: |st.registered| <= i < j < |st'.registered| ==> st'.registered[i].name != st'.registered[j].name)
  }

  lemma AddsOnceTrans(a: PassState, b: PassState, c: PassState)
    requires AddsOnce(a, b) && AddsOnce(b, c)
    ensures AddsOnce(a, c)
  {
    assert forall i :: 0 <= i < |b.registered| ==> c.registered[i] == b.registered[i] by {
      forall i | 0 <= i < |b.registered| ensures c.registered[i] == b.registered[i] {
        assert c.registered[..|b.registered|][i] == b.registered[i];
      }
    }
    assert c.registered[..|a.registered|] == a.registered by {
      assert c.registered[..|a.registered|] == c.registered[..|b.registered|][..|a.registered|];
      assert b.registered[..|a.registered|] == a.registered;
    }
  }

  /** When every step registers each name at most once, so does a table's loop. */
  lemma {:induction false} RelationshipsFoldAddsOnce(step: Step, st: PassState, rels: seq<NestedRelationship>)
    requires forall s, r :: AddsOnce(s, step(s, r))
    ensures AddsOnce(st, RelationshipsFold(step, st, rels))
    decreases |rels|
  {
    if |rels| == 0 {
      assert st.registered[..|st.registered|] == st.registered;
    } else {
      var mid := RelationshipsFold(step, st, rels[..|rels| - 1]);
      RelationshipsFoldAddsOnce(step, st, rels[..|rels| - 1]);
      AddsOnceTrans(st, mid, step(mid, rels[|rels| - 1]));
    }
  }

  /** When every step registers each name at most once, so does the whole pass. */
  lemma {:induction false} PassFoldAddsOnce(
    step: Step, relationships: map<Codec, seq<NestedRelationship>>, st: PassState, resources: seq<PgResource>)
    requires forall s, r :: AddsOnce(s, step(s, r))
    ensures AddsOnce(st, PassFold(step, relationships, st, resources))
    decreases |resources|
  {
    if |resources| == 0 {
      assert st.registered[..|st.registered|] == st.registered;
    } else {
      var mid := PassFold(step, relationships, st, resources[..|resources| - 1]);
      var resource := resources[|resources| - 1];
      PassFoldAddsOnce(step, relationships, st, resources[..|resources| - 1]);
      if !resource.isTable || resource.codec !in relationships {
        assert mid.registered[..|mid.registered|] == mid.registered;
      } else {
        RelationshipsFoldAddsOnce(step, mid, relationships[resource.codec]);
        AddsOnceTrans(st, mid, ResourceStep(step, relationships, mid, resource));
      }
    }
  }

  /**
   * Resources that are not tables, and tables without a relationship list, are skipped: a
   * pass over only such resources changes nothing.
   */
  lemma {:induction false} PassFoldSkips(
    step: Step, relationships: map<Codec, seq<NestedRelationship>>, st: PassState, resources: seq<PgResource>)
    requires forall i :: 0 <= i < |resources| ==> !resources[i].isTable || resources[i].codec !in relationships
    ensures PassFold(step, relationships, st, resources) == st
    decreases |resources|
  {
    if |resources| > 0 {
      PassFoldSkips(step, relationships, st, resources[..|resources| - 1]);
    }
  }

  /** The type names of a list of mutation fields, in order. */
  function TypeNames(fields: seq<MutationField>): (r: set<string>)
    ensures forall i :: 0 <= i < |fields| ==> fields[i].typeName in r
    ensures forall n :: n in r ==> exists i :: 0 <= i < |fields| && fields[i].typeName == n
    decreases |fields|
  {
    if |fields| == 0 then {} else TypeNames(fields[..|fields| - 1]) + {fields[|fields| - 1].typeName}
  }

  /**
   * The loop the connect and update plugins run over their by-key entries: each type name
   * not yet in the set is added to it, and nothing is registered.
   */
  method AddTypeNames(b: NestedBuild, fields: seq<MutationField>)
    modifies b
    ensures b.inputTypes == old(b.inputTypes) + TypeNames(fields)
    ensures b.inputObjMap == old(b.inputObjMap) && b.registered == old(b.registered)
  {
    var k := 0;
    while k < |fields|
      invariant 0 <= k <= |fields|
      invariant b.inputTypes == old(b.inputTypes) + TypeNames(fields[..k])
      invariant b.inputObjMap == old(b.inputObjMap) && b.registered == old(b.registered)
    {
      assert fields[..k + 1][..k] == fields[..k];
      if fields[k].typeName !in b.inputTypes {
        b.inputTypes := b.inputTypes + {fields[k].typeName};
      }
      k := k + 1;
    }
    assert fields[..k] == fields;
  }

  /** Unfolding `PassFold` at the next resource, the step the init loops take. */
  lemma PassFoldNext(
    step: Step, relationships: map<Codec, seq<NestedRelationship>>, st: PassState, resources: seq<PgResource>, i: nat)
    requires i < |resources|
    ensures PassFold(step, relationships, st, resources[..i + 1])
      == ResourceStep(step, relationships, PassFold(step, relationships, st, resources[..i]), resources[i])
  {
    assert resources[..i + 1][..i] == resources[..i];
  }

  /** Unfolding `RelationshipsFold` at the next relationship. */
  lemma RelationshipsFoldNext(step: Step, st: PassState, rels: seq<NestedRelationship>, j: nat)
    requires j < |rels|
    ensures RelationshipsFold(step, st, rels[..j + 1]) == step(RelationshipsFold(step, st, rels[..j]), rels[j])
  {
    assert rels[..j + 1][..j] == rels[..j];
  }
}
