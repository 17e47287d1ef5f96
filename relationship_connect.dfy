/**
 * The plan of the connect-by-node-id field of a relationship input type. Given a single
 * input object it decodes the node id and points the parent's local attributes at the
 * decoded key parts; given a list it plans one update of a remote row per object element,
 * pointing that row's remote attributes back at the parent.
 */
module RelationshipConnect {
  import opened Wrappers
  import opened Host
  import opened Strings
  import opened Steps
  import opened Relationships

  /** `$value.constructor.name`, as the warnings print it. */
  function ClassName(a: ArgStep): string {
    match a
    case InputObject => "__InputObjectStep"
    case PlanObject => "ObjectStep"
    case InputList(_) => "__InputListStep"
    case Other(c) => c
  }

  function UnexpectedArgs(a: ArgStep): string {
    "Unexpected args type: " + ClassName(a)
  }

  function NoHandler(remote: PgResource): string {
    "No nodeIdHandler found for " + remote.name
  }

  /**
   * `specFromNodeId(handler, $arg.get(nodeIdFieldName))`: one deferred part of the decoded
   * node id per key the handler names, read from list element `element` when there is one.
   */
  function NodeIdSpec(keys: seq<string>, element: Option<nat>, nodeIdField: string): (spec: map<string, Expr>)
    ensures spec.Keys == set k | k in keys
    ensures forall k :: k in spec ==> spec[k] == NodeIdPart(element, nodeIdField, k)
  {
    map k | k in keys :: NodeIdPart(element, nodeIdField, k)
  }

  /** One `pgUpdateSingle(remoteResource, spec, attrs)` the list branch plans, and the fields applied to it. */
  datatype UpdatePlan = UpdatePlan(
    element: nat,
    remote: PgResource,
    spec: map<string, Expr>,
    attrs: map<string, Expr>,
    appliedFields: seq<string>)

  /** What the plan did: threw, or ran to its end with or without returning the parent. */
  datatype ConnectOutcome =
    | Threw(message: string)
    | Finished(returnsParent: bool, updates: seq<UpdatePlan>, warnings: seq<string>)

  /**
   * The parent's values after the object branch has handled the first `n` spec keys: a key
   * whose remote attribute index has a local attribute at the same index sets that local
   * attribute; a key that is no remote attribute (index -1) or has no partner is skipped.
   */
  function ObjectLinks(
    m: map<string, Expr>, keys: seq<string>, local: seq<AttributeWithName>, remote: seq<AttributeWithName>,
    nodeIdField: string, n: nat
  ): map<string, Expr>
    requires n <= |keys|
  {
    if n == 0 then m
    else
      var before := ObjectLinks(m, keys, local, remote, nodeIdField, n - 1);
      var idx := IndexOf(Names(remote), keys[n - 1]);
      if 0 <= idx < |local| then before[local[idx].name := NodeIdPart(None, nodeIdField, keys[n - 1])]
      else before
  }

  /**
   * The `attrs` record of the list branch: for each remote attribute with a local partner at
   * the same index, the remote name maps to the parent's local attribute; a later index
   * overwrites an earlier one of the same remote name.
   */
  function BackLinks(parent: nat, local: seq<AttributeWithName>, remote: seq<AttributeWithName>, n: nat): map<string, Expr>
    requires n <= |remote|
  {
    if n == 0 then map[]
    else
      var before := BackLinks(parent, local, remote, n - 1);
      if n - 1 < |local| then before[remote[n - 1].name := StepGet(parent, local[n - 1].name)] else before
  }

  /** The list branch over its first `n` elements: the updates planned and the warnings printed. */
  function ListFold(
    parent: nat, remoteResource: PgResource, keys: seq<string>, nodeIdField: string,
    local: seq<AttributeWithName>, remote: seq<AttributeWithName>, relFieldNames: seq<string>,
    elements: seq<ArgStep>, n: nat
  ): (seq<UpdatePlan>, seq<string>)
    requires n <= |elements|
  {
    if n == 0 then ([], [])
    else
      var (updates, warnings) := ListFold(parent, remoteResource, keys, nodeIdField, local, remote, relFieldNames, elements, n - 1);
      var e := elements[n - 1];
      if !e.InputObject? then (updates, warnings + [UnexpectedArgs(e)])
      else
        (updates + [UpdatePlan(n - 1, remoteResource, NodeIdSpec(keys, Some(n - 1), nodeIdField),
                               BackLinks(parent, local, remote, |remote|), relFieldNames)],
         warnings)
  }

  /**
   * The connect-by-node-id plan. `handlerKeys` is the node id handler for the remote table
   * type as the host supplies it, given by the keys its `specFromNodeId` yields; `None`
   * when there is none.
   */
  method ConnectByNodeIdPlan(
    inflection: Inflection, handlerKeys: Option<seq<string>>, remoteResource: PgResource,
    localAttributes: seq<AttributeWithName>, remoteAttributes: seq<AttributeWithName>,
    relFieldNames: seq<string>, parent: MutationStep, rawArgs: ArgStep
  ) returns (r: ConnectOutcome)
    modifies parent
    ensures handlerKeys.None? <==> r.Threw?
    ensures r.Threw? ==> r.message == NoHandler(remoteResource)
    ensures handlerKeys.Some? && rawArgs.InputObject? ==>
      && r == Finished(true, [], [])
      && parent.values == ObjectLinks(old(parent.values), handlerKeys.value, localAttributes, remoteAttributes,
           inflection.nodeIdFieldName, |handlerKeys.value|)
    ensures !(handlerKeys.Some? && rawArgs.InputObject?) ==> parent.values == old(parent.values)
    ensures handlerKeys.Some? && rawArgs.InputList? ==>
      var (updates, warnings) := ListFold(parent.id, remoteResource, handlerKeys.value, inflection.nodeIdFieldName,
        localAttributes, remoteAttributes, relFieldNames, rawArgs.elements, |rawArgs.elements|);
      r == Finished(false, updates, warnings)
    ensures handlerKeys.Some? && !rawArgs.InputObject? && !rawArgs.InputList? ==>
      r == Finished(false, [], [UnexpectedArgs(rawArgs)])
  {
    if handlerKeys.None? {
      return Threw(NoHandler(remoteResource));
    }
    var keys := handlerKeys.value;
    var nodeIdField := inflection.nodeIdFieldName;
    if rawArgs.InputObject? {
      var remoteNames := Names(remoteAttributes);
      var i := 0;
      while i < |keys|
        invariant 0 <= i <= |keys|
        invariant parent.values == ObjectLinks(old(parent.values), keys, localAttributes, remoteAttributes, nodeIdField, i)
      {
        var remoteAttrIdx := IndexOf(remoteNames, keys[i]);
        if 0 <= remoteAttrIdx < |localAttributes| {
          parent.Set(localAttributes[remoteAttrIdx].name, NodeIdPart(None, nodeIdField, keys[i]));
        }
        i := i + 1;
      }
      return Finished(true, [], []);
    } else if rawArgs.InputList? {
      var elements := rawArgs.elements;
      var updates: seq<UpdatePlan> := [];
      var warnings: seq<string> := [];
      var i := 0;
      while i < |elements|
        invariant 0 <= i <= |elements|
        invariant (updates, warnings) == ListFold(parent.id, remoteResource, keys, nodeIdField,
          localAttributes, remoteAttributes, relFieldNames, elements, i)
      {
        var rawArg := elements[i];
        if !rawArg.InputObject? {
          warnings := warnings + [UnexpectedArgs(rawArg)];
        } else {
          var attrs := BackLinks(parent.id, localAttributes, remoteAttributes, |remoteAttributes|);
          var spec := NodeIdSpec(keys, Some(i), nodeIdField);
          updates := updates + [UpdatePlan(i, remoteResource, spec, attrs, relFieldNames)];
        }
        i := i + 1;
      }
      return Finished(false, updates, warnings);
    } else {
      return Finished(false, [], [UnexpectedArgs(rawArgs)]);
    }
  }

  /**
   * The object branch only writes local attributes, and each value it writes is the node id
   * part of a key whose remote attribute sits at the same index as that local attribute.
   */
  lemma {:induction false} ObjectLinksOnlyPaired(
    m: map<string, Expr>, keys: seq<string>, local: seq<AttributeWithName>, remote: seq<AttributeWithName>,
    nodeIdField: string, n: nat, a: string)
    requires n <= |keys|
    requires a in ObjectLinks(m, keys, local, remote, nodeIdField, n)
    requires a !in m || ObjectLinks(m, keys, local, remote, nodeIdField, n)[a] != m[a]
    ensures exists j :: (0 <= j < n && PairedKey(keys[j], local, remote, a)
      && ObjectLinks(m, keys, local, remote, nodeIdField, n)[a] == NodeIdPart(None, nodeIdField, keys[j]))
  {
    if n > 0 {
      ObjectLinksLast(m, keys, local, remote, nodeIdField, n);
      var idx := IndexOf(Names(remote), keys[n - 1]);
      if 0 <= idx < |local| && local[idx].name == a {
        assert PairedKey(keys[n - 1], local, remote, a);
      } else {
        ObjectLinksOnlyPaired(m, keys, local, remote, nodeIdField, n - 1, a);
      }
    }
  }

  /** One more key: the object branch's update for key `n - 1`, on top of the first `n - 1`. */
  lemma ObjectLinksLast(
    m: map<string, Expr>, keys: seq<string>, local: seq<AttributeWithName>, remote: seq<AttributeWithName>,
    nodeIdField: string, n: nat)
    requires 0 < n <= |keys|
    ensures var before := ObjectLinks(m, keys, local, remote, nodeIdField, n - 1);
      var idx := IndexOf(Names(remote), keys[n - 1]);
      ObjectLinks(m, keys, local, remote, nodeIdField, n)
        == if 0 <= idx < |local| then before[local[idx].name := NodeIdPart(None, nodeIdField, keys[n - 1])] else before
  {
  }

  /** Key `k` names a remote attribute whose index holds local attribute `a`. */
  predicate PairedKey(k: string, local: seq<AttributeWithName>, remote: seq<AttributeWithName>, a: string) {
    var idx := IndexOf(Names(remote), k);
    0 <= idx < |local| && local[idx].name == a
  }

  /**
   * With distinct local attribute names, every key that names a remote attribute with a
   * local partner leaves that local attribute set to its node id part.
   */
  lemma {:induction false} ObjectLinksSetPaired(
    m: map<string, Expr>, keys: seq<string>, local: seq<AttributeWithName>, remote: seq<AttributeWithName>,
    nodeIdField: string, n: nat, j: nat)
    requires n <= |keys| && j < n
    requires forall p, q :: 0 <= p < q < |local| ==> local[p].name != local[q].name
    requires 0 <= IndexOf(Names(remote), keys[j]) < |local|
    ensures var a := local[IndexOf(Names(remote), keys[j])].name;
      var r := ObjectLinks(m, keys, local, remote, nodeIdField, n);
      a in r && r[a] == NodeIdPart(None, nodeIdField, keys[j])
  {
    var a := local[IndexOf(Names(remote), keys[j])].name;
    ObjectLinksLast(m, keys, local, remote, nodeIdField, n);
    if j < n - 1 {
      ObjectLinksSetPaired(m, keys, local, remote, nodeIdField, n - 1, j);
      var idx := IndexOf(Names(remote), keys[n - 1]);
      if 0 <= idx < |local| && local[idx].name == a {
        SamePartnerSameKey(local, remote, keys[n - 1], keys[j]);
      }
    }
  }

  /** With distinct local names, two keys paired with the same local attribute are the same key. */
  lemma SamePartnerSameKey(local: seq<AttributeWithName>, remote: seq<AttributeWithName>, k1: string, k2: string)
    requires forall p, q :: 0 <= p < q < |local| ==> local[p].name != local[q].name
    requires 0 <= IndexOf(Names(remote), k1) < |local| && 0 <= IndexOf(Names(remote), k2) < |local|
    requires local[IndexOf(Names(remote), k1)].name == local[IndexOf(Names(remote), k2)].name
    ensures k1 == k2
  {
    var i1, i2 := IndexOf(Names(remote), k1), IndexOf(Names(remote), k2);
    assert k1 == Names(remote)[i1] == Names(remote)[i2] == k2;
  }

  /** The `attrs` record of a list element holds exactly the remote attributes with a local partner. */
  lemma {:induction false} BackLinksKeys(parent: nat, local: seq<AttributeWithName>, remote: seq<AttributeWithName>, n: nat)
    requires n <= |remote|
    ensures BackLinks(parent, local, remote, n).Keys == set i | 0 <= i < n && i < |local| :: remote[i].name
  {
    if n > 0 {
      BackLinksKeys(parent, local, remote, n - 1);
      var s0 := set i | 0 <= i < n - 1 && i < |local| :: remote[i].name;
      var s1 := set i | 0 <= i < n && i < |local| :: remote[i].name;
      if n - 1 < |local| {
        assert s1 == s0 + {remote[n - 1].name};
      } else {
        assert s1 == s0;
      }
    }
  }

  /**
   * With distinct remote attribute names, each remote attribute with a local partner maps
   * to the parent's read of that partner.
   */
  lemma {:induction false} BackLinksValues(parent: nat, local: seq<AttributeWithName>, remote: seq<AttributeWithName>, n: nat, i: nat)
    requires n <= |remote| && i < n && i < |local|
    requires forall p, q :: 0 <= p < q < |remote| ==> remote[p].name != remote[q].name
    ensures var attrs := BackLinks(parent, local, remote, n);
      remote[i].name in attrs && attrs[remote[i].name] == StepGet(parent, local[i].name)
  {
    if i < n - 1 {
      BackLinksValues(parent, local, remote, n - 1, i);
    }
  }

  /**
   * The list branch plans one update per input-object element, in element order, and one
   * warning per other element.
   */
  lemma {:induction false} ListFoldCounts(
    parent: nat, remoteResource: PgResource, keys: seq<string>, nodeIdField: string,
    local: seq<AttributeWithName>, remote: seq<AttributeWithName>, relFieldNames: seq<string>,
    elements: seq<ArgStep>, n: nat)
    requires n <= |elements|
    ensures var (updates, warnings) := ListFold(parent, remoteResource, keys, nodeIdField, local, remote, relFieldNames, elements, n);
      && |updates| + |warnings| == n
      && (forall u :: u in updates ==> (u.element < n && elements[u.element].InputObject?
            && u.spec == NodeIdSpec(keys, Some(u.element), nodeIdField) && u.appliedFields == relFieldNames))
      && (forall p, q :: 0 <= p < q < |updates| ==> updates[p].element < updates[q].element)
      && (forall i :: 0 <= i < n && elements[i].InputObject? ==> exists u :: u in updates && u.element == i)
  {
    ListFoldShape(parent, remoteResource, keys, nodeIdField, local, remote, relFieldNames, elements, n);
    ListFoldCovers(parent, remoteResource, keys, nodeIdField, local, remote, relFieldNames, elements, n);
  }

  /** Each update is for an earlier object element, with its node-id spec, in element order. */
  lemma {:induction false} ListFoldShape(
    parent: nat, remoteResource: PgResource, keys: seq<string>, nodeIdField: string,
    local: seq<AttributeWithName>, remote: seq<AttributeWithName>, relFieldNames: seq<string>,
    elements: seq<ArgStep>, n: nat)
    requires n <= |elements|
    ensures var (updates, warnings) := ListFold(parent, remoteResource, keys, nodeIdField, local, remote, relFieldNames, elements, n);
      && |updates| + |warnings| == n
      && (forall u :: u in updates ==> (u.element < n && elements[u.element].InputObject?
            && u.spec == NodeIdSpec(keys, Some(u.element), nodeIdField) && u.appliedFields == relFieldNames))
      && (forall p, q :: 0 <= p < q < |updates| ==> updates[p].element < updates[q].element)
  {
    if n > 0 {
      ListFoldShape(parent, remoteResource, keys, nodeIdField, local, remote, relFieldNames, elements, n - 1);
      var prev := ListFold(parent, remoteResource, keys, nodeIdField, local, remote, relFieldNames, elements, n - 1);
      var updates := ListFold(parent, remoteResource, keys, nodeIdField, local, remote, relFieldNames, elements, n).0;
      if elements[n - 1].InputObject? {
        var u := UpdatePlan(n - 1, remoteResource, NodeIdSpec(keys, Some(n - 1), nodeIdField),
          BackLinks(parent, local, remote, |remote|), relFieldNames);
        assert updates == prev.0 + [u];
        assert forall p :: 0 <= p < |prev.0| ==> updates[p] == prev.0[p] && updates[p] in prev.0;
      } else {
        assert updates == prev.0;
      }
    }
  }

  /** Every object element among the first `n` gets an update. */
  lemma {:induction false} ListFoldCovers(
    parent: nat, remoteResource: PgResource, keys: seq<string>, nodeIdField: string,
    local: seq<AttributeWithName>, remote: seq<AttributeWithName>, relFieldNames: seq<string>,
    elements: seq<ArgStep>, n: nat)
    requires n <= |elements|
    ensures var updates := ListFold(parent, remoteResource, keys, nodeIdField, local, remote, relFieldNames, elements, n).0;
      forall i :: 0 <= i < n && elements[i].InputObject? ==> exists u :: u in updates && u.element == i
  {
    if n > 0 {
      ListFoldCovers(parent, remoteResource, keys, nodeIdField, local, remote, relFieldNames, elements, n - 1);
      var updates := ListFold(parent, remoteResource, keys, nodeIdField, local, remote, relFieldNames, elements, n - 1).0;
      if elements[n - 1].InputObject? {
        var u := UpdatePlan(n - 1, remoteResource, NodeIdSpec(keys, Some(n - 1), nodeIdField),
          BackLinks(parent, local, remote, |remote|), relFieldNames);
        assert ListFold(parent, remoteResource, keys, nodeIdField, local, remote, relFieldNames, elements, n).0 == updates + [u];
        assert u in updates + [u];
      }
    }
  }

}
