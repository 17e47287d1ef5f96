/** `pgRelationshipForwardInsertStep`: insert the related row, then point the parent at it. */
module ForwardInsert {
  import opened Wrappers
  import opened Host
  import opened Steps

  /** `uniques.find(u => u.isPrimary)`. */
  function PrimaryKey(uniques: seq<Unique>): (r: Option<Unique>)
    ensures r.Some? ==> r.value in uniques && r.value.isPrimary
    ensures r.None? ==> forall u :: u in uniques ==> !u.isPrimary
  {
    if |uniques| == 0 then None
    else if uniques[0].isPrimary then Some(uniques[0])
    else PrimaryKey(uniques[1..])
  }

  /** `Object.keys(codec.attributes).filter(name => attribute:insert matches)`. */
  function InsertableNames(behavior: Behavior, codec: Codec, names: seq<string>): (r: seq<string>)
    ensures forall n :: n in r <==> n in names && behavior.attributeInsertable(codec, n)
  {
    if |names| == 0 then []
    else if behavior.attributeInsertable(codec, names[0]) then
      [names[0]] + InsertableNames(behavior, codec, names[1..])
    else InsertableNames(behavior, codec, names[1..])
  }

  /** Whether `primaryKey?.attributes.includes(name)`. */
  predicate InPrimaryKey(pk: Option<Unique>, name: string) {
    pk.Some? && name in pk.value.attributes
  }

  /** The attributes the insert step receives: insert-permitted and outside the primary key. */
  function InsertedAttributes(behavior: Behavior, remote: PgResource): set<string> {
    set n | n in AttributeNames(remote.codec) && behavior.attributeInsertable(remote.codec, n)
      && !InPrimaryKey(PrimaryKey(remote.uniques), n)
  }

  /** What the insert step holds after the copying loop, as a value. */
  function InsertValues(inflection: Inflection, behavior: Behavior, remote: PgResource): map<string, Expr> {
    map n | n in InsertedAttributes(behavior, remote) :: ItemGet(inflection.attribute(n, remote.codec))
  }

  /**
   * The parent after the linking loop has run over the first `n` remote attributes:
   * at each index with a (non-empty, so truthy) local attribute name, that local attribute
   * is set to the insert's matching remote attribute.
   */
  function Links(m: map<string, Expr>, local: seq<string>, remote: seq<string>, insert: nat, n: nat): map<string, Expr>
    requires n <= |remote|
  {
    if n == 0 then m
    else
      var before := Links(m, local, remote, insert, n - 1);
      var i := n - 1;
      if i < |local| && local[i] != "" then before[local[i] := StepGet(insert, remote[i])] else before
  }

  /**
   * Builds the insert step for a forward relationship: copies every insert-permitted,
   * non-primary-key attribute from the nested input object, then sets each paired local
   * attribute of the parent to the inserted row's remote attribute, and returns the insert.
   * `insertId` names the new step.
   */
  method ForwardInsertStep(
    inflection: Inflection, behavior: Behavior, item: ArgStep, parent: MutationStep,
    relationship: Relation, insertId: nat
  ) returns (r: Result<MutationStep>)
    modifies parent
    ensures r.Failure? <==> !ObjectLike(item)
    ensures r.Failure? ==> parent.values == old(parent.values)
    ensures r.Failure? ==> r.error == "Expected input to be an object, but got object"
    ensures r.Success? ==> fresh(r.value) && r.value.id == insertId
    ensures r.Success? ==> r.value.resource == relationship.remoteResource
    ensures r.Success? ==> r.value.values == InsertValues(inflection, behavior, relationship.remoteResource)
    ensures r.Success? ==> parent.values == Links(old(parent.values), relationship.localAttributes,
      relationship.remoteAttributes, insertId, |relationship.remoteAttributes|)
  {
    var remoteResource := relationship.remoteResource;
    var remoteAttributes := relationship.remoteAttributes;
    var localAttributes := relationship.localAttributes;
    if !ObjectLike(item) {
      // `$item` is a step, so `typeof $item` is always "object"
      return Failure("Expected input to be an object, but got object");
    }
    var insert := new MutationStep(insertId, remoteResource, map[]);
    CopyInsertable(inflection, behavior, insert, remoteResource);
    LinkParent(parent, insert, localAttributes, remoteAttributes);
    return Success(insert);
  }

  /**
   * The parent is written only at local attributes paired with a remote attribute; every
   * other attribute keeps its old expression.
   */
  lemma {:induction false} LinksOnlyTouchPairedLocals(
    m: map<string, Expr>, local: seq<string>, remote: seq<string>, insert: nat, n: nat, k: string)
    requires n <= |remote|
    requires forall i :: 0 <= i < n && i < |local| ==> local[i] != k
    ensures k in Links(m, local, remote, insert, n) <==> k in m
    ensures k in m ==> Links(m, local, remote, insert, n)[k] == m[k]
  {
    if n > 0 {
      LinksOnlyTouchPairedLocals(m, local, remote, insert, n - 1, k);
    }
  }

  /**
   * With distinct local attribute names, each paired local attribute ends up holding the
   * insert's remote attribute at the same index.
   */
  lemma {:induction false} LinksSetPairedLocals(
    m: map<string, Expr>, local: seq<string>, remote: seq<string>, insert: nat, n: nat, i: nat)
    requires n <= |remote|
    requires forall a, b :: 0 <= a < b < |local| ==> local[a] != local[b]
    requires i < n && i < |local| && local[i] != ""
    ensures local[i] in Links(m, local, remote, insert, n)
    ensures Links(m, local, remote, insert, n)[local[i]] == StepGet(insert, remote[i])
  {
    if i < n - 1 {
      LinksSetPairedLocals(m, local, remote, insert, n - 1, i);
    }
  }

  /** Remote attributes past the end of the local list change nothing. */
  lemma {:induction false} LinksIgnoreExtraRemotes(
    m: map<string, Expr>, local: seq<string>, remote: seq<string>, insert: nat, n: nat)
    requires |local| <= n <= |remote|
    ensures Links(m, local, remote, insert, n) == Links(m, local, remote, insert, |local|)
  {
    if n > |local| {
      LinksIgnoreExtraRemotes(m, local, remote, insert, n - 1);
    }
  }

  /**
   * The insert holds exactly the insert-permitted attributes that are not part of the
   * primary key (all of them when there is none), each read from the input field the
   * inflector names for it.
   */
  lemma InsertValuesContents(inflection: Inflection, behavior: Behavior, remote: PgResource, name: string)
    ensures name in InsertValues(inflection, behavior, remote) <==>
      name in AttributeNames(remote.codec) && behavior.attributeInsertable(remote.codec, name) &&
      (PrimaryKey(remote.uniques).None? || name !in PrimaryKey(remote.uniques).value.attributes)
    ensures name in InsertValues(inflection, behavior, remote) ==>
      InsertValues(inflection, behavior, remote)[name] == ItemGet(inflection.attribute(name, remote.codec))
  {
  }

  /** The copying loop: every insert-permitted attribute outside the primary key, read from the input object. */
  method CopyInsertable(inflection: Inflection, behavior: Behavior, insert: MutationStep, remoteResource: PgResource)
    requires insert.values == map[]
    modifies insert
    ensures insert.values == InsertValues(inflection, behavior, remoteResource)
  {
    var codec := remoteResource.codec;
    var insertableAttributes := InsertableNames(behavior, codec, AttributeNames(codec));
    var primaryKey := PrimaryKey(remoteResource.uniques);
    var i := 0;
    while i < |insertableAttributes|
      invariant 0 <= i <= |insertableAttributes|
      invariant insert.values.Keys == set n | n in insertableAttributes[..i] && !InPrimaryKey(primaryKey, n)
      invariant forall n :: n in insert.values ==> insert.values[n] == ItemGet(inflection.attribute(n, codec))
    {
      var attributeName := insertableAttributes[i];
      if !InPrimaryKey(primaryKey, attributeName) {
        var attribute := inflection.attribute(attributeName, codec);
        insert.Set(attributeName, ItemGet(attribute));
      }
      assert insertableAttributes[..i + 1] == insertableAttributes[..i] + [attributeName];
      i := i + 1;
    }
    assert insertableAttributes[..i] == insertableAttributes;
    assert insert.values.Keys == InsertedAttributes(behavior, remoteResource);
  }

  /** The linking loop: each paired local attribute of the parent reads the insert's remote attribute. */
  method LinkParent(parent: MutationStep, insert: MutationStep, localAttributes: seq<string>, remoteAttributes: seq<string>)
    modifies parent
    ensures parent.values == Links(old(parent.values), localAttributes, remoteAttributes, insert.id, |remoteAttributes|)
  {
    var idx := 0;
    while idx < |remoteAttributes|
      invariant 0 <= idx <= |remoteAttributes|
      invariant parent.values == Links(old(parent.values), localAttributes, remoteAttributes, insert.id, idx)
    {
      if idx < |localAttributes| && localAttributes[idx] != "" {
        parent.Set(localAttributes[idx], insert.Get(remoteAttributes[idx]));
      }
      idx := idx + 1;
    }
  }
}
