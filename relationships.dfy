/** Relationship extraction for the nested-mutations plugin: `getRelationships`. */
module Relationships {
  import opened Wrappers
  import opened Host

  /** A codec attribute with its key copied into it (`{...val, name: key}`). */
  datatype AttributeWithName = AttributeWithName(name: string, attribute: PgAttribute)

  /** The record `getRelationships` emits for one relation. */
  datatype RelationshipData = RelationshipData(
    name: string,
    fieldName: string,
    localResource: PgResource,
    localAttributes: seq<AttributeWithName>,
    remoteAttributes: seq<AttributeWithName>,
    isUnique: bool,
    isReferencee: bool,
    remoteResource: PgResource)

  /** The names of resolved attributes, in order. */
  function Names(attrs: seq<AttributeWithName>): (r: seq<string>)
    ensures |r| == |attrs|
    ensures forall i :: 0 <= i < |r| ==> r[i] == attrs[i].name
  {
    seq(|attrs|, i requires 0 <= i < |attrs| => attrs[i].name)
  }

  predicate HasAttribute(codec: Codec, key: string) {
    exists i :: 0 <= i < |codec.attributes| && codec.attributes[i].0 == key
  }

  /** `codec.attributes[key]`: the attribute stored under `key`, if any. */
  function LookupAttribute(codec: Codec, key: string): (r: Option<PgAttribute>)
    ensures r.Some? <==> HasAttribute(codec, key)
    ensures r.Some? ==> (key, r.value) in codec.attributes
  {
    LookupFrom(codec.attributes, key)
  }

  function LookupFrom(entries: seq<(string, PgAttribute)>, key: string): (r: Option<PgAttribute>)
    ensures r.Some? <==> exists i :: 0 <= i < |entries| && entries[i].0 == key
    ensures r.Some? ==> (key, r.value) in entries
  {
    if |entries| == 0 then None
    else if entries[0].0 == key then Some(entries[0].1)
    else
      var r := LookupFrom(entries[1..], key);
      assert forall i :: 1 <= i < |entries| ==> entries[i] == entries[1..][i - 1];
      r
  }

  /** `keys[i]` is the first name the codec does not hold. */
  predicate FirstMissing(codec: Codec, keys: seq<string>, i: int) {
    && 0 <= i < |keys|
    && !HasAttribute(codec, keys[i])
    && forall j :: 0 <= j < i ==> HasAttribute(codec, keys[j])
  }

  function NotFound(key: string): string {
    "Attribute " + key + " not found in codec"
  }

  /**
   * `keys.map(key => ...)`: resolves each name against the codec and throws at the first
   * name the codec does not hold.
   */
  function ResolveAttributes(codec: Codec, keys: seq<string>): (r: Result<seq<AttributeWithName>>)
    ensures r.Success? <==> forall k :: k in keys ==> HasAttribute(codec, k)
    ensures r.Success? ==> |r.value| == |keys|
    ensures r.Success? ==> forall i :: 0 <= i < |keys| ==>
      r.value[i] == AttributeWithName(keys[i], LookupAttribute(codec, keys[i]).value)
    ensures r.Failure? ==> exists i :: FirstMissing(codec, keys, i) && r.error == NotFound(keys[i])
  {
    if |keys| == 0 then Success([])
    else
      match LookupAttribute(codec, keys[0])
      case None => Failure(NotFound(keys[0]))
      case Some(attr) =>
        match ResolveAttributes(codec, keys[1..])
        case Failure(e) =>
          assert forall j :: 1 <= j < |keys| ==> keys[j] == keys[1..][j - 1];
          Failure(e)
        case Success(rest) =>
          assert forall k :: k in keys ==> k == keys[0] || k in keys[1..];
          Success([AttributeWithName(keys[0], attr)] + rest)
  }

  /** The relations `getRelationships` keeps: those whose remote resource is nested-mutable. */
  function Kept(behavior: Behavior, relations: seq<(string, Relation)>): (r: seq<(string, Relation)>)
    ensures |r| <= |relations|
    ensures forall e :: e in r <==> e in relations && behavior.isNestedMutable(e.1.remoteResource)
    ensures |relations| == 1 ==> r == if behavior.isNestedMutable(relations[0].1.remoteResource) then relations else []
  {
    if |relations| == 0 then []
    else if behavior.isNestedMutable(relations[0].1.remoteResource) then
      [relations[0]] + Kept(behavior, relations[1..])
    else Kept(behavior, relations[1..])
  }

  /**
   * The filter keeps the `getRelations()` order: the kept relations of two runs of entries
   * are those of the first run followed by those of the second.
   */
  lemma {:induction false} KeptAppend(behavior: Behavior, xs: seq<(string, Relation)>, ys: seq<(string, Relation)>)
    ensures Kept(behavior, xs + ys) == Kept(behavior, xs) + Kept(behavior, ys)
    decreases |xs|
  {
    if |xs| == 0 {
      assert xs + ys == ys;
    } else {
      assert (xs + ys)[1..] == xs[1..] + ys;
      KeptAppend(behavior, xs[1..], ys);
    }
  }

  /** Whether every attribute name of a relation resolves on its side's codec. */
  predicate Resolvable(local: PgResource, rel: Relation) {
    && (forall k :: k in rel.localAttributes ==> HasAttribute(local.codec, k))
    && (forall k :: k in rel.remoteAttributes ==> HasAttribute(rel.remoteResource.codec, k))
  }

  /** The record one kept relation becomes, with `fieldName` given by the inflector. */
  predicate Describes(
    rd: RelationshipData, local: PgResource, name: string, rel: Relation,
    fieldNameOf: RelationshipData -> string)
  {
    && rd.name == name
    && rd.localResource == local
    && Names(rd.localAttributes) == rel.localAttributes
    && Names(rd.remoteAttributes) == rel.remoteAttributes
    && (forall i :: 0 <= i < |rd.localAttributes| ==>
          Some(rd.localAttributes[i].attribute) == LookupAttribute(local.codec, rel.localAttributes[i]))
    && (forall i :: 0 <= i < |rd.remoteAttributes| ==>
          Some(rd.remoteAttributes[i].attribute) == LookupAttribute(rel.remoteResource.codec, rel.remoteAttributes[i]))
    && rd.isUnique == rel.isUnique
    && rd.isReferencee == rel.isReferencee
    && rd.remoteResource == rel.remoteResource
    && rd.fieldName == fieldNameOf(rd.(fieldName := ""))
  }

  /**
   * The body of the reduce for one nested-mutable relation: resolve the local names, then
   * the remote names, then name the record.
   */
  function RelationshipRecord(
    fieldNameOf: RelationshipData -> string, local: PgResource, name: string, rel: Relation
  ): (r: Result<RelationshipData>)
    ensures r.Success? <==> Resolvable(local, rel)
    ensures r.Success? ==> Describes(r.value, local, name, rel, fieldNameOf)
    ensures r.Failure? && !(forall k :: k in rel.localAttributes ==> HasAttribute(local.codec, k)) ==>
      r.error == ResolveAttributes(local.codec, rel.localAttributes).error
    ensures r.Failure? ==> exists k :: (r.error == NotFound(k)
      && ((k in rel.localAttributes && !HasAttribute(local.codec, k))
          || (k in rel.remoteAttributes && !HasAttribute(rel.remoteResource.codec, k))))
  {
    match ResolveAttributes(local.codec, rel.localAttributes)
    case Failure(e) => Failure(e)
    case Success(localAttributes) =>
      match ResolveAttributes(rel.remoteResource.codec, rel.remoteAttributes)
      case Failure(e) => Failure(e)
      case Success(remoteAttributes) =>
        var relationship := RelationshipData(
          name, "", local, localAttributes, remoteAttributes,
          rel.isUnique, rel.isReferencee, rel.remoteResource);
        assert Names(localAttributes) == rel.localAttributes;
        assert Names(remoteAttributes) == rel.remoteAttributes;
        Success(relationship.(fieldName := fieldNameOf(relationship)))
  }

  /** A reduce that maps each item to a record, in order, and stops at the first throw. */
  function CollectAll<T, U>(record: T -> Result<U>, items: seq<T>): (r: Result<seq<U>>)
    ensures r.Success? <==> forall i :: 0 <= i < |items| ==> record(items[i]).Success?
    ensures r.Success? ==> |r.value| == |items|
    ensures r.Success? ==> forall i :: 0 <= i < |items| ==> record(items[i]) == Success(r.value[i])
    ensures r.Failure? ==> exists i :: 0 <= i < |items| && FirstFailure(record, items, i) && r.error == record(items[i]).error
  {
    if |items| == 0 then Success([])
    else
      var head := record(items[0]);
      var tail := CollectAll(record, items[1..]);
      assert forall i :: 1 <= i < |items| ==> items[i] == items[1..][i - 1];
      if head.Failure? then
        assert FirstFailure(record, items, 0);
        Failure(head.error)
      else if tail.Failure? then
        FirstFailureShift(record, items, tail.error);
        Failure(tail.error)
      else
        var r := [head.value] + tail.value;
        assert forall i :: 1 <= i < |items| ==> r[i] == tail.value[i - 1];
        Success(r)
  }

  /** Item `i` is the first whose record throws. */
  predicate FirstFailure<T, U>(record: T -> Result<U>, items: seq<T>, i: int)
    requires 0 <= i < |items|
  {
    record(items[i]).Failure? && forall j :: 0 <= j < i ==> record(items[j]).Success?
  }

  /** A first throw in the tail, after a head that succeeds, is the first throw of the whole. */
  lemma FirstFailureShift<T, U>(record: T -> Result<U>, items: seq<T>, e: string)
    requires |items| > 0 && record(items[0]).Success?
    requires exists i :: 0 <= i < |items[1..]| && FirstFailure(record, items[1..], i) && e == record(items[1..][i]).error
    ensures exists i :: 0 <= i < |items| && FirstFailure(record, items, i) && e == record(items[i]).error
  {
    var k :| 0 <= k < |items[1..]| && FirstFailure(record, items[1..], k) && e == record(items[1..][k]).error;
    assert forall j :: 1 <= j < |items| ==> items[j] == items[1..][j - 1];
    assert FirstFailure(record, items, k + 1);
  }

  /** The reduce over the kept relations: records in order, or the first relation's throw. */
  function Collect(
    fieldNameOf: RelationshipData -> string, local: PgResource, kept: seq<(string, Relation)>
  ): (r: Result<seq<RelationshipData>>)
    ensures r.Success? <==> forall i :: 0 <= i < |kept| ==> Resolvable(local, kept[i].1)
    ensures r.Success? ==> |r.value| == |kept|
    ensures r.Success? ==> forall i :: 0 <= i < |kept| ==>
      RelationshipRecord(fieldNameOf, local, kept[i].0, kept[i].1) == Success(r.value[i])
    ensures r.Failure? ==> exists i :: (0 <= i < |kept| && !Resolvable(local, kept[i].1)
      && (forall j :: 0 <= j < i ==> Resolvable(local, kept[j].1))
      && r.error == RelationshipRecord(fieldNameOf, local, kept[i].0, kept[i].1).error)
  {
    CollectAll((e: (string, Relation)) => RelationshipRecord(fieldNameOf, local, e.0, e.1), kept)
  }

  /**
   * `getRelationships(build, localResource)`: one record per nested-mutable relation in
   * `getRelations()` order; a name missing from its codec throws, the local side first.
   * `fieldNameOf` is `build.inflection.relationshipInputFieldName`. Skipping a relation
   * inside the reduce and filtering before it give the same records, since the
   * nested-mutable check has no effect of its own.
   */
  function GetRelationships(
    behavior: Behavior, fieldNameOf: RelationshipData -> string,
    local: PgResource, relations: seq<(string, Relation)>): (r: Result<seq<RelationshipData>>)
    ensures r.Success? <==> forall e :: e in Kept(behavior, relations) ==> Resolvable(local, e.1)
    ensures r.Success? ==> |r.value| == |Kept(behavior, relations)|
    ensures r.Failure? ==> exists i :: (0 <= i < |Kept(behavior, relations)|
      && !Resolvable(local, Kept(behavior, relations)[i].1)
      && (forall j :: 0 <= j < i ==> Resolvable(local, Kept(behavior, relations)[j].1))
      && r.error == RelationshipRecord(fieldNameOf, local, Kept(behavior, relations)[i].0, Kept(behavior, relations)[i].1).error)
    ensures r.Failure? ==> exists k :: r.error == NotFound(k)
  {
    Collect(fieldNameOf, local, Kept(behavior, relations))
  }

  /**
   * Each record describes the kept relation at the same position: same name and flags,
   * same remote resource, attribute lists of the same length and order whose entries carry
   * their key as `name`, and the field name the inflector gives the record.
   */
  lemma GetRelationshipsDescribe(
    behavior: Behavior, fieldNameOf: RelationshipData -> string,
    local: PgResource, relations: seq<(string, Relation)>, i: int)
    requires GetRelationships(behavior, fieldNameOf, local, relations).Success?
    requires 0 <= i < |Kept(behavior, relations)|
    ensures Describes(GetRelationships(behavior, fieldNameOf, local, relations).value[i], local,
      Kept(behavior, relations)[i].0, Kept(behavior, relations)[i].1, fieldNameOf)
  {
    var kept := Kept(behavior, relations);
    var ignored := RelationshipRecord(fieldNameOf, local, kept[i].0, kept[i].1);
  }

  /** A relation whose local attribute name is missing makes the whole extraction throw. */
  lemma MissingLocalAttributeThrows(
    behavior: Behavior, fieldNameOf: RelationshipData -> string,
    local: PgResource, relations: seq<(string, Relation)>, j: int, key: string)
    requires 0 <= j < |relations| && behavior.isNestedMutable(relations[j].1.remoteResource)
    requires key in relations[j].1.localAttributes && !HasAttribute(local.codec, key)
    ensures GetRelationships(behavior, fieldNameOf, local, relations).Failure?
    ensures exists k :: GetRelationships(behavior, fieldNameOf, local, relations).error == NotFound(k)
  {
    assert relations[j] in Kept(behavior, relations);
  }

  /** The same for a remote attribute name missing from the remote codec. */
  lemma MissingRemoteAttributeThrows(
    behavior: Behavior, fieldNameOf: RelationshipData -> string,
    local: PgResource, relations: seq<(string, Relation)>, j: int, key: string)
    requires 0 <= j < |relations| && behavior.isNestedMutable(relations[j].1.remoteResource)
    requires key in relations[j].1.remoteAttributes
    requires !HasAttribute(relations[j].1.remoteResource.codec, key)
    ensures GetRelationships(behavior, fieldNameOf, local, relations).Failure?
    ensures exists k :: GetRelationships(behavior, fieldNameOf, local, relations).error == NotFound(k)
  {
    assert relations[j] in Kept(behavior, relations);
  }
}
