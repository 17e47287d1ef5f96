/**
 * JavaScript object records of input fields, kept as sequences in key order: the spread
 * `{...memo, [name]: field}` and the host's `build.extend`.
 */
module Records {
  import opened Host

  /** The single field of a connect-by-node-id type: the node id, a non-null `ID`. */
  function NodeIdFields(inflection: Inflection): (r: seq<InputField>)
    ensures |r| == 1 && r[0].name == inflection.nodeIdFieldName && r[0].fieldType == NonNull(Named("ID"))
  {
    [InputField(inflection.nodeIdFieldName, NonNull(Named("ID")))]
  }

  /** The position of the field named `name`, or -1. */
  function NameIndex(fields: seq<InputField>, name: string): (k: int)
    ensures -1 <= k < |fields|
    ensures k == -1 <==> forall i :: 0 <= i < |fields| ==> fields[i].name != name
    ensures k >= 0 ==> fields[k].name == name
  {
    if |fields| == 0 then -1
    else if fields[|fields| - 1].name == name && NameIndex(fields[..|fields| - 1], name) == -1 then |fields| - 1
    else NameIndex(fields[..|fields| - 1], name)
  }

  /** `{...memo, [f.name]: f}`: a new name goes last; a known name keeps its place and takes the new value. */
  function Put(fields: seq<InputField>, f: InputField): (r: seq<InputField>)
    ensures NameIndex(fields, f.name) == -1 ==> r == fields + [f]
    ensures NameIndex(fields, f.name) >= 0 ==> r == fields[NameIndex(fields, f.name) := f]
  {
    var k := NameIndex(fields, f.name);
    if k < 0 then fields + [f] else fields[k := f]
  }

  /** The names of a field list. */
  function FieldNameSet(fields: seq<InputField>): set<string> {
    set i | 0 <= i < |fields| :: fields[i].name
  }

  predicate DistinctNames(fields: seq<InputField>) {
    forall i, j :: 0 <= i < j < |fields| ==> fields[i].name != fields[j].name
  }

  /** `Put` keeps names distinct and adds exactly the new name. */
  lemma PutNames(fields: seq<InputField>, f: InputField)
    requires DistinctNames(fields)
    ensures DistinctNames(Put(fields, f))
    ensures FieldNameSet(Put(fields, f)) == FieldNameSet(fields) + {f.name}
  {
    var r := Put(fields, f);
    var k := NameIndex(fields, f.name);
    if k < 0 {
      assert r[|fields|] == f;
      forall n | n in FieldNameSet(fields) + {f.name} ensures n in FieldNameSet(r) {
        if n != f.name {
          var i :| 0 <= i < |fields| && fields[i].name == n;
          assert r[i].name == n;
        }
      }
    } else {
      assert forall i :: 0 <= i < |r| ==> r[i].name == fields[i].name;
      assert FieldNameSet(r) == FieldNameSet(fields);
    }
  }

  /** `items.reduce((memo, x) => ({...memo, [field(x).name]: field(x)}), {})` over the first `n` items. */
  function PutEach<T>(field: T -> InputField, items: seq<T>, n: nat): seq<InputField>
    requires n <= |items|
  {
    if n == 0 then [] else Put(PutEach(field, items, n - 1), field(items[n - 1]))
  }

  /** The reduce never names a field twice, and names exactly the fields it has seen. */
  lemma {:induction false} PutEachNames<T>(field: T -> InputField, items: seq<T>, n: nat)
    requires n <= |items|
    ensures DistinctNames(PutEach(field, items, n))
    ensures FieldNameSet(PutEach(field, items, n)) == set i | 0 <= i < n :: field(items[i]).name
  {
    if n > 0 {
      PutEachNames(field, items, n - 1);
      PutNames(PutEach(field, items, n - 1), field(items[n - 1]));
      var s0 := set i | 0 <= i < n - 1 :: field(items[i]).name;
      var s1 := set i | 0 <= i < n :: field(items[i]).name;
      forall x | x in s1 ensures x in s0 + {field(items[n - 1]).name} {
        var i :| 0 <= i < n && x == field(items[i]).name;
        if i < n - 1 {
          assert x in s0;
        }
      }
    }
  }

  /** `build.extend(fields, connectorFields)`: each connector field put into the type's fields. */
  function Extend(fields: seq<InputField>, extra: seq<InputField>): seq<InputField>
    decreases |extra|
  {
    if |extra| == 0 then fields else Extend(Put(fields, extra[0]), extra[1..])
  }

  /**
   * Extending a record with distinct names keeps the names distinct, and the result names
   * exactly the fields of both.
   */
  lemma {:induction false} ExtendNames(fields: seq<InputField>, extra: seq<InputField>)
    requires DistinctNames(fields)
    ensures DistinctNames(Extend(fields, extra))
    ensures FieldNameSet(Extend(fields, extra)) == FieldNameSet(fields) + FieldNameSet(extra)
    decreases |extra|
  {
    if |extra| > 0 {
      PutNames(fields, extra[0]);
      ExtendNames(Put(fields, extra[0]), extra[1..]);
      assert FieldNameSet(extra) == {extra[0].name} + FieldNameSet(extra[1..]) by {
        forall n | n in FieldNameSet(extra) ensures n in {extra[0].name} + FieldNameSet(extra[1..]) {
          var i :| 0 <= i < |extra| && extra[i].name == n;
          if i > 0 { assert extra[1..][i - 1].name == n; }
        }
        forall n | n in FieldNameSet(extra[1..]) ensures n in FieldNameSet(extra) {
          var i :| 0 <= i < |extra[1..]| && extra[1..][i].name == n;
          assert extra[i + 1].name == n;
        }
      }
    }
  }

  /**
   * Putting fields whose names are new and distinct appends them in order: copying a record
   * with distinct names, `Extend([], fields)`, gives back the same fields.
   */
  lemma {:induction false} ExtendDistinct(fields: seq<InputField>, extra: seq<InputField>)
    requires DistinctNames(fields + extra)
    ensures Extend(fields, extra) == fields + extra
    decreases |extra|
  {
    if |extra| > 0 {
      assert (fields + extra)[|fields|] == extra[0];
      forall i | 0 <= i < |fields| ensures fields[i].name != extra[0].name {
        assert (fields + extra)[i] == fields[i];
      }
      assert Put(fields, extra[0]) == fields + [extra[0]];
      assert fields + [extra[0]] + extra[1..] == fields + extra;
      ExtendDistinct(fields + [extra[0]], extra[1..]);
    }
  }
}
