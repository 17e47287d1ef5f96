/**
 * The `nested*` inflectors of the nested-mutations inflection plugin: GraphQL field and type
 * names for a relationship record, built by joining name parts. Case conversion,
 * pluralisation and the table and attribute names are the host's.
 */
module NestedInflection {
  import opened Host
  import opened Strings
  import opened NestedTypes

  /** An element of a JavaScript array that is filtered with `Boolean` and joined. */
  datatype Part = Text(text: string) | Items(items: seq<string>) | Null

  /** `Boolean(part)`: the empty string and `null` are falsy; an array is truthy even when empty. */
  predicate Truthy(p: Part) {
    match p
    case Text(s) => s != ""
    case Items(_) => true
    case Null => false
  }

  /** How `join` writes an element: an array as its items joined with commas. */
  function Stringify(p: Part): string {
    match p
    case Text(s) => s
    case Items(items) => Join(items, ",")
    case Null => ""
  }

  /** `parts.filter(Boolean)`, each element as `join` writes it. */
  function TruthyParts(parts: seq<Part>): (r: seq<string>)
    ensures |r| <= |parts|
  {
    if |parts| == 0 then []
    else (if Truthy(parts[0]) then [Stringify(parts[0])] else []) + TruthyParts(parts[1..])
  }

  /** `parts.filter(Boolean).join(sep)`. */
  function FilterJoin(parts: seq<Part>, sep: string): string {
    Join(TruthyParts(parts), sep)
  }

  /** The table whose field name leads the connector and create type names: the right table when reverse. */
  function OwningTableFieldName(inflection: Inflection, d: NestedDetails): string {
    inflection.tableFieldName(if d.isReverse then d.rightTable else d.leftTable.resource)
  }

  /** The attributes of the side holding the foreign key: the remote ones when reverse. */
  function KeyAttributes(d: NestedDetails): seq<string> {
    if d.isReverse then d.remoteAttributes else d.localAttributes
  }

  function NestedConnectorFieldType(inflection: Inflection, d: NestedDetails): string {
    inflection.upperCamelCase(FilterJoin(
      [Text(OwningTableFieldName(inflection, d)), Items(KeyAttributes(d)), Text("fKey"),
       if d.isReverse then Text("inverse") else Null, Text("input")], "_"))
  }

  /** Whether the left table has more than one relation. */
  predicate MultipleFks(d: NestedDetails) {
    |d.leftTable.relations| > 1
  }

  /** The right table's field name, singular for a unique relation and pluralised otherwise. */
  function ComputedReverseMutationName(inflection: Inflection, d: NestedDetails): string {
    var tableFieldName := inflection.tableFieldName(d.rightTable);
    inflection.camelCase(if d.isUnique then tableFieldName else inflection.pluralize(tableFieldName))
  }

  /** The string `nestedConnectorFieldName` camel-cases. */
  function ConnectorFieldNameStem(inflection: Inflection, d: NestedDetails): string {
    var tableFieldName := inflection.tableFieldName(d.rightTable);
    if !d.isReverse then tableFieldName + "_to_" + Join(d.localAttributes, "_and_")
    else if !MultipleFks(d) then
      ComputedReverseMutationName(inflection, d) + "_using_" + Join(d.localAttributes, "_and_ ")
    else
      ComputedReverseMutationName(inflection, d) + "_to_" + Join(d.localAttributes, "_and_")
      + "_using_" + Join(d.remoteAttributes, "_and_")
  }

  function NestedConnectorFieldName(inflection: Inflection, d: NestedDetails): string {
    inflection.camelCase(ConnectorFieldNameStem(inflection, d))
  }

  function NestedConnectByNodeIdFieldName(inflection: Inflection): string {
    inflection.camelCase("connect_by_" + inflection.nodeIdFieldName)
  }

  function NestedConnectByNodeIdInputType(inflection: Inflection, d: NestedDetails): string {
    inflection.upperCamelCase(inflection.tableFieldName(d.rightTable) + "_node_id_connect")
  }

  /** The local unique's attributes, each as the host names it on the left table's codec. */
  function UniqueAttributeNames(inflection: Inflection, d: NestedDetails): (r: seq<string>)
    ensures |r| == |d.localUnique.attributes|
    ensures forall i :: 0 <= i < |r| ==> r[i] == inflection.attribute(d.localUnique.attributes[i], d.leftTable.resource.codec)
  {
    seq(|d.localUnique.attributes|, i requires 0 <= i < |d.localUnique.attributes| =>
      inflection.attribute(d.localUnique.attributes[i], d.leftTable.resource.codec))
  }

  /** The key name: `pk` for a primary local unique, otherwise its attribute names joined with `_`. */
  function KeyName(inflection: Inflection, d: NestedDetails): string {
    if d.localUnique.isPrimary then "pk" else Join(UniqueAttributeNames(inflection, d), "_")
  }

  function NestedConnectByKeyInputType(inflection: Inflection, d: NestedDetails): string {
    inflection.upperCamelCase(d.tableFieldName + "_" + KeyName(inflection, d) + "_connect")
  }

  function NestedConnectByKeyFieldName(inflection: Inflection, d: NestedDetails): string {
    inflection.camelCase("connect_by_" + Join(UniqueAttributeNames(inflection, d), "_and_"))
  }

  function NestedCreateFieldName(): string {
    "create"
  }

  function NestedCreateInputType(inflection: Inflection, d: NestedDetails): string {
    inflection.upperCamelCase(FilterJoin(
      [Text(OwningTableFieldName(inflection, d)), Items(KeyAttributes(d)), Text("fkey"),
       Text(inflection.tableFieldName(d.rightTable)), Text("create"), Text("input")], "_"))
  }

  function NestedUpdateByNodeIdFieldName(inflection: Inflection): string {
    inflection.camelCase("update_by_" + inflection.nodeIdFieldName)
  }

  /** The constraint part of the update type name: a table field name followed by that side's attributes. */
  function ConstraintName(inflection: Inflection, d: NestedDetails): seq<string> {
    if d.isReverse then [inflection.tableFieldName(d.rightTable)] + d.remoteAttributes
    else [d.tableFieldName] + d.localAttributes
  }

  function NestedUpdateByNodeIdInputType(inflection: Inflection, d: NestedDetails): string {
    var rightTableFieldName := inflection.tableFieldName(d.rightTable);
    inflection.upperCamelCase(Join(
      [rightTableFieldName, "on", d.tableFieldName, "for"] + ConstraintName(inflection, d) + ["node", "id", "update"], "_"))
  }

  function NestedUpdateByKeyFieldName(d: NestedDetails): string { "" }

  function NestedUpdateByKeyInputType(d: NestedDetails): string { "" }

  function NestedUpdatePatchType(d: NestedDetails): string { "" }

  function NestedDeleteByNodeIdFieldName(inflection: Inflection): string {
    inflection.camelCase("delete_by_" + inflection.nodeIdFieldName)
  }

  function NestedDeleteByKeyFieldName(): string { "" }

  function NestedDeleteByNodeIdInputType(inflection: Inflection, d: NestedDetails): string {
    inflection.upperCamelCase(inflection.tableFieldName(d.leftTable.resource) + "_node_id_delete")
  }

  function NestedDeleteByKeyInputType(): string { "" }

  /** `join` on two or more elements: the first, the separator, then the join of the rest. */
  lemma JoinCons(a: string, rest: seq<string>, sep: string)
    requires |rest| >= 1
    ensures Join([a] + rest, sep) == a + sep + Join(rest, sep)
  {
    assert ([a] + rest)[1..] == rest;
  }

  /**
   * The connector type name joins, with `_`, the owning table's field name (dropped when
   * empty), the key attributes joined with COMMAS (an array inside `join` is written with
   * commas, and is kept even when empty), `fKey`, `inverse` when reverse, and `input`.
   */
  lemma ConnectorFieldTypeForm(inflection: Inflection, d: NestedDetails)
    ensures var owner := OwningTableFieldName(inflection, d);
      var tail := Join(KeyAttributes(d), ",") + "_fKey" + (if d.isReverse then "_inverse" else "") + "_input";
      NestedConnectorFieldType(inflection, d) == inflection.upperCamelCase(if owner == "" then tail else owner + "_" + tail)
  {
    var owner := OwningTableFieldName(inflection, d);
    var attrs := Join(KeyAttributes(d), ",");
    var last := if d.isReverse then ["inverse", "input"] else ["input"];
    var parts := [Text(owner), Items(KeyAttributes(d)), Text("fKey"),
                  if d.isReverse then Text("inverse") else Null, Text("input")];
    assert NestedConnectorFieldType(inflection, d) == inflection.upperCamelCase(Join(TruthyParts(parts), "_"));
    ConnectorTruthyParts(owner, KeyAttributes(d), d.isReverse);
    ConnectorTailJoin(attrs, d.isReverse);
    if owner == "" {
      assert TruthyParts(parts) == [attrs] + (["fKey"] + last);
    } else {
      assert TruthyParts(parts) == [owner] + ([attrs] + (["fKey"] + last));
      JoinCons(owner, [attrs] + (["fKey"] + last), "_");
    }
  }

  /** The connector type name's parts once the falsy ones are dropped. */
  lemma ConnectorTruthyParts(owner: string, attributes: seq<string>, isReverse: bool)
    ensures var last := if isReverse then ["inverse", "input"] else ["input"];
      TruthyParts([Text(owner), Items(attributes), Text("fKey"), if isReverse then Text("inverse") else Null, Text("input")])
      == (if owner == "" then [] else [owner]) + ([Join(attributes, ",")] + (["fKey"] + last))
  {
    var parts := [Text(owner), Items(attributes), Text("fKey"), if isReverse then Text("inverse") else Null, Text("input")];
    var last := if isReverse then ["inverse", "input"] else ["input"];
    assert TruthyParts(parts[4..]) == ["input"];
    assert TruthyParts(parts[3..]) == last;
    assert TruthyParts(parts[2..]) == ["fKey"] + last;
    assert TruthyParts(parts[1..]) == [Join(attributes, ",")] + (["fKey"] + last);
  }

  /** The fixed end of the connector type name's parts, joined. */
  lemma ConnectorTailJoin(attrs: string, isReverse: bool)
    ensures var last := if isReverse then ["inverse", "input"] else ["input"];
      Join([attrs] + (["fKey"] + last), "_") == attrs + "_fKey" + (if isReverse then "_inverse" else "") + "_input"
  {
    var last := if isReverse then ["inverse", "input"] else ["input"];
    var rest := "fKey" + (if isReverse then "_inverse" else "") + "_input";
    if isReverse {
      JoinCons("inverse", ["input"], "_");
      JoinCons("fKey", ["inverse", "input"], "_");
      assert ["fKey"] + last == ["fKey"] + ["inverse", "input"];
    } else {
      JoinCons("fKey", ["input"], "_");
    }
    assert Join(["fKey"] + last, "_") == rest;
    JoinCons(attrs, ["fKey"] + last, "_");
    assert attrs + "_" + rest == attrs + "_fKey" + (if isReverse then "_inverse" else "") + "_input";
  }

  /**
   * Since the key attributes are written with commas, two relations of one table whose key
   * attributes join to the same comma-separated text get the same connector type name, for
   * example the attributes `a`, `b` and a single attribute named `a,b`.
   */
  lemma ConnectorFieldTypeCommaCollision(inflection: Inflection, d: NestedDetails)
    requires !d.isReverse && d.localAttributes == ["a", "b"]
    ensures NestedConnectorFieldType(inflection, d) ==
            NestedConnectorFieldType(inflection, d.(localAttributes := ["a,b"]))
  {
    ConnectorFieldTypeForm(inflection, d);
    ConnectorFieldTypeForm(inflection, d.(localAttributes := ["a,b"]));
    JoinCons("a", ["b"], ",");
    assert ["a", "b"] == ["a"] + ["b"];
    assert Join(["a", "b"], ",") == "a,b";
    assert Join(["a,b"], ",") == "a,b";
  }

  /** The fixed end of the create type name's parts, joined. */
  lemma CreateTailJoin(attrs: string, right: string)
    ensures Join([attrs] + (["fkey"] + (if right == "" then [] else [right]) + ["create", "input"]), "_")
      == attrs + "_fkey" + (if right == "" then "" else "_" + right) + "_create_input"
  {
    var last := ["fkey"] + (if right == "" then [] else [right]) + ["create", "input"];
    var rest := "fkey" + (if right == "" then "" else "_" + right) + "_create_input";
    CreateRestJoin(right);
    JoinCons(attrs, last, "_");
    assert attrs + "_" + rest == attrs + "_fkey" + (if right == "" then "" else "_" + right) + "_create_input";
  }

  lemma CreateRestJoin(right: string)
    ensures Join(["fkey"] + (if right == "" then [] else [right]) + ["create", "input"], "_")
      == "fkey" + (if right == "" then "" else "_" + right) + "_create_input"
  {
    JoinCons("create", ["input"], "_");
    assert Join(["create", "input"], "_") == "create_input";
    if right == "" {
      JoinCons("fkey", ["create", "input"], "_");
      assert ["fkey"] + [] + ["create", "input"] == ["fkey"] + ["create", "input"];
    } else {
      JoinCons(right, ["create", "input"], "_");
      JoinCons("fkey", [right] + ["create", "input"], "_");
      assert ["fkey"] + [right] + ["create", "input"] == ["fkey"] + ([right] + ["create", "input"]);
    }
  }

  /**
   * The create type name joins the owning table's field name (dropped when empty), the key
   * attributes joined with commas, `fkey`, the right table's field name (dropped when
   * empty), `create` and `input`; unlike the connector type, no `inverse` part.
   */
  lemma CreateInputTypeForm(inflection: Inflection, d: NestedDetails)
    ensures var owner := OwningTableFieldName(inflection, d);
      var right := inflection.tableFieldName(d.rightTable);
      var tail := Join(KeyAttributes(d), ",") + "_fkey" + (if right == "" then "" else "_" + right) + "_create_input";
      NestedCreateInputType(inflection, d) == inflection.upperCamelCase(if owner == "" then tail else owner + "_" + tail)
  {
    var owner := OwningTableFieldName(inflection, d);
    var right := inflection.tableFieldName(d.rightTable);
    var attrs := Join(KeyAttributes(d), ",");
    var last := ["fkey"] + (if right == "" then [] else [right]) + ["create", "input"];
    var rest := "fkey" + (if right == "" then "" else "_" + right) + "_create_input";
    var parts := [Text(owner), Items(KeyAttributes(d)), Text("fkey"), Text(right), Text("create"), Text("input")];
    assert NestedCreateInputType(inflection, d) == inflection.upperCamelCase(Join(TruthyParts(parts), "_"));
    CreateTruthyParts(owner, KeyAttributes(d), right);
    CreateTailJoin(attrs, right);
    if owner == "" {
      assert TruthyParts(parts) == [attrs] + last;
    } else {
      assert TruthyParts(parts) == [owner] + ([attrs] + last);
      JoinCons(owner, [attrs] + last, "_");
    }
  }

  /** The create type name's parts once the falsy ones are dropped. */
  lemma CreateTruthyParts(owner: string, attributes: seq<string>, right: string)
    ensures var last := ["fkey"] + (if right == "" then [] else [right]) + ["create", "input"];
      TruthyParts([Text(owner), Items(attributes), Text("fkey"), Text(right), Text("create"), Text("input")])
      == (if owner == "" then [] else [owner]) + ([Join(attributes, ",")] + last)
  {
    var parts := [Text(owner), Items(attributes), Text("fkey"), Text(right), Text("create"), Text("input")];
    assert TruthyParts(parts[5..]) == ["input"];
    assert TruthyParts(parts[4..]) == ["create", "input"];
    assert TruthyParts(parts[3..]) == (if right == "" then [] else [right]) + ["create", "input"];
    assert TruthyParts(parts[2..]) == ["fkey"] + (if right == "" then [] else [right]) + ["create", "input"];
  }

  /**
   * A forward connector field name is the right table's field name, `_to_`, and the local
   * attributes joined with `_and_`: it depends neither on uniqueness nor on the remote
   * attributes nor on how many relations the left table has.
   */
  lemma ForwardConnectorFieldName(inflection: Inflection, d: NestedDetails, e: NestedDetails)
    requires !d.isReverse && !e.isReverse
    requires d.rightTable == e.rightTable && d.localAttributes == e.localAttributes
    ensures NestedConnectorFieldName(inflection, d) == NestedConnectorFieldName(inflection, e)
    ensures NestedConnectorFieldName(inflection, d) ==
      inflection.camelCase(inflection.tableFieldName(d.rightTable) + "_to_" + Join(d.localAttributes, "_and_"))
  {
  }

  /**
   * A reverse connector field name on a left table with at most one relation joins the local
   * attributes with `_and_ `, trailing space included: with two local attributes or more, a
   * space follows the first separator of the string handed to `camelCase`.
   */
  lemma ReverseSingleFkSpace(inflection: Inflection, d: NestedDetails)
    requires d.isReverse && !MultipleFks(d) && |d.localAttributes| >= 2
    ensures var stem := ConnectorFieldNameStem(inflection, d);
      var at := |ComputedReverseMutationName(inflection, d)| + |"_using_"| + |d.localAttributes[0]| + |"_and_"|;
      at < |stem| && stem[at] == ' '
  {
    var attrs := d.localAttributes;
    assert Join(attrs, "_and_ ") == attrs[0] + "_and_ " + Join(attrs[1..], "_and_ ");
  }

  /**
   * A reverse connector field name is the computed reverse name (singular when unique,
   * plural otherwise) followed by `_using_` and the local attributes when the left table has
   * at most one relation, and by `_to_`, the local and `_using_` the remote attributes
   * otherwise.
   */
  lemma ReverseConnectorFieldName(inflection: Inflection, d: NestedDetails)
    requires d.isReverse
    ensures var tfn := inflection.tableFieldName(d.rightTable);
      var computed := inflection.camelCase(if d.isUnique then tfn else inflection.pluralize(tfn));
      NestedConnectorFieldName(inflection, d) == inflection.camelCase(
        if MultipleFks(d) then computed + "_to_" + Join(d.localAttributes, "_and_") + "_using_" + Join(d.remoteAttributes, "_and_")
        else computed + "_using_" + Join(d.localAttributes, "_and_ "))
  {
  }

  /**
   * With a primary local unique, the connect-by-key type name is the left table's field name
   * followed by `_pk_connect`, whatever the key's attributes: every such relation of one
   * table shares the name.
   */
  lemma ConnectByKeyPrimary(inflection: Inflection, d: NestedDetails, e: NestedDetails)
    requires d.localUnique.isPrimary && e.localUnique.isPrimary && d.tableFieldName == e.tableFieldName
    ensures NestedConnectByKeyInputType(inflection, d) == inflection.upperCamelCase(d.tableFieldName + "_pk_connect")
    ensures NestedConnectByKeyInputType(inflection, d) == NestedConnectByKeyInputType(inflection, e)
  {
    assert d.tableFieldName + "_" + "pk" + "_connect" == d.tableFieldName + "_pk_connect";
  }

  /** Without a primary local unique, the key name is the inflected unique attributes joined with `_`. */
  lemma ConnectByKeyNonPrimary(inflection: Inflection, d: NestedDetails)
    requires !d.localUnique.isPrimary
    ensures NestedConnectByKeyInputType(inflection, d) == inflection.upperCamelCase(
      d.tableFieldName + "_" + Join(UniqueAttributeNames(inflection, d), "_") + "_connect")
  {
  }

  /**
   * The update type name's parts spread the constraint in place: after `for` come the
   * right table's field name and the remote attributes when reverse, and the left table's
   * field name (so it appears twice) and the local attributes otherwise.
   */
  lemma UpdateByNodeIdInputTypeParts(inflection: Inflection, d: NestedDetails)
    ensures var right := inflection.tableFieldName(d.rightTable);
      NestedUpdateByNodeIdInputType(inflection, d) == inflection.upperCamelCase(Join(
        if d.isReverse then [right, "on", d.tableFieldName, "for", right] + d.remoteAttributes + ["node", "id", "update"]
        else [right, "on", d.tableFieldName, "for", d.tableFieldName] + d.localAttributes + ["node", "id", "update"], "_"))
  {
    var right := inflection.tableFieldName(d.rightTable);
    var head := [right, "on", d.tableFieldName, "for"];
    if d.isReverse {
      assert head + ([right] + d.remoteAttributes) == [right, "on", d.tableFieldName, "for", right] + d.remoteAttributes;
    } else {
      assert head + ([d.tableFieldName] + d.localAttributes) == [right, "on", d.tableFieldName, "for", d.tableFieldName] + d.localAttributes;
    }
  }

  /**
   * The inflectors that need nothing from the relationship: the create field is `create`,
   * and the update-by-key, patch and delete-by-key names are all empty.
   */
  lemma FixedInflectors(d: NestedDetails)
    ensures NestedCreateFieldName() == "create"
    ensures NestedUpdateByKeyFieldName(d) == "" && NestedUpdateByKeyInputType(d) == ""
    ensures NestedUpdatePatchType(d) == ""
    ensures NestedDeleteByKeyFieldName() == "" && NestedDeleteByKeyInputType() == ""
  {
  }
}
