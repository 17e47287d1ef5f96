/**
 * The inflectors the relationship-mutations plugin adds: GraphQL field and type names for
 * a relationship record, built from its name, its attributes and its remote resource. The
 * case conversions and pluralisation are the host's.
 */
module RelationshipInflection {
  import opened Host
  import opened Strings
  import opened Relationships

  function ConnectByNodeIdFieldName(inflection: Inflection, relationship: RelationshipData): string {
    inflection.camelCase("connect-by-" + inflection.nodeIdFieldName)
  }

  function ConnectByNodeIdInputType(inflection: Inflection, relationship: RelationshipData): string {
    inflection.upperCamelCase(ConnectByNodeIdStem(relationship.name))
  }

  function ConnectByKeysFieldName(inflection: Inflection, relationship: RelationshipData): string {
    inflection.camelCase("connect-by-" + Join(Names(relationship.remoteAttributes), "-and-"))
  }

  function ConnectByKeysInputType(inflection: Inflection, relationship: RelationshipData): string {
    inflection.upperCamelCase(
      relationship.name + "-connect-by-" + Join(Names(relationship.remoteAttributes), "-and-") + "-input")
  }

  function CreateFieldName(inflection: Inflection, relationship: RelationshipData): string {
    inflection.camelCase("create")
  }

  function CreateInputType(inflection: Inflection, relationship: RelationshipData): string {
    inflection.upperCamelCase(CreateStem(relationship.name))
  }

  /** The attribute names the input field is named after: the local side unless the relation is a referencee. */
  function NamingAttributes(relationship: RelationshipData): seq<string> {
    Names(if !relationship.isReferencee then relationship.localAttributes else relationship.remoteAttributes)
  }

  /** The remote resource's name, pluralised unless the relation is unique. */
  function NamingResource(inflection: Inflection, relationship: RelationshipData): string {
    if relationship.isUnique then relationship.remoteResource.name
    else inflection.pluralize(relationship.remoteResource.name)
  }

  function InputFieldName(inflection: Inflection, relationship: RelationshipData): string {
    inflection.camelCase(
      NamingResource(inflection, relationship) + "-by-" + Join(NamingAttributes(relationship), "-and-"))
  }

  function InputType(inflection: Inflection, relationship: RelationshipData): string {
    inflection.upperCamelCase(InputStem(relationship.name))
  }

  /** The strings handed to `upperCamelCase` for the three type names the init hook registers. */
  function CreateStem(name: string): string { name + "-create-input" }
  function ConnectByNodeIdStem(name: string): string { name + "-connect-by-node-id-input" }
  function InputStem(name: string): string { name + "Input" }

  /**
   * The input field name is the camel-cased `<resource>-by-<a>-and-<b>...`, with the
   * singular resource name for a unique relation and the plural otherwise, and the local
   * attributes for a forward relation and the remote ones for a referencee.
   */
  lemma InputFieldNameCases(inflection: Inflection, r: RelationshipData)
    ensures r.isUnique && !r.isReferencee ==> (InputFieldName(inflection, r) ==
      inflection.camelCase(r.remoteResource.name + "-by-" + Join(Names(r.localAttributes), "-and-")))
    ensures r.isUnique && r.isReferencee ==> (InputFieldName(inflection, r) ==
      inflection.camelCase(r.remoteResource.name + "-by-" + Join(Names(r.remoteAttributes), "-and-")))
    ensures !r.isUnique && !r.isReferencee ==> (InputFieldName(inflection, r) ==
      inflection.camelCase(inflection.pluralize(r.remoteResource.name) + "-by-" + Join(Names(r.localAttributes), "-and-")))
    ensures !r.isUnique && r.isReferencee ==> (InputFieldName(inflection, r) ==
      inflection.camelCase(inflection.pluralize(r.remoteResource.name) + "-by-" + Join(Names(r.remoteAttributes), "-and-")))
  {
  }

  /**
   * The input field name ignores the relation's own name, its local resource and the
   * attributes of the side it is not named after: two relations that agree on the rest get
   * the same field name, so they collide on the table's input type.
   */
  lemma InputFieldNameCollides(inflection: Inflection, r1: RelationshipData, r2: RelationshipData)
    requires r1.remoteResource.name == r2.remoteResource.name
    requires r1.isUnique == r2.isUnique && r1.isReferencee == r2.isReferencee
    requires NamingAttributes(r1) == NamingAttributes(r2)
    ensures InputFieldName(inflection, r1) == InputFieldName(inflection, r2)
  {
  }

  /** The last characters of `s`. */
  function Suffix(s: string, n: nat): string
    requires n <= |s|
  {
    s[|s| - n..]
  }

  lemma SuffixOfAppend(a: string, b: string)
    ensures Suffix(a + b, |b|) == b
  {
  }

  /**
   * For one relation, the create, connect-by-node-id and relationship input type names
   * are built from three different strings, and relations with different names give
   * different strings for each kind: only a case conversion that merges them can make
   * two of the registered type names coincide.
   */
  lemma TypeStemsDistinct(n1: string, n2: string)
    ensures CreateStem(n1) != ConnectByNodeIdStem(n2)
    ensures CreateStem(n1) != InputStem(n2)
    ensures ConnectByNodeIdStem(n1) != InputStem(n2)
    ensures n1 != n2 ==> CreateStem(n1) != CreateStem(n2)
    ensures n1 != n2 ==> ConnectByNodeIdStem(n1) != ConnectByNodeIdStem(n2)
    ensures n1 != n2 ==> InputStem(n1) != InputStem(n2)
  {
    var create, connect, input := "-create-input", "-connect-by-node-id-input", "Input";
    SuffixOfAppend(n1, create);
    SuffixOfAppend(n2, connect);
    SuffixOfAppend(n2, input);
    SuffixOfAppend(n1, connect);
    // the 13th character from the end tells "-create-input" from "...node-id-input"
    assert Suffix(CreateStem(n1), 13)[0] == '-';
    assert Suffix(ConnectByNodeIdStem(n2), 13)[0] == 'n';
    // the 5th character from the end tells "...input" from "Input"
    assert Suffix(CreateStem(n1), 5)[0] == 'i';
    assert Suffix(ConnectByNodeIdStem(n1), 5)[0] == 'i';
    assert Suffix(InputStem(n2), 5)[0] == 'I';
    if n1 != n2 {
      assert CreateStem(n1)[..|n1|] == n1 && CreateStem(n2)[..|n2|] == n2;
      assert ConnectByNodeIdStem(n1)[..|n1|] == n1 && ConnectByNodeIdStem(n2)[..|n2|] == n2;
      assert InputStem(n1)[..|n1|] == n1 && InputStem(n2)[..|n2|] == n2;
    }
  }
}
