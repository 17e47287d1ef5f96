/**
 * What the plugins read from the schema-building host: resources, codecs, relations,
 * GraphQL input types, and the host's inflection and behaviour primitives. The primitives
 * are kept abstract: they are total function values the caller supplies, so every result
 * below holds for any case-conversion, pluralisation or permission rule the host uses.
 */
module Host {
  import opened Wrappers

  /** A codec attribute: what the plugins copy around without looking inside. */
  datatype PgAttribute = PgAttribute(typeName: string, notNull: bool)

  /** A row codec: its attributes in key order, as `codec.attributes` enumerates them. */
  datatype Codec = Codec(name: string, attributes: seq<(string, PgAttribute)>)

  /** A unique constraint of a table; at most one of a table's uniques is primary. */
  datatype Unique = Unique(attributes: seq<string>, isPrimary: bool)

  /** A resource of the registry; `isTable` is `isPgTableResource`. */
  datatype PgResource = PgResource(name: string, codec: Codec, uniques: seq<Unique>, isTable: bool)

  /** One entry of `resource.getRelations()`: attribute NAMES on each side. */
  datatype Relation = Relation(
    localAttributes: seq<string>,
    remoteResource: PgResource,
    remoteAttributes: seq<string>,
    isUnique: bool,
    isReferencee: bool)

  /** A resource of the registry together with its relations in `getRelations()` order. */
  datatype RegistryResource = RegistryResource(resource: PgResource, relations: seq<(string, Relation)>)

  /** GraphQL input types: a named type and the two wrappers the plugins build. */
  datatype GqlType = Named(name: string) | NonNull(ofType: GqlType) | ListOf(ofType: GqlType)

  /** A field of an input object type. */
  datatype InputField = InputField(name: string, fieldType: GqlType)

  /**
   * A relationship field's type: the named type itself when `single`, otherwise a list of
   * the non-null named type.
   */
  function FieldType(typeName: string, single: bool): (t: GqlType)
    ensures single <==> t.Named?
    ensures single ==> t.name == typeName
    ensures !single ==> t.ListOf? && t.ofType.NonNull? && t.ofType.ofType == Named(typeName)
  {
    if single then Named(typeName) else ListOf(NonNull(Named(typeName)))
  }

  /** What the host's schema offers: a table's input and patch types and type registration. */
  datatype Schema = Schema(
    // the fields of `getGraphQLTypeByPgCodec(codec, 'input')`
    inputFields: PgResource -> seq<InputField>,
    // the fields of `getGraphQLTypeByPgCodec(codec, 'patch')` when that is an input object type
    patchFields: PgResource -> Option<seq<InputField>>,
    // whether `registerInputObjectType(name, ...)` returns rather than throws
    registers: string -> bool)

  /** The host's naming primitives (`build.inflection`). */
  datatype Inflection = Inflection(
    camelCase: string -> string,
    upperCamelCase: string -> string,
    pluralize: string -> string,
    tableFieldName: PgResource -> string,
    attribute: (string, Codec) -> string,
    nodeIdFieldName: string,
    createField: PgResource -> string,
    updateNodeField: (PgResource, seq<string>) -> string)

  /** The host's behaviour and permission predicates. */
  datatype Behavior = Behavior(
    isNestedMutable: PgResource -> bool,
    isInsertable: PgResource -> bool,
    isUpdatable: PgResource -> bool,
    isDeletable: PgResource -> bool,
    attributeInsertable: (Codec, string) -> bool)

  /** The names of a codec's attributes, in key order (`Object.keys(codec.attributes)`). */
  function AttributeNames(codec: Codec): (r: seq<string>)
    ensures |r| == |codec.attributes|
    ensures forall i :: 0 <= i < |r| ==> r[i] == codec.attributes[i].0
  {
    seq(|codec.attributes|, i requires 0 <= i < |codec.attributes| => codec.attributes[i].0)
  }

  /** The context scope the input-object fields hook reads. */
  datatype FieldsScope = FieldsScope(isPgRowType: bool, pgCodec: Option<Codec>, isInputType: bool, isPgPatch: bool)
}
