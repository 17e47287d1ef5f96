# Nested mutations for PostGraphile, modelled in Dafny

This project models the core of the grafserv-hono repository's nested-mutations plugin.
The plugin lets one GraphQL mutation create or link related rows through foreign-key
relations. It also models the Hono adapter's header normalisation. Two generations of the plugin are modelled:

- **The relationship-mutations plugin.**
  - `getRelationships` extracts one record per nested-mutable relation of a table.
  - Inflectors name fields and types after those records.
  - The `build` hook sets up shared maps on the build object.
  - The `init` hook registers, per relationship, a create input type, a
    connect-by-node-id input type and the relationship input type.
  - The connect-by-node-id plan points a parent row at a node id, or each child row back at
    the parent.
  - The forward-insert step inserts a related row and links the parent to it.
  - The input-object fields hook adds a connector field per relationship.
  - The root-field hook wraps a root create mutation so that the connector paths are applied
    to the row it inserts.
- **The v4-to-v5 port.**
  - The nested inflectors.
  - `getNestedRelationships`, which builds the relationship records with their mutation fields.
  - The create, connect, update, delete and input type plugins, which register input
    object types from those records through a shared set of claimed type names.
  - The second draft of the init-schema plugin.
- **`processHeaders`** of the Hono adapter.

Host services are parameters: the inflection primitives, behaviour checks, the GraphQL type
registry and node-id handlers. They are fields of the `Inflection`, `Behavior` and `Schema`
values in `host.dfy`. A `registerInputObjectType` call is an entry appended to a log.

What the source updates in place is a class: the v4 build object (`RelationshipBuild`), the
v5 build object (`NestedBuild`) and plan steps (`MutationStep`). Each init hook is a method
with the source's loops. It is proved equal to a fold of a step function. The properties
(each type name registered at most once, the claimed set only grows, a skipped resource
changes nothing) are proved about those folds.

## Model

Source paths are relative to the repository root.

| member | source | states |
|---|---|---|
| Headers.ProcessHeaders | packages/hono-adapter/src/utils.ts:7-25 | The digest holds exactly the keys whose value is not null or undefined. A string is copied, a number is written in decimal, and an array is joined with newlines. |
| Headers.DigestIdempotent | packages/hono-adapter/src/utils.ts:7-25 | Feeding a digest back through `processHeaders` gives the same digest: every value is already a string. |
| Headers.NumberHeaderRoundTrip | packages/hono-adapter/src/utils.ts:18-19 | A number header is present in the digest, and parsing its text gives back the number. |
| Relationships.ResolveAttributes | packages/nested-mutations-plugin/src/relationships.ts:33-43 | Succeeds iff every name is in the codec. On success, one attribute per name, in order, each carrying its key as `name`. Otherwise it throws "Attribute … not found in codec" for the first missing name. |
| Relationships.Kept | packages/nested-mutations-plugin/src/relationships.ts:28-31 | Keeps exactly the relations whose remote resource is nested-mutable. |
| Relationships.KeptAppend | packages/nested-mutations-plugin/src/relationships.ts:28-62 | The reduce keeps the `getRelations()` order: filtering two runs of entries gives the first run's kept relations, then the second's. With `Kept` on one entry, this fixes the output as the ordered filter. |
| Relationships.RelationshipRecord | packages/nested-mutations-plugin/src/relationships.ts:33-62 | Succeeds iff both attribute lists resolve, and then describes the relation. A failure carries "Attribute k not found in codec" for a name k missing on its side. A missing local name makes it fail with that name's message, since the local side is resolved first. |
| Relationships.Collect | packages/nested-mutations-plugin/src/relationships.ts:28-63 | The reduce succeeds iff every kept relation resolves. On success it gives one record per relation, in order. On failure it throws the error of the first kept relation that does not resolve. |
| Relationships.GetRelationships | packages/nested-mutations-plugin/src/relationships.ts:24-63 | Succeeds iff every nested-mutable relation resolves, and then gives exactly one record per such relation. Otherwise it throws the first unresolvable relation's error, which is "Attribute k not found in codec" for some name k. |
| Relationships.GetRelationshipsDescribe | packages/nested-mutations-plugin/src/relationships.ts:45-62 | Record i describes kept relation i: the same name and flags, the same remote resource, named attributes in order, and the inflector's field name. |
| Relationships.MissingLocalAttributeThrows | packages/nested-mutations-plugin/src/relationships.ts:33-37 | A nested-mutable relation whose local attribute is missing from the codec makes the whole extraction fail, with an "Attribute k not found in codec" message. |
| Relationships.MissingRemoteAttributeThrows | packages/nested-mutations-plugin/src/relationships.ts:39-43 | The same holds, with the same kind of message, for a remote attribute missing from the remote codec. |
| ForwardInsert.PrimaryKey | packages/nested-mutations-plugin/src/steps/forward-insert.ts:30 | Returns a primary unique of the table, or none when no unique is primary. |
| ForwardInsert.InsertableNames | packages/nested-mutations-plugin/src/steps/forward-insert.ts:25-28 | Keeps exactly the codec attributes the behaviour allows to be inserted. |
| ForwardInsert.ForwardInsertStep | packages/nested-mutations-plugin/src/steps/forward-insert.ts:12-50 | Fails iff the item is not object-like, with the message "Expected input to be an object, but got object" (a step's `typeof` is always `object`), and then leaves the parent untouched. Otherwise it returns a fresh insert on the remote resource holding the insert values. The parent gets the link assignments and nothing else. |
| ForwardInsert.CopyInsertable | packages/nested-mutations-plugin/src/steps/forward-insert.ts:24-41 | The copying loop leaves the new insert holding exactly `InsertValues`: every insert-permitted attribute outside the primary key, read from the input object. |
| ForwardInsert.LinkParent | packages/nested-mutations-plugin/src/steps/forward-insert.ts:43-48 | The linking loop leaves the parent's values equal to `Links` over every remote attribute. |
| ForwardInsert.LinksOnlyTouchPairedLocals | packages/nested-mutations-plugin/src/steps/forward-insert.ts:44-49 | An attribute that is not a paired local attribute keeps its old value. |
| ForwardInsert.LinksSetPairedLocals | packages/nested-mutations-plugin/src/steps/forward-insert.ts:44-49 | With distinct local names, each non-empty paired local attribute reads the insert's remote attribute at the same index. |
| ForwardInsert.LinksIgnoreExtraRemotes | packages/nested-mutations-plugin/src/steps/forward-insert.ts:44-49 | Remote attributes beyond the local list change nothing. |
| ForwardInsert.InsertValuesContents | packages/nested-mutations-plugin/src/steps/forward-insert.ts:25-42 | The insert holds exactly the insertable attributes outside the primary key. Each is read from the input field the inflector names for it. |
| Steps.MutationStep.Set | packages/nested-mutations-plugin/src/steps/forward-insert.ts:40 | `set` replaces exactly that attribute's expression and leaves the others. |
| Steps.MutationStep.Get | packages/nested-mutations-plugin/src/steps/forward-insert.ts:47 | `get` is a deferred read of this step's attribute. |
| RelationshipInflection.InputFieldNameCases | packages/nested-mutations-plugin/src/relationship-mutations-plugin.ts:174-191 | The relationship input field name in all four cases: a unique or a list relation, forward or referencee. It is the singular or plural resource name, then `-by-`, then the local or remote attributes. |
| RelationshipInflection.InputFieldNameCollides | packages/nested-mutations-plugin/src/relationship-mutations-plugin.ts:174-191 | Two relations that agree on the remote name, the flags and the naming attributes get the same input field name, whatever their own names are. |
| RelationshipInflection.TypeStemsDistinct | packages/nested-mutations-plugin/src/relationship-mutations-plugin.ts:157-194 | The create, connect-by-node-id and input type stems never coincide. Within one kind, different relation names give different stems. |
| RelationshipInit.RelationshipBuild.constructor | packages/nested-mutations-plugin/src/relationship-mutations-plugin.ts:200-211 | The `build` hook starts every shared map empty. |
| RelationshipInit.CreateFields | packages/nested-mutations-plugin/src/relationship-mutations-plugin.ts:293-327 | The create type has the table's input fields with the same names, in order. For a referencee, one non-null wrapper is removed from each; otherwise the fields are unchanged. |
| RelationshipInit.RelationshipInputFields | packages/nested-mutations-plugin/src/relationship-mutations-plugin.ts:409-587 | One field per registered type: create, then connect-by-node-id. Each field is the named type exactly when the relation is singular, and a list otherwise. |
| RelationshipInit.Init | packages/nested-mutations-plugin/src/relationship-mutations-plugin.ts:213-596 | The hook's new state and its error equal the fold over the resources. The connector and root-field maps are left unchanged. |
| RelationshipInit.ProcessResource | packages/nested-mutations-plugin/src/relationship-mutations-plugin.ts:226-231 | One table's work (its relationships fetched, recorded under its name, then walked) equals the per-resource step of the fold; a throw leaves the state as it was and reports the message. |
| RelationshipInit.ProcessRelationships | packages/nested-mutations-plugin/src/relationship-mutations-plugin.ts:243-592 | The `forEach` over one resource's relationships equals the relationship fold. |
| RelationshipInit.RegisterRelationship | packages/nested-mutations-plugin/src/relationship-mutations-plugin.ts:257-592 | It appends the step's registrations in call order. It records the mutation fields under the type name iff the host accepts that type. |
| RelationshipInit.RegisterCreate | packages/nested-mutations-plugin/src/relationship-mutations-plugin.ts:257-337 | It registers the create type only for an insertable remote. The returned entry matches that outcome. |
| RelationshipInit.RegisterConnect | packages/nested-mutations-plugin/src/relationship-mutations-plugin.ts:343-387 | It registers the connect-by-node-id type only for an updatable remote. The returned entry matches that outcome. |
| RelationshipInit.FoldStopsAtError | packages/nested-mutations-plugin/src/relationship-mutations-plugin.ts:222-229 | Once `getRelationships` has thrown, the remaining resources change nothing. |
| RelationshipInit.StepRegistrationsShape | packages/nested-mutations-plugin/src/relationship-mutations-plugin.ts:257-592 | A create type is registered only for an insertable remote, and a connect type only for an updatable one. At most one relationship input type is registered, and it comes last. |
| RelationshipInit.InitRegistersOnce | packages/nested-mutations-plugin/src/relationship-mutations-plugin.ts:249-255 | Over a whole pass, the types are gated on behaviour and no relationship input type name is registered twice. |
| RelationshipInit.RelationshipsFoldPushesAll | packages/nested-mutations-plugin/src/relationship-mutations-plugin.ts:244-255 | Every relationship pushes its input field entry, including one whose type name was already seen, because the push comes before the seen check. |
| RelationshipConnect.NodeIdSpec | packages/nested-mutations-plugin/src/relationship-mutations-plugin.ts:498-501 | The spec has exactly the handler's keys. Each key maps to its part of the decoded node id. |
| RelationshipConnect.ConnectByNodeIdPlan | packages/nested-mutations-plugin/src/relationship-mutations-plugin.ts:481-562 | It throws iff there is no handler. For an object, it sets the paired local attributes and returns the parent. For a list, it plans one update per object element and warns for the others. Any other argument is warned about and changes nothing. |
| RelationshipConnect.ObjectLinksOnlyPaired | packages/nested-mutations-plugin/src/relationship-mutations-plugin.ts:504-513 | The object branch writes only a local attribute, with the node id part of a key whose remote attribute sits at that local attribute's index. |
| RelationshipConnect.ObjectLinksSetPaired | packages/nested-mutations-plugin/src/relationship-mutations-plugin.ts:504-513 | With distinct local names, every key that names a paired remote attribute leaves its local attribute set to that key's part. |
| RelationshipConnect.BackLinksKeys | packages/nested-mutations-plugin/src/relationship-mutations-plugin.ts:529-539 | The back-link record has exactly the remote attributes that have a local partner. |
| RelationshipConnect.BackLinksValues | packages/nested-mutations-plugin/src/relationship-mutations-plugin.ts:529-539 | With distinct remote names, each such remote attribute maps to the parent's read of its partner. |
| RelationshipConnect.ListFoldCounts | packages/nested-mutations-plugin/src/relationship-mutations-plugin.ts:518-555 | The list branch gives one update per object element, in order, and one warning per other element. |
| RelationshipFields.ConnectorFieldsNames | packages/nested-mutations-plugin/src/relationship-mutations-plugin.ts:597-687 | The connector record names each relationship's input field exactly once, and names nothing else. |
| RelationshipFields.MapRootFields | packages/nested-mutations-plugin/src/relationship-mutations-plugin.ts:734-769 | An insert-less table maps nothing. An insertable table maps its create field to one path per connector: `input`, the table field name, then the connector. |
| RelationshipFields.AllPaths | packages/nested-mutations-plugin/src/relationship-mutations-plugin.ts:759-761 | No base path gives no paths. One base path gives that path extended by each name, in order. |
| RelationshipFields.InputObjectFieldsHook | packages/nested-mutations-plugin/src/relationship-mutations-plugin.ts:597-687 | A type that is not a table's input or patch type keeps its fields. A table type gets its connector fields added, its connector infos appended and its root paths recorded, or it fails with the `getRelationships` error. A failure, like a non-table type, leaves the connector and root-field maps unchanged. The init maps are always left unchanged. |
| RelationshipFields.AddConnectorFields | packages/nested-mutations-plugin/src/relationship-mutations-plugin.ts:597-687 | The reduce builds the connector record and appends one info per relationship, in order, under the codec's name. |
| RelationshipFields.RecordRootFields | packages/nested-mutations-plugin/src/relationship-mutations-plugin.ts:597-687 | Each root field's paths and resource are recorded, and nothing else changes. |
| RelationshipFields.AppendInfosSnoc | packages/nested-mutations-plugin/src/relationship-mutations-plugin.ts:613-621 | Appending one more info under the codec's name, entry by entry as the reduce does, is the same as appending all the infos at once; no other entry changes. |
| RelationshipFields.AddConnector | packages/nested-mutations-plugin/src/relationship-mutations-plugin.ts:609-662 | One step of the reduce takes the record and the map from the first `i` relationships to the first `i + 1`, and leaves the other build maps alone. |
| RelationshipFields.RunWrapped | packages/nested-mutations-plugin/src/relationship-mutations-plugin.ts:689-725 | The wrapped plan returns the parent iff there is no inner plan. Otherwise it applies exactly the recorded paths, in order. |
| RelationshipFields.RootFieldHook | packages/nested-mutations-plugin/src/relationship-mutations-plugin.ts:689-725 | A recorded root mutation field is wrapped with its recorded paths. Every other field comes back as it was. |
| RelationshipFields.CreateMutationAppliesConnectors | packages/nested-mutations-plugin/src/relationship-mutations-plugin.ts:689-769 | Once the build holds the fields hook's recorded maps, the root-field hook wraps an insertable table's create mutation, mapped to that table. Its plan returns the parent iff the mutation has no plan of its own; otherwise it applies one path per connector field, in order, each under `input` and the table field name. |
| Records.PutNames | packages/nested-mutations-plugin/src/v4_to_v5/input-type-plugin.ts:124-213 | An object spread with a new key keeps the names distinct and adds exactly that name. |
| Records.ExtendNames | packages/nested-mutations-plugin/src/v4_to_v5/input-type-plugin.ts:254-288 | Extending distinct fields keeps them distinct. The result names exactly the fields of both records. |
| Records.ExtendDistinct | packages/nested-mutations-plugin/src/v4_to_v5/create-type-plugin.ts:49-69 | Putting fields with new, distinct names appends them in order. |
| NestedInflection.ConnectorFieldTypeForm | packages/nested-mutations-plugin/src/v4_to_v5/inflection-plugin.ts:10-34 | The connector type name joins these parts with `_`: the owning table (dropped when empty), the key attributes joined with commas, `fKey`, `inverse` when reverse, and `input`. |
| NestedInflection.ConnectorFieldTypeCommaCollision | packages/nested-mutations-plugin/src/v4_to_v5/inflection-plugin.ts:26 | Key attributes `a`, `b` and a single attribute `a,b` give the same connector type name. |
| NestedInflection.CreateInputTypeForm | packages/nested-mutations-plugin/src/v4_to_v5/inflection-plugin.ts:101-118 | The create type name joins the owner, the comma-joined key attributes, `fkey`, the right table (dropped when empty), `create` and `input`. |
| NestedInflection.ForwardConnectorFieldName | packages/nested-mutations-plugin/src/v4_to_v5/inflection-plugin.ts:46-55 | A forward connector field name depends only on the right table and the local attributes. |
| NestedInflection.ReverseConnectorFieldName | packages/nested-mutations-plugin/src/v4_to_v5/inflection-plugin.ts:46-69 | A reverse connector field name has the `_using_` form for a single-relation table, and the `_to_ … _using_` form otherwise. |
| NestedInflection.ReverseSingleFkSpace | packages/nested-mutations-plugin/src/v4_to_v5/inflection-plugin.ts:58-62 | With two or more local attributes, the single-relation reverse form puts a space after the first `_and_` separator. |
| NestedInflection.ConnectByKeyPrimary | packages/nested-mutations-plugin/src/v4_to_v5/inflection-plugin.ts:77-88 | A primary local unique gives `<table>_pk_connect`, so all such relations of a table share the name. |
| NestedInflection.ConnectByKeyNonPrimary | packages/nested-mutations-plugin/src/v4_to_v5/inflection-plugin.ts:77-88 | Otherwise the key name is the inflected unique attributes joined with `_`. |
| NestedInflection.UpdateByNodeIdInputTypeParts | packages/nested-mutations-plugin/src/v4_to_v5/inflection-plugin.ts:122-144 | The constraint is spread after `for`. For a forward relation, the left table name appears twice. |
| NestedInflection.FixedInflectors | packages/nested-mutations-plugin/src/v4_to_v5/inflection-plugin.ts:98-165 | The create field is `create`. The update-by-key, patch and delete-by-key names are empty. |
| NestedTypes.HasNestedFieldsIff | packages/nested-mutations-plugin/src/v4_to_v5/input-type-plugin.ts:84-90 | A record has nested fields iff one of its optional keys is present. |
| NestedRelationships.FirstCovered | packages/nested-mutations-plugin/src/v4_to_v5/get-nested-relationships.ts:29-47 | The index of the first unique whose attributes are all covered, or -1 iff none is covered. |
| NestedRelationships.ChosenUnique | packages/nested-mutations-plugin/src/v4_to_v5/get-nested-relationships.ts:29-64 | The chosen unique is the first covered one, or empty and not primary. Its attributes lie within the side's attributes. Its codecs are exactly the codec attributes it names. |
| NestedRelationships.ChosenUniqueIsFirst | packages/nested-mutations-plugin/src/v4_to_v5/get-nested-relationships.ts:29-47 | When unique j is covered, the chosen unique is a covered one at or before j. |
| NestedRelationships.GetNestedRelationships | packages/nested-mutations-plugin/src/v4_to_v5/get-nested-relationships.ts:4-140 | Fails iff the table has relations and the build lacks a node-id handler getter, with the source's message. Otherwise it gives one record per relation. |
| NestedRelationships.GetNestedRelationshipsDescribe | packages/nested-mutations-plugin/src/v4_to_v5/get-nested-relationships.ts:20-136 | Each record copies its relation's name, table, flags and attributes. `isReverse` is `isReferencee`. Its local and remote uniques are what `ChosenUnique` picks for each side's attributes: the first covering unique, whose codecs are exactly those attributes. The field name is the connector field name. |
| NestedRelationships.GetNestedRelationshipsFields | packages/nested-mutations-plugin/src/v4_to_v5/get-nested-relationships.ts:83-136 | Every record has `create`, exactly one connect-by-key entry, empty update- and delete-by-key lists, and a delete-by-node-id entry with empty names. It has the node-id fields iff a handler exists. |
| NestedState.PassFoldAddsOnce | packages/nested-mutations-plugin/src/v4_to_v5/create-type-plugin.ts:14-76 | When every step registers each name at most once and only if unseen, so does a whole pass over the resources. |
| NestedState.PassFoldSkips | packages/nested-mutations-plugin/src/v4_to_v5/create-type-plugin.ts:16-25 | A pass over resources that are not tables, or that have no relationship list, changes nothing. |
| NestedState.TypeNames | packages/nested-mutations-plugin/src/v4_to_v5/connect-type-plugin.ts:69-76 | The set holds exactly the type names of the entries. |
| NestedState.AddTypeNames | packages/nested-mutations-plugin/src/v4_to_v5/connect-type-plugin.ts:69-76 | The by-key loop adds exactly the entries' type names to the set, and registers nothing. |
| CreateTypes.CreateStep | packages/nested-mutations-plugin/src/v4_to_v5/create-type-plugin.ts:26-74 | It registers at most once, and only an unseen name. It registers iff `create` is present and unseen. Otherwise the state is unchanged. |
| CreateTypes.RegisterCreateType | packages/nested-mutations-plugin/src/v4_to_v5/create-type-plugin.ts:26-74 | The loop body on the build object equals `CreateStep`. |
| CreateTypes.InitCreateTypes | packages/nested-mutations-plugin/src/v4_to_v5/create-type-plugin.ts:14-76 | The init hook equals the fold of `CreateStep`, and registers each name at most once. |
| CreateTypes.CreateTypesOnce | packages/nested-mutations-plugin/src/v4_to_v5/create-type-plugin.ts:32-33 | A whole pass registers each create type name at most once, and only if unseen before. |
| CreateTypes.CreateStepRegisters | packages/nested-mutations-plugin/src/v4_to_v5/create-type-plugin.ts:36-73 | The registered type carries the inverse flag and the right table. Its fields name exactly the table's input fields, once each. |
| ConnectTypes.ConnectStep | packages/nested-mutations-plugin/src/v4_to_v5/connect-type-plugin.ts:30-77 | It registers at most one type, iff the node-id entry is present and unseen. The set grows by that name and the by-key names. |
| ConnectTypes.RegisterConnectTypes | packages/nested-mutations-plugin/src/v4_to_v5/connect-type-plugin.ts:30-77 | The loop body on the build object equals `ConnectStep`. |
| ConnectTypes.InitConnectTypes | packages/nested-mutations-plugin/src/v4_to_v5/connect-type-plugin.ts:18-78 | The init hook equals the fold of `ConnectStep`, and registers each name at most once. |
| ConnectTypes.ConnectTypesOnce | packages/nested-mutations-plugin/src/v4_to_v5/connect-type-plugin.ts:36-41 | A whole pass registers each connect-by-node-id name at most once. |
| ConnectTypes.ConnectStepRegisters | packages/nested-mutations-plugin/src/v4_to_v5/connect-type-plugin.ts:44-65 | The registered type is for the right table, and has exactly the non-null `ID` node id field. |
| UpdateTypes.PatchFields | packages/nested-mutations-plugin/src/v4_to_v5/update-type-plugin.ts:61-81 | Fails with "Expected … to be an input object type" iff the table has no patch input type. Otherwise it copies that type's fields. |
| UpdateTypes.UpdateStep | packages/nested-mutations-plugin/src/v4_to_v5/update-type-plugin.ts:30-98 | It registers at most one type, iff the update-by-node-id entry is present and unseen. The set grows by that name and the by-key names. |
| UpdateTypes.RegisterUpdateTypes | packages/nested-mutations-plugin/src/v4_to_v5/update-type-plugin.ts:30-98 | The loop body on the build object equals `UpdateStep`. |
| UpdateTypes.InitUpdateTypes | packages/nested-mutations-plugin/src/v4_to_v5/update-type-plugin.ts:18-99 | The init hook equals the fold of `UpdateStep`, and registers each name at most once. |
| UpdateTypes.UpdateTypesOnce | packages/nested-mutations-plugin/src/v4_to_v5/update-type-plugin.ts:36-41 | A whole pass registers each update-by-node-id name at most once. |
| UpdateTypes.UpdateStepRegisters | packages/nested-mutations-plugin/src/v4_to_v5/update-type-plugin.ts:44-86 | The fields are the node id and `patch` (only `patch` when the node id field is itself named `patch`). The patch type succeeds iff the table has a patch type. |
| DeleteTypes.DeleteStep | packages/nested-mutations-plugin/src/v4_to_v5/delete-type-plugin.ts:29-74 | As written, it registers iff the entry is present and not in the set, and then appends exactly the delete entry. Otherwise the state is unchanged. It never changes the set. |
| DeleteTypes.DeleteStepIgnoresKeys | packages/nested-mutations-plugin/src/v4_to_v5/delete-type-plugin.ts:67-73 | The delete-by-key entries do not affect the step. |
| DeleteTypes.DeleteTypesKeepSet | packages/nested-mutations-plugin/src/v4_to_v5/delete-type-plugin.ts:17-75 | As written, a whole pass leaves the set of type names unchanged. |
| DeleteTypes.DeleteRegistersTwice | packages/nested-mutations-plugin/src/v4_to_v5/delete-type-plugin.ts:35-42 | As written, two relationships with the same unseen entry register that name twice, so the step is not register-once. |
| DeleteTypes.DeleteStepCorrected | packages/nested-mutations-plugin/src/v4_to_v5/delete-type-plugin.ts:35-63 | Claiming the name first: it registers at most once, iff present and unseen, exactly the delete entry. |
| DeleteTypes.RegisterDeleteType | packages/nested-mutations-plugin/src/v4_to_v5/delete-type-plugin.ts:29-74 | As written, the loop body on the build object equals `DeleteStep`: it only reads the set of type names. |
| DeleteTypes.InitDeleteTypes | packages/nested-mutations-plugin/src/v4_to_v5/delete-type-plugin.ts:17-75 | As written, the init hook equals the fold of `DeleteStep` over the resources, and the set of type names comes out unchanged. |
| DeleteTypes.RegisterDeleteTypeCorrected | packages/nested-mutations-plugin/src/v4_to_v5/delete-type-plugin.ts:35-63 | With the correction, the loop body on the build object equals `DeleteStepCorrected`. |
| DeleteTypes.InitDeleteTypesCorrected | packages/nested-mutations-plugin/src/v4_to_v5/delete-type-plugin.ts:17-75 | With the correction, the init hook equals the fold of `DeleteStepCorrected`, and registers each name at most once. |
| DeleteTypes.DeleteTypesOnce | packages/nested-mutations-plugin/src/v4_to_v5/delete-type-plugin.ts:35-42 | With the correction, a whole pass registers each delete-by-node-id name at most once. |
| DeleteTypes.DeleteEntryShape | packages/nested-mutations-plugin/src/v4_to_v5/delete-type-plugin.ts:42-63 | The registered type is for the right table, and has exactly the non-null `ID` node id field. |
| InputTypes.EntryField | packages/nested-mutations-plugin/src/v4_to_v5/input-type-plugin.ts:47-50 | An absent entry spreads nothing. A present one gives one field, named by the entry and typed singular or as a list. |
| InputTypes.ConnectorEntries | packages/nested-mutations-plugin/src/v4_to_v5/input-type-plugin.ts:124-213 | Every connector entry is of the relationship's kind: singular for a forward or unique relationship, a list otherwise. |
| InputTypes.InputStep | packages/nested-mutations-plugin/src/v4_to_v5/input-type-plugin.ts:64-217 | The create and update root field names always map to the left codec, and no other key changes. It registers iff the relationship has nested fields and an unseen name, and registers exactly the connector type. |
| InputTypes.RegisterInputType | packages/nested-mutations-plugin/src/v4_to_v5/input-type-plugin.ts:64-217 | The loop body on the build object equals `InputStep`. |
| InputTypes.InitInputTypes | packages/nested-mutations-plugin/src/v4_to_v5/input-type-plugin.ts:52-219 | The init hook equals the fold of `InputStep`, and registers each name at most once. |
| InputTypes.InputTypesOnce | packages/nested-mutations-plugin/src/v4_to_v5/input-type-plugin.ts:104-111 | A whole pass registers each connector type name at most once. |
| InputTypes.ConnectorTypeFieldsShape | packages/nested-mutations-plugin/src/v4_to_v5/input-type-plugin.ts:124-213 | The connector fields are of the relationship's kind and have distinct names: exactly the present entries' names. They are those entries when the names differ. |
| InputTypes.NestedFieldsHook | packages/nested-mutations-plugin/src/v4_to_v5/input-type-plugin.ts:222-289 | A type that is neither a patch type nor an input row type, or whose codec has no relationship list, keeps its fields. |
| InputTypes.NestedFieldsHookNames | packages/nested-mutations-plugin/src/v4_to_v5/input-type-plugin.ts:254-288 | The hooked fields have distinct names: exactly the type's own and the relationships' field names. |
| InputTypes.RootFieldHook | packages/nested-mutations-plugin/src/v4_to_v5/input-type-plugin.ts:290-324 | The field itself is kept. Its plan is wrapped iff it is a root mutation field mapped to a codec with a relationship. |
| InputTypes.RunDelegating | packages/nested-mutations-plugin/src/v4_to_v5/input-type-plugin.ts:309-319 | The delegating plan gives nothing without an inner plan, and otherwise gives the inner plan's step. |
| InputTypes.RootFieldHookTransparent | packages/nested-mutations-plugin/src/v4_to_v5/input-type-plugin.ts:290-324 | Whatever the hook decides, the field's plan returns the same step as before. |
| NestedInitSchema.RelationshipInputFieldName | packages/nested-mutations-plugin/src/v4_to_v5/init-schema-plugin.ts:80-91 | The connector field is named by the relation's name itself. |
| NestedInitSchema.DraftNamesByRelationName | packages/nested-mutations-plugin/src/v4_to_v5/init-schema-plugin.ts:80-91 | Relations with the same name on different tables get the same connector type, create type and field names. |
| NestedInitSchema.ConnectorFields | packages/nested-mutations-plugin/src/v4_to_v5/init-schema-plugin.ts:194-239 | Fails iff the remote is not insertable, since the missing `insertable` entry is read. Otherwise it gives one create field, singular for a unique or forward relation. |
| NestedInitSchema.DraftStep | packages/nested-mutations-plugin/src/v4_to_v5/init-schema-plugin.ts:127-239 | The connector name is always in the set afterwards. The log only grows, and only when the name was unseen. It then ends with the connector entry, preceded by the create entry iff the remote table is insertable. |
| NestedInitSchema.Tables | packages/nested-mutations-plugin/src/v4_to_v5/init-schema-plugin.ts:114-116 | Keeps exactly the table resources. One resource is kept iff it is a table. |
| NestedInitSchema.TablesAppend | packages/nested-mutations-plugin/src/v4_to_v5/init-schema-plugin.ts:114-116 | The filter keeps the registry's order: the tables of two runs are the first run's, then the second's. |
| NestedInitSchema.DraftPassOnce | packages/nested-mutations-plugin/src/v4_to_v5/init-schema-plugin.ts:127-133 | The whole hook keeps every logged connector's name claimed, and never logs two connectors with the same name. |
| NestedInitSchema.DraftPassClaims | packages/nested-mutations-plugin/src/v4_to_v5/init-schema-plugin.ts:119-133 | After the hook, every nested-mutable relation's connector type name has been claimed. |
| NestedInitSchema.RegisterRelation | packages/nested-mutations-plugin/src/v4_to_v5/init-schema-plugin.ts:127-239 | The inner loop's body equals `DraftStep`. |
| NestedInitSchema.RegisterRelations | packages/nested-mutations-plugin/src/v4_to_v5/init-schema-plugin.ts:123-239 | One table's `relationships.forEach` equals the relation fold from the hook's current set and log. |
| NestedInitSchema.InitSchema | packages/nested-mutations-plugin/src/v4_to_v5/init-schema-plugin.ts:105-243 | The log equals the fold over the tables from an empty set, and no two connector registrations share a name. |
| NestedInitSchema.DraftFieldsHook | packages/nested-mutations-plugin/src/v4_to_v5/init-schema-plugin.ts:244-290 | A type that is not a row type's input or patch type, or whose codec names no resource, keeps its fields. |
| NestedInitSchema.HookFieldsNames | packages/nested-mutations-plugin/src/v4_to_v5/init-schema-plugin.ts:259-280 | The connector fields the reduce builds are named exactly by the kept relations' names. |
| NestedInitSchema.DraftFieldsHookNames | packages/nested-mutations-plugin/src/v4_to_v5/init-schema-plugin.ts:254-289 | The hooked fields have distinct names: exactly the type's own and the kept relations' names. |

## Left out

- `packages/hono-adapter/src/adapter.ts`, `bun-websocket.ts` and `types.ts` are not part of this model. They hold the HTTP and websocket I/O around the grafserv handler.
- `dorothy.ts`, `all-mutations.ts`, `generators/insert.ts`, `v4_to_v5/mutation-fields-field.ts` and `v4_to_v5/plan-resolver-plugin.ts` are not part of this model. They are unfinished drafts that contribute no hook logic beyond what is modelled.
- Headers.ProcessHeaders: numbers are integers only. `Number.prototype.toString` for fractions, exponents, `NaN` and infinities is floating point and is not modelled.
- Descriptions, `EXPORTABLE` wrappers and `wrapDescription` only affect documentation and code export. They are left out.
- GraphQL field thunks are evaluated eagerly. A thunk's throw (the connector fields in the init-schema draft, the patch type in the update plugin) is a `Failure` inside the registered spec.
- A failed `registerInputObjectType` is modelled only by its effect on what follows. In v4 the host's `registers` predicate decides whether the following `fields.x = …` assignment runs. The v5 plugins log the call whatever the outcome.
- `build.extend` conflict detection (throwing on a duplicate key) is not modelled. A duplicate key takes the later field, as a spread would.
- The plan of the create field on the v5 connector type (`pgInsertSingle`, `console.log`) and the connector field's `applyPlan` are left out. They build execution plans that never run in these hooks.
- `evalLength` is a parameter: the number of list elements the plan sees.
- Maps keyed by codec object identity are keyed by codec value, so two equal codecs share an entry.
- RelationshipConnect.ConnectByNodeIdPlan: the node-id handler is given by the keys its spec decodes. The node id decoding itself is the host's.
- InputTypes.InputStep: `updateNodeField` is given the unique's attribute names, because the host inflector's other inputs are not modelled.
- The delete-type plugin's delete-by-key loop has an empty body, so it is modelled as doing nothing.
- The connect-by-node-id list branch's console warnings are counted, and their text is kept only where the plan returns it. Other console output is not modelled. That includes the draft init hook's "Skipping … already exists" log, whose skip is modelled but whose message is not.

## Findings

| source | as written | input that shows it | evidently intended | confidence | as-written member | corrected member |
|---|---|---|---|---|---|---|
| packages/nested-mutations-plugin/src/v4_to_v5/delete-type-plugin.ts:35-42 | The plugin checks `pgNestedMutationInputTypes.has(typeName)` but never adds the name, so the check never blocks a registration. | Any table with two relations: `getNestedRelationships` gives both records `deleteByNodeId` with the empty type name, so `""` is registered twice. | Add the name before registering, as the create, connect, update and input plugins do, so each delete type name is registered once. | not executed | DeleteTypes.DeleteRegistersTwice | DeleteTypes.DeleteStepCorrected |
