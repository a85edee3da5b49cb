# Permission migrations and the NDC v0.1 request translator

This project models two independent parts of the graphql-engine repository and proves properties of them.

**1. The console's permission-change compilers** (`Actions.js`). Each compiler reads the stored
permission snapshot (tables, and for each table its roles and their `select`/`insert`/`update`/`delete`
specs) and the editor's draft state. From them it builds a migration: a forward list
(`permissionsUpQueries`) and a backward list (`permissionsDownQueries`) of permission queries. A
permission query is `Create(kind, table, role, spec)` or `Drop(kind, table, role)`. The query builders are
external, so these are opaque constructors.

- Data model: `PermissionModel` holds the snapshot and the query constructors. `PermissionState` holds the
  editor state (`permissionsState`) and its helpers.
- Compilers: `PermissionCompilers` defines each list builder twice. A function specifies it. A method builds
  the same lists with the source's `forEach` loops, pushing and unshifting as the source does, and is proved
  to return what the function specifies. `copyRolePermissions` fills a `Migration` object. It is a class
  whose `Add` appends to both lists.
- Execution model (`MigrationStore`): only used to state rollback. A store maps (kind, table, role) to a
  spec. `Create` sets a key and `Drop` removes it.
- Rollback order: the model assumes a backward list is run most-recently-added query first. A list
  built with `push` is therefore read from its end. The backward list of `applySamePermissionsBulk` is
  built with `unshift`, so it is read in list order. The rollback lemmas hold under this reading.
- Rollback lemmas (`PermissionRollback`): running a compiler's forward list, then its backward list,
  returns the store to the snapshot it was compiled from.
- Shape lemmas (`PermissionShapes`): the lists have equal lengths, paired queries, and exactly the contents
  the source builds.
- Two compilers do not roll back. `PermissionFindings` exhibits each failure and proves the corrected
  definition.

**2. The plan-IR to NDC v0.1 translator** (`v01.rs`).

- `NdcPlan` is the execution plan that is read: query nodes, resolved filter expressions, fields, order-by
  targets, aggregates, arguments, relationships and the two execution plans.
- `NdcModels` is the NDC v0.1 request model.
- `NdcV01` translates one into the other with total functions that return a `Result`. Every compatibility
  refusal (`GroupByNotSupported`, `NestedScalarArrayComparisonsNotSupported`,
  `NestedRelationshipsInExpressionsNotSupported`, `NestedRelationshipsInOrderByTargetsNotSupported`) is an
  error value.
- `collect::<Result<_>>` becomes `NdcV01.Collect`: it stops at the first error.
- The JSON serialiser is a parameter (`Serializer`) that may fail.
- Properties: `NdcProperties` covers expressions; `NdcQueryProperties` covers queries, order-by,
  aggregates, arguments and requests.
- `NdcTranslate` writes the two loops that push into a vector and return at the first error as methods,
  and proves them equal to the functions.

## Model

| member | source | states |
|---|---|---|
| PermissionModel.ParseName | frontend/libs/console/legacy-ce/src/lib/components/Services/Data/TablePermissions/Actions.js:733 | each of the four query kinds is read back from its own name |
| PermissionModel.FindRole | frontend/libs/console/legacy-ce/src/lib/components/Services/Data/TablePermissions/Actions.js:333-335 | `find` by role name: none iff no entry has the role; otherwise the first entry with that role |
| PermissionModel.RoleEntries | frontend/libs/console/legacy-ce/src/lib/components/Services/Data/TablePermissions/Actions.js:430-435 | the kinds of the first matching role entry, or none when the role has no entry |
| PermissionModel.LookupKind | frontend/libs/console/legacy-ce/src/lib/components/Services/Data/TablePermissions/Actions.js:359 | `permissions[type]` is absent iff no entry has that kind, and is a stored entry's spec otherwise |
| PermissionModel.LookupUnique | frontend/libs/console/legacy-ce/src/lib/components/Services/Data/TablePermissions/Actions.js:348-359 | iterating a role's kinds and looking each one up gives that entry's own spec |
| PermissionModel.TablePermissions | frontend/libs/console/legacy-ce/src/lib/components/Services/Data/TablePermissions/Actions.js:740-745 | a role's spec for a kind is present iff the role's entries hold that kind, and is that entry's spec |
| PermissionModel.SchemaTables | frontend/libs/console/legacy-ce/src/lib/components/Services/Data/TablePermissions/Actions.js:831 | exactly the snapshot's tables of the given schema |
| PermissionModel.FindTable | frontend/libs/console/legacy-ce/src/lib/components/Services/Data/TablePermissions/Actions.js:910-912 | none iff no table has that schema and name; otherwise a snapshot table with them |
| PermissionModel.NameArray | frontend/libs/console/legacy-ce/src/lib/components/Services/Data/TablePermissions/Actions.js:409 | the column names as a JSON array, same length and order |
| PermissionModel.Trim | frontend/libs/console/legacy-ce/src/lib/components/Services/Data/TablePermissions/Actions.js:907 | the trimmed role is no longer and neither starts nor ends with whitespace |
| PermissionModel.TrimIsMiddle | frontend/libs/console/legacy-ce/src/lib/components/Services/Data/TablePermissions/Actions.js:907 | the trimmed role is the middle slice of the role, with only whitespace cut on either side |
| PermissionModel.TrimIdempotent | frontend/libs/console/legacy-ce/src/lib/components/Services/Data/TablePermissions/Actions.js:907 | trimming twice equals trimming once |
| PermissionState.IsQueryTypeBackendOnlyCompatible | frontend/libs/console/legacy-ce/src/lib/components/Services/Data/TablePermissions/Actions.js:702-704 | true iff the string names a query kind other than `select` |
| PermissionState.BackendOnlyKinds | frontend/libs/console/legacy-ce/src/lib/components/Services/Data/TablePermissions/Actions.js:702-704 | exactly `insert`, `update` and `delete` are backend-only compatible |
| PermissionState.WithFieldDefaults | frontend/libs/console/legacy-ce/src/lib/components/Services/Data/TablePermissions/Actions.js:193-201 | insert and update specs get a falsy `columns` replaced by `[]` and a falsy `set` by `{}`, every other key kept; select and delete specs are unchanged |
| PermissionState.WithFieldDefaultsIdempotent | frontend/libs/console/legacy-ce/src/lib/components/Services/Data/TablePermissions/Actions.js:193-201 | filling the defaults twice equals filling them once |
| PermissionState.LastKind | frontend/libs/console/legacy-ce/src/lib/components/Services/Data/TablePermissions/Actions.js:190-192 | the spec the loop leaves for a kind: none iff no entry has the kind, else a stored entry's spec |
| PermissionState.LastKindIsLookup | frontend/libs/console/legacy-ce/src/lib/components/Services/Data/TablePermissions/Actions.js:190-192 | with unique kinds, the last assignment equals the role's stored spec for that kind |
| PermissionState.GetBasePermissionsState | frontend/libs/console/legacy-ce/src/lib/components/Services/Data/TablePermissions/Actions.js:179-209 | the new state has the table, role and kind; `newRole` only for a new role; the role's stored specs with field defaults filled; the defaults for kinds the role lacks; nothing else changed |
| PermissionState.UpdatePermissionsState | frontend/libs/console/legacy-ce/src/lib/components/Services/Data/TablePermissions/Actions.js:235-247 | with no kind, unchanged; otherwise only the current kind's spec changes, to its old spec (or the kind's default) with `key` set to `value` |
| PermissionState.UpdateTwice | frontend/libs/console/legacy-ce/src/lib/components/Services/Data/TablePermissions/Actions.js:235-247 | setting a key twice equals setting it to the second value |
| PermissionState.DeleteFromPermissionsState | frontend/libs/console/legacy-ce/src/lib/components/Services/Data/TablePermissions/Actions.js:280-288 | removes exactly the current kind's spec and keeps every other spec |
| PermissionState.DeleteAfterUpdate | frontend/libs/console/legacy-ce/src/lib/components/Services/Data/TablePermissions/Actions.js:235-288 | deleting after an update equals deleting straight away |
| PermissionState.UpdateApplySamePerms | frontend/libs/console/legacy-ce/src/lib/components/Services/Data/TablePermissions/Actions.js:259-278 | a delete splices out row `i`, when it exists; an edit at `i` changes only row `i`, and an edit one past the end appends a row seeded with the current table and kind |
| PermissionState.AddThenDeleteRow | frontend/libs/console/legacy-ce/src/lib/components/Services/Data/TablePermissions/Actions.js:259-278 | adding a row at the end and then deleting it restores the rows |
| PermissionState.WithoutRole | frontend/libs/console/legacy-ce/src/lib/components/Services/Data/TablePermissions/Actions.js:254 | the filter removes every occurrence of the role and keeps every other role with its multiplicity |
| PermissionState.SelectThenDeselect | frontend/libs/console/legacy-ce/src/lib/components/Services/Data/TablePermissions/Actions.js:249-257 | selecting and then deselecting a role equals deselecting it |
| PermissionState.UpdateBulkSelect | frontend/libs/console/legacy-ce/src/lib/components/Services/Data/TablePermissions/Actions.js:249-257 | adding pushes onto the same list object in place; removing returns a new list without the role and leaves the old one alone |
| PermissionState.IndexOf | frontend/libs/console/legacy-ce/src/lib/components/Services/Data/TablePermissions/Actions.js:313 | `indexOf`: -1 iff absent, otherwise the first position holding the name |
| PermissionState.Toggled | frontend/libs/console/legacy-ce/src/lib/components/Services/Data/TablePermissions/Actions.js:313-318 | adds one occurrence when the name is absent, else removes one |
| PermissionState.ToggleSorted | frontend/libs/console/legacy-ce/src/lib/components/Services/Data/TablePermissions/Actions.js:313-321 | the toggled list, sorted: sorted, with the name's multiplicity raised or lowered by one |
| PermissionState.ToggleTwice | frontend/libs/console/legacy-ce/src/lib/components/Services/Data/TablePermissions/Actions.js:307-323 | toggling the same field twice restores a sorted duplicate-free selection |
| PermissionState.ToggleField | frontend/libs/console/legacy-ce/src/lib/components/Services/Data/TablePermissions/Actions.js:307-323 | mutates the given field list in place (a fresh one when there is none) into the toggled, sorted list |
| PermissionState.ToggleAllFields | frontend/libs/console/legacy-ce/src/lib/components/Services/Data/TablePermissions/Actions.js:291-304 | `[]` iff every field type's selection is as long as its full list, else the full list of `fieldType` |
| StringOrder.SortStrings | frontend/libs/console/legacy-ce/src/lib/components/Services/Data/TablePermissions/Actions.js:320 | the sorted list holds the same names with the same multiplicities |
| StringOrder.SortStringsSorted | frontend/libs/console/legacy-ce/src/lib/components/Services/Data/TablePermissions/Actions.js:320 | the sorted list is sorted and a permutation of its input |
| StringOrder.SortStringsOfSorted | frontend/libs/console/legacy-ce/src/lib/components/Services/Data/TablePermissions/Actions.js:320 | sorting an already sorted list leaves it unchanged |
| StringOrder.StrLeTotal | frontend/libs/console/legacy-ce/src/lib/components/Services/Data/TablePermissions/Actions.js:320 | the character-code order on strings is total |
| StringOrder.StrLeTransitive | frontend/libs/console/legacy-ce/src/lib/components/Services/Data/TablePermissions/Actions.js:320 | the character-code order on strings is transitive |
| StringOrder.StrLeAntisymmetric | frontend/libs/console/legacy-ce/src/lib/components/Services/Data/TablePermissions/Actions.js:320 | the character-code order on strings is antisymmetric |
| PermissionCompilers.PermRemoveRole | frontend/libs/console/legacy-ce/src/lib/components/Services/Data/TablePermissions/Actions.js:325-366 | the loop builds exactly the role-removal lists of the role's stored entries on the current schema's table |
| PermissionCompilers.RemoveRoleEntries | frontend/libs/console/legacy-ce/src/lib/components/Services/Data/TablePermissions/Actions.js:520-536 | appends one role's removal lists after the lists built so far |
| PermissionCompilers.PermRemoveMultipleRoles | frontend/libs/console/legacy-ce/src/lib/components/Services/Data/TablePermissions/Actions.js:491-537 | the nested loops build the removal lists of every selected role, in selection order |
| PermissionCompilers.DropRoleOnTable | frontend/libs/console/legacy-ce/src/lib/components/Services/Data/TablePermissions/Actions.js:834-861 | appends the four-kind drop lists of one table after the lists built so far |
| PermissionCompilers.DeleteRoleGlobally | frontend/libs/console/legacy-ce/src/lib/components/Services/Data/TablePermissions/Actions.js:822-862 | the nested loops build the role's deletion lists over every table of the current schema |
| PermissionCompilers.CopyTablesOf | frontend/libs/console/legacy-ce/src/lib/components/Services/Data/TablePermissions/Actions.js:720-726 | `all` gives the schema's tables; one named table gives itself, or an error when it is missing |
| PermissionCompilers.Migration.Add | frontend/libs/console/legacy-ce/src/lib/components/Services/Data/TablePermissions/Actions.js:762 | appends `up` to the forward list and `down` to the backward list |
| PermissionCompilers.CopyStepInto | frontend/libs/console/legacy-ce/src/lib/components/Services/Data/TablePermissions/Actions.js:739-781 | adds one (table, target role, kind) copy step to the migration |
| PermissionCompilers.CopyActionsInto | frontend/libs/console/legacy-ce/src/lib/components/Services/Data/TablePermissions/Actions.js:739-782 | adds the copy steps of every chosen kind, in order |
| PermissionCompilers.CopyRolesInto | frontend/libs/console/legacy-ce/src/lib/components/Services/Data/TablePermissions/Actions.js:738-783 | adds the copy steps of every target role, in order |
| PermissionCompilers.CopyRolePermissions | frontend/libs/console/legacy-ce/src/lib/components/Services/Data/TablePermissions/Actions.js:706-784 | the three nested loops build the copy lists of tables × target roles × kinds, or the missing-table error |
| PermissionCompilers.SavedSpec | frontend/libs/console/legacy-ce/src/lib/components/Services/Data/TablePermissions/Actions.js:916-918 | a save creates the draft spec, without `limit` for a select whose limits are switched off |
| PermissionCompilers.GrantSpec | frontend/libs/console/legacy-ce/src/lib/components/Services/Data/TablePermissions/Actions.js:423-428 | the bulk grant's spec has exactly `check: {}`, `columns`: all column names, `comment: ''` and `filter: {}` |
| PermissionCompilers.KindsOfRole | frontend/libs/console/legacy-ce/src/lib/components/Services/Data/TablePermissions/Actions.js:422-437 | one visit per kind for a role, in the order select, insert, update, delete |
| PermissionCompilers.GrantKind | frontend/libs/console/legacy-ce/src/lib/components/Services/Data/TablePermissions/Actions.js:438-457 | one visit: the lists become the bulk lists of the visited pairs plus this one |
| PermissionCompilers.GrantRole | frontend/libs/console/legacy-ce/src/lib/components/Services/Data/TablePermissions/Actions.js:430-458 | one role: the lists gain that role's four visits |
| PermissionCompilers.BulkPermissionModifier | frontend/libs/console/legacy-ce/src/lib/components/Services/Data/TablePermissions/Actions.js:399-459 | the nested loops build the bulk grant's lists over role × kind pairs: a create pushed at the tail of the forward list and a drop of an existing kind unshifted at its head |
| PermissionCompilers.CompleteTargets | frontend/libs/console/legacy-ce/src/lib/components/Services/Data/TablePermissions/Actions.js:579-581 | keeps exactly the rows with a table, an action and a role |
| PermissionCompilers.Sanitized | frontend/libs/console/legacy-ce/src/lib/components/Services/Data/TablePermissions/Actions.js:641-651 | on another table `columns` is `[]` and `set` is `{}`; a non-insert spec copied to an insert gets `check` = its `filter` and keeps `filter`; an insert spec copied to another kind gets `filter` = its `check` and keeps `check`; every other key is kept |
| PermissionCompilers.ResolveTarget | frontend/libs/console/legacy-ce/src/lib/components/Services/Data/TablePermissions/Actions.js:604-615 | a target resolves to its table in the current schema and its kind; it fails iff the table is missing or the kind is unset |
| PermissionCompilers.DraftedSpec | frontend/libs/console/legacy-ce/src/lib/components/Services/Data/TablePermissions/Actions.js:576-577 | the draft's spec for the kind being edited, or `{}` when there is none |
| PermissionCompilers.ApplyToTarget | frontend/libs/console/legacy-ce/src/lib/components/Services/Data/TablePermissions/Actions.js:604-668 | one target: the forward part is pushed at the tail, the backward part is unshifted at the head |
| PermissionCompilers.ApplySamePermissionsBulk | frontend/libs/console/legacy-ce/src/lib/components/Services/Data/TablePermissions/Actions.js:569-669 | the loop builds exactly the apply-same lists of the complete targets plus the edited one, or the error of the first unresolvable target |
| PermissionShapes.RoleRemovalContents | frontend/libs/console/legacy-ce/src/lib/components/Services/Data/TablePermissions/Actions.js:347-366 | removing a role gives one drop per stored kind, in order, paired at the same position with a create of the stored spec |
| PermissionShapes.RoleRemovalPaired | frontend/libs/console/legacy-ce/src/lib/components/Services/Data/TablePermissions/Actions.js:363-364 | the removal lists have equal length, and each drop faces a create of the same key |
| PermissionShapes.RolesRemovalPaired | frontend/libs/console/legacy-ce/src/lib/components/Services/Data/TablePermissions/Actions.js:534-535 | the bulk revoke's lists have equal length and are paired |
| PermissionShapes.StoredKinds | frontend/libs/console/legacy-ce/src/lib/components/Services/Data/TablePermissions/Actions.js:838-841 | exactly the given kinds that the role has on the table |
| PermissionShapes.RoleDropOnTableContents | frontend/libs/console/legacy-ce/src/lib/components/Services/Data/TablePermissions/Actions.js:838-861 | one table gives one drop per stored kind, paired with a create of that stored spec; nothing for absent kinds |
| PermissionShapes.RoleDeletionPaired | frontend/libs/console/legacy-ce/src/lib/components/Services/Data/TablePermissions/Actions.js:858-859 | the global role deletion's lists have equal length and are paired |
| PermissionShapes.CopyStepPaired | frontend/libs/console/legacy-ce/src/lib/components/Services/Data/TablePermissions/Actions.js:747-781 | one copy step adds paired queries, one per list each time |
| PermissionShapes.CopyRoleListsPaired | frontend/libs/console/legacy-ce/src/lib/components/Services/Data/TablePermissions/Actions.js:762-780 | the role copy's lists have equal length and are paired |
| PermissionShapes.ChangeListsShape | frontend/libs/console/legacy-ce/src/lib/components/Services/Data/TablePermissions/Actions.js:930-964 | a stored spec gives a leading drop facing a create of the previous spec; a save then appends a create of the saved spec facing a drop; a delete of an absent kind gives two empty lists |
| PermissionShapes.PermChangeShape | frontend/libs/console/legacy-ce/src/lib/components/Services/Data/TablePermissions/Actions.js:906-964 | the change acts on the trimmed role and the current schema's table, and is the change lists of the edited kind |
| PermissionShapes.PermChangeErrors | frontend/libs/console/legacy-ce/src/lib/components/Services/Data/TablePermissions/Actions.js:910-941 | the change fails with `TableNotFound` iff the table is missing; without a kind a save fails and a delete builds nothing; it succeeds when the draft has the kind's spec and `prev` holds every stored spec it reads |
| PermissionShapes.StoredDrops | frontend/libs/console/legacy-ce/src/lib/components/Services/Data/TablePermissions/Actions.js:454-455 | exactly the drops of the visited pairs that have a stored spec |
| PermissionShapes.GrantCreates | frontend/libs/console/legacy-ce/src/lib/components/Services/Data/TablePermissions/Actions.js:444-451 | one create of the grant spec per visited pair, in visit order |
| PermissionShapes.BulkUpShape | frontend/libs/console/legacy-ce/src/lib/components/Services/Data/TablePermissions/Actions.js:451-455 | the bulk forward list is the existing pairs' drops in reverse visit order, then one create per pair in visit order |
| PermissionShapes.BulkLengths | frontend/libs/console/legacy-ce/src/lib/components/Services/Data/TablePermissions/Actions.js:451-457 | the bulk grant's two lists have equal length |
| PermissionShapes.RoleKindPairsContents | frontend/libs/console/legacy-ce/src/lib/components/Services/Data/TablePermissions/Actions.js:429-437 | the visits are role × [select, insert, update, delete], in row-major order |
| PermissionShapes.ApplyTargetsContents | frontend/libs/console/legacy-ce/src/lib/components/Services/Data/TablePermissions/Actions.js:579-599 | the targets are the complete rows, followed by the edited (table, kind, role) iff the permissions were modified; the rows keep the filter's order and repeats, by `CompleteTargetsConcat` |
| PermissionShapes.CompleteTargetsConcat | frontend/libs/console/legacy-ce/src/lib/components/Services/Data/TablePermissions/Actions.js:579-581 | filtering a concatenation is the concatenation of the filtered parts, so the filter keeps order and repeats |
| PermissionShapes.CompleteTargetsSingle | frontend/libs/console/legacy-ce/src/lib/components/Services/Data/TablePermissions/Actions.js:579-581 | a single row is kept iff it has a table, an action and a role |
| PermissionShapes.CompleteTargetsOfComplete | frontend/libs/console/legacy-ce/src/lib/components/Services/Data/TablePermissions/Actions.js:579-581 | a list whose rows are all complete is kept unchanged |
| PermissionShapes.ApplyStepShape | frontend/libs/console/legacy-ce/src/lib/components/Services/Data/TablePermissions/Actions.js:617-668 | one target creates the sanitised spec on the target table, undone by a drop there; when the target already has that kind, the step first drops it and finally re-creates its stored spec, both on the table the existing pair uses (`tableDef` as written) |
| PermissionShapes.ApplySameListsLengths | frontend/libs/console/legacy-ce/src/lib/components/Services/Data/TablePermissions/Actions.js:636-668 | the apply-same lists have equal length |
| PermissionRollback.RoleRemovalRollsBack | frontend/libs/console/legacy-ce/src/lib/components/Services/Data/TablePermissions/Actions.js:347-366 | removing stored entries and then running the backward list from its end restores the store |
| PermissionRollback.PermRemoveRoleRollsBack | frontend/libs/console/legacy-ce/src/lib/components/Services/Data/TablePermissions/Actions.js:325-366 | removing a role rolls back to the snapshot |
| PermissionRollback.PermRemoveRoleClears | frontend/libs/console/legacy-ce/src/lib/components/Services/Data/TablePermissions/Actions.js:347-366 | after the forward list the role has no permission on the table, and nothing else changed |
| PermissionRollback.RolesRemovalRollsBack | frontend/libs/console/legacy-ce/src/lib/components/Services/Data/TablePermissions/Actions.js:513-537 | removing several roles from one table rolls back |
| PermissionRollback.PermRemoveMultipleRolesRollsBack | frontend/libs/console/legacy-ce/src/lib/components/Services/Data/TablePermissions/Actions.js:491-537 | the bulk revoke rolls back to the snapshot |
| PermissionRollback.RolesRemovalOnlyDrops | frontend/libs/console/legacy-ce/src/lib/components/Services/Data/TablePermissions/Actions.js:521-534 | the bulk revoke's forward list only drops selected roles on the table |
| PermissionRollback.RolesRemovalDropsAll | frontend/libs/console/legacy-ce/src/lib/components/Services/Data/TablePermissions/Actions.js:513-537 | every stored kind of a selected role is dropped |
| PermissionRollback.PermRemoveMultipleRolesClears | frontend/libs/console/legacy-ce/src/lib/components/Services/Data/TablePermissions/Actions.js:491-537 | after the bulk revoke no selected role has a permission on the table, and nothing else changed |
| PermissionRollback.RoleDropOnTableRollsBack | frontend/libs/console/legacy-ce/src/lib/components/Services/Data/TablePermissions/Actions.js:838-861 | dropping a role's kinds on one table rolls back |
| PermissionRollback.RoleDeletionRollsBack | frontend/libs/console/legacy-ce/src/lib/components/Services/Data/TablePermissions/Actions.js:833-862 | deleting a role over several tables rolls back |
| PermissionRollback.DeleteRoleGloballyRollsBack | frontend/libs/console/legacy-ce/src/lib/components/Services/Data/TablePermissions/Actions.js:822-862 | the global role deletion rolls back to the snapshot |
| PermissionRollback.RoleDeletionOnlyDrops | frontend/libs/console/legacy-ce/src/lib/components/Services/Data/TablePermissions/Actions.js:843-858 | the deletion's forward list only drops the role, and only in the schema |
| PermissionRollback.RoleDeletionDropsAll | frontend/libs/console/legacy-ce/src/lib/components/Services/Data/TablePermissions/Actions.js:833-862 | every stored kind of the role on every visited table is dropped |
| PermissionRollback.RoleDropOnTableDrops | frontend/libs/console/legacy-ce/src/lib/components/Services/Data/TablePermissions/Actions.js:838-861 | every stored kind among those visited on a table is dropped |
| PermissionRollback.DeleteRoleGloballyClears | frontend/libs/console/legacy-ce/src/lib/components/Services/Data/TablePermissions/Actions.js:822-862 | after the deletion the role has no permission on any table of the schema, and nothing else changed |
| PermissionRollback.CopyStepCases | frontend/libs/console/legacy-ce/src/lib/components/Services/Data/TablePermissions/Actions.js:747-781 | a copy step adds (drop, create current) iff the target role has the kind, then (create source spec, drop) iff the source role has it |
| PermissionRollback.CopyStepRollsBack | frontend/libs/console/legacy-ce/src/lib/components/Services/Data/TablePermissions/Actions.js:747-781 | one copy step rolls back |
| PermissionRollback.CopyStepEffect | frontend/libs/console/legacy-ce/src/lib/components/Services/Data/TablePermissions/Actions.js:747-781 | after a copy step the target role has the kind iff the source role has it, with the source's spec; nothing else changed |
| PermissionRollback.CopyTablesRollsBack | frontend/libs/console/legacy-ce/src/lib/components/Services/Data/TablePermissions/Actions.js:728-784 | the copy over tables × roles × kinds rolls back |
| PermissionRollback.CopyRolePermissionsRollsBack | frontend/libs/console/legacy-ce/src/lib/components/Services/Data/TablePermissions/Actions.js:706-784 | a successful role copy rolls back to the snapshot |
| PermissionRollback.ChangeListsRollsBack | frontend/libs/console/legacy-ce/src/lib/components/Services/Data/TablePermissions/Actions.js:930-964 | a save or delete of one key rolls back when `prev` holds the stored spec |
| PermissionRollback.ChangeListsEffect | frontend/libs/console/legacy-ce/src/lib/components/Services/Data/TablePermissions/Actions.js:930-964 | after a save the key holds the saved spec; after a delete the key is absent; nothing else changed |
| PermissionRollback.PermChangeRollsBack | frontend/libs/console/legacy-ce/src/lib/components/Services/Data/TablePermissions/Actions.js:892-964 | a permission change rolls back to the snapshot when the previous state equals the stored spec |
| PermissionRollback.BulkGrantEffect | frontend/libs/console/legacy-ce/src/lib/components/Services/Data/TablePermissions/Actions.js:429-459 | after the bulk grant every selected role has every kind with the grant spec, and nothing else changed |
| PermissionFindings.BulkDownLosesPermission | frontend/libs/console/legacy-ce/src/lib/components/Services/Data/TablePermissions/Actions.js:451-457 | as written: for a role that already had a select permission, rolling back, in either order, does not restore the stored spec |
| PermissionFindings.BulkRestoringRollsBack | frontend/libs/console/legacy-ce/src/lib/components/Services/Data/TablePermissions/Actions.js:451-457 | corrected: with the stored spec re-created in the backward list, the bulk grant rolls back to the snapshot |
| PermissionFindings.ApplySameLosesPermission | frontend/libs/console/legacy-ce/src/lib/components/Services/Data/TablePermissions/Actions.js:622-637 | as written: applying to another table where the role already has the kind loses that table's permission on rollback, in either order |
| PermissionFindings.ApplySameFromOnCurrentTable | frontend/libs/console/legacy-ce/src/lib/components/Services/Data/TablePermissions/Actions.js:622-635 | when every target is on the current table, the source's table reference and the target's coincide |
| PermissionFindings.ApplySameTargetTableRollsBack | frontend/libs/console/legacy-ce/src/lib/components/Services/Data/TablePermissions/Actions.js:617-668 | corrected: dropping and re-creating on the target's table, the apply-same migration rolls back, its backward list read in order |
| NdcV01.OptionalPath | v3/crates/execute/src/execute/ndc_request/v01.rs:529-538 | an empty field path becomes `None`; otherwise the same names in the same order |
| NdcV01.MakeComparisonTarget | v3/crates/execute/src/execute/ndc_request/v01.rs:321-342 | same column name, an always-empty relationship path, and `field_path` `None` iff the input path is empty, else the same names |
| NdcV01.Serialize | v3/crates/execute/src/execute/ndc_request/v01.rs:148-150 | fails iff the serialiser fails, else its value |
| NdcV01.MakeNamedArgument | v3/crates/execute/src/execute/ndc_request/v01.rs:128-135 | an argument keeps its name |
| NdcV01.MakeNamedRelationshipArgumentFromArgument | v3/crates/execute/src/execute/ndc_request/v01.rs:156-169 | a relationship-field argument keeps its name |
| NdcV01.MakeRelationshipArguments | v3/crates/execute/src/execute/ndc_request/v01.rs:190-212 | each collection-relationship argument becomes a column argument with the same name and column |
| NdcV01.MakeNamedMutationArgument | v3/crates/execute/src/execute/ndc_request/v01.rs:620-632 | a mutation argument keeps its name |
| NdcV01.MakeColumnMapping | v3/crates/execute/src/execute/ndc_request/v01.rs:437-462 | the column mapping's pairs, same order, source and target columns unchanged |
| NdcV01.MakeCollectionRelationships | v3/crates/execute/src/execute/ndc_request/v01.rs:423-435 | one translated relationship per plan relationship, under the same name |
| NdcV01.MakeVariables | v3/crates/execute/src/execute/ndc_request/v01.rs:69-85 | no variables iff the plan has none; otherwise the same rows, each with the same names and values |
| NdcV01.MakeCountAggregate | v3/crates/execute/src/execute/ndc_request/v01.rs:596-618 | `StarCount` iff the path is empty; otherwise a column count of the head, `field_path` `None` iff the tail is empty, else the tail, with `distinct` passed through |
| NdcV01.MakeAggregates | v3/crates/execute/src/execute/ndc_request/v01.rs:545-592 | one aggregate per selected aggregate, same names and order |
| NdcV01.MakeExpressions | v3/crates/execute/src/execute/ndc_request/v01.rs:219-236 | a successful translation of the children has one result per child |
| NdcV01.MakeNamedFields | v3/crates/execute/src/execute/ndc_request/v01.rs:400-414 | a successful translation of the fields has one field per input field, under the same name at the same position |
| NdcProperties.CollectOk | v3/crates/execute/src/execute/ndc_request/v01.rs:128-136 | collecting into a `Result` succeeds iff every item does, and then gives each item's value in order |
| NdcProperties.CollectStops | v3/crates/execute/src/execute/ndc_request/v01.rs:128-136 | the first failing item's error is the result |
| NdcProperties.CollectFirstError | v3/crates/execute/src/execute/ndc_request/v01.rs:128-136 | a failed collection names a first failing item, all items before it succeeding |
| NdcProperties.ConnectiveTranslation | v3/crates/execute/src/execute/ndc_request/v01.rs:218-237 | `And`/`Or` translate iff every child does, to the same connective with the translated children in the same order and count |
| NdcProperties.ConnectiveFirstError | v3/crates/execute/src/execute/ndc_request/v01.rs:218-237 | a failed connective fails with the error of its first failing child |
| NdcProperties.NotTranslation | v3/crates/execute/src/execute/ndc_request/v01.rs:238-243 | `Not` translates iff its child does, to `Not` of the child's translation, else with the child's error |
| NdcProperties.NestedScalarArrayRefused | v3/crates/execute/src/execute/ndc_request/v01.rs:275-279 | a nested scalar-array comparison is always refused |
| NdcProperties.RelationshipComparisonTranslation | v3/crates/execute/src/execute/ndc_request/v01.rs:290-312 | fails iff the field path is non-empty (the nested-relationship error) or the predicate fails; otherwise `Exists` in the related collection with no arguments and the translated predicate |
| NdcProperties.RemoteComparisonIsTrue | v3/crates/execute/src/execute/ndc_request/v01.rs:313-318 | a remote relationship comparison is always `And []` |
| NdcProperties.ExpressionTranslatesIff | v3/crates/execute/src/execute/ndc_request/v01.rs:214-319 | an expression translates iff it has no nested scalar-array comparison and no relationship comparison through a nested field |
| NdcProperties.ExpressionsTranslateIff | v3/crates/execute/src/execute/ndc_request/v01.rs:219-236 | a list of children translates iff each child is expressible |
| NdcProperties.ComparisonTargetRoundTrip | v3/crates/execute/src/execute/ndc_request/v01.rs:321-342 | the input target can be read back from its translation; a column target with an empty path and no empty field path is the translation of its reading |
| NdcProperties.RecoverTranslation | v3/crates/execute/src/execute/ndc_request/v01.rs:214-357 | a translated expression without remote comparisons reads back to the input, so the translation loses nothing |
| NdcQueryProperties.OrderByTargetTranslation | v3/crates/execute/src/execute/ndc_request/v01.rs:483-542 | translates iff every hop does; a hop through a nested field is refused; otherwise same name, field path None iff empty, same hops in order with no arguments and the translated predicate or `And []` |
| NdcQueryProperties.OrderByTargetFirstError | v3/crates/execute/src/execute/ndc_request/v01.rs:501-524 | a refused target fails at its first failing hop, with the nested-relationship error or that hop's predicate error |
| NdcQueryProperties.OrderByTranslation | v3/crates/execute/src/execute/ndc_request/v01.rs:464-481 | an order-by translates iff each target does, to one element per input element with the same direction |
| NdcQueryProperties.AggregateTranslation | v3/crates/execute/src/execute/ndc_request/v01.rs:545-618 | the column path round-trips; `StarCount` iff a count has an empty path; distinct iff `CountDistinct`; an aggregation function keeps its name; never an empty field path |
| NdcQueryProperties.ArgumentsTranslation | v3/crates/execute/src/execute/ndc_request/v01.rs:125-154 | arguments translate iff each does; names and order kept; literals and variables copied; a boolean expression becomes the serialised translation of its predicate |
| NdcQueryProperties.RelationshipArgumentsTranslation | v3/crates/execute/src/execute/ndc_request/v01.rs:156-188 | the same for relationship-field arguments |
| NdcQueryProperties.ArgumentFails | v3/crates/execute/src/execute/ndc_request/v01.rs:139-188 | an argument fails iff it is a boolean expression whose predicate fails or does not serialise |
| NdcQueryProperties.QueryTranslation | v3/crates/execute/src/execute/ndc_request/v01.rs:87-123 | a grouping is always refused; otherwise the query translates iff its predicate, fields and order-by do, and carries exactly their translations with limit, offset and aggregates copied; each optional part is present iff the plan has it, and a local predicate is read back unchanged |
| NdcQueryProperties.OptionalExpressionIff | v3/crates/execute/src/execute/ndc_request/v01.rs:97 | an optional predicate translates iff it is absent or expressible |
| NdcQueryProperties.ArgumentsIff | v3/crates/execute/src/execute/ndc_request/v01.rs:125-188 | translated arguments carry only expressible predicates; with a total serialiser, expressible predicates always translate |
| NdcQueryProperties.PathElementIff | v3/crates/execute/src/execute/ndc_request/v01.rs:501-523 | a hop translates iff it has no field path and its predicate is absent or expressible |
| NdcQueryProperties.OrderByTargetIff | v3/crates/execute/src/execute/ndc_request/v01.rs:483-542 | an order-by target translates iff each hop has no field path and an absent or expressible predicate |
| NdcQueryProperties.OrderByIff | v3/crates/execute/src/execute/ndc_request/v01.rs:464-481 | an optional order-by translates iff each of its targets does |
| NdcQueryProperties.QueryTranslatesIff | v3/crates/execute/src/execute/ndc_request/v01.rs:87-123 | a query translates only when it has no grouping and everything in it is expressible, and, with a total serialiser, always then |
| NdcQueryProperties.SelectionTranslatesIff | v3/crates/execute/src/execute/ndc_request/v01.rs:99-113 | the same for a query's field selection |
| NdcQueryProperties.FieldsTranslateIff | v3/crates/execute/src/execute/ndc_request/v01.rs:400-414 | the same for a list of named fields |
| NdcQueryProperties.FieldTranslatesIff | v3/crates/execute/src/execute/ndc_request/v01.rs:359-387 | the same for one column or relationship field |
| NdcQueryProperties.NestedOptionTranslatesIff | v3/crates/execute/src/execute/ndc_request/v01.rs:359-387 | the same for a column's optional nested selection |
| NdcQueryProperties.NestedTranslatesIff | v3/crates/execute/src/execute/ndc_request/v01.rs:389-421 | the same for a nested object or array selection |
| NdcQueryProperties.NamedFieldsTranslation | v3/crates/execute/src/execute/ndc_request/v01.rs:400-414 | a field map translates iff every field does; each entry keeps its field's name and position and carries that field's translation |
| NdcQueryProperties.FieldTranslation | v3/crates/execute/src/execute/ndc_request/v01.rs:359-387 | a column field keeps its column with its translated nested selection and arguments; a relationship field carries its node's translated query, its relationship and its translated arguments; each fails iff one of its parts does |
| NdcQueryProperties.NestedTranslation | v3/crates/execute/src/execute/ndc_request/v01.rs:389-421 | a nested object stays an object of the translated fields and a nested array an array of the translated element, failing iff that part does |
| NdcQueryProperties.QueryShapeKept | v3/crates/execute/src/execute/ndc_request/v01.rs:87-123 | a translated query selects the plan's shape: the same fields under the same names and positions, the same columns, nesting and relationships, at every level |
| NdcQueryProperties.SelectionShapeKept | v3/crates/execute/src/execute/ndc_request/v01.rs:99-113 | a translated field selection has the plan selection's shape, and is absent iff the plan's is |
| NdcQueryProperties.FieldsShapeKept | v3/crates/execute/src/execute/ndc_request/v01.rs:400-414 | a translated field map has the plan map's shape |
| NdcQueryProperties.FieldShapeKept | v3/crates/execute/src/execute/ndc_request/v01.rs:359-387 | a translated field reads the same column or follows the same relationship, with a selection of the same shape |
| NdcQueryProperties.NestedOptionShapeKept | v3/crates/execute/src/execute/ndc_request/v01.rs:359-367 | a column's translated nested selection has the plan's shape, and is absent iff the plan's is |
| NdcQueryProperties.NestedShapeKept | v3/crates/execute/src/execute/ndc_request/v01.rs:389-421 | a translated nested object or array has the plan's shape |
| NdcQueryProperties.MutationRequestTranslation | v3/crates/execute/src/execute/ndc_request/v01.rs:46-67 | a mutation request is exactly one procedure named after the plan's procedure; its arguments keep their names, literal values are copied and a boolean expression is sent as its serialised translation; its fields are the translated plan fields, of the same shape; it fails iff an argument or the fields do |
| NdcQueryProperties.QueryRequestTranslation | v3/crates/execute/src/execute/ndc_request/v01.rs:31-44 | a query request queries the plan's collection with the translated query, which selects the plan's shape, and the translated arguments, carrying relationships and variables; it fails iff the query or an argument does |
| NdcTranslate.TranslateExpression | v3/crates/execute/src/execute/ndc_request/v01.rs:214-319 | the imperative translation equals the translation function, for every expression |
| NdcTranslate.TranslateChildren | v3/crates/execute/src/execute/ndc_request/v01.rs:219-236 | the push loop with early return equals the translation of the children |
| NdcTranslate.TranslateOrderByTarget | v3/crates/execute/src/execute/ndc_request/v01.rs:492-539 | the push loop over hops with early return equals the order-by target translation |

## Left out

- UI plumbing is not modelled. That covers the Redux action creators and constants (`Actions.js` lines 26-177), `dispatch`/`getState`, the success and error callbacks, `exportMetadata` and `loadInconsistentObjects`. The snapshot, current schema and editor state are explicit parameters.
- `makeMigrationCall` is not modelled: it sends the migration over the network. The model ends with the two lists.
- The order in which the backward list is run is an assumption. Both lists are passed unchanged to `makeMigrationCall` (`Actions.js` lines 807-811 and 994-998), and neither it nor the `Migration` class is part of this model. The rollback lemmas (`PermissionRollback.RollsBack`) assume the backward query added most recently runs first: from the list's end when it is built with `push`, in list order when it is built with `unshift`. Run in list order, the push-built backward list of a save over a stored kind, `[Create(k, prev), Drop(k)]`, would leave `k` absent.
- Migration names and messages (`capitalize`, `getIngForm`, `getEdForm`) are not modelled. They are only labels.
- The data source argument to the query builders is left out. It is the same for every query of one migration.
- `modifyRootPermissionState` is not modelled. It depends on immer's `produce` and on `getNewRootPermissionState`, which is not part of this model.
- `permValidateInputFields` is not modelled. It is a payload wrapper around `parseInt`.
- `getCreatePermissionQuery`, `getDropPermissionQuery`, `getQualifiedTableDef`, `getTableDef`, `generateTableDef`, `findTable`, `getTablePermissions` and `getSchemaTables` live in files that are not part of this model. The query builders are constructors. The others are lookups over the explicit snapshot.
- The `Migration` class is not part of this model. `Add` is assumed to append `up` to the forward list and `down` to the backward list.
- The model says nothing about the server's checks. Executing a migration is assumed to set a key on `Create` and remove it on `Drop`. Errors such as "already exists" or "does not exist" are not modelled.
- Aliasing is not modelled, except where the source returns the same list object (`UpdateBulkSelect`, `ToggleField`). The copies made with `JSON.parse(JSON.stringify(...))` and spreads are values.
- A key whose value is `undefined` is modelled as absent.
- PermissionState.UpdateApplySamePerms: does not model the delete path's write of `data.key` into a key named `undefined`, or a negative `splice` index. An edit index beyond one past the end is excluded by its precondition, because the source would write a hole.
- StringOrder.SortStrings: orders by Unicode code point. JavaScript's default `sort` compares UTF-16 code units, and the two differ only above U+FFFF.
- The source's crashes are modelled as errors. `tableSchema.permissions` on a table missing from the snapshot (`Actions.js` lines 611 and 913) gives `TableNotFound`, and so does a copy from a named table that is missing, where the source goes on with `[undefined]` (line 725). `delete permissionsState[query].limit` on a missing select spec (line 917) gives `MissingSpec`.
- Where the source passes `undefined` as the kind or the spec to the external query builder, the model returns `MissingSpec` or `NoQueryType` instead of building a query. That covers `prevPermissionsState[query]` (line 941) and `permissionsState[query]` (line 953) when absent, a save with no kind, and an apply-same target with no action. These are modelling restrictions: what the external builders make of `undefined` is not part of this model.
- PermissionRollback.PermChangeRollsBack: assumes the editor's `prevPermissionState` holds the stored spec of the edited kind, because the source reads the recreated spec from it rather than from the snapshot.
- `serde_json::to_value` is replaced by the `Serializer` parameter, a function that may fail. A failure becomes `ExpressionSerialization` with its message.
- Name newtype conversions (`::new`, `::from`) are identity on strings.
- `BTreeMap` and `IndexMap` are sequences of named entries in iteration order. Their key ordering and deduplication are library behaviour.
- In the query plan, the contents of `group_by` are not modelled: only their presence is read. The fields of a nested scalar-array comparison are not modelled either, because no translation reads them.
- The plan types come from crates that are not part of this model. They are given the shape their uses in `v01.rs` show.
- `Box` indirections and vector allocation are representation only, so they are not modelled.

## Findings

| source | as written | input that shows it | evidently intended | confidence | as-written member | corrected member |
|---|---|---|---|---|---|---|
| frontend/libs/console/legacy-ce/src/lib/components/Services/Data/TablePermissions/Actions.js:451-457 | the bulk grant's backward list re-creates an existing permission with the new grant spec (`createQuery`), not with the stored one | role `r` holding a `select` permission `{}` on a table whose bulk grant spec differs; after the grant and its rollback, in either order, `r`'s select permission is the grant spec or absent, not `{}` | re-create the stored spec on rollback, as every other compiler does | not executed | PermissionFindings.BulkDownLosesPermission | PermissionFindings.BulkRestoringRollsBack |
| frontend/libs/console/legacy-ce/src/lib/components/Services/Data/TablePermissions/Actions.js:622-637 | an existing permission of a target on another table is dropped and re-created on the current table's reference (`tableDef`), not the target's (`permTableSchema`) | editing table `a`, applying to role `r`'s `select` on table `b`, where `r` already has a `select` permission on `b`; in the model's store, which accepts a create over an existing key, the rollback deletes `b`'s permission and never restores it, in either order. The existing permission on `b` is never dropped, because the drop goes to `a`; a server that refuses a duplicate create would already reject the forward create on `b` | drop and re-create on the target table | not executed | PermissionFindings.ApplySameLosesPermission | PermissionFindings.ApplySameTargetTableRollsBack |
