/**
 * The seven thunks that turn a permission edit into a migration: each walks the stored
 * snapshot and the draft and builds a forward list (`permissionsUpQueries`) and a backward
 * list (`permissionsDownQueries`) of permission queries.  Each list builder is specified
 * by a function; the methods build the same lists with the source's loops.
 */
module PermissionCompilers {
  import opened Wrappers
  import opened PermissionModel
  import opened PermissionState

  /** The forward and the backward list of one migration. */
  datatype QueryLists = QueryLists(up: seq<PermissionQuery>, down: seq<PermissionQuery>)

  const NoQueries: QueryLists := QueryLists([], [])

  /** Appending one part of a migration after another, as successive `push` calls do. */
  function Join(a: QueryLists, b: QueryLists): QueryLists {
    QueryLists(a.up + b.up, a.down + b.down)
  }

  /** `d` is the opposite operation to `u` on the same (kind, table, role) triple. */
  predicate Undoes(d: PermissionQuery, u: PermissionQuery) {
    d.kind == u.kind && d.table == u.table && d.role == u.role && d.Create? != u.Create?
  }

  /** Every forward query has, at the same position of the backward list, its opposite. */
  predicate Paired(l: QueryLists) {
    |l.up| == |l.down| && forall i :: 0 <= i < |l.up| ==> Undoes(l.down[i], l.up[i])
  }

  lemma JoinPaired(a: QueryLists, b: QueryLists)
    requires Paired(a) && Paired(b)
    ensures Paired(Join(a, b))
  {
    var j := Join(a, b);
    forall i | 0 <= i < |j.up| ensures Undoes(j.down[i], j.up[i]) {
      if i >= |a.up| {
        assert j.up[i] == b.up[i - |a.up|] && j.down[i] == b.down[i - |a.up|];
      }
    }
  }

  lemma JoinAssoc(a: QueryLists, b: QueryLists, c: QueryLists)
    ensures Join(Join(a, b), c) == Join(a, Join(b, c))
  {
    assert (a.up + b.up) + c.up == a.up + (b.up + c.up);
    assert (a.down + b.down) + c.down == a.down + (b.down + c.down);
  }

  lemma Assoc<T>(a: seq<T>, b: seq<T>, c: seq<T>)
    ensures a + (b + c) == a + b + c
  {
  }

  lemma PrefixSnoc<T>(d: seq<T>, k: seq<T>, j: nat)
    requires j < |k|
    ensures d + k[..j + 1] == (d + k[..j]) + [k[j]]
  {
    assert k[..j + 1] == k[..j] + [k[j]];
  }

  lemma TakeAll<T>(k: seq<T>)
    ensures k[..|k|] == k
  {
  }

  lemma PrefixNone<T>(d: seq<T>, k: seq<T>)
    ensures d + k[..0] == d
  {
  }

  lemma PrefixAll<T>(d: seq<T>, k: seq<T>)
    ensures d + k[..|k|] == d + k
  {
  }

  /** Why a thunk cannot build its lists; each stands for a crash or an `undefined` argument in the source. */
  datatype CompileError =
    | TableNotFound(schema: string, name: string)
    | NoQueryType
    | MissingSpec(kind: QueryType)

  /** A forward query with its backward query. */
  function Pair(up: PermissionQuery, down: PermissionQuery): QueryLists {
    QueryLists([up], [down])
  }


  // ---------------------------------------------------------------- permRemoveRole

  /**
   * The lists for removing one role's stored entries on a table: a drop per stored kind,
   * in key order, each undone by re-creating the stored spec.
   */
  function RoleRemoval(entries: seq<KindSpec>, tableDef: TableRef, role: string): QueryLists {
    if entries == [] then NoQueries
    else
      var e := entries[|entries| - 1];
      Join(RoleRemoval(entries[..|entries| - 1], tableDef, role),
           Pair(Drop(e.kind, tableDef, role), Create(e.kind, tableDef, role, e.spec)))
  }

  /** `permRemoveRole(tableSchema, roleName)` with the current schema `currentSchema`. */
  method PermRemoveRole(tableSchema: TableSchema, roleName: string, currentSchema: string) returns (r: QueryLists)
    ensures r == RoleRemoval(RoleEntries(tableSchema.permissions, roleName),
                             QualifiedTableDef(currentSchema, tableSchema.tableName), roleName)
  {
    var up: seq<PermissionQuery> := [];
    var down: seq<PermissionQuery> := [];
    var tableDef := QualifiedTableDef(currentSchema, tableSchema.tableName);
    var currRolePermissions := FindRole(tableSchema.permissions, roleName);
    if currRolePermissions.Some? {
      var entries := currRolePermissions.value.permissions;
      var i := 0;
      while i < |entries|
        invariant 0 <= i <= |entries|
        invariant QueryLists(up, down) == RoleRemoval(entries[..i], tableDef, roleName)
      {
        var e := entries[i];
        up := up + [Drop(e.kind, tableDef, roleName)];
        down := down + [Create(e.kind, tableDef, roleName, e.spec)];
        assert entries[..i + 1][..i] == entries[..i];
        i := i + 1;
      }
      assert entries[..i] == entries;
    }
    r := QueryLists(up, down);
  }

  // ------------------------------------------------------- permRemoveMultipleRoles

  /** The lists for removing every selected role's stored entries (its first entry's) on one table. */
  function RolesRemoval(roles: seq<string>, perms: seq<RolePermission>, tableDef: TableRef): QueryLists {
    if roles == [] then NoQueries
    else
      var role := roles[|roles| - 1];
      Join(RolesRemoval(roles[..|roles| - 1], perms, tableDef), RoleRemoval(RoleEntries(perms, role), tableDef, role))
  }

  lemma RolesRemovalStep(roles: seq<string>, i: nat, perms: seq<RolePermission>, tableDef: TableRef)
    requires i < |roles|
    ensures RolesRemoval(roles[..i + 1], perms, tableDef)
         == Join(RolesRemoval(roles[..i], perms, tableDef), RoleRemoval(RoleEntries(perms, roles[i]), tableDef, roles[i]))
  {
    assert roles[..i + 1][..i] == roles[..i];
  }

  lemma RoleRemovalStep(entries: seq<KindSpec>, j: nat, tableDef: TableRef, role: string)
    requires j < |entries|
    ensures RoleRemoval(entries[..j + 1], tableDef, role)
         == Join(RoleRemoval(entries[..j], tableDef, role),
                 Pair(Drop(entries[j].kind, tableDef, role), Create(entries[j].kind, tableDef, role, entries[j].spec)))
  {
    assert entries[..j + 1][..j] == entries[..j];
  }

  /** The inner walk of `permRemoveMultipleRoles` over one role's stored entries: its pushes extend `up0` and `down0`. */
  method RemoveRoleEntries(entries: seq<KindSpec>, tableDef: TableRef, role: string,
                           up0: seq<PermissionQuery>, down0: seq<PermissionQuery>)
    returns (up: seq<PermissionQuery>, down: seq<PermissionQuery>)
    ensures QueryLists(up, down) == Join(QueryLists(up0, down0), RoleRemoval(entries, tableDef, role))
  {
    up, down := up0, down0;
    var j := 0;
    while j < |entries|
      invariant 0 <= j <= |entries|
      invariant QueryLists(up, down) == Join(QueryLists(up0, down0), RoleRemoval(entries[..j], tableDef, role))
    {
      var e := entries[j];
      up := up + [Drop(e.kind, tableDef, role)];
      down := down + [Create(e.kind, tableDef, role, e.spec)];
      RoleRemovalStep(entries, j, tableDef, role);
      j := j + 1;
    }
    assert entries[..j] == entries;
  }

  /** `permRemoveMultipleRoles(tableSchema)` for the roles `bulkSelect`. */
  method PermRemoveMultipleRoles(tableSchema: TableSchema, bulkSelect: seq<string>, currentSchema: string)
    returns (r: QueryLists)
    ensures r == RolesRemoval(bulkSelect, tableSchema.permissions, QualifiedTableDef(currentSchema, tableSchema.tableName))
  {
    var up: seq<PermissionQuery> := [];
    var down: seq<PermissionQuery> := [];
    var tableDef := QualifiedTableDef(currentSchema, tableSchema.tableName);
    var i := 0;
    while i < |bulkSelect|
      invariant 0 <= i <= |bulkSelect|
      invariant QueryLists(up, down) == RolesRemoval(bulkSelect[..i], tableSchema.permissions, tableDef)
    {
      var role := bulkSelect[i];
      up, down := RemoveRoleEntries(RoleEntries(tableSchema.permissions, role), tableDef, role, up, down);
      RolesRemovalStep(bulkSelect, i, tableSchema.permissions, tableDef);
      i := i + 1;
    }
    assert bulkSelect[..i] == bulkSelect;
    r := QueryLists(up, down);
  }

  // ------------------------------------------------------------ deleteRoleGlobally

  /** One kind of `deleteRoleGlobally`'s walk: a stored permission is dropped and undone by a re-creation. */
  function RoleDropStep(t: TableSchema, role: string, q: QueryType): QueryLists {
    match TablePermissions(t, role, q)
    case None => NoQueries
    case Some(spec) => Pair(Drop(q, TableDefOf(t), role), Create(q, TableDefOf(t), role, spec))
  }

  /** The steps for one table, walking `kinds`. */
  function RoleDropOnTable(t: TableSchema, role: string, kinds: seq<QueryType>): QueryLists {
    if kinds == [] then NoQueries
    else Join(RoleDropOnTable(t, role, kinds[..|kinds| - 1]), RoleDropStep(t, role, kinds[|kinds| - 1]))
  }

  /** The lists for dropping a role's permissions on every given table, all four kinds each. */
  function RoleDeletion(tables: seq<TableSchema>, role: string): QueryLists {
    if tables == [] then NoQueries
    else Join(RoleDeletion(tables[..|tables| - 1], role), RoleDropOnTable(tables[|tables| - 1], role, AllQueryTypes))
  }

  lemma RoleDeletionStep(tables: seq<TableSchema>, i: nat, role: string)
    requires i < |tables|
    ensures RoleDeletion(tables[..i + 1], role) == Join(RoleDeletion(tables[..i], role), RoleDropOnTable(tables[i], role, AllQueryTypes))
  {
    assert tables[..i + 1][..i] == tables[..i];
  }

  lemma RoleDropOnTableStep(t: TableSchema, role: string, kinds: seq<QueryType>, j: nat)
    requires j < |kinds|
    ensures RoleDropOnTable(t, role, kinds[..j + 1]) == Join(RoleDropOnTable(t, role, kinds[..j]), RoleDropStep(t, role, kinds[j]))
  {
    assert kinds[..j + 1][..j] == kinds[..j];
  }

  /** The inner walk of `deleteRoleGlobally` on one table: its pushes extend `up0` and `down0`. */
  method DropRoleOnTable(table: TableSchema, roleName: string, up0: seq<PermissionQuery>, down0: seq<PermissionQuery>)
    returns (up: seq<PermissionQuery>, down: seq<PermissionQuery>)
    ensures QueryLists(up, down) == Join(QueryLists(up0, down0), RoleDropOnTable(table, roleName, AllQueryTypes))
  {
    up, down := up0, down0;
    var tableDef := TableDefOf(table);
    var actions := AllQueryTypes;
    var j := 0;
    while j < |actions|
      invariant 0 <= j <= |actions|
      invariant QueryLists(up, down) == Join(QueryLists(up0, down0), RoleDropOnTable(table, roleName, actions[..j]))
    {
      var action := actions[j];
      var currPermissions := TablePermissions(table, roleName, action);
      ghost var before := QueryLists(up, down);
      if currPermissions.Some? {
        up := up + [Drop(action, tableDef, roleName)];
        down := down + [Create(action, tableDef, roleName, currPermissions.value)];
      }
      assert QueryLists(up, down) == Join(before, RoleDropStep(table, roleName, action));
      RoleDropOnTableStep(table, roleName, actions, j);
      JoinAssoc(QueryLists(up0, down0), RoleDropOnTable(table, roleName, actions[..j]), RoleDropStep(table, roleName, action));
      j := j + 1;
    }
    TakeAll(actions);
  }

  /** `deleteRoleGlobally(roleName)`: every table of the current schema, every kind. */
  method DeleteRoleGlobally(allSchemas: seq<TableSchema>, currentSchema: string, roleName: string)
    returns (r: QueryLists)
    ensures r == RoleDeletion(SchemaTables(allSchemas, currentSchema), roleName)
  {
    var up: seq<PermissionQuery> := [];
    var down: seq<PermissionQuery> := [];
    var tables := SchemaTables(allSchemas, currentSchema);
    var i := 0;
    while i < |tables|
      invariant 0 <= i <= |tables|
      invariant QueryLists(up, down) == RoleDeletion(tables[..i], roleName)
    {
      up, down := DropRoleOnTable(tables[i], roleName, up, down);
      RoleDeletionStep(tables, i, roleName);
      i := i + 1;
    }
    assert tables[..i] == tables;
    r := QueryLists(up, down);
  }

  // ----------------------------------------------------------- copyRolePermissions

  /** Which tables `copyRolePermissions` walks: `'all'` of the current schema, or one named table. */
  datatype TableChoice = AllTables | OneTable(schema: string, name: string)

  /** Which kinds it copies: `'all'` four, or one. */
  datatype ActionChoice = AllActions | OneAction(kind: QueryType)

  /**
   * The part of the migration for one (table, target role, kind): the target's stored permission,
   * if any, is dropped (undone by re-creating it); then the source role's permission, if any, is
   * created for the target (undone by dropping it).
   */
  function CopyStep(t: TableSchema, fromRole: string, toRole: string, q: QueryType): QueryLists {
    var tableDef := TableDefOf(t);
    var replaced := match TablePermissions(t, toRole, q)
      case None => NoQueries
      case Some(curr) => Pair(Drop(q, tableDef, toRole), Create(q, tableDef, toRole, curr));
    var copied := match TablePermissions(t, fromRole, q)
      case None => NoQueries
      case Some(from) => Pair(Create(q, tableDef, toRole, from), Drop(q, tableDef, toRole));
    Join(replaced, copied)
  }

  function CopyActions(t: TableSchema, fromRole: string, toRole: string, kinds: seq<QueryType>): QueryLists {
    if kinds == [] then NoQueries
    else Join(CopyActions(t, fromRole, toRole, kinds[..|kinds| - 1]), CopyStep(t, fromRole, toRole, kinds[|kinds| - 1]))
  }

  function CopyRoles(t: TableSchema, fromRole: string, toRoles: seq<string>, kinds: seq<QueryType>): QueryLists {
    if toRoles == [] then NoQueries
    else Join(CopyRoles(t, fromRole, toRoles[..|toRoles| - 1], kinds), CopyActions(t, fromRole, toRoles[|toRoles| - 1], kinds))
  }

  function CopyTables(tables: seq<TableSchema>, fromRole: string, toRoles: seq<string>, kinds: seq<QueryType>): QueryLists {
    if tables == [] then NoQueries
    else Join(CopyTables(tables[..|tables| - 1], fromRole, toRoles, kinds), CopyRoles(tables[|tables| - 1], fromRole, toRoles, kinds))
  }

  lemma CopyActionsStep(t: TableSchema, fromRole: string, toRole: string, kinds: seq<QueryType>, k: nat)
    requires k < |kinds|
    ensures CopyActions(t, fromRole, toRole, kinds[..k + 1])
         == Join(CopyActions(t, fromRole, toRole, kinds[..k]), CopyStep(t, fromRole, toRole, kinds[k]))
  {
    assert kinds[..k + 1][..k] == kinds[..k];
  }

  lemma CopyRolesStep(t: TableSchema, fromRole: string, toRoles: seq<string>, kinds: seq<QueryType>, j: nat)
    requires j < |toRoles|
    ensures CopyRoles(t, fromRole, toRoles[..j + 1], kinds)
         == Join(CopyRoles(t, fromRole, toRoles[..j], kinds), CopyActions(t, fromRole, toRoles[j], kinds))
  {
    assert toRoles[..j + 1][..j] == toRoles[..j];
  }

  lemma CopyTablesStep(tables: seq<TableSchema>, fromRole: string, toRoles: seq<string>, kinds: seq<QueryType>, i: nat)
    requires i < |tables|
    ensures CopyTables(tables[..i + 1], fromRole, toRoles, kinds)
         == Join(CopyTables(tables[..i], fromRole, toRoles, kinds), CopyRoles(tables[i], fromRole, toRoles, kinds))
  {
    assert tables[..i + 1][..i] == tables[..i];
  }

  /** The tables a copy walks, or the error of a named table that is not in the snapshot. */
  function CopyTablesOf(allSchemas: seq<TableSchema>, currentSchema: string, choice: TableChoice)
    : (r: Result<seq<TableSchema>, CompileError>)
    ensures choice.AllTables? ==> r == Ok(SchemaTables(allSchemas, currentSchema))
    ensures choice.OneTable? ==>
      match FindTable(allSchemas, choice.schema, choice.name)
      case None => r == Err(TableNotFound(choice.schema, choice.name))
      case Some(t) => r == Ok([t])
  {
    match choice
    case AllTables => Ok(SchemaTables(allSchemas, currentSchema))
    case OneTable(schema, name) =>
      match FindTable(allSchemas, schema, name)
      case None => Err(TableNotFound(schema, name))
      case Some(t) => Ok([t])
  }

  function KindsOf(choice: ActionChoice): seq<QueryType> {
    match choice
    case AllActions => AllQueryTypes
    case OneAction(q) => [q]
  }

  /** The lists `copyRolePermissions` hands to the migration call. */
  function CopyRoleLists(allSchemas: seq<TableSchema>, currentSchema: string, fromRole: string,
                         tableChoice: TableChoice, action: ActionChoice, toRoles: seq<string>)
    : Result<QueryLists, CompileError>
  {
    var tables :- CopyTablesOf(allSchemas, currentSchema, tableChoice);
    Ok(CopyTables(tables, fromRole, toRoles, KindsOf(action)))
  }

  /**
   * The migration object `copyRolePermissions` fills; `add(up, down)` is taken to append
   * `up` to the forward list and `down` to the backward list.
   */
  class Migration {
    var upMigration: seq<PermissionQuery>
    var downMigration: seq<PermissionQuery>

    constructor()
      ensures upMigration == [] && downMigration == []
    {
      upMigration := [];
      downMigration := [];
    }

    method Add(up: PermissionQuery, down: PermissionQuery)
      modifies this
      ensures upMigration == old(upMigration) + [up]
      ensures downMigration == old(downMigration) + [down]
      ensures Lists() == Join(old(Lists()), Pair(up, down))
    {
      upMigration := upMigration + [up];
      downMigration := downMigration + [down];
    }

    function Lists(): QueryLists
      reads this
    {
      QueryLists(upMigration, downMigration)
    }
  }

  /** One (table, target role, kind) of `copyRolePermissions`, added to `migration`. */
  method CopyStepInto(migration: Migration, table: TableSchema, fromRole: string, toRole: string, a: QueryType)
    modifies migration
    ensures migration.Lists() == Join(old(migration.Lists()), CopyStep(table, fromRole, toRole, a))
  {
    var tableDef := TableDefOf(table);
    var currPermissions := TablePermissions(table, toRole, a);
    var toBeAppliedPermissions := TablePermissions(table, fromRole, a);
    ghost var replaced := NoQueries;
    ghost var copied := NoQueries;
    if currPermissions.Some? {
      migration.Add(Drop(a, tableDef, toRole), Create(a, tableDef, toRole, currPermissions.value));
      replaced := Pair(Drop(a, tableDef, toRole), Create(a, tableDef, toRole, currPermissions.value));
    }
    ghost var afterReplace := migration.Lists();
    assert afterReplace == Join(old(migration.Lists()), replaced);
    if toBeAppliedPermissions.Some? {
      migration.Add(Create(a, tableDef, toRole, toBeAppliedPermissions.value), Drop(a, tableDef, toRole));
      copied := Pair(Create(a, tableDef, toRole, toBeAppliedPermissions.value), Drop(a, tableDef, toRole));
    }
    assert migration.Lists() == Join(afterReplace, copied);
    JoinAssoc(old(migration.Lists()), replaced, copied);
  }

  /** The kinds walked for one target role on one table. */
  method CopyActionsInto(migration: Migration, table: TableSchema, fromRole: string, toRole: string, actions: seq<QueryType>)
    modifies migration
    ensures migration.Lists() == Join(old(migration.Lists()), CopyActions(table, fromRole, toRole, actions))
  {
    ghost var before := migration.Lists();
    var k := 0;
    assert actions[..0] == [];
    while k < |actions|
      invariant 0 <= k <= |actions|
      invariant migration.Lists() == Join(before, CopyActions(table, fromRole, toRole, actions[..k]))
    {
      CopyStepInto(migration, table, fromRole, toRole, actions[k]);
      JoinAssoc(before, CopyActions(table, fromRole, toRole, actions[..k]), CopyStep(table, fromRole, toRole, actions[k]));
      CopyActionsStep(table, fromRole, toRole, actions, k);
      k := k + 1;
    }
    assert actions[..k] == actions;
  }

  /** The target roles walked on one table. */
  method CopyRolesInto(migration: Migration, table: TableSchema, fromRole: string, toRoles: seq<string>, actions: seq<QueryType>)
    modifies migration
    ensures migration.Lists() == Join(old(migration.Lists()), CopyRoles(table, fromRole, toRoles, actions))
  {
    ghost var before := migration.Lists();
    var j := 0;
    assert toRoles[..0] == [];
    while j < |toRoles|
      invariant 0 <= j <= |toRoles|
      invariant migration.Lists() == Join(before, CopyRoles(table, fromRole, toRoles[..j], actions))
    {
      CopyActionsInto(migration, table, fromRole, toRoles[j], actions);
      JoinAssoc(before, CopyRoles(table, fromRole, toRoles[..j], actions), CopyActions(table, fromRole, toRoles[j], actions));
      CopyRolesStep(table, fromRole, toRoles, actions, j);
      j := j + 1;
    }
    assert toRoles[..j] == toRoles;
  }

  /** `copyRolePermissions(fromRole, tableNameWithSchema, action, toRoles)`. */
  method CopyRolePermissions(allSchemas: seq<TableSchema>, currentSchema: string, fromRole: string,
                             tableChoice: TableChoice, action: ActionChoice, toRoles: seq<string>)
    returns (r: Result<QueryLists, CompileError>)
    ensures r == CopyRoleLists(allSchemas, currentSchema, fromRole, tableChoice, action, toRoles)
  {
    var migration := new Migration();
    var found := CopyTablesOf(allSchemas, currentSchema, tableChoice);
    if found.Err? {
      return Err(found.error);
    }
    var tables := found.value;
    var actions := KindsOf(action);
    var i := 0;
    while i < |tables|
      invariant 0 <= i <= |tables|
      invariant migration.Lists() == CopyTables(tables[..i], fromRole, toRoles, actions)
    {
      CopyRolesInto(migration, tables[i], fromRole, toRoles, actions);
      CopyTablesStep(tables, fromRole, toRoles, actions, i);
      i := i + 1;
    }
    assert tables[..i] == tables;
    r := Ok(migration.Lists());
  }

  // --------------------------------------------------------- permChangePermissions

  /** `permChangeTypes`: `save` (`'update'`) re-creates the draft; `delete` only drops. */
  datatype ChangeType = SaveChange | DeleteChange

  /** The draft spec that a save creates: a select's `limit` is removed when limits are switched off. */
  function SavedSpec(ps: PermissionsState, q: QueryType): (r: Option<Spec>)
    ensures r.Some? <==> q in ps.perms
    ensures r.Some? && q == Select && !ps.limitEnabled ==> LimitKey !in r.value && r.value == ps.perms[q] - {LimitKey}
    ensures r.Some? && !(q == Select && !ps.limitEnabled) ==> r.value == ps.perms[q]
  {
    if q !in ps.perms then None
    else if q == Select && !ps.limitEnabled then Some(ps.perms[q] - {LimitKey})
    else Some(ps.perms[q])
  }

  /**
   * `permChangePermissions(changeType)`: for the draft's table, trimmed role and kind, a stored
   * permission is dropped (undone by re-creating the previous spec `prev[kind]`); on a save the
   * draft spec is then created (undone by dropping it).
   */
  function PermChangePermissions(changeType: ChangeType, ps: PermissionsState, prev: map<QueryType, Spec>,
                                 allSchemas: seq<TableSchema>, currentSchema: string)
    : Result<QueryLists, CompileError>
  {
    var role := Trim(ps.role);
    match FindTable(allSchemas, currentSchema, ps.table)
    case None => Err(TableNotFound(currentSchema, ps.table))
    case Some(t) =>
      match ps.query
      case None => if changeType == SaveChange then Err(NoQueryType) else Ok(NoQueries)
      case Some(q) =>
        if q == Select && !ps.limitEnabled && q !in ps.perms then Err(MissingSpec(q))
        else
          var stored := TablePermissions(t, role, q);
          if stored.Some? && q !in prev then Err(MissingSpec(q))
          else if changeType == SaveChange && SavedSpec(ps, q).None? then Err(MissingSpec(q))
          else Ok(ChangeLists(changeType, ps, q, prev, QualifiedTableDef(currentSchema, ps.table), role, stored.Some?))
  }

  /**
   * The lists of one permission change on `(q, tableDef, role)`: a stored permission is dropped
   * (undone by re-creating `prev[q]`); a save then creates the saved spec (undone by a drop).
   */
  function ChangeLists(changeType: ChangeType, ps: PermissionsState, q: QueryType, prev: map<QueryType, Spec>,
                       tableDef: TableRef, role: string, stored: bool): QueryLists
    requires stored ==> q in prev
    requires changeType == SaveChange ==> SavedSpec(ps, q).Some?
  {
    var dropOld := if stored then Pair(Drop(q, tableDef, role), Create(q, tableDef, role, prev[q])) else NoQueries;
    var create := if changeType == SaveChange then Pair(Create(q, tableDef, role, SavedSpec(ps, q).value), Drop(q, tableDef, role)) else NoQueries;
    Join(dropOld, create)
  }

  // ---------------------------------------------------------- bulkPermissionModifier

  /** One (role, kind) visited by the bulk grant. */
  datatype RoleKind = RoleKind(role: string, kind: QueryType)

  /** The four kinds of one role, in the source's fixed order. */
  function KindsOfRole(role: string): (r: seq<RoleKind>)
    ensures |r| == |AllQueryTypes| && forall j :: 0 <= j < |r| ==> r[j] == RoleKind(role, AllQueryTypes[j])
  {
    [RoleKind(role, Select), RoleKind(role, Insert), RoleKind(role, Update), RoleKind(role, Delete)]
  }

  /** Every (role, kind) in iteration order: role by role, four kinds each. */
  function RoleKindPairs(roles: seq<string>): seq<RoleKind> {
    if roles == [] then [] else RoleKindPairs(roles[..|roles| - 1]) + KindsOfRole(roles[|roles| - 1])
  }

  /** `{check: {}, columns: allColumns, comment: '', filter: {}}`, the spec a bulk grant creates. */
  function GrantSpec(columns: seq<string>): (r: Spec)
    ensures r.Keys == {CheckKey, ColumnsKey, CommentKey, FilterKey}
    ensures r[ColumnsKey] == NameArray(columns) && r[CheckKey] == JObj(map[])
    ensures r[FilterKey] == JObj(map[]) && r[CommentKey] == JStr("")
  {
    map[CheckKey := JObj(map[]), ColumnsKey := NameArray(columns), CommentKey := JStr(""), FilterKey := JObj(map[])]
  }

  /** The spec a role already has for a kind: the first entry for the role, then its key for the kind. */
  function StoredFor(perms: seq<RolePermission>, p: RoleKind): Option<Spec> {
    LookupKind(RoleEntries(perms, p.role), p.kind)
  }

  /**
   * The bulk grant's forward list: each visit pushes a create of the grant spec at the tail and,
   * when the role already has that kind, `unshift`s its drop at the head.
   */
  function BulkUp(pairs: seq<RoleKind>, perms: seq<RolePermission>, tableDef: TableRef, grant: Spec)
    : seq<PermissionQuery>
  {
    if pairs == [] then []
    else
      var p := pairs[|pairs| - 1];
      (if StoredFor(perms, p).Some? then [Drop(p.kind, tableDef, p.role)] else [])
      + BulkUp(pairs[..|pairs| - 1], perms, tableDef, grant) + [Create(p.kind, tableDef, p.role, grant)]
  }

  /** The bulk grant's backward list as written: a drop per visit, then a create of the grant spec where one existed. */
  function BulkDown(pairs: seq<RoleKind>, perms: seq<RolePermission>, tableDef: TableRef, grant: Spec)
    : seq<PermissionQuery>
  {
    if pairs == [] then []
    else
      var p := pairs[|pairs| - 1];
      BulkDown(pairs[..|pairs| - 1], perms, tableDef, grant)
      + [Drop(p.kind, tableDef, p.role)]
      + (if StoredFor(perms, p).Some? then [Create(p.kind, tableDef, p.role, grant)] else [])
  }

  /**
   * The backward list the bulk grant evidently intends: per visit, the stored spec re-created
   * (where there was one) before the drop, so that running the list from its end restores it.
   */
  function BulkDownRestoring(pairs: seq<RoleKind>, perms: seq<RolePermission>, tableDef: TableRef)
    : seq<PermissionQuery>
  {
    if pairs == [] then []
    else
      var p := pairs[|pairs| - 1];
      BulkDownRestoring(pairs[..|pairs| - 1], perms, tableDef)
      + (match StoredFor(perms, p) case Some(spec) => [Create(p.kind, tableDef, p.role, spec)] case None => [])
      + [Drop(p.kind, tableDef, p.role)]
  }

  lemma BulkStep(prefix: seq<RoleKind>, p: RoleKind, perms: seq<RolePermission>, tableDef: TableRef, grant: Spec)
    ensures BulkUp(prefix + [p], perms, tableDef, grant)
         == (if StoredFor(perms, p).Some? then [Drop(p.kind, tableDef, p.role)] else [])
            + BulkUp(prefix, perms, tableDef, grant) + [Create(p.kind, tableDef, p.role, grant)]
    ensures BulkDown(prefix + [p], perms, tableDef, grant)
         == BulkDown(prefix, perms, tableDef, grant) + [Drop(p.kind, tableDef, p.role)]
            + (if StoredFor(perms, p).Some? then [Create(p.kind, tableDef, p.role, grant)] else [])
  {
    assert (prefix + [p])[..|prefix|] == prefix;
  }

  /** One kind of the bulk grant: the create is pushed, and a stored kind's drop unshifted. */
  method GrantKind(perms: seq<RolePermission>, tableDef: TableRef, grant: Spec, p: RoleKind,
                   up0: seq<PermissionQuery>, down0: seq<PermissionQuery>, ghost visited: seq<RoleKind>)
    returns (up: seq<PermissionQuery>, down: seq<PermissionQuery>)
    requires up0 == BulkUp(visited, perms, tableDef, grant) && down0 == BulkDown(visited, perms, tableDef, grant)
    ensures up == BulkUp(visited + [p], perms, tableDef, grant) && down == BulkDown(visited + [p], perms, tableDef, grant)
  {
    var deleteQuery := Drop(p.kind, tableDef, p.role);
    var createQuery := Create(p.kind, tableDef, p.role, grant);
    BulkStep(visited, p, perms, tableDef, grant);
    up := up0 + [createQuery];
    down := down0 + [deleteQuery];
    if LookupKind(RoleEntries(perms, p.role), p.kind).Some? {
      up := [deleteQuery] + up;
      down := down + [createQuery];
      Assoc([deleteQuery], up0, [createQuery]);
    } else {
      assert [] + up0 == up0;
      assert down0 + [deleteQuery] + [] == down0 + [deleteQuery];
    }
  }

  lemma RoleKindPairsStep(roles: seq<string>, i: nat)
    requires i < |roles|
    ensures RoleKindPairs(roles[..i + 1]) == RoleKindPairs(roles[..i]) + KindsOfRole(roles[i])
  {
    assert roles[..i + 1][..i] == roles[..i];
  }

  /** The four kinds of the bulk grant for one role, extending the lists built for the roles `done`. */
  method GrantRole(perms: seq<RolePermission>, tableDef: TableRef, grant: Spec, role: string,
                   up0: seq<PermissionQuery>, down0: seq<PermissionQuery>, ghost done: seq<RoleKind>)
    returns (up: seq<PermissionQuery>, down: seq<PermissionQuery>)
    requires up0 == BulkUp(done, perms, tableDef, grant) && down0 == BulkDown(done, perms, tableDef, grant)
    ensures up == BulkUp(done + KindsOfRole(role), perms, tableDef, grant)
    ensures down == BulkDown(done + KindsOfRole(role), perms, tableDef, grant)
  {
    up, down := up0, down0;
    ghost var visited := done;
    var j := 0;
    PrefixNone(done, KindsOfRole(role));
    while j < |AllQueryTypes|
      invariant 0 <= j <= |AllQueryTypes|
      invariant visited == done + KindsOfRole(role)[..j]
      invariant up == BulkUp(visited, perms, tableDef, grant) && down == BulkDown(visited, perms, tableDef, grant)
    {
      var p := RoleKind(role, AllQueryTypes[j]);
      PrefixSnoc(done, KindsOfRole(role), j);
      up, down := GrantKind(perms, tableDef, grant, p, up, down, visited);
      visited := visited + [p];
      j := j + 1;
    }
    PrefixAll(done, KindsOfRole(role));
  }

  /** `bulkPermissionModifier(tableSchema)` for the roles `bulkSelect`. */
  method BulkPermissionModifier(tableSchema: TableSchema, bulkSelect: seq<string>, currentSchema: string)
    returns (r: QueryLists)
    ensures var tableDef := QualifiedTableDef(currentSchema, tableSchema.tableName);
      var pairs := RoleKindPairs(bulkSelect);
      r == QueryLists(BulkUp(pairs, tableSchema.permissions, tableDef, GrantSpec(tableSchema.columns)),
                      BulkDown(pairs, tableSchema.permissions, tableDef, GrantSpec(tableSchema.columns)))
  {
    var tableDef := QualifiedTableDef(currentSchema, tableSchema.tableName);
    var permissionAndComment := GrantSpec(tableSchema.columns);
    var perms := tableSchema.permissions;
    var up: seq<PermissionQuery> := [];
    var down: seq<PermissionQuery> := [];
    var i := 0;
    while i < |bulkSelect|
      invariant 0 <= i <= |bulkSelect|
      invariant up == BulkUp(RoleKindPairs(bulkSelect[..i]), perms, tableDef, permissionAndComment)
      invariant down == BulkDown(RoleKindPairs(bulkSelect[..i]), perms, tableDef, permissionAndComment)
    {
      up, down := GrantRole(perms, tableDef, permissionAndComment, bulkSelect[i], up, down, RoleKindPairs(bulkSelect[..i]));
      RoleKindPairsStep(bulkSelect, i);
      i := i + 1;
    }
    assert bulkSelect[..i] == bulkSelect;
    r := QueryLists(up, down);
  }

  // ------------------------------------------------------- applySamePermissionsBulk

  /** `applySamePermissions.filter(applyTo => applyTo.table && applyTo.action && applyTo.role)`. */
  function CompleteTargets(rows: seq<ApplyTarget>): (r: seq<ApplyTarget>)
    ensures forall t :: t in r <==> t in rows && IsCompleteTarget(t)
    ensures |r| <= |rows|
  {
    if rows == [] then []
    else
      var rest := CompleteTargets(rows[1..]);
      assert forall t :: t in rows <==> t == rows[0] || t in rows[1..] by {
        assert rows == [rows[0]] + rows[1..];
      }
      if IsCompleteTarget(rows[0]) then [rows[0]] + rest else rest
  }

  /** The targets walked: the complete rows, then the edited triple itself when it was modified. */
  function ApplyTargets(ps: PermissionsState, table: string, modified: bool): seq<ApplyTarget> {
    CompleteTargets(ps.applySamePermissions) + (if modified then [ApplyTarget(table, ps.query, ps.role)] else [])
  }

  /**
   * The copy of the drafted spec created on one target: on another table the column list
   * and presets are emptied; copying a non-insert permission to an insert makes the row
   * filter the check, and an insert permission to another kind makes the check the filter
   * (a key copied from an absent key is absent).
   */
  function Sanitized(drafted: Spec, otherTable: bool, action: QueryType, current: Option<QueryType>): (r: Spec)
    ensures otherTable ==> ColumnsKey in r && r[ColumnsKey] == JArr([]) && SetKey in r && r[SetKey] == JObj(map[])
    ensures !otherTable ==> (ColumnsKey in r <==> ColumnsKey in drafted) && (SetKey in r <==> SetKey in drafted)
    ensures !otherTable && ColumnsKey in drafted ==> r[ColumnsKey] == drafted[ColumnsKey]
    ensures !otherTable && SetKey in drafted ==> r[SetKey] == drafted[SetKey]
    ensures action == Insert && current != Some(Insert) ==>
      && (CheckKey in r <==> FilterKey in drafted) && (FilterKey in drafted ==> r[CheckKey] == drafted[FilterKey])
      && (FilterKey in r <==> FilterKey in drafted) && (FilterKey in drafted ==> r[FilterKey] == drafted[FilterKey])
    ensures action != Insert && current == Some(Insert) ==>
      && (FilterKey in r <==> CheckKey in drafted) && (CheckKey in drafted ==> r[FilterKey] == drafted[CheckKey])
      && (CheckKey in r <==> CheckKey in drafted) && (CheckKey in drafted ==> r[CheckKey] == drafted[CheckKey])
    ensures (action == Insert) == (current == Some(Insert)) ==>
      && (CheckKey in r <==> CheckKey in drafted) && (CheckKey in drafted ==> r[CheckKey] == drafted[CheckKey])
      && (FilterKey in r <==> FilterKey in drafted) && (FilterKey in drafted ==> r[FilterKey] == drafted[FilterKey])
    ensures forall k :: k != ColumnsKey && k != SetKey && k != CheckKey && k != FilterKey ==>
      (k in r <==> k in drafted) && (k in drafted ==> r[k] == drafted[k])
  {
    var s := if otherTable then drafted[ColumnsKey := JArr([])][SetKey := JObj(map[])] else drafted;
    if action == Insert && current != Some(Insert) then
      (if FilterKey in s then s[CheckKey := s[FilterKey]] else s - {CheckKey})
    else if action != Insert && current == Some(Insert) then
      (if CheckKey in s then s[FilterKey := s[CheckKey]] else s - {FilterKey})
    else s
  }

  /** Which table the source drops and re-creates a target's existing permission on. */
  datatype RecreateOn = CurrentTable | TargetTable

  /**
   * The part of the migration for one target found as table `t`; the backward part is listed in
   * the order it ends up in after the two `unshift`s.  The source recreates an existing permission
   * on the current table's reference (`CurrentTable`); `TargetTable` is the evidently intended one.
   */
  function ApplyStep(target: ApplyTarget, q: QueryType, t: TableSchema, tableDef: TableRef, table: string,
                     drafted: Spec, current: Option<QueryType>, on: RecreateOn): QueryLists
  {
    var permTableSchema := TableDefOf(t);
    var existingRef := if on == CurrentTable then tableDef else permTableSchema;
    var spec := Sanitized(drafted, target.table != table, q, current);
    match TablePermissions(t, target.role, q)
    case None =>
      QueryLists([Create(q, permTableSchema, target.role, spec)], [Drop(q, permTableSchema, target.role)])
    case Some(existing) =>
      QueryLists([Drop(q, existingRef, target.role), Create(q, permTableSchema, target.role, spec)],
                 [Drop(q, permTableSchema, target.role), Create(q, existingRef, target.role, existing)])
  }

  /** What one target's step needs from the snapshot: its table and its kind. */
  function ResolveTarget(target: ApplyTarget, allSchemas: seq<TableSchema>, currentSchema: string)
    : (r: Result<(TableSchema, QueryType), CompileError>)
    ensures r.Ok? ==> (Some(r.value.0) == FindTable(allSchemas, currentSchema, target.table)
                       && target.action == Some(r.value.1))
    ensures r.Err? <==> FindTable(allSchemas, currentSchema, target.table).None? || target.action.None?
  {
    match FindTable(allSchemas, currentSchema, target.table)
    case None => Err(TableNotFound(currentSchema, target.table))
    case Some(t) =>
      match target.action
      case None => Err(NoQueryType)
      case Some(q) => Ok((t, q))
  }

  /**
   * Walking the remaining `targets` with the lists `acc` built so far: each step's forward part
   * is pushed, its backward part unshifted; the first target that cannot be resolved stops the walk.
   */
  function ApplySameFrom(targets: seq<ApplyTarget>, acc: QueryLists, allSchemas: seq<TableSchema>, currentSchema: string,
                         tableDef: TableRef, table: string, drafted: Spec, current: Option<QueryType>, on: RecreateOn)
    : Result<QueryLists, CompileError>
    decreases |targets|
  {
    if targets == [] then Ok(acc)
    else
      match ResolveTarget(targets[0], allSchemas, currentSchema)
      case Err(e) => Err(e)
      case Ok((t, q)) =>
        var step := ApplyStep(targets[0], q, t, tableDef, table, drafted, current, on);
        ApplySameFrom(targets[1..], QueryLists(acc.up + step.up, step.down + acc.down),
                      allSchemas, currentSchema, tableDef, table, drafted, current, on)
  }

  lemma ApplySameFromStep(targets: seq<ApplyTarget>, acc: QueryLists, allSchemas: seq<TableSchema>, currentSchema: string,
                          tableDef: TableRef, table: string, drafted: Spec, current: Option<QueryType>, on: RecreateOn,
                          t: TableSchema, q: QueryType)
    requires targets != [] && ResolveTarget(targets[0], allSchemas, currentSchema) == Ok((t, q))
    ensures var step := ApplyStep(targets[0], q, t, tableDef, table, drafted, current, on);
      ApplySameFrom(targets, acc, allSchemas, currentSchema, tableDef, table, drafted, current, on)
      == ApplySameFrom(targets[1..], QueryLists(acc.up + step.up, step.down + acc.down),
                       allSchemas, currentSchema, tableDef, table, drafted, current, on)
  {
  }

  /** The draft spec of the current kind, `{}` when there is none (`{ ...undefined }`). */
  function DraftedSpec(ps: PermissionsState): (r: Spec)
    ensures ps.query.Some? && ps.query.value in ps.perms ==> r == ps.perms[ps.query.value]
    ensures !(ps.query.Some? && ps.query.value in ps.perms) ==> r == map[]
  {
    if ps.query.Some? && ps.query.value in ps.perms then ps.perms[ps.query.value] else map[]
  }

  /** The lists `applySamePermissionsBulk(tableSchema, arePermissionsModified)` builds. */
  function ApplySameLists(tableSchema: TableSchema, modified: bool, ps: PermissionsState,
                          allSchemas: seq<TableSchema>, currentSchema: string, on: RecreateOn)
    : Result<QueryLists, CompileError>
  {
    ApplySameFrom(ApplyTargets(ps, tableSchema.tableName, modified), NoQueries, allSchemas, currentSchema,
                  QualifiedTableDef(currentSchema, tableSchema.tableName), tableSchema.tableName,
                  DraftedSpec(ps), ps.query, on)
  }

  /** The loop body of `applySamePermissionsBulk` for one resolved target, pushing onto `up0` and unshifting onto `down0`. */
  method ApplyToTarget(applyTo: ApplyTarget, action: QueryType, t: TableSchema, tableDef: TableRef, table: string,
                       toBeAppliedPermission: Spec, currentQueryType: Option<QueryType>,
                       up0: seq<PermissionQuery>, down0: seq<PermissionQuery>)
    returns (up: seq<PermissionQuery>, down: seq<PermissionQuery>)
    ensures var step := ApplyStep(applyTo, action, t, tableDef, table, toBeAppliedPermission, currentQueryType, CurrentTable);
      up == up0 + step.up && down == step.down + down0
  {
    up, down := up0, down0;
    var permTableSchema := TableDefOf(t);
    var currentPermPermission := TablePermissions(t, applyTo.role, action);
    if currentPermPermission.Some? {
      up := up + [Drop(action, tableDef, applyTo.role)];
      down := [Create(action, tableDef, applyTo.role, currentPermPermission.value)] + down;
    }
    var sanitizedPermission := Sanitized(toBeAppliedPermission, applyTo.table != table, action, currentQueryType);
    var createQuery := Create(action, permTableSchema, applyTo.role, sanitizedPermission);
    var deleteQuery := Drop(action, permTableSchema, applyTo.role);
    up := up + [createQuery];
    down := [deleteQuery] + down;
    if currentPermPermission.Some? {
      Assoc(up0, [Drop(action, tableDef, applyTo.role)], [createQuery]);
      Assoc([deleteQuery], [Create(action, tableDef, applyTo.role, currentPermPermission.value)], down0);
    }
  }

  /** `applySamePermissionsBulk(tableSchema, arePermissionsModified)` as written. */
  method ApplySamePermissionsBulk(tableSchema: TableSchema, arePermissionsModified: bool, ps: PermissionsState,
                                  allSchemas: seq<TableSchema>, currentSchema: string)
    returns (r: Result<QueryLists, CompileError>)
    ensures r == ApplySameLists(tableSchema, arePermissionsModified, ps, allSchemas, currentSchema, CurrentTable)
  {
    var table := tableSchema.tableName;
    var currentQueryType := ps.query;
    var toBeAppliedPermission := DraftedSpec(ps);
    var permApplyToList := CompleteTargets(ps.applySamePermissions);
    var tableDef := QualifiedTableDef(currentSchema, table);
    if arePermissionsModified {
      permApplyToList := permApplyToList + [ApplyTarget(table, currentQueryType, ps.role)];
    }
    assert permApplyToList == ApplyTargets(ps, table, arePermissionsModified);
    assert permApplyToList[0..] == permApplyToList;
    var up: seq<PermissionQuery> := [];
    var down: seq<PermissionQuery> := [];
    var i := 0;
    while i < |permApplyToList|
      invariant 0 <= i <= |permApplyToList|
      invariant ApplySameFrom(permApplyToList[i..], QueryLists(up, down), allSchemas, currentSchema, tableDef, table,
                              toBeAppliedPermission, currentQueryType, CurrentTable)
             == ApplySameLists(tableSchema, arePermissionsModified, ps, allSchemas, currentSchema, CurrentTable)
    {
      var applyTo := permApplyToList[i];
      assert permApplyToList[i..][0] == applyTo && permApplyToList[i..][1..] == permApplyToList[i + 1..];
      var currTableSchema := FindTable(allSchemas, currentSchema, applyTo.table);
      if currTableSchema.None? {
        return Err(TableNotFound(currentSchema, applyTo.table));
      }
      if applyTo.action.None? {
        return Err(NoQueryType);
      }
      ApplySameFromStep(permApplyToList[i..], QueryLists(up, down), allSchemas, currentSchema, tableDef, table,
                        toBeAppliedPermission, currentQueryType, CurrentTable, currTableSchema.value, applyTo.action.value);
      up, down := ApplyToTarget(applyTo, applyTo.action.value, currTableSchema.value, tableDef, table,
                                toBeAppliedPermission, currentQueryType, up, down);
      i := i + 1;
    }
    r := Ok(QueryLists(up, down));
  }
}
