/**
 * The shape of the lists each compiler builds: forward and backward lists of equal length
 * with, position by position, opposite queries on the same triple; which queries appear;
 * and where the bulk grant puts its drops.
 */
module PermissionShapes {
  import opened Wrappers
  import opened PermissionModel
  import opened PermissionState
  import opened MigrationStore
  import opened PermissionCompilers

  lemma PairPaired(up: PermissionQuery, down: PermissionQuery)
    requires Undoes(down, up)
    ensures Paired(Pair(up, down))
  {
  }

  lemma NoQueriesPaired()
    ensures Paired(NoQueries)
  {
  }

  // ---------------------------------------------------------------- role removal

  /**
   * Removing a role's entries emits, entry by entry in key order, a drop of that kind and,
   * at the same position of the backward list, a create of its stored spec.
   */
  lemma {:induction false} RoleRemovalContents(entries: seq<KindSpec>, tableDef: TableRef, role: string)
    ensures var l := RoleRemoval(entries, tableDef, role);
      && |l.up| == |entries| && |l.down| == |entries|
      && (forall i :: 0 <= i < |entries| ==> l.up[i] == Drop(entries[i].kind, tableDef, role))
      && (forall i :: 0 <= i < |entries| ==> l.down[i] == Create(entries[i].kind, tableDef, role, entries[i].spec))
    decreases |entries|
  {
    if entries != [] {
      var n := |entries| - 1;
      RoleRemovalContents(entries[..n], tableDef, role);
      assert forall i :: 0 <= i < n ==> entries[..n][i] == entries[i];
    }
  }

  lemma RoleRemovalPaired(entries: seq<KindSpec>, tableDef: TableRef, role: string)
    ensures Paired(RoleRemoval(entries, tableDef, role))
  {
    RoleRemovalContents(entries, tableDef, role);
  }

  /** `permRemoveMultipleRoles` pairs every drop with the re-creation of that triple. */
  lemma {:induction false} RolesRemovalPaired(roles: seq<string>, perms: seq<RolePermission>, tableDef: TableRef)
    ensures Paired(RolesRemoval(roles, perms, tableDef))
    decreases |roles|
  {
    if roles != [] {
      var role := roles[|roles| - 1];
      RolesRemovalPaired(roles[..|roles| - 1], perms, tableDef);
      RoleRemovalPaired(RoleEntries(perms, role), tableDef, role);
      JoinPaired(RolesRemoval(roles[..|roles| - 1], perms, tableDef), RoleRemoval(RoleEntries(perms, role), tableDef, role));
    }
  }

  // ---------------------------------------------------------------- role deletion

  /** The kinds of `kinds` for which the role has a stored permission on `t`, in walk order. */
  function StoredKinds(t: TableSchema, role: string, kinds: seq<QueryType>): (r: seq<QueryType>)
    ensures forall q :: q in r <==> q in kinds && TablePermissions(t, role, q).Some?
  {
    if kinds == [] then []
    else
      var n := |kinds| - 1;
      assert kinds == kinds[..n] + [kinds[n]];
      StoredKinds(t, role, kinds[..n]) + (if TablePermissions(t, role, kinds[n]).Some? then [kinds[n]] else [])
  }

  /**
   * On one table, `deleteRoleGlobally` drops exactly the stored kinds, in walk order, each
   * undone by re-creating its stored spec.
   */
  lemma {:induction false} RoleDropOnTableContents(t: TableSchema, role: string, kinds: seq<QueryType>)
    ensures var l := RoleDropOnTable(t, role, kinds);
      var stored := StoredKinds(t, role, kinds);
      && |l.up| == |stored| && |l.down| == |stored|
      && (forall i :: 0 <= i < |stored| ==> l.up[i] == Drop(stored[i], TableDefOf(t), role))
      && (forall i :: 0 <= i < |stored| ==>
            l.down[i] == Create(stored[i], TableDefOf(t), role, TablePermissions(t, role, stored[i]).value))
    decreases |kinds|
  {
    if kinds != [] {
      var n := |kinds| - 1;
      RoleDropOnTableContents(t, role, kinds[..n]);
    }
  }

  lemma RoleDropOnTablePaired(t: TableSchema, role: string, kinds: seq<QueryType>)
    ensures Paired(RoleDropOnTable(t, role, kinds))
  {
    RoleDropOnTableContents(t, role, kinds);
  }

  lemma {:induction false} RoleDeletionPaired(tables: seq<TableSchema>, role: string)
    ensures Paired(RoleDeletion(tables, role))
    decreases |tables|
  {
    if tables != [] {
      var n := |tables| - 1;
      RoleDeletionPaired(tables[..n], role);
      RoleDropOnTablePaired(tables[n], role, AllQueryTypes);
      JoinPaired(RoleDeletion(tables[..n], role), RoleDropOnTable(tables[n], role, AllQueryTypes));
    }
  }

  // ---------------------------------------------------------------- role copy

  lemma CopyStepPaired(t: TableSchema, fromRole: string, toRole: string, q: QueryType)
    ensures Paired(CopyStep(t, fromRole, toRole, q))
  {
    var tableDef := TableDefOf(t);
    var replaced := match TablePermissions(t, toRole, q)
      case None => NoQueries
      case Some(curr) => Pair(Drop(q, tableDef, toRole), Create(q, tableDef, toRole, curr));
    var copied := match TablePermissions(t, fromRole, q)
      case None => NoQueries
      case Some(from) => Pair(Create(q, tableDef, toRole, from), Drop(q, tableDef, toRole));
    JoinPaired(replaced, copied);
  }

  lemma {:induction false} CopyActionsPaired(t: TableSchema, fromRole: string, toRole: string, kinds: seq<QueryType>)
    ensures Paired(CopyActions(t, fromRole, toRole, kinds))
    decreases |kinds|
  {
    if kinds != [] {
      var n := |kinds| - 1;
      CopyActionsPaired(t, fromRole, toRole, kinds[..n]);
      CopyStepPaired(t, fromRole, toRole, kinds[n]);
      JoinPaired(CopyActions(t, fromRole, toRole, kinds[..n]), CopyStep(t, fromRole, toRole, kinds[n]));
    }
  }

  lemma {:induction false} CopyRolesPaired(t: TableSchema, fromRole: string, toRoles: seq<string>, kinds: seq<QueryType>)
    ensures Paired(CopyRoles(t, fromRole, toRoles, kinds))
    decreases |toRoles|
  {
    if toRoles != [] {
      var n := |toRoles| - 1;
      CopyRolesPaired(t, fromRole, toRoles[..n], kinds);
      CopyActionsPaired(t, fromRole, toRoles[n], kinds);
      JoinPaired(CopyRoles(t, fromRole, toRoles[..n], kinds), CopyActions(t, fromRole, toRoles[n], kinds));
    }
  }

  lemma {:induction false} CopyTablesPaired(tables: seq<TableSchema>, fromRole: string, toRoles: seq<string>, kinds: seq<QueryType>)
    ensures Paired(CopyTables(tables, fromRole, toRoles, kinds))
    decreases |tables|
  {
    if tables != [] {
      var n := |tables| - 1;
      CopyTablesPaired(tables[..n], fromRole, toRoles, kinds);
      CopyRolesPaired(tables[n], fromRole, toRoles, kinds);
      JoinPaired(CopyTables(tables[..n], fromRole, toRoles, kinds), CopyRoles(tables[n], fromRole, toRoles, kinds));
    }
  }

  /** Whatever `copyRolePermissions` builds pairs each query with its opposite. */
  lemma CopyRoleListsPaired(allSchemas: seq<TableSchema>, currentSchema: string, fromRole: string,
                            tableChoice: TableChoice, action: ActionChoice, toRoles: seq<string>)
    ensures var r := CopyRoleLists(allSchemas, currentSchema, fromRole, tableChoice, action, toRoles);
      r.Ok? ==> Paired(r.value)
  {
    var found := CopyTablesOf(allSchemas, currentSchema, tableChoice);
    if found.Ok? {
      CopyTablesPaired(found.value, fromRole, toRoles, KindsOf(action));
    }
  }

  // ---------------------------------------------------------------- permission change

  /**
   * One permission change: every query is on `role` and `tableDef`; a stored permission is
   * dropped first (undone by re-creating `prev[q]`); a save ends with the create of the saved
   * spec (undone by a drop); a delete with nothing stored builds nothing.
   */
  lemma ChangeListsShape(changeType: ChangeType, ps: PermissionsState, q: QueryType, prev: map<QueryType, Spec>,
                         tableDef: TableRef, role: string, stored: bool)
    requires stored ==> q in prev
    requires changeType == SaveChange ==> SavedSpec(ps, q).Some?
    ensures var l := ChangeLists(changeType, ps, q, prev, tableDef, role, stored);
      && Paired(l)
      && (forall i :: 0 <= i < |l.up| ==> l.up[i].role == role && l.up[i].table == tableDef && l.up[i].kind == q)
      && (stored ==> l.up[0] == Drop(q, tableDef, role) && l.down[0] == Create(q, tableDef, role, prev[q]))
      && (changeType == SaveChange ==>
            && l.up[|l.up| - 1] == Create(q, tableDef, role, SavedSpec(ps, q).value)
            && l.down[|l.down| - 1] == Drop(q, tableDef, role))
      && (changeType == DeleteChange ==>
            l == (if stored then Pair(Drop(q, tableDef, role), Create(q, tableDef, role, prev[q])) else NoQueries))
  {
    var dropOld := if stored then Pair(Drop(q, tableDef, role), Create(q, tableDef, role, prev[q])) else NoQueries;
    var create := if changeType == SaveChange then Pair(Create(q, tableDef, role, SavedSpec(ps, q).value), Drop(q, tableDef, role)) else NoQueries;
    JoinPaired(dropOld, create);
  }

  /** `permChangePermissions` builds the lists of one change on the trimmed role and the draft's kind, or nothing without a kind. */
  lemma PermChangeShape(changeType: ChangeType, ps: PermissionsState, prev: map<QueryType, Spec>,
                        allSchemas: seq<TableSchema>, currentSchema: string)
    requires PermChangePermissions(changeType, ps, prev, allSchemas, currentSchema).Ok?
    ensures var l := PermChangePermissions(changeType, ps, prev, allSchemas, currentSchema).value;
      && (ps.query.None? ==> l == NoQueries)
      && (ps.query.Some? ==>
            var q := ps.query.value;
            var stored := TablePermissions(FindTable(allSchemas, currentSchema, ps.table).value, Trim(ps.role), q);
            && (stored.Some? ==> q in prev)
            && (changeType == SaveChange ==> SavedSpec(ps, q).Some?)
            && l == ChangeLists(changeType, ps, q, prev, QualifiedTableDef(currentSchema, ps.table), Trim(ps.role), stored.Some?))
  {
  }

  /** When `permChangePermissions` fails, and that it succeeds on a consistent draft. */
  lemma PermChangeErrors(changeType: ChangeType, ps: PermissionsState, prev: map<QueryType, Spec>,
                         allSchemas: seq<TableSchema>, currentSchema: string)
    ensures var r := PermChangePermissions(changeType, ps, prev, allSchemas, currentSchema);
      && (FindTable(allSchemas, currentSchema, ps.table).None? <==> r == Err(TableNotFound(currentSchema, ps.table)))
      && (FindTable(allSchemas, currentSchema, ps.table).Some? && ps.query.None? ==>
            r == (if changeType == SaveChange then Err(NoQueryType) else Ok(NoQueries)))
    ensures var r := PermChangePermissions(changeType, ps, prev, allSchemas, currentSchema);
      FindTable(allSchemas, currentSchema, ps.table).Some? && ps.query.Some? && ps.query.value in ps.perms
      && (TablePermissions(FindTable(allSchemas, currentSchema, ps.table).value, Trim(ps.role), ps.query.value).Some?
          ==> ps.query.value in prev)
      ==> r.Ok?
  {
  }

  // ---------------------------------------------------------------- bulk grant

  /** The drops the bulk grant discovers, in discovery order: one per visited pair already stored. */
  function StoredDrops(pairs: seq<RoleKind>, perms: seq<RolePermission>, tableDef: TableRef): (r: seq<PermissionQuery>)
    ensures forall q :: q in r <==> exists p :: p in pairs && StoredFor(perms, p).Some? && q == Drop(p.kind, tableDef, p.role)
  {
    if pairs == [] then []
    else
      var n := |pairs| - 1;
      var p := pairs[n];
      assert pairs == pairs[..n] + [p];
      StoredDrops(pairs[..n], perms, tableDef) + (if StoredFor(perms, p).Some? then [Drop(p.kind, tableDef, p.role)] else [])
  }

  /** One create of the grant spec per visited pair, in iteration order. */
  function GrantCreates(pairs: seq<RoleKind>, tableDef: TableRef, grant: Spec): (r: seq<PermissionQuery>)
    ensures |r| == |pairs|
    ensures forall i :: 0 <= i < |pairs| ==> r[i] == Create(pairs[i].kind, tableDef, pairs[i].role, grant)
  {
    if pairs == [] then []
    else
      var n := |pairs| - 1;
      var r := GrantCreates(pairs[..n], tableDef, grant);
      assert forall i :: 0 <= i < n ==> pairs[..n][i] == pairs[i];
      r + [Create(pairs[n].kind, tableDef, pairs[n].role, grant)]
  }

  /**
   * The bulk grant's forward list: the drops of the pairs already stored, at the head and in
   * reverse discovery order, then a create of the grant spec per pair in iteration order.
   */
  lemma {:induction false} BulkUpShape(pairs: seq<RoleKind>, perms: seq<RolePermission>, tableDef: TableRef, grant: Spec)
    ensures BulkUp(pairs, perms, tableDef, grant) == Reverse(StoredDrops(pairs, perms, tableDef)) + GrantCreates(pairs, tableDef, grant)
    decreases |pairs|
  {
    if pairs != [] {
      var n := |pairs| - 1;
      var p := pairs[n];
      var d := if StoredFor(perms, p).Some? then [Drop(p.kind, tableDef, p.role)] else [];
      var c := [Create(p.kind, tableDef, p.role, grant)];
      var sd := StoredDrops(pairs[..n], perms, tableDef);
      var gc := GrantCreates(pairs[..n], tableDef, grant);
      BulkUpShape(pairs[..n], perms, tableDef, grant);
      assert BulkUp(pairs, perms, tableDef, grant) == d + (Reverse(sd) + gc) + c;
      ReverseAppend(sd, d);
      assert Reverse(d) == d;
      assert Reverse(StoredDrops(pairs, perms, tableDef)) == d + Reverse(sd);
      assert GrantCreates(pairs, tableDef, grant) == gc + c;
      ShiftAssoc(d, Reverse(sd), gc, c);
    }
  }

  lemma ShiftAssoc<T>(a: seq<T>, b: seq<T>, c: seq<T>, d: seq<T>)
    ensures a + (b + c) + d == (a + b) + (c + d)
  {
  }

  lemma {:induction false} BulkDownLength(pairs: seq<RoleKind>, perms: seq<RolePermission>, tableDef: TableRef, grant: Spec)
    ensures |BulkDown(pairs, perms, tableDef, grant)| == |pairs| + |StoredDrops(pairs, perms, tableDef)|
    ensures |BulkDownRestoring(pairs, perms, tableDef)| == |pairs| + |StoredDrops(pairs, perms, tableDef)|
    decreases |pairs|
  {
    if pairs != [] {
      BulkDownLength(pairs[..|pairs| - 1], perms, tableDef, grant);
    }
  }

  /** The bulk grant builds lists of equal length. */
  lemma BulkLengths(pairs: seq<RoleKind>, perms: seq<RolePermission>, tableDef: TableRef, grant: Spec)
    ensures |BulkUp(pairs, perms, tableDef, grant)| == |BulkDown(pairs, perms, tableDef, grant)|
    ensures |BulkUp(pairs, perms, tableDef, grant)| == |BulkDownRestoring(pairs, perms, tableDef)|
  {
    BulkUpShape(pairs, perms, tableDef, grant);
    BulkDownLength(pairs, perms, tableDef, grant);
  }

  /** The pairs the bulk grant visits: role by role, the four kinds in fixed order. */
  lemma {:induction false} RoleKindPairsContents(roles: seq<string>)
    ensures |RoleKindPairs(roles)| == 4 * |roles|
    ensures forall i :: 0 <= i < 4 * |roles| ==> RoleKindPairs(roles)[i] == RoleKind(roles[i / 4], AllQueryTypes[i % 4])
    decreases |roles|
  {
    if roles != [] {
      var n := |roles| - 1;
      RoleKindPairsContents(roles[..n]);
      var r := RoleKindPairs(roles);
      forall i | 0 <= i < 4 * |roles| ensures r[i] == RoleKind(roles[i / 4], AllQueryTypes[i % 4]) {
        if i < 4 * n {
          assert r[i] == RoleKindPairs(roles[..n])[i];
          assert roles[..n][i / 4] == roles[i / 4];
        } else {
          assert r[i] == KindsOfRole(roles[n])[i - 4 * n];
          assert i / 4 == n && (i - 4 * n) == i % 4;
        }
      }
    }
  }

  // ---------------------------------------------------------------- bulk apply

  /** The filter on complete rows distributes over concatenation, so it keeps order and repeats. */
  lemma {:induction false} CompleteTargetsConcat(a: seq<ApplyTarget>, b: seq<ApplyTarget>)
    ensures CompleteTargets(a + b) == CompleteTargets(a) + CompleteTargets(b)
  {
    if a == [] {
      assert a + b == b;
    } else {
      assert (a + b)[0] == a[0];
      assert (a + b)[1..] == a[1..] + b;
      CompleteTargetsConcat(a[1..], b);
    }
  }

  /** A single row is kept exactly when it is complete. */
  lemma CompleteTargetsSingle(x: ApplyTarget)
    ensures CompleteTargets([x]) == if IsCompleteTarget(x) then [x] else []
  {
  }

  /** Rows that are all complete are kept as they are. */
  lemma {:induction false} CompleteTargetsOfComplete(rows: seq<ApplyTarget>)
    requires forall i :: 0 <= i < |rows| ==> IsCompleteTarget(rows[i])
    ensures CompleteTargets(rows) == rows
  {
    if rows != [] {
      CompleteTargetsOfComplete(rows[1..]);
    }
  }

  /**
   * The targets walked are the complete rows of the list, in order, followed by the edited
   * (table, kind, role) exactly when the draft was modified.
   */
  lemma ApplyTargetsContents(ps: PermissionsState, table: string, modified: bool)
    ensures var r := ApplyTargets(ps, table, modified);
      var edited := ApplyTarget(table, ps.query, ps.role);
      && |r| == |CompleteTargets(ps.applySamePermissions)| + (if modified then 1 else 0)
      && (forall t :: t in r <==> (t in ps.applySamePermissions && IsCompleteTarget(t)) || (modified && t == edited))
      && (modified ==> r[|r| - 1] == edited)
      && (forall i :: 0 <= i < |CompleteTargets(ps.applySamePermissions)| ==> IsCompleteTarget(r[i]))
  {
    var c := CompleteTargets(ps.applySamePermissions);
    assert forall i :: 0 <= i < |c| ==> ApplyTargets(ps, table, modified)[i] == c[i] && c[i] in c;
  }

  /** One target's step: a create of the sanitized copy, preceded by the drop of an existing permission. */
  lemma ApplyStepShape(target: ApplyTarget, q: QueryType, t: TableSchema, tableDef: TableRef, table: string,
                       drafted: Spec, current: Option<QueryType>, on: RecreateOn)
    ensures var step := ApplyStep(target, q, t, tableDef, table, drafted, current, on);
      var create := Create(q, TableDefOf(t), target.role, Sanitized(drafted, target.table != table, q, current));
      && |step.up| == |step.down|
      && step.up[|step.up| - 1] == create
      && step.down[0] == Drop(q, TableDefOf(t), target.role)
      && (TablePermissions(t, target.role, q).None? <==> |step.up| == 1)
      && (TablePermissions(t, target.role, q).Some? ==>
            var existingRef := if on == CurrentTable then tableDef else TableDefOf(t);
            && |step.up| == 2
            && step.up[0] == Drop(q, existingRef, target.role)
            && step.down[1] == Create(q, existingRef, target.role, TablePermissions(t, target.role, q).value))
  {
  }

  /** The bulk apply builds lists of equal length, whichever table it recreates existing permissions on. */
  lemma {:induction false} ApplySameFromLengths(targets: seq<ApplyTarget>, acc: QueryLists, allSchemas: seq<TableSchema>,
                                                currentSchema: string, tableDef: TableRef, table: string, drafted: Spec,
                                                current: Option<QueryType>, on: RecreateOn)
    requires |acc.up| == |acc.down|
    ensures var r := ApplySameFrom(targets, acc, allSchemas, currentSchema, tableDef, table, drafted, current, on);
      r.Ok? ==> |r.value.up| == |r.value.down|
    decreases |targets|
  {
    if targets != [] {
      match ResolveTarget(targets[0], allSchemas, currentSchema)
      case Err(_) =>
      case Ok((t, q)) =>
        var step := ApplyStep(targets[0], q, t, tableDef, table, drafted, current, on);
        ApplyStepShape(targets[0], q, t, tableDef, table, drafted, current, on);
        ApplySameFromLengths(targets[1..], QueryLists(acc.up + step.up, step.down + acc.down),
                             allSchemas, currentSchema, tableDef, table, drafted, current, on);
    }
  }

  lemma ApplySameListsLengths(tableSchema: TableSchema, modified: bool, ps: PermissionsState,
                              allSchemas: seq<TableSchema>, currentSchema: string, on: RecreateOn)
    ensures var r := ApplySameLists(tableSchema, modified, ps, allSchemas, currentSchema, on);
      r.Ok? ==> |r.value.up| == |r.value.down|
  {
    ApplySameFromLengths(ApplyTargets(ps, tableSchema.tableName, modified), NoQueries, allSchemas, currentSchema,
                         QualifiedTableDef(currentSchema, tableSchema.tableName), tableSchema.tableName,
                         DraftedSpec(ps), ps.query, on);
  }
}
