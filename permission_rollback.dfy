/**
 * What the compiled lists do to the stored permissions.  A store agrees with the snapshot
 * when it holds exactly the snapshot's permissions under each table's reference.  A rollback
 * is taken to run the most recently added backward query first.  For the push-built lists the
 * backward query at position i undoes the forward query at position i, so the backward list
 * runs from its end; the lists of the bulk apply, whose backward list is built by `unshift`,
 * are already in rollback order.
 */
module PermissionRollback {
  import opened Wrappers
  import opened PermissionModel
  import opened PermissionState
  import opened MigrationStore
  import opened PermissionCompilers
  import opened PermissionShapes

  /** The store holds exactly the permissions of `t`, under the reference `ref`. */
  ghost predicate AgreesAt(s: Store, ref: TableRef, t: TableSchema) {
    forall kind: QueryType, role: string ::
      && (Key(kind, ref, role) in s <==> TablePermissions(t, role, kind).Some?)
      && (Key(kind, ref, role) in s ==> s[Key(kind, ref, role)] == TablePermissions(t, role, kind).value)
  }

  /** The store agrees with every table of the snapshot, each under its own reference. */
  ghost predicate AgreesWithSnapshot(s: Store, all: seq<TableSchema>) {
    forall t :: t in all ==> AgreesAt(s, TableDefOf(t), t)
  }

  /** Running the backward list from its end puts back every triple the lists touch. */
  ghost predicate RollsBack(s: Store, l: QueryLists) {
    Restoring(s, l.up, Reverse(l.down))
  }

  lemma RollsBackRun(s: Store, l: QueryLists)
    requires RollsBack(s, l)
    ensures Run(Run(s, l.up), Reverse(l.down)) == s
  {
    RestoringRollsBack(s, l.up, Reverse(l.down));
  }

  lemma JoinRollsBack(s: Store, a: QueryLists, b: QueryLists)
    requires RollsBack(s, a) && RollsBack(s, b)
    ensures RollsBack(s, Join(a, b))
  {
    ReverseAppend(a.down, b.down);
    RestoringConcat(s, a.up, Reverse(a.down), b.up, Reverse(b.down));
  }

  lemma NoQueriesRollsBack(s: Store)
    ensures RollsBack(s, NoQueries)
  {
    RestoringEmpty(s);
  }

  lemma DropPairRollsBack(s: Store, k: Key)
    requires k in s
    ensures RollsBack(s, Pair(Drop(k.kind, k.table, k.role), Create(k.kind, k.table, k.role, s[k])))
  {
    RestoringDrop(s, k);
    ReverseSingle(Create(k.kind, k.table, k.role, s[k]));
  }

  lemma CreatePairRollsBack(s: Store, k: Key, spec: Spec)
    requires k !in s
    ensures RollsBack(s, Pair(Create(k.kind, k.table, k.role, spec), Drop(k.kind, k.table, k.role)))
  {
    RestoringCreate(s, k, spec);
    ReverseSingle(Drop(k.kind, k.table, k.role));
  }

  lemma ReverseSingle<T>(x: T)
    ensures Reverse([x]) == [x]
  {
    assert [x][1..] == [];
  }

  lemma AllKinds(q: QueryType)
    ensures q in AllQueryTypes
  {
  }

  // ---------------------------------------------------------------- role removal

  lemma {:induction false} RoleRemovalRollsBack(s: Store, entries: seq<KindSpec>, tableDef: TableRef, role: string)
    requires forall e :: e in entries ==> Key(e.kind, tableDef, role) in s && s[Key(e.kind, tableDef, role)] == e.spec
    ensures RollsBack(s, RoleRemoval(entries, tableDef, role))
    decreases |entries|
  {
    if entries == [] {
      NoQueriesRollsBack(s);
    } else {
      var n := |entries| - 1;
      var e := entries[n];
      var k := Key(e.kind, tableDef, role);
      assert e in entries;
      assert k in s && s[k] == e.spec;
      forall x | x in entries[..n] ensures Key(x.kind, tableDef, role) in s && s[Key(x.kind, tableDef, role)] == x.spec {
        assert x in entries;
      }
      var prev := RoleRemoval(entries[..n], tableDef, role);
      var pair := Pair(Drop(e.kind, tableDef, role), Create(e.kind, tableDef, role, e.spec));
      assert RoleRemoval(entries, tableDef, role) == Join(prev, pair);
      RoleRemovalRollsBack(s, entries[..n], tableDef, role);
      DropPairRollsBack(s, k);
      JoinRollsBack(s, prev, pair);
    }
  }

  /** Every entry of a role on a well-formed table is what the store holds for it. */
  lemma EntriesStored(s: Store, t: TableSchema, ref: TableRef, role: string)
    requires WellFormedTable(t) && AgreesAt(s, ref, t)
    ensures var entries := RoleEntries(t.permissions, role);
      forall e :: e in entries ==> Key(e.kind, ref, role) in s && s[Key(e.kind, ref, role)] == e.spec
  {
    var entries := RoleEntries(t.permissions, role);
    assert UniqueKinds(entries);
    forall e | e in entries ensures Key(e.kind, ref, role) in s && s[Key(e.kind, ref, role)] == e.spec {
      var i :| 0 <= i < |entries| && entries[i] == e;
      LookupUnique(entries, i);
    }
  }

  /** Rolling back `permRemoveRole` restores the store. */
  lemma PermRemoveRoleRollsBack(s: Store, t: TableSchema, role: string, currentSchema: string)
    requires WellFormedTable(t) && AgreesAt(s, QualifiedTableDef(currentSchema, t.tableName), t)
    ensures var tableDef := QualifiedTableDef(currentSchema, t.tableName);
      var l := RoleRemoval(RoleEntries(t.permissions, role), tableDef, role);
      Run(Run(s, l.up), Reverse(l.down)) == s
  {
    var tableDef := QualifiedTableDef(currentSchema, t.tableName);
    EntriesStored(s, t, tableDef, role);
    RoleRemovalRollsBack(s, RoleEntries(t.permissions, role), tableDef, role);
    RollsBackRun(s, RoleRemoval(RoleEntries(t.permissions, role), tableDef, role));
  }

  /** After `permRemoveRole` the role has no permission left on the table, and nothing else changed. */
  lemma PermRemoveRoleClears(s: Store, t: TableSchema, role: string, currentSchema: string)
    requires AgreesAt(s, QualifiedTableDef(currentSchema, t.tableName), t)
    ensures var tableDef := QualifiedTableDef(currentSchema, t.tableName);
      var after := Run(s, RoleRemoval(RoleEntries(t.permissions, role), tableDef, role).up);
      && (forall kind :: Key(kind, tableDef, role) !in after)
      && (forall k: Key :: k.table != tableDef || k.role != role ==> (k in after <==> k in s) && (k in s ==> after[k] == s[k]))
  {
    var tableDef := QualifiedTableDef(currentSchema, t.tableName);
    var entries := RoleEntries(t.permissions, role);
    var up := RoleRemoval(entries, tableDef, role).up;
    RoleRemovalContents(entries, tableDef, role);
    RunDrops(s, up);
    forall kind | Key(kind, tableDef, role) in s ensures Key(kind, tableDef, role) in KeysOf(up) {
      var i :| 0 <= i < |entries| && entries[i] == KindSpec(kind, TablePermissions(t, role, kind).value);
      assert up[i] in up;
    }
    forall k: Key | k in KeysOf(up) ensures k.table == tableDef && k.role == role {
      var q :| q in up && KeyOf(q) == k;
      var i :| 0 <= i < |up| && up[i] == q;
    }
  }

  // ---------------------------------------------------------------- bulk revoke

  lemma {:induction false} RolesRemovalRollsBack(s: Store, roles: seq<string>, t: TableSchema, tableDef: TableRef)
    requires WellFormedTable(t) && AgreesAt(s, tableDef, t)
    ensures RollsBack(s, RolesRemoval(roles, t.permissions, tableDef))
    decreases |roles|
  {
    if roles == [] {
      NoQueriesRollsBack(s);
    } else {
      var n := |roles| - 1;
      RolesRemovalRollsBack(s, roles[..n], t, tableDef);
      EntriesStored(s, t, tableDef, roles[n]);
      RoleRemovalRollsBack(s, RoleEntries(t.permissions, roles[n]), tableDef, roles[n]);
      JoinRollsBack(s, RolesRemoval(roles[..n], t.permissions, tableDef),
                    RoleRemoval(RoleEntries(t.permissions, roles[n]), tableDef, roles[n]));
    }
  }

  /** Rolling back `permRemoveMultipleRoles` restores the store. */
  lemma PermRemoveMultipleRolesRollsBack(s: Store, t: TableSchema, roles: seq<string>, currentSchema: string)
    requires WellFormedTable(t) && AgreesAt(s, QualifiedTableDef(currentSchema, t.tableName), t)
    ensures var l := RolesRemoval(roles, t.permissions, QualifiedTableDef(currentSchema, t.tableName));
      Run(Run(s, l.up), Reverse(l.down)) == s
  {
    RolesRemovalRollsBack(s, roles, t, QualifiedTableDef(currentSchema, t.tableName));
    RollsBackRun(s, RolesRemoval(roles, t.permissions, QualifiedTableDef(currentSchema, t.tableName)));
  }

  /** Every query of `qs` is a drop on `tableDef` for one of `roles`. */
  predicate DropsOf(qs: seq<PermissionQuery>, tableDef: TableRef, roles: seq<string>) {
    forall i :: 0 <= i < |qs| ==> qs[i].Drop? && qs[i].table == tableDef && qs[i].role in roles
  }

  /** The bulk revoke emits only drops, each on the table for a selected role. */
  lemma {:induction false} RolesRemovalOnlyDrops(roles: seq<string>, t: TableSchema, tableDef: TableRef)
    ensures DropsOf(RolesRemoval(roles, t.permissions, tableDef).up, tableDef, roles)
    decreases |roles|
  {
    if roles != [] {
      var n := |roles| - 1;
      var role := roles[n];
      var entries := RoleEntries(t.permissions, role);
      RolesRemovalOnlyDrops(roles[..n], t, tableDef);
      RoleRemovalContents(entries, tableDef, role);
      var before := RolesRemoval(roles[..n], t.permissions, tableDef).up;
      var last := RoleRemoval(entries, tableDef, role).up;
      assert RolesRemoval(roles, t.permissions, tableDef).up == before + last;
      DropsOfWiden(before, tableDef, roles[..n], roles);
      RoleRemovalDrops(entries, tableDef, role, roles);
      DropsOfAppend(before, last, tableDef, roles);
    }
  }

  lemma RoleRemovalDrops(entries: seq<KindSpec>, tableDef: TableRef, role: string, roles: seq<string>)
    requires role in roles
    ensures DropsOf(RoleRemoval(entries, tableDef, role).up, tableDef, roles)
  {
    RoleRemovalContents(entries, tableDef, role);
  }

  lemma DropsOfWiden(qs: seq<PermissionQuery>, tableDef: TableRef, r1: seq<string>, r2: seq<string>)
    requires DropsOf(qs, tableDef, r1) && forall r :: r in r1 ==> r in r2
    ensures DropsOf(qs, tableDef, r2)
  {
  }

  lemma DropsOfAppend(a: seq<PermissionQuery>, b: seq<PermissionQuery>, tableDef: TableRef, roles: seq<string>)
    requires DropsOf(a, tableDef, roles) && DropsOf(b, tableDef, roles)
    ensures DropsOf(a + b, tableDef, roles)
  {
    forall i | |a| <= i < |a + b| ensures (a + b)[i] == b[i - |a|] { }
  }

  /** The bulk revoke drops every stored kind of every selected role. */
  lemma {:induction false} RolesRemovalDropsAll(roles: seq<string>, t: TableSchema, tableDef: TableRef, role: string, kind: QueryType)
    requires role in roles && TablePermissions(t, role, kind).Some?
    ensures Drop(kind, tableDef, role) in RolesRemoval(roles, t.permissions, tableDef).up
    decreases |roles|
  {
    var n := |roles| - 1;
    var before := RolesRemoval(roles[..n], t.permissions, tableDef).up;
    var entries := RoleEntries(t.permissions, roles[n]);
    var last := RoleRemoval(entries, tableDef, roles[n]).up;
    assert RolesRemoval(roles, t.permissions, tableDef).up == before + last;
    if roles[n] == role {
      RoleRemovalContents(entries, tableDef, role);
      var i :| 0 <= i < |entries| && entries[i] == KindSpec(kind, TablePermissions(t, role, kind).value);
      assert last[i] in last;
    } else {
      assert roles == roles[..n] + [roles[n]];
      assert role in roles[..n];
      RolesRemovalDropsAll(roles[..n], t, tableDef, role, kind);
    }
  }

  /** After `permRemoveMultipleRoles` no selected role has a permission left on the table, and nothing else changed. */
  lemma PermRemoveMultipleRolesClears(s: Store, t: TableSchema, roles: seq<string>, currentSchema: string)
    requires AgreesAt(s, QualifiedTableDef(currentSchema, t.tableName), t)
    ensures var tableDef := QualifiedTableDef(currentSchema, t.tableName);
      var after := Run(s, RolesRemoval(roles, t.permissions, tableDef).up);
      && (forall kind, role :: role in roles ==> Key(kind, tableDef, role) !in after)
      && (forall k: Key :: k.table != tableDef || k.role !in roles ==> (k in after <==> k in s) && (k in s ==> after[k] == s[k]))
  {
    var tableDef := QualifiedTableDef(currentSchema, t.tableName);
    var up := RolesRemoval(roles, t.permissions, tableDef).up;
    RolesRemovalOnlyDrops(roles, t, tableDef);
    RunDrops(s, up);
    forall kind, role | role in roles && Key(kind, tableDef, role) in s ensures Key(kind, tableDef, role) in KeysOf(up) {
      RolesRemovalDropsAll(roles, t, tableDef, role, kind);
    }
    forall k: Key | k in KeysOf(up) ensures k.table == tableDef && k.role in roles {
      var q :| q in up && KeyOf(q) == k;
      var i :| 0 <= i < |up| && up[i] == q;
    }
  }

  // ---------------------------------------------------------------- role deletion

  lemma RoleDropStepRollsBack(s: Store, t: TableSchema, role: string, q: QueryType)
    requires AgreesAt(s, TableDefOf(t), t)
    ensures RollsBack(s, RoleDropStep(t, role, q))
  {
    match TablePermissions(t, role, q)
    case None => NoQueriesRollsBack(s);
    case Some(spec) => DropPairRollsBack(s, Key(q, TableDefOf(t), role));
  }

  lemma {:induction false} RoleDropOnTableRollsBack(s: Store, t: TableSchema, role: string, kinds: seq<QueryType>)
    requires AgreesAt(s, TableDefOf(t), t)
    ensures RollsBack(s, RoleDropOnTable(t, role, kinds))
    decreases |kinds|
  {
    if kinds == [] {
      NoQueriesRollsBack(s);
    } else {
      var n := |kinds| - 1;
      RoleDropOnTableRollsBack(s, t, role, kinds[..n]);
      RoleDropStepRollsBack(s, t, role, kinds[n]);
      JoinRollsBack(s, RoleDropOnTable(t, role, kinds[..n]), RoleDropStep(t, role, kinds[n]));
    }
  }

  lemma {:induction false} RoleDeletionRollsBack(s: Store, tables: seq<TableSchema>, role: string)
    requires forall t :: t in tables ==> AgreesAt(s, TableDefOf(t), t)
    ensures RollsBack(s, RoleDeletion(tables, role))
    decreases |tables|
  {
    if tables == [] {
      NoQueriesRollsBack(s);
    } else {
      var n := |tables| - 1;
      assert forall t :: t in tables[..n] ==> t in tables;
      RoleDeletionRollsBack(s, tables[..n], role);
      RoleDeletionStepRollsBack(s, tables, role);
    }
  }

  lemma RoleDeletionStepRollsBack(s: Store, tables: seq<TableSchema>, role: string)
    requires tables != [] && RollsBack(s, RoleDeletion(tables[..|tables| - 1], role))
    requires AgreesAt(s, TableDefOf(tables[|tables| - 1]), tables[|tables| - 1])
    ensures RollsBack(s, RoleDeletion(tables, role))
  {
    var n := |tables| - 1;
    RoleDropOnTableRollsBack(s, tables[n], role, AllQueryTypes);
    JoinRollsBack(s, RoleDeletion(tables[..n], role), RoleDropOnTable(tables[n], role, AllQueryTypes));
  }

  /** Rolling back `deleteRoleGlobally` restores the store. */
  lemma DeleteRoleGloballyRollsBack(s: Store, allSchemas: seq<TableSchema>, currentSchema: string, role: string)
    requires AgreesWithSnapshot(s, allSchemas)
    ensures var l := RoleDeletion(SchemaTables(allSchemas, currentSchema), role);
      Run(Run(s, l.up), Reverse(l.down)) == s
  {
    var tables := SchemaTables(allSchemas, currentSchema);
    RoleDeletionRollsBack(s, tables, role);
    RollsBackRun(s, RoleDeletion(tables, role));
  }

  /** Every query of `qs` is a drop, for `role`, on a table of `schema`. */
  predicate RoleDropsIn(qs: seq<PermissionQuery>, schema: string, role: string) {
    forall i :: 0 <= i < |qs| ==> qs[i].Drop? && qs[i].role == role && qs[i].table.schema == schema
  }

  lemma RoleDropsInAppend(a: seq<PermissionQuery>, b: seq<PermissionQuery>, schema: string, role: string)
    requires RoleDropsIn(a, schema, role) && RoleDropsIn(b, schema, role)
    ensures RoleDropsIn(a + b, schema, role)
  {
    forall i | |a| <= i < |a + b| ensures (a + b)[i] == b[i - |a|] { }
  }

  lemma {:induction false} RoleDeletionOnlyDrops(tables: seq<TableSchema>, schema: string, role: string)
    requires forall t :: t in tables ==> t.tableSchema == schema
    ensures RoleDropsIn(RoleDeletion(tables, role).up, schema, role)
    decreases |tables|
  {
    if tables != [] {
      var n := |tables| - 1;
      assert tables[n] in tables;
      assert forall t :: t in tables[..n] ==> t in tables;
      RoleDeletionOnlyDrops(tables[..n], schema, role);
      RoleDropOnTableContents(tables[n], role, AllQueryTypes);
      RoleDropsInAppend(RoleDeletion(tables[..n], role).up, RoleDropOnTable(tables[n], role, AllQueryTypes).up, schema, role);
    }
  }

  /** The deletion drops every stored kind of the role on every given table. */
  lemma {:induction false} RoleDeletionDropsAll(tables: seq<TableSchema>, role: string, t: TableSchema, kind: QueryType)
    requires t in tables && TablePermissions(t, role, kind).Some?
    ensures Drop(kind, TableDefOf(t), role) in RoleDeletion(tables, role).up
    decreases |tables|
  {
    var n := |tables| - 1;
    var before := RoleDeletion(tables[..n], role).up;
    var last := RoleDropOnTable(tables[n], role, AllQueryTypes).up;
    assert RoleDeletion(tables, role).up == before + last;
    if tables[n] == t {
      AllKinds(kind);
      RoleDropOnTableDrops(t, role, kind, AllQueryTypes);
    } else {
      assert tables == tables[..n] + [tables[n]];
      assert t in tables[..n];
      RoleDeletionDropsAll(tables[..n], role, t, kind);
    }
  }

  lemma RoleDropOnTableDrops(t: TableSchema, role: string, kind: QueryType, kinds: seq<QueryType>)
    requires kind in kinds && TablePermissions(t, role, kind).Some?
    ensures Drop(kind, TableDefOf(t), role) in RoleDropOnTable(t, role, kinds).up
  {
    RoleDropOnTableContents(t, role, kinds);
    var stored := StoredKinds(t, role, kinds);
    var i :| 0 <= i < |stored| && stored[i] == kind;
    assert RoleDropOnTable(t, role, kinds).up[i] == Drop(kind, TableDefOf(t), role);
  }

  /**
   * After `deleteRoleGlobally` the role has no permission left on any table of the current schema,
   * and every other role's permissions, and the role's permissions in other schemas, are unchanged.
   */
  lemma DeleteRoleGloballyClears(s: Store, allSchemas: seq<TableSchema>, currentSchema: string, role: string)
    requires AgreesWithSnapshot(s, allSchemas)
    ensures var after := Run(s, RoleDeletion(SchemaTables(allSchemas, currentSchema), role).up);
      && (forall t, kind :: t in allSchemas && t.tableSchema == currentSchema ==> Key(kind, TableDefOf(t), role) !in after)
      && (forall k: Key :: k.role != role || k.table.schema != currentSchema ==>
            (k in after <==> k in s) && (k in s ==> after[k] == s[k]))
  {
    var tables := SchemaTables(allSchemas, currentSchema);
    var up := RoleDeletion(tables, role).up;
    RoleDeletionOnlyDrops(tables, currentSchema, role);
    RunDrops(s, up);
    forall t, kind | t in allSchemas && t.tableSchema == currentSchema && Key(kind, TableDefOf(t), role) in s
      ensures Key(kind, TableDefOf(t), role) in KeysOf(up)
    {
      assert AgreesAt(s, TableDefOf(t), t);
      RoleDeletionDropsAll(tables, role, t, kind);
    }
    forall k: Key | k in KeysOf(up) ensures k.role == role && k.table.schema == currentSchema {
      var q :| q in up && KeyOf(q) == k;
      var i :| 0 <= i < |up| && up[i] == q;
    }
  }

  // ---------------------------------------------------------------- role copy

  /** The four shapes of one copy step, by whether the target and the source have the kind stored. */
  lemma CopyStepCases(t: TableSchema, fromRole: string, toRole: string, q: QueryType)
    ensures var l := CopyStep(t, fromRole, toRole, q);
      var d := Drop(q, TableDefOf(t), toRole);
      var curr := TablePermissions(t, toRole, q);
      var from := TablePermissions(t, fromRole, q);
      && (curr.None? && from.None? ==> l == NoQueries)
      && (curr.None? && from.Some? ==> l == Pair(Create(q, TableDefOf(t), toRole, from.value), d))
      && (curr.Some? && from.None? ==> l == Pair(d, Create(q, TableDefOf(t), toRole, curr.value)))
      && (curr.Some? && from.Some? ==>
            l == QueryLists([d, Create(q, TableDefOf(t), toRole, from.value)], [Create(q, TableDefOf(t), toRole, curr.value), d]))
  {
  }

  lemma CopyStepRollsBack(s: Store, t: TableSchema, fromRole: string, toRole: string, q: QueryType)
    requires AgreesAt(s, TableDefOf(t), t)
    ensures RollsBack(s, CopyStep(t, fromRole, toRole, q))
  {
    var tableDef := TableDefOf(t);
    var k := Key(q, tableDef, toRole);
    var d := Drop(q, tableDef, toRole);
    var curr := TablePermissions(t, toRole, q);
    var from := TablePermissions(t, fromRole, q);
    CopyStepCases(t, fromRole, toRole, q);
    if curr.None? && from.None? {
      NoQueriesRollsBack(s);
    } else if curr.None? {
      CreatePairRollsBack(s, k, from.value);
    } else if from.None? {
      DropPairRollsBack(s, k);
    } else {
      var c0 := Create(q, tableDef, toRole, curr.value);
      RestoringReplace(s, k, from.value);
      ReversePair(c0, d);
    }
  }

  lemma ReversePair<T>(x: T, y: T)
    ensures Reverse([x, y]) == [y, x]
  {
    assert [x, y][1..] == [y];
    ReverseSingle(y);
  }

  /** After one copy step the target role has exactly the source role's permission of that kind. */
  lemma CopyStepEffect(s: Store, t: TableSchema, fromRole: string, toRole: string, q: QueryType)
    requires AgreesAt(s, TableDefOf(t), t)
    ensures var k := Key(q, TableDefOf(t), toRole);
      var after := Run(s, CopyStep(t, fromRole, toRole, q).up);
      && (k in after <==> TablePermissions(t, fromRole, q).Some?)
      && (k in after ==> after[k] == TablePermissions(t, fromRole, q).value)
      && (forall k2 :: k2 != k ==> (k2 in after <==> k2 in s) && (k2 in s ==> after[k2] == s[k2]))
  {
    var tableDef := TableDefOf(t);
    var k := Key(q, tableDef, toRole);
    var up := CopyStep(t, fromRole, toRole, q).up;
    var d := Drop(q, tableDef, toRole);
    forall k2 | k2 != k ensures (k2 in Run(s, up) <==> k2 in s) && (k2 in s ==> Run(s, up)[k2] == s[k2]) {
      forall x | x in up ensures KeyOf(x) == k {
        var i :| 0 <= i < |up| && up[i] == x;
      }
      RunFrame(s, up, k2);
    }
    match TablePermissions(t, fromRole, q)
    case None =>
      if TablePermissions(t, toRole, q).Some? {
        assert up == [d];
        RunEndsWithDrop(s, up);
      } else {
        assert up == [];
      }
    case Some(from) =>
      var c := Create(q, tableDef, toRole, from);
      if TablePermissions(t, toRole, q).Some? {
        assert up == [d] + [c];
        RunAppend(s, [d], [c]);
        assert Run(Run(s, [d]), [c]) == Apply(Run(s, [d]), c);
      } else {
        assert up == [c];
        assert Run(s, [c]) == Apply(s, c);
      }
  }

  lemma {:induction false} CopyActionsRollsBack(s: Store, t: TableSchema, fromRole: string, toRole: string, kinds: seq<QueryType>)
    requires AgreesAt(s, TableDefOf(t), t)
    ensures RollsBack(s, CopyActions(t, fromRole, toRole, kinds))
    decreases |kinds|
  {
    if kinds == [] {
      NoQueriesRollsBack(s);
    } else {
      var n := |kinds| - 1;
      CopyActionsRollsBack(s, t, fromRole, toRole, kinds[..n]);
      CopyStepRollsBack(s, t, fromRole, toRole, kinds[n]);
      JoinRollsBack(s, CopyActions(t, fromRole, toRole, kinds[..n]), CopyStep(t, fromRole, toRole, kinds[n]));
    }
  }

  lemma {:induction false} CopyRolesRollsBack(s: Store, t: TableSchema, fromRole: string, toRoles: seq<string>, kinds: seq<QueryType>)
    requires AgreesAt(s, TableDefOf(t), t)
    ensures RollsBack(s, CopyRoles(t, fromRole, toRoles, kinds))
    decreases |toRoles|
  {
    if toRoles == [] {
      NoQueriesRollsBack(s);
    } else {
      var n := |toRoles| - 1;
      CopyRolesRollsBack(s, t, fromRole, toRoles[..n], kinds);
      CopyActionsRollsBack(s, t, fromRole, toRoles[n], kinds);
      JoinRollsBack(s, CopyRoles(t, fromRole, toRoles[..n], kinds), CopyActions(t, fromRole, toRoles[n], kinds));
    }
  }

  lemma {:induction false} CopyTablesRollsBack(s: Store, tables: seq<TableSchema>, fromRole: string, toRoles: seq<string>, kinds: seq<QueryType>)
    requires forall t :: t in tables ==> AgreesAt(s, TableDefOf(t), t)
    ensures RollsBack(s, CopyTables(tables, fromRole, toRoles, kinds))
    decreases |tables|
  {
    if tables == [] {
      NoQueriesRollsBack(s);
    } else {
      var n := |tables| - 1;
      assert tables[n] in tables;
      assert forall t :: t in tables[..n] ==> t in tables;
      CopyTablesRollsBack(s, tables[..n], fromRole, toRoles, kinds);
      CopyRolesRollsBack(s, tables[n], fromRole, toRoles, kinds);
      JoinRollsBack(s, CopyTables(tables[..n], fromRole, toRoles, kinds), CopyRoles(tables[n], fromRole, toRoles, kinds));
    }
  }

  /** Rolling back `copyRolePermissions` restores the store, whichever tables and kinds were chosen. */
  lemma CopyRolePermissionsRollsBack(s: Store, allSchemas: seq<TableSchema>, currentSchema: string, fromRole: string,
                                     tableChoice: TableChoice, action: ActionChoice, toRoles: seq<string>)
    requires AgreesWithSnapshot(s, allSchemas)
    ensures var r := CopyRoleLists(allSchemas, currentSchema, fromRole, tableChoice, action, toRoles);
      r.Ok? ==> Run(Run(s, r.value.up), Reverse(r.value.down)) == s
  {
    var found := CopyTablesOf(allSchemas, currentSchema, tableChoice);
    if found.Ok? {
      assert forall t :: t in found.value ==> t in allSchemas;
      CopyTablesRollsBack(s, found.value, fromRole, toRoles, KindsOf(action));
      RollsBackRun(s, CopyTables(found.value, fromRole, toRoles, KindsOf(action)));
    }
  }

  // ---------------------------------------------------------------- permission change

  lemma ChangeListsRollsBack(s: Store, changeType: ChangeType, ps: PermissionsState, q: QueryType, prev: map<QueryType, Spec>,
                             tableDef: TableRef, role: string, stored: bool)
    requires stored ==> q in prev
    requires changeType == SaveChange ==> SavedSpec(ps, q).Some?
    requires (Key(q, tableDef, role) in s <==> stored) && (stored ==> s[Key(q, tableDef, role)] == prev[q])
    ensures RollsBack(s, ChangeLists(changeType, ps, q, prev, tableDef, role, stored))
  {
    var k := Key(q, tableDef, role);
    var d := Drop(q, tableDef, role);
    if stored && changeType == SaveChange {
      var c := Create(q, tableDef, role, SavedSpec(ps, q).value);
      var c0 := Create(q, tableDef, role, prev[q]);
      RestoringReplace(s, k, SavedSpec(ps, q).value);
      assert ChangeLists(changeType, ps, q, prev, tableDef, role, stored) == QueryLists([d, c], [c0, d]);
      ReversePair(c0, d);
    } else if stored {
      DropPairRollsBack(s, k);
      assert ChangeLists(changeType, ps, q, prev, tableDef, role, stored) == Pair(d, Create(q, tableDef, role, s[k]));
    } else if changeType == SaveChange {
      CreatePairRollsBack(s, k, SavedSpec(ps, q).value);
      assert ChangeLists(changeType, ps, q, prev, tableDef, role, stored)
          == Pair(Create(q, tableDef, role, SavedSpec(ps, q).value), d);
    } else {
      NoQueriesRollsBack(s);
    }
  }

  /** A save leaves the saved spec in place; a delete leaves no permission; nothing else changes. */
  lemma ChangeListsEffect(s: Store, changeType: ChangeType, ps: PermissionsState, q: QueryType, prev: map<QueryType, Spec>,
                          tableDef: TableRef, role: string, stored: bool)
    requires stored ==> q in prev
    requires changeType == SaveChange ==> SavedSpec(ps, q).Some?
    ensures var k := Key(q, tableDef, role);
      var after := Run(s, ChangeLists(changeType, ps, q, prev, tableDef, role, stored).up);
      && (changeType == SaveChange ==> k in after && after[k] == SavedSpec(ps, q).value)
      && (changeType == DeleteChange && (stored || k !in s) ==> k !in after)
      && (forall k2 :: k2 != k ==> (k2 in after <==> k2 in s) && (k2 in s ==> after[k2] == s[k2]))
  {
    var k := Key(q, tableDef, role);
    var up := ChangeLists(changeType, ps, q, prev, tableDef, role, stored).up;
    ChangeListsShape(changeType, ps, q, prev, tableDef, role, stored);
    forall k2 | k2 != k ensures (k2 in Run(s, up) <==> k2 in s) && (k2 in s ==> Run(s, up)[k2] == s[k2]) {
      forall x | x in up ensures KeyOf(x) == k {
        var i :| 0 <= i < |up| && up[i] == x;
      }
      RunFrame(s, up, k2);
    }
    if changeType == SaveChange {
      var c := Create(q, tableDef, role, SavedSpec(ps, q).value);
      var n := |up| - 1;
      assert up == up[..n] + [c];
      RunAppend(s, up[..n], [c]);
      assert Run(Run(s, up[..n]), [c]) == Apply(Run(s, up[..n]), c);
    } else if stored {
      RunEndsWithDrop(s, up);
    }
  }

  /**
   * Rolling back `permChangePermissions` restores the store, provided the previous permission
   * state of the kind is what is stored for it (the backward list re-creates `prev[kind]`).
   */
  lemma PermChangeRollsBack(s: Store, changeType: ChangeType, ps: PermissionsState, prev: map<QueryType, Spec>,
                            allSchemas: seq<TableSchema>, currentSchema: string)
    requires AgreesWithSnapshot(s, allSchemas)
    requires PermChangePermissions(changeType, ps, prev, allSchemas, currentSchema).Ok?
    requires ps.query.Some? ==>
      var k := Key(ps.query.value, QualifiedTableDef(currentSchema, ps.table), Trim(ps.role));
      k in s && ps.query.value in prev ==> prev[ps.query.value] == s[k]
    ensures var l := PermChangePermissions(changeType, ps, prev, allSchemas, currentSchema).value;
      Run(Run(s, l.up), Reverse(l.down)) == s
  {
    var l := PermChangePermissions(changeType, ps, prev, allSchemas, currentSchema).value;
    PermChangeShape(changeType, ps, prev, allSchemas, currentSchema);
    if ps.query.None? {
      NoQueriesRollsBack(s);
    } else {
      var q := ps.query.value;
      var t := FindTable(allSchemas, currentSchema, ps.table).value;
      assert AgreesAt(s, TableDefOf(t), t);
      assert TableDefOf(t) == QualifiedTableDef(currentSchema, ps.table);
      var stored := TablePermissions(t, Trim(ps.role), q);
      ChangeListsRollsBack(s, changeType, ps, q, prev, QualifiedTableDef(currentSchema, ps.table), Trim(ps.role), stored.Some?);
    }
    RollsBackRun(s, l);
  }

  // ---------------------------------------------------------------- bulk grant

  lemma PairRole(roles: seq<string>, p: RoleKind)
    requires p in RoleKindPairs(roles)
    ensures p.role in roles
  {
    RoleKindPairsContents(roles);
    var i :| 0 <= i < |RoleKindPairs(roles)| && RoleKindPairs(roles)[i] == p;
    assert roles[i / 4] in roles;
  }

  lemma KindIndex(kind: QueryType) returns (m: nat)
    ensures m < 4 && AllQueryTypes[m] == kind
  {
    m := match kind case Select => 0 case Insert => 1 case Update => 2 case Delete => 3;
  }

  lemma PairVisited(roles: seq<string>, role: string, kind: QueryType) returns (i: nat)
    requires role in roles
    ensures i < |RoleKindPairs(roles)| && RoleKindPairs(roles)[i] == RoleKind(role, kind)
  {
    RoleKindPairsContents(roles);
    var j :| 0 <= j < |roles| && roles[j] == role;
    var m := KindIndex(kind);
    i := 4 * j + m;
    assert i / 4 == j && i % 4 == m;
  }

  lemma {:induction false} StoredDropsOf(pairs: seq<RoleKind>, perms: seq<RolePermission>, tableDef: TableRef, roles: seq<string>)
    requires forall p :: p in pairs ==> p.role in roles
    ensures DropsOf(StoredDrops(pairs, perms, tableDef), tableDef, roles)
    decreases |pairs|
  {
    if pairs != [] {
      var n := |pairs| - 1;
      var p := pairs[n];
      assert p in pairs;
      assert forall x :: x in pairs[..n] ==> x in pairs;
      StoredDropsOf(pairs[..n], perms, tableDef, roles);
      DropsOfAppend(StoredDrops(pairs[..n], perms, tableDef),
                    if StoredFor(perms, p).Some? then [Drop(p.kind, tableDef, p.role)] else [], tableDef, roles);
    }
  }

  lemma DropsOfKeys(qs: seq<PermissionQuery>, tableDef: TableRef, roles: seq<string>)
    requires DropsOf(qs, tableDef, roles)
    ensures forall k :: k in KeysOf(qs) ==> k.table == tableDef && k.role in roles
  {
    forall k | k in KeysOf(qs) ensures k.table == tableDef && k.role in roles {
      var q :| q in qs && KeyOf(q) == k;
      var i :| 0 <= i < |qs| && qs[i] == q;
    }
  }

  lemma DropsOfReverse(qs: seq<PermissionQuery>, tableDef: TableRef, roles: seq<string>)
    requires DropsOf(qs, tableDef, roles)
    ensures DropsOf(Reverse(qs), tableDef, roles)
  {
    forall i | 0 <= i < |qs| ensures Reverse(qs)[i] == qs[|qs| - 1 - i] { }
  }

  /** The drops of the bulk grant's forward list are on the table, for selected roles. */
  lemma BulkDropsOf(t: TableSchema, roles: seq<string>, tableDef: TableRef)
    ensures DropsOf(Reverse(StoredDrops(RoleKindPairs(roles), t.permissions, tableDef)), tableDef, roles)
  {
    forall p | p in RoleKindPairs(roles) ensures p.role in roles {
      PairRole(roles, p);
    }
    StoredDropsOf(RoleKindPairs(roles), t.permissions, tableDef, roles);
    DropsOfReverse(StoredDrops(RoleKindPairs(roles), t.permissions, tableDef), tableDef, roles);
  }

  /** The bulk grant's creates name exactly the four kinds of each selected role on the table. */
  lemma GrantCreatesKeys(roles: seq<string>, tableDef: TableRef, g: Spec)
    ensures var creates := GrantCreates(RoleKindPairs(roles), tableDef, g);
      && (forall i :: 0 <= i < |creates| ==> creates[i].Create? && creates[i].spec == g)
      && (forall role, kind :: role in roles ==> Key(kind, tableDef, role) in KeysOf(creates))
      && (forall k :: k in KeysOf(creates) ==> k.table == tableDef && k.role in roles)
  {
    var pairs := RoleKindPairs(roles);
    var creates := GrantCreates(pairs, tableDef, g);
    forall role, kind | role in roles ensures Key(kind, tableDef, role) in KeysOf(creates) {
      var i := PairVisited(roles, role, kind);
      assert creates[i] in creates;
    }
    forall k | k in KeysOf(creates) ensures k.table == tableDef && k.role in roles {
      var q :| q in creates && KeyOf(q) == k;
      var i :| 0 <= i < |creates| && creates[i] == q;
      assert pairs[i] in pairs;
      PairRole(roles, pairs[i]);
    }
  }

  /**
   * After the bulk grant every selected role has every kind, each with the grant spec, and
   * nothing else changed.
   */
  lemma BulkGrantEffect(s: Store, t: TableSchema, roles: seq<string>, currentSchema: string)
    ensures var tableDef := QualifiedTableDef(currentSchema, t.tableName);
      var g := GrantSpec(t.columns);
      var after := Run(s, BulkUp(RoleKindPairs(roles), t.permissions, tableDef, g));
      && (forall role, kind :: role in roles ==> Key(kind, tableDef, role) in after && after[Key(kind, tableDef, role)] == g)
      && (forall k: Key :: k.table != tableDef || k.role !in roles ==> (k in after <==> k in s) && (k in s ==> after[k] == s[k]))
  {
    var tableDef := QualifiedTableDef(currentSchema, t.tableName);
    var g := GrantSpec(t.columns);
    var pairs := RoleKindPairs(roles);
    var drops := Reverse(StoredDrops(pairs, t.permissions, tableDef));
    var creates := GrantCreates(pairs, tableDef, g);
    BulkUpShape(pairs, t.permissions, tableDef, g);
    RunAppend(s, drops, creates);
    BulkDropsOf(t, roles, tableDef);
    RunDrops(s, drops);
    GrantCreatesKeys(roles, tableDef, g);
    RunCreates(Run(s, drops), creates, g);
    DropsOfKeys(drops, tableDef, roles);
  }
}
