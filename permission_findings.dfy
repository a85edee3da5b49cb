/**
 * Two compilers whose backward lists do not undo their forward lists.  For each: the
 * compiler as written with a store on which its rollback loses a permission, and the
 * evidently intended compiler with its rollback proved.
 */
module PermissionFindings {
  import opened Wrappers
  import opened PermissionModel
  import opened PermissionState
  import opened MigrationStore
  import opened PermissionCompilers
  import opened PermissionShapes
  import opened PermissionRollback

  // ---------------------------------------------------------------- bulk grant

  /** The queries the bulk grant adds to the forward list for one visit, in the order they run. */
  function VisitUp(perms: seq<RolePermission>, tableDef: TableRef, grant: Spec, p: RoleKind): seq<PermissionQuery> {
    (if StoredFor(perms, p).Some? then [Drop(p.kind, tableDef, p.role)] else []) + [Create(p.kind, tableDef, p.role, grant)]
  }

  /** The intended backward queries of one visit, in the order a rollback runs them. */
  function VisitBack(perms: seq<RolePermission>, tableDef: TableRef, p: RoleKind): seq<PermissionQuery> {
    [Drop(p.kind, tableDef, p.role)]
    + (match StoredFor(perms, p) case Some(spec) => [Create(p.kind, tableDef, p.role, spec)] case None => [])
  }

  lemma VisitRestoring(s: Store, t: TableSchema, tableDef: TableRef, grant: Spec, p: RoleKind)
    requires AgreesAt(s, tableDef, t)
    ensures Restoring(s, VisitUp(t.permissions, tableDef, grant, p), VisitBack(t.permissions, tableDef, p))
  {
    var k := Key(p.kind, tableDef, p.role);
    assert StoredFor(t.permissions, p) == TablePermissions(t, p.role, p.kind);
    var d := Drop(p.kind, tableDef, p.role);
    var c := Create(p.kind, tableDef, p.role, grant);
    if StoredFor(t.permissions, p).Some? {
      assert k in s && s[k] == StoredFor(t.permissions, p).value;
      assert VisitUp(t.permissions, tableDef, grant, p) == [d, c];
      assert VisitBack(t.permissions, tableDef, p) == [d, Create(p.kind, tableDef, p.role, s[k])];
      RestoringReplace(s, k, grant);
    } else {
      assert k !in s;
      assert VisitUp(t.permissions, tableDef, grant, p) == [c];
      assert VisitBack(t.permissions, tableDef, p) == [d];
      RestoringCreate(s, k, grant);
    }
  }

  lemma BulkBackStep(pairs: seq<RoleKind>, perms: seq<RolePermission>, tableDef: TableRef)
    requires pairs != []
    ensures var n := |pairs| - 1;
      Reverse(BulkDownRestoring(pairs, perms, tableDef))
      == VisitBack(perms, tableDef, pairs[n]) + Reverse(BulkDownRestoring(pairs[..n], perms, tableDef))
  {
    var n := |pairs| - 1;
    var p := pairs[n];
    var c := match StoredFor(perms, p) case Some(spec) => [Create(p.kind, tableDef, p.role, spec)] case None => [];
    var d := [Drop(p.kind, tableDef, p.role)];
    assert BulkDownRestoring(pairs, perms, tableDef) == BulkDownRestoring(pairs[..n], perms, tableDef) + (c + d);
    ReverseAppend(BulkDownRestoring(pairs[..n], perms, tableDef), c + d);
    ReverseAppend(c, d);
    ReverseSingle(Drop(p.kind, tableDef, p.role));
    if c != [] {
      ReverseSingle(c[0]);
    }
  }

  lemma BulkUpKeys(pairs: seq<RoleKind>, perms: seq<RolePermission>, tableDef: TableRef, grant: Spec)
    requires pairs != []
    ensures var n := |pairs| - 1;
      KeysOf(BulkUp(pairs, perms, tableDef, grant))
      == KeysOf(BulkUp(pairs[..n], perms, tableDef, grant) + VisitUp(perms, tableDef, grant, pairs[n]))
  {
    var n := |pairs| - 1;
    var p := pairs[n];
    var d := if StoredFor(perms, p).Some? then [Drop(p.kind, tableDef, p.role)] else [];
    var c := [Create(p.kind, tableDef, p.role, grant)];
    var prev := BulkUp(pairs[..n], perms, tableDef, grant);
    assert BulkUp(pairs, perms, tableDef, grant) == (d + prev) + c;
    KeysOfAppend(d + prev, c);
    KeysOfAppend(d, prev);
    KeysOfAppend(prev, d + c);
    KeysOfAppend(d, c);
  }

  /** With the intended backward list, running it from its end restores every triple the bulk grant touches. */
  lemma {:induction false} BulkRestoring(s: Store, t: TableSchema, pairs: seq<RoleKind>, tableDef: TableRef, grant: Spec)
    requires AgreesAt(s, tableDef, t)
    ensures Restoring(s, BulkUp(pairs, t.permissions, tableDef, grant), Reverse(BulkDownRestoring(pairs, t.permissions, tableDef)))
    decreases |pairs|
  {
    var perms := t.permissions;
    if pairs == [] {
      RestoringEmpty(s);
    } else {
      var n := |pairs| - 1;
      BulkRestoring(s, t, pairs[..n], tableDef, grant);
      VisitRestoring(s, t, tableDef, grant, pairs[n]);
      RestoringConcat(s, BulkUp(pairs[..n], perms, tableDef, grant), Reverse(BulkDownRestoring(pairs[..n], perms, tableDef)),
                      VisitUp(perms, tableDef, grant, pairs[n]), VisitBack(perms, tableDef, pairs[n]));
      BulkBackStep(pairs, perms, tableDef);
      BulkUpKeys(pairs, perms, tableDef, grant);
      RestoringSameKeys(s, BulkUp(pairs[..n], perms, tableDef, grant) + VisitUp(perms, tableDef, grant, pairs[n]),
                        BulkUp(pairs, perms, tableDef, grant), Reverse(BulkDownRestoring(pairs, perms, tableDef)));
    }
  }

  /** The intended bulk grant: its backward list, run from its end, restores the store. */
  lemma BulkRestoringRollsBack(s: Store, t: TableSchema, roles: seq<string>, currentSchema: string)
    requires AgreesAt(s, QualifiedTableDef(currentSchema, t.tableName), t)
    ensures var tableDef := QualifiedTableDef(currentSchema, t.tableName);
      var up := BulkUp(RoleKindPairs(roles), t.permissions, tableDef, GrantSpec(t.columns));
      var down := BulkDownRestoring(RoleKindPairs(roles), t.permissions, tableDef);
      Run(Run(s, up), Reverse(down)) == s
  {
    var tableDef := QualifiedTableDef(currentSchema, t.tableName);
    var pairs := RoleKindPairs(roles);
    BulkRestoring(s, t, pairs, tableDef, GrantSpec(t.columns));
    RestoringRollsBack(s, BulkUp(pairs, t.permissions, tableDef, GrantSpec(t.columns)),
                       Reverse(BulkDownRestoring(pairs, t.permissions, tableDef)));
  }

  /** A table with one role holding one select permission with the empty spec. */
  const GrantedTable: TableSchema := TableSchema("public", "a", [], [RolePermission("r", [KindSpec(Select, map[])])])

  const GrantedRef: TableRef := TableRef("public", "a")

  const GrantedStore: Store := map[Key(Select, GrantedRef, "r") := map[]]

  lemma GrantedStoreAgrees()
    ensures AgreesAt(GrantedStore, GrantedRef, GrantedTable)
  {
    forall kind: QueryType, role: string
      ensures && (Key(kind, GrantedRef, role) in GrantedStore <==> TablePermissions(GrantedTable, role, kind).Some?)
              && (Key(kind, GrantedRef, role) in GrantedStore ==>
                    GrantedStore[Key(kind, GrantedRef, role)] == TablePermissions(GrantedTable, role, kind).value)
    {
      if role == "r" {
        assert RoleEntries(GrantedTable.permissions, role) == [KindSpec(Select, map[])];
      } else {
        assert GrantedTable.permissions[0].roleName != role;
        assert RoleEntries(GrantedTable.permissions, role) == [];
      }
    }
  }

  /** Only the select permission of `"r"` is stored on `GrantedTable`. */
  lemma GrantedStored()
    ensures StoredFor(GrantedTable.permissions, RoleKind("r", Select)) == Some(map[])
    ensures StoredFor(GrantedTable.permissions, RoleKind("r", Insert)).None?
    ensures StoredFor(GrantedTable.permissions, RoleKind("r", Update)).None?
    ensures StoredFor(GrantedTable.permissions, RoleKind("r", Delete)).None?
  {
    assert RoleEntries(GrantedTable.permissions, "r") == [KindSpec(Select, map[])];
  }

  lemma OneRolePairs(role: string)
    ensures RoleKindPairs([role]) == [RoleKind(role, Select), RoleKind(role, Insert), RoleKind(role, Update), RoleKind(role, Delete)]
  {
    assert [role][..0] == [];
  }

  lemma GrantedDownHalf(g: Spec)
    ensures BulkDown([RoleKind("r", Select), RoleKind("r", Insert)], GrantedTable.permissions, GrantedRef, g)
      == [Drop(Select, GrantedRef, "r"), Create(Select, GrantedRef, "r", g), Drop(Insert, GrantedRef, "r")]
  {
    var perms := GrantedTable.permissions;
    var ps, pi := RoleKind("r", Select), RoleKind("r", Insert);
    GrantedStored();
    BulkStep([], ps, perms, GrantedRef, g);
    BulkStep([ps], pi, perms, GrantedRef, g);
    assert [] + [ps] == [ps] && [ps] + [pi] == [ps, pi];
  }

  /** The as-written backward list of the bulk grant of `"r"` on `GrantedTable`, query by query. */
  lemma GrantedDown(g: Spec)
    ensures BulkDown(RoleKindPairs(["r"]), GrantedTable.permissions, GrantedRef, g)
      == [Drop(Select, GrantedRef, "r"), Create(Select, GrantedRef, "r", g),
          Drop(Insert, GrantedRef, "r"), Drop(Update, GrantedRef, "r"), Drop(Delete, GrantedRef, "r")]
  {
    var perms := GrantedTable.permissions;
    var ps, pi, pu, pd := RoleKind("r", Select), RoleKind("r", Insert), RoleKind("r", Update), RoleKind("r", Delete);
    GrantedStored();
    OneRolePairs("r");
    GrantedDownHalf(g);
    BulkStep([ps, pi], pu, perms, GrantedRef, g);
    BulkStep([ps, pi, pu], pd, perms, GrantedRef, g);
    assert [ps, pi] + [pu] == [ps, pi, pu] && [ps, pi, pu] + [pd] == [ps, pi, pu, pd];
  }

  lemma RunSingle(s: Store, q: PermissionQuery)
    ensures Run(s, [q]) == Apply(s, q)
  {
    assert [q][1..] == [];
  }

  /** Running that list in order ends with the grant spec on the select triple. */
  lemma InOrderKeepsGrant(mid: Store, g: Spec)
    ensures var down := [Drop(Select, GrantedRef, "r"), Create(Select, GrantedRef, "r", g),
                         Drop(Insert, GrantedRef, "r"), Drop(Update, GrantedRef, "r"), Drop(Delete, GrantedRef, "r")];
      var k := Key(Select, GrantedRef, "r");
      k in Run(mid, down) && Run(mid, down)[k] == g
  {
    var k := Key(Select, GrantedRef, "r");
    var first := [Drop(Select, GrantedRef, "r"), Create(Select, GrantedRef, "r", g)];
    var rest := [Drop(Insert, GrantedRef, "r"), Drop(Update, GrantedRef, "r"), Drop(Delete, GrantedRef, "r")];
    assert first + rest == [Drop(Select, GrantedRef, "r"), Create(Select, GrantedRef, "r", g),
                            Drop(Insert, GrantedRef, "r"), Drop(Update, GrantedRef, "r"), Drop(Delete, GrantedRef, "r")];
    RunAppend(mid, first, rest);
    assert first == [first[0]] + [first[1]];
    RunAppend(mid, [first[0]], [first[1]]);
    RunSingle(mid, first[0]);
    RunSingle(Run(mid, [first[0]]), first[1]);
    forall q | q in rest ensures KeyOf(q) != k { }
    RunFrame(Run(mid, first), rest, k);
  }

  /**
   * The bulk grant as written does not roll back: on a store that agrees with the table, running
   * its backward list from its end leaves the stored select permission dropped, and running it in
   * list order leaves it replaced by the grant spec.
   */
  lemma BulkDownLosesPermission()
    ensures AgreesAt(GrantedStore, QualifiedTableDef("public", GrantedTable.tableName), GrantedTable)
    ensures var tableDef := QualifiedTableDef("public", GrantedTable.tableName);
      var g := GrantSpec(GrantedTable.columns);
      var up := BulkUp(RoleKindPairs(["r"]), GrantedTable.permissions, tableDef, g);
      var down := BulkDown(RoleKindPairs(["r"]), GrantedTable.permissions, tableDef, g);
      && Run(Run(GrantedStore, up), Reverse(down)) != GrantedStore
      && Run(Run(GrantedStore, up), down) != GrantedStore
  {
    GrantedStoreAgrees();
    var g := GrantSpec([]);
    var k := Key(Select, GrantedRef, "r");
    var up := BulkUp(RoleKindPairs(["r"]), GrantedTable.permissions, GrantedRef, g);
    var down := BulkDown(RoleKindPairs(["r"]), GrantedTable.permissions, GrantedRef, g);
    var mid := Run(GrantedStore, up);
    GrantedDown(g);
    assert Reverse(down)[|down| - 1] == Drop(Select, GrantedRef, "r");
    RunEndsWithDrop(mid, Reverse(down));
    InOrderKeepsGrant(mid, g);
    assert CheckKey in g;
    assert GrantedStore[k] == map[];
  }

  // ---------------------------------------------------------------- bulk apply

  /** Recreating an existing permission on the target's own table, one step restores what it touches. */
  lemma ApplyStepRestores(s: Store, target: ApplyTarget, q: QueryType, t: TableSchema, tableDef: TableRef, table: string,
                          drafted: Spec, current: Option<QueryType>)
    requires AgreesAt(s, TableDefOf(t), t)
    ensures var step := ApplyStep(target, q, t, tableDef, table, drafted, current, TargetTable);
      Restoring(s, step.up, step.down)
  {
    var ref := TableDefOf(t);
    var k := Key(q, ref, target.role);
    var spec := Sanitized(drafted, target.table != table, q, current);
    var d := Drop(q, ref, target.role);
    var c := Create(q, ref, target.role, spec);
    var step := ApplyStep(target, q, t, tableDef, table, drafted, current, TargetTable);
    match TablePermissions(t, target.role, q)
    case None =>
      assert step == QueryLists([c], [d]);
      RestoringCreate(s, k, spec);
    case Some(existing) =>
      assert step == QueryLists([d, c], [d, Create(q, ref, target.role, existing)]);
      RestoringReplace(s, k, spec);
  }

  /** With `TargetTable`, the walk keeps the backward list restoring, in list order. */
  lemma {:induction false} ApplySameFromRestores(s: Store, targets: seq<ApplyTarget>, acc: QueryLists,
                                                 allSchemas: seq<TableSchema>, currentSchema: string, tableDef: TableRef,
                                                 table: string, drafted: Spec, current: Option<QueryType>)
    requires AgreesWithSnapshot(s, allSchemas) && Restoring(s, acc.up, acc.down)
    ensures var r := ApplySameFrom(targets, acc, allSchemas, currentSchema, tableDef, table, drafted, current, TargetTable);
      r.Ok? ==> Restoring(s, r.value.up, r.value.down)
    decreases |targets|
  {
    if targets != [] {
      match ResolveTarget(targets[0], allSchemas, currentSchema)
      case Err(_) =>
      case Ok((t, q)) =>
        assert t in allSchemas;
        var step := ApplyStep(targets[0], q, t, tableDef, table, drafted, current, TargetTable);
        ApplyStepRestores(s, targets[0], q, t, tableDef, table, drafted, current);
        RestoringConcat(s, acc.up, acc.down, step.up, step.down);
        ApplySameFromRestores(s, targets[1..], QueryLists(acc.up + step.up, step.down + acc.down),
                              allSchemas, currentSchema, tableDef, table, drafted, current);
    }
  }

  /** The intended bulk apply: its backward list, run in list order, restores the store. */
  lemma ApplySameTargetTableRollsBack(s: Store, tableSchema: TableSchema, modified: bool, ps: PermissionsState,
                                      allSchemas: seq<TableSchema>, currentSchema: string)
    requires AgreesWithSnapshot(s, allSchemas)
    ensures var r := ApplySameLists(tableSchema, modified, ps, allSchemas, currentSchema, TargetTable);
      r.Ok? ==> Run(Run(s, r.value.up), r.value.down) == s
  {
    RestoringEmpty(s);
    ApplySameFromRestores(s, ApplyTargets(ps, tableSchema.tableName, modified), NoQueries, allSchemas, currentSchema,
                          QualifiedTableDef(currentSchema, tableSchema.tableName), tableSchema.tableName,
                          DraftedSpec(ps), ps.query);
    var r := ApplySameLists(tableSchema, modified, ps, allSchemas, currentSchema, TargetTable);
    if r.Ok? {
      RestoringRollsBack(s, r.value.up, r.value.down);
    }
  }

  /** When every target is on the current table, the source's lists are the intended ones. */
  lemma {:induction false} ApplySameFromOnCurrentTable(targets: seq<ApplyTarget>, acc: QueryLists, allSchemas: seq<TableSchema>,
                                                       currentSchema: string, table: string, drafted: Spec,
                                                       current: Option<QueryType>)
    requires forall i :: 0 <= i < |targets| ==> targets[i].table == table
    ensures var tableDef := QualifiedTableDef(currentSchema, table);
      ApplySameFrom(targets, acc, allSchemas, currentSchema, tableDef, table, drafted, current, CurrentTable)
      == ApplySameFrom(targets, acc, allSchemas, currentSchema, tableDef, table, drafted, current, TargetTable)
    decreases |targets|
  {
    var tableDef := QualifiedTableDef(currentSchema, table);
    if targets != [] {
      match ResolveTarget(targets[0], allSchemas, currentSchema)
      case Err(_) =>
      case Ok((t, q)) =>
        assert TableDefOf(t) == tableDef;
        assert ApplyStep(targets[0], q, t, tableDef, table, drafted, current, CurrentTable)
            == ApplyStep(targets[0], q, t, tableDef, table, drafted, current, TargetTable);
        var step := ApplyStep(targets[0], q, t, tableDef, table, drafted, current, TargetTable);
        ApplySameFromOnCurrentTable(targets[1..], QueryLists(acc.up + step.up, step.down + acc.down),
                                    allSchemas, currentSchema, table, drafted, current);
    }
  }

  /** The table the drafted permission is applied from, and another table on which `"r"` can select. */
  const FromTable: TableSchema := TableSchema("public", "a", [], [])

  const OtherTable: TableSchema := TableSchema("public", "b", [], [RolePermission("r", [KindSpec(Select, map[])])])

  const ApplyDraft: PermissionsState :=
    PermissionsState("a", "r", Some(Select), map[], "", true, [], [ApplyTarget("b", Some(Select), "r")])

  const OtherKey: Key := Key(Select, TableRef("public", "b"), "r")

  const OtherStore: Store := map[OtherKey := map[]]

  lemma OtherStoreAgrees()
    ensures AgreesWithSnapshot(OtherStore, [FromTable, OtherTable])
  {
    forall t | t in [FromTable, OtherTable] ensures AgreesAt(OtherStore, TableDefOf(t), t) {
      forall kind: QueryType, role: string
        ensures && (Key(kind, TableDefOf(t), role) in OtherStore <==> TablePermissions(t, role, kind).Some?)
                && (Key(kind, TableDefOf(t), role) in OtherStore ==>
                      OtherStore[Key(kind, TableDefOf(t), role)] == TablePermissions(t, role, kind).value)
      {
        if t == OtherTable && role == "r" {
          assert RoleEntries(t.permissions, role) == [KindSpec(Select, map[])];
        } else if t == OtherTable {
          assert t.permissions[0].roleName != role;
          assert RoleEntries(t.permissions, role) == [];
        } else {
          assert RoleEntries(t.permissions, role) == [];
        }
      }
    }
  }

  /** The lists the source builds for applying the select draft of `"r"` on `a` to table `b`. */
  lemma OtherLists()
    ensures var r := ApplySameLists(FromTable, false, ApplyDraft, [FromTable, OtherTable], "public", CurrentTable);
      var refA := TableRef("public", "a");
      var refB := TableRef("public", "b");
      var spec := Sanitized(map[], true, Select, Some(Select));
      r == Ok(QueryLists([Drop(Select, refA, "r"), Create(Select, refB, "r", spec)],
                         [Drop(Select, refB, "r"), Create(Select, refA, "r", map[])]))
  {
    var target := ApplyTarget("b", Some(Select), "r");
    var all := [FromTable, OtherTable];
    assert CompleteTargets([target]) == [target];
    assert ApplyTargets(ApplyDraft, "a", false) == [target];
    assert FindTable(all, "public", "b") == Some(OtherTable);
    assert ResolveTarget(target, all, "public") == Ok((OtherTable, Select));
    assert RoleEntries(OtherTable.permissions, "r") == [KindSpec(Select, map[])];
    assert TablePermissions(OtherTable, "r", Select) == Some(map[]);
    var refA := QualifiedTableDef("public", "a");
    assert DraftedSpec(ApplyDraft) == map[];
    ApplySameFromStep([target], NoQueries, all, "public", refA, "a", map[], Some(Select), CurrentTable, OtherTable, Select);
    assert [target][1..] == [];
    var step := ApplyStep(target, Select, OtherTable, refA, "a", map[], Some(Select), CurrentTable);
    assert step == QueryLists([Drop(Select, refA, "r"), Create(Select, TableRef("public", "b"), "r", Sanitized(map[], true, Select, Some(Select)))],
                              [Drop(Select, TableRef("public", "b"), "r"), Create(Select, refA, "r", map[])]);
    assert NoQueries.up + step.up == step.up && step.down + NoQueries.down == step.down;
    assert ApplySameLists(FromTable, false, ApplyDraft, all, "public", CurrentTable)
        == ApplySameFrom([target], NoQueries, all, "public", refA, "a", map[], Some(Select), CurrentTable);
    assert ApplySameFrom([], step, all, "public", refA, "a", map[], Some(Select), CurrentTable) == Ok(step);
  }

  /**
   * The bulk apply as written does not roll back: applying a draft to another table on which the
   * role already has the permission drops and re-creates it on the current table instead, so the
   * rollback, in list order or from its end, leaves the other table's permission dropped.
   */
  lemma ApplySameLosesPermission()
    ensures AgreesWithSnapshot(OtherStore, [FromTable, OtherTable])
    ensures var r := ApplySameLists(FromTable, false, ApplyDraft, [FromTable, OtherTable], "public", CurrentTable);
      && r.Ok?
      && OtherKey in OtherStore
      && OtherKey !in Run(Run(OtherStore, r.value.up), r.value.down)
      && OtherKey !in Run(Run(OtherStore, r.value.up), Reverse(r.value.down))
  {
    OtherStoreAgrees();
    OtherLists();
    OtherRollback();
  }

  lemma OtherRollback()
    ensures var refA := TableRef("public", "a");
      var refB := TableRef("public", "b");
      var up := [Drop(Select, refA, "r"), Create(Select, refB, "r", Sanitized(map[], true, Select, Some(Select)))];
      var down := [Drop(Select, refB, "r"), Create(Select, refA, "r", map[])];
      && OtherKey !in Run(Run(OtherStore, up), down)
      && OtherKey !in Run(Run(OtherStore, up), Reverse(down))
  {
    var refA := TableRef("public", "a");
    var refB := TableRef("public", "b");
    var spec := Sanitized(map[], true, Select, Some(Select));
    var up := [Drop(Select, refA, "r"), Create(Select, refB, "r", spec)];
    var mid := Run(OtherStore, up);
    var d := Drop(Select, refB, "r");
    var c := Create(Select, refA, "r", map[]);
    assert [d, c] == [d] + [c] && [c, d] == [c] + [d];
    ReversePair(d, c);
    RunAppend(mid, [d], [c]);
    RunSingle(mid, d);
    RunSingle(Run(mid, [d]), c);
    RunEndsWithDrop(mid, [c, d]);
  }
}
