/**
 * The permissions editor's draft state and the small helpers that read or rewrite it:
 * `getBasePermissionsState`, `updatePermissionsState`, `deleteFromPermissionsState`,
 * `updateBulkSelect`, `updateApplySamePerms`, `toggleField`, `toggleAllFields` and
 * `isQueryTypeBackendOnlyCompatible`.
 */
module PermissionState {
  import opened Wrappers
  import opened PermissionModel
  import opened StringOrder

  /** One row of the "apply same permissions" list; an empty table or role is the string "". */
  datatype ApplyTarget = ApplyTarget(table: string, action: Option<QueryType>, role: string)

  /** A row the bulk apply keeps: `applyTo.table && applyTo.action && applyTo.role`. */
  predicate IsCompleteTarget(t: ApplyTarget) {
    t.table != "" && t.action.Some? && t.role != ""
  }

  /**
   * The draft `permissionsState`: the edited table, role and query kind, the draft spec
   * of each kind (`permissionsState.select`, ...), and the bulk-edit selections.
   */
  datatype PermissionsState = PermissionsState(
    table: string,
    role: string,
    query: Option<QueryType>,
    perms: map<QueryType, Spec>,
    newRole: string,
    limitEnabled: bool,
    bulkSelect: seq<string>,
    applySamePermissions: seq<ApplyTarget>)

  /** `isQueryTypeBackendOnlyCompatible`: insert, update and delete may be backend-only. */
  function IsQueryTypeBackendOnlyCompatible(queryType: string): (r: bool)
    ensures r <==> ParseQueryType(queryType).Some? && ParseQueryType(queryType).value != Select
  {
    queryType in ["insert", "update", "delete"]
  }

  lemma BackendOnlyKinds(q: QueryType)
    ensures IsQueryTypeBackendOnlyCompatible(Name(q)) <==> q != Select
  {
    ParseName(q);
  }

  /** Whether the value under `key` is missing or falsy (`!spec[key]`). */
  predicate FalsyAt(spec: Spec, key: string) {
    key !in spec || !Truthy(spec[key])
  }

  /**
   * The defaults `getBasePermissionsState` fills into a stored insert or update spec:
   * a falsy `columns` becomes `[]` and a falsy `set` becomes `{}`.
   */
  function WithFieldDefaults(q: QueryType, spec: Spec): (r: Spec)
    ensures q == Select || q == Delete ==> r == spec
    ensures q == Insert || q == Update ==>
      && ColumnsKey in r && Truthy(r[ColumnsKey]) && SetKey in r && Truthy(r[SetKey])
      && (FalsyAt(spec, ColumnsKey) ==> r[ColumnsKey] == JArr([]))
      && (FalsyAt(spec, SetKey) ==> r[SetKey] == JObj(map[]))
      && (forall k :: k in spec && !(k in {ColumnsKey, SetKey} && FalsyAt(spec, k)) ==> k in r && r[k] == spec[k])
      && (forall k :: k in r ==> k in spec || k == ColumnsKey || k == SetKey)
  {
    if q == Insert || q == Update then
      var withColumns := if FalsyAt(spec, ColumnsKey) then spec[ColumnsKey := JArr([])] else spec;
      if FalsyAt(withColumns, SetKey) then withColumns[SetKey := JObj(map[])] else withColumns
    else spec
  }

  lemma WithFieldDefaultsIdempotent(q: QueryType, spec: Spec)
    ensures WithFieldDefaults(q, WithFieldDefaults(q, spec)) == WithFieldDefaults(q, spec)
  {
  }

  /** The spec of the last entry of `kind`: what `_permissions[q] = ...` in key order leaves. */
  function LastKind(entries: seq<KindSpec>, kind: QueryType): (r: Option<Spec>)
    ensures r.None? <==> forall i :: 0 <= i < |entries| ==> entries[i].kind != kind
    ensures r.Some? ==> KindSpec(kind, r.value) in entries
  {
    if entries == [] then None
    else if entries[|entries| - 1].kind == kind then Some(entries[|entries| - 1].spec)
    else LastKind(entries[..|entries| - 1], kind)
  }

  /** Keys are unique in a JavaScript object, so the last entry of a kind is also the first. */
  lemma {:induction false} LastKindIsLookup(entries: seq<KindSpec>, kind: QueryType)
    requires UniqueKinds(entries)
    ensures LastKind(entries, kind) == LookupKind(entries, kind)
  {
    if entries != [] {
      var n := |entries| - 1;
      if entries[n].kind == kind {
        assert forall i :: 0 <= i < n ==> entries[i].kind != kind;
        assert entries[0].kind == kind ==> n == 0;
        if n > 0 {
          assert LookupKind(entries, kind) == LookupKind(entries[1..], kind);
          assert entries[1..][n - 1] == entries[n];
          assert forall i :: 0 <= i < n - 1 ==> entries[1..][i].kind != kind;
          LookupFindsLast(entries[1..], kind);
        }
      } else {
        LastKindIsLookup(entries[..n], kind);
        LookupPrefix(entries, kind);
      }
    }
  }

  /** With no earlier entry of the kind, the lookup returns the last one. */
  lemma {:induction false} LookupFindsLast(entries: seq<KindSpec>, kind: QueryType)
    requires entries != [] && entries[|entries| - 1].kind == kind
    requires forall i :: 0 <= i < |entries| - 1 ==> entries[i].kind != kind
    ensures LookupKind(entries, kind) == Some(entries[|entries| - 1].spec)
  {
    if |entries| > 1 {
      assert entries[1..][|entries| - 2] == entries[|entries| - 1];
      LookupFindsLast(entries[1..], kind);
    }
  }

  /** A lookup is not affected by a last entry of another kind. */
  lemma {:induction false} LookupPrefix(entries: seq<KindSpec>, kind: QueryType)
    requires entries != [] && entries[|entries| - 1].kind != kind
    ensures LookupKind(entries, kind) == LookupKind(entries[..|entries| - 1], kind)
  {
    if |entries| > 1 && entries[0].kind != kind {
      assert entries[1..][..|entries| - 2] == entries[..|entries| - 1][1..];
      LookupPrefix(entries[1..], kind);
    }
  }

  /**
   * `getBasePermissionsState(tableSchema, role, query, isNewRole)`: a copy of the default
   * state with table, role and query set, every kind the role has stored copied in (with
   * insert/update field defaults), and `newRole` set for a new role.
   */
  method GetBasePermissionsState(defaults: PermissionsState, tableSchema: TableSchema,
                                 role: string, query: Option<QueryType>, isNewRole: bool)
    returns (ps: PermissionsState)
    ensures ps.table == tableSchema.tableName && ps.role == role && ps.query == query
    ensures ps.newRole == (if isNewRole then role else defaults.newRole)
    ensures ps.limitEnabled == defaults.limitEnabled && ps.bulkSelect == defaults.bulkSelect
    ensures ps.applySamePermissions == defaults.applySamePermissions
    ensures forall q :: LastKind(RoleEntries(tableSchema.permissions, role), q).None? ==>
      (q in ps.perms <==> q in defaults.perms) && (q in defaults.perms ==> ps.perms[q] == defaults.perms[q])
    ensures forall q :: LastKind(RoleEntries(tableSchema.permissions, role), q).Some? ==>
      q in ps.perms && ps.perms[q] == WithFieldDefaults(q, LastKind(RoleEntries(tableSchema.permissions, role), q).value)
  {
    ps := defaults.(table := tableSchema.tableName, role := role, query := query);
    var entries := RoleEntries(tableSchema.permissions, role);
    var perms := ps.perms;
    var i := 0;
    while i < |entries|
      invariant 0 <= i <= |entries|
      invariant forall q :: LastKind(entries[..i], q).None? ==>
        (q in perms <==> q in defaults.perms) && (q in defaults.perms ==> perms[q] == defaults.perms[q])
      invariant forall q :: LastKind(entries[..i], q).Some? ==>
        q in perms && perms[q] == WithFieldDefaults(q, LastKind(entries[..i], q).value)
    {
      var e := entries[i];
      perms := perms[e.kind := WithFieldDefaults(e.kind, e.spec)];
      assert entries[..i + 1][..i] == entries[..i];
      i := i + 1;
    }
    assert entries[..i] == entries;
    ps := ps.(perms := perms);
    if isNewRole {
      ps := ps.(newRole := role);
    }
  }

  /**
   * `updatePermissionsState(permissions, key, value)`: sets `key` of the current kind's draft
   * spec, starting from that kind's default spec when the draft has none.
   */
  function UpdatePermissionsState(ps: PermissionsState, key: string, value: Json,
                                  defaults: QueryType -> Spec): (r: PermissionsState)
    ensures ps.query.None? ==> r == ps
    ensures ps.query.Some? ==>
      var q := ps.query.value;
      var before := if q in ps.perms then ps.perms[q] else defaults(q);
      && r == ps.(perms := r.perms)
      && q in r.perms && r.perms[q] == before[key := value]
      && forall q' :: q' != q ==> (q' in r.perms <==> q' in ps.perms) && (q' in ps.perms ==> r.perms[q'] == ps.perms[q'])
  {
    match ps.query
    case None => ps
    case Some(q) =>
      var current := if q in ps.perms then ps.perms[q] else defaults(q);
      ps.(perms := ps.perms[q := current[key := value]])
  }

  /** `deleteFromPermissionsState(permissions)`: drops the current kind's draft spec. */
  function DeleteFromPermissionsState(ps: PermissionsState): (r: PermissionsState)
    ensures ps.query.None? ==> r == ps
    ensures ps.query.Some? ==> r == ps.(perms := r.perms) && r.perms.Keys == ps.perms.Keys - {ps.query.value}
    ensures forall q :: q in r.perms ==> q in ps.perms && r.perms[q] == ps.perms[q]
  {
    match ps.query
    case None => ps
    case Some(q) => ps.(perms := ps.perms - {q})
  }

  /** Discarding the draft of the current kind forgets every edit made to it. */
  lemma DeleteAfterUpdate(ps: PermissionsState, key: string, value: Json, defaults: QueryType -> Spec)
    ensures DeleteFromPermissionsState(UpdatePermissionsState(ps, key, value, defaults))
         == DeleteFromPermissionsState(ps)
  {
  }

  lemma MapOverwrite<K, V>(m: map<K, V>, k: K, a: V, b: V)
    ensures m[k := a][k := b] == m[k := b]
  {
  }

  /** A later write to the same key of the draft wins. */
  lemma UpdateTwice(ps: PermissionsState, key: string, v1: Json, v2: Json, defaults: QueryType -> Spec)
    ensures UpdatePermissionsState(UpdatePermissionsState(ps, key, v1, defaults), key, v2, defaults)
         == UpdatePermissionsState(ps, key, v2, defaults)
  {
    if ps.query.Some? {
      var q := ps.query.value;
      var before := if q in ps.perms then ps.perms[q] else defaults(q);
      MapOverwrite(before, key, v1, v2);
      MapOverwrite(ps.perms, q, before[key := v1], before[key := v2]);
    }
  }

  /** Which field of an apply-same row an edit sets (`data.key`), with its new value. */
  datatype TargetEdit = SetTable(table: string) | SetAction(action: Option<QueryType>) | SetRole(role: string)

  /** The payload of `updateApplySamePerms`: a row index to delete, or a row index and an edit. */
  datatype ApplySameChange = DeleteTarget(index: nat) | EditTarget(index: nat, edit: TargetEdit)

  function EditApplyTarget(t: ApplyTarget, e: TargetEdit): ApplyTarget {
    match e
    case SetTable(v) => t.(table := v)
    case SetAction(v) => t.(action := v)
    case SetRole(v) => t.(role := v)
  }

  /**
   * `updateApplySamePerms(permissionsState, data, isDelete)`: a copy of the apply-same rows
   * with one row removed (`splice(index, 1)`, nothing for an index past the end), or with
   * one row edited; editing the index just past the end first appends a fresh row for the
   * current table and kind with an empty role.
   */
  function UpdateApplySamePerms(ps: PermissionsState, change: ApplySameChange): (r: seq<ApplyTarget>)
    requires change.EditTarget? ==> change.index <= |ps.applySamePermissions|
    ensures var rows := ps.applySamePermissions;
      match change
      case DeleteTarget(i) =>
        if i < |rows| then |r| == |rows| - 1 && r == rows[..i] + rows[i + 1..] else r == rows
      case EditTarget(i, e) =>
        && |r| == (if i == |rows| then |rows| + 1 else |rows|)
        && (forall j :: 0 <= j < |rows| && j != i ==> r[j] == rows[j])
        && r[i] == EditApplyTarget(if i < |rows| then rows[i] else ApplyTarget(ps.table, ps.query, ""), e)
  {
    var rows := ps.applySamePermissions;
    match change
    case DeleteTarget(i) =>
      if i < |rows| then rows[..i] + rows[i + 1..] else rows
    case EditTarget(i, e) =>
      var grown := if i == |rows| then rows + [ApplyTarget(ps.table, ps.query, "")] else rows;
      grown[i := EditApplyTarget(grown[i], e)]
  }

  /** Deleting the row an edit has just added gives back the original rows. */
  lemma AddThenDeleteRow(ps: PermissionsState, e: TargetEdit)
    ensures var added := UpdateApplySamePerms(ps, EditTarget(|ps.applySamePermissions|, e));
      UpdateApplySamePerms(ps.(applySamePermissions := added), DeleteTarget(|ps.applySamePermissions|))
        == ps.applySamePermissions
  {
    var rows := ps.applySamePermissions;
    var added := UpdateApplySamePerms(ps, EditTarget(|rows|, e));
    assert added[..|rows|] == rows;
  }

  /** The JavaScript array `permissionsState.bulkSelect`, which `updateBulkSelect` may grow in place. */
  class RoleList {
    var roles: seq<string>

    constructor(roles: seq<string>)
      ensures this.roles == roles
    {
      this.roles := roles;
    }
  }

  /** `bulkRes.filter(e => e !== selectedRole)`. */
  function WithoutRole(roles: seq<string>, role: string): (r: seq<string>)
    ensures role !in r
    ensures forall x :: x in r <==> x in roles && x != role
    ensures forall x :: x != role ==> multiset(r)[x] == multiset(roles)[x]
  {
    if roles == [] then []
    else
      var rest := WithoutRole(roles[1..], role);
      assert roles == [roles[0]] + roles[1..];
      if roles[0] == role then rest else [roles[0]] + rest
  }

  /** Selecting a role and then deselecting it leaves the selection as if it had only been deselected. */
  lemma {:induction false} SelectThenDeselect(roles: seq<string>, role: string)
    ensures WithoutRole(roles + [role], role) == WithoutRole(roles, role)
  {
    if roles == [] {
      assert WithoutRole([role], role) == WithoutRole([], role);
    } else {
      assert (roles + [role])[1..] == roles[1..] + [role];
      SelectThenDeselect(roles[1..], role);
    }
  }

  /**
   * `updateBulkSelect(permissionsState, selectedRole, isAdd)`: adding pushes onto the state's
   * own array and returns that same array; removing returns a new filtered array and leaves
   * the state's array alone.
   */
  method UpdateBulkSelect(bulkSelect: RoleList, selectedRole: string, isAdd: bool) returns (r: RoleList)
    modifies bulkSelect
    ensures isAdd ==> r == bulkSelect && r.roles == old(bulkSelect.roles) + [selectedRole]
    ensures !isAdd ==> fresh(r) && r.roles == WithoutRole(old(bulkSelect.roles), selectedRole)
    ensures !isAdd ==> bulkSelect.roles == old(bulkSelect.roles)
  {
    if isAdd {
      bulkSelect.roles := bulkSelect.roles + [selectedRole];
      r := bulkSelect;
    } else {
      r := new RoleList(WithoutRole(bulkSelect.roles, selectedRole));
    }
  }

  /** The JavaScript array `permissions[fieldType]` that `toggleField` edits in place. */
  class FieldList {
    var names: seq<string>

    constructor(names: seq<string>)
      ensures this.names == names
    {
      this.names := names;
    }
  }

  /** `names.indexOf(name)`: the first index holding `name`, or -1. */
  function IndexOf(names: seq<string>, name: string): (r: int)
    ensures -1 <= r < |names|
    ensures r == -1 <==> name !in names
    ensures r >= 0 ==> names[r] == name && name !in names[..r]
  {
    if names == [] then -1
    else if names[0] == name then 0
    else
      var r := IndexOf(names[1..], name);
      assert r >= 0 ==> names[..r + 1] == [names[0]] + names[1..][..r];
      if r == -1 then -1 else r + 1
  }

  /** The unsorted result of toggling: `name` pushed when absent, its first occurrence spliced out otherwise. */
  function Toggled(names: seq<string>, name: string): (r: seq<string>)
    ensures name !in names ==> multiset(r) == multiset(names) + multiset{name}
    ensures name in names ==> multiset(r) == multiset(names) - multiset{name}
  {
    var i := IndexOf(names, name);
    if i == -1 then names + [name]
    else
      assert names == names[..i] + [names[i]] + names[i + 1..];
      names[..i] + names[i + 1..]
  }

  /** What `toggleField` returns: the toggled names, sorted. */
  function ToggleSorted(names: seq<string>, name: string): (r: seq<string>)
    ensures Sorted(r)
    ensures name !in names ==> multiset(r) == multiset(names) + multiset{name}
    ensures name in names ==> multiset(r) == multiset(names) - multiset{name}
  {
    SortStringsSorted(Toggled(names, name));
    SortStrings(Toggled(names, name))
  }

  /** On a sorted list holding `name` at most once, toggling the same name twice is the identity. */
  lemma ToggleTwice(names: seq<string>, name: string)
    requires Sorted(names) && multiset(names)[name] <= 1
    ensures ToggleSorted(ToggleSorted(names, name), name) == names
  {
    var once := ToggleSorted(names, name);
    if name in names {
      assert multiset(once)[name] == 0;
      assert name !in once;
    } else {
      assert name in multiset(once);
    }
    SortedUnique(ToggleSorted(once, name), names);
  }

  /**
   * `toggleField(permissions, fieldName, fieldType)`: when the draft has a field list
   * (`current`), that very array is edited in place and returned; otherwise a new list is
   * made from `[]`.  Either way the result is the toggled names, sorted.
   */
  method ToggleField(current: FieldList?, fieldName: string) returns (r: FieldList)
    modifies current
    ensures current != null ==> r == current
    ensures current == null ==> fresh(r)
    ensures r.names == ToggleSorted(if current != null then old(current.names) else [], fieldName)
  {
    if current == null {
      r := new FieldList([]);
    } else {
      r := current;
    }
    var names := r.names;
    ghost var before := names;
    var i := IndexOf(names, fieldName);
    if i == -1 {
      names := names + [fieldName];
    } else {
      names := names[..i] + names[i + 1..];
    }
    assert names == Toggled(before, fieldName);
    r.names := SortStrings(names);
  }

  /** `.length` of `permissions[fType]` when it is truthy, else of `[]`. */
  function SelectedLength(permissions: Option<Spec>, fType: string): Option<nat> {
    if permissions.Some? && fType in permissions.value && Truthy(permissions.value[fType])
    then JsLength(permissions.value[fType])
    else Some(0)
  }

  /** Whether every field type's selection is as long as its full list. */
  ghost predicate AllFieldsSelected(permissions: Option<Spec>, allFields: map<string, seq<string>>) {
    forall f :: f in allFields ==> SelectedLength(permissions, f) == Some(|allFields[f]|)
  }

  /**
   * `toggleAllFields(permissions, allFields, fieldType)`: `[]` when every field type is
   * fully selected, else the full list for `fieldType` (`undefined`, None, if there is none).
   */
  method ToggleAllFields(permissions: Option<Spec>, allFields: map<string, seq<string>>, fieldType: string)
    returns (r: Option<seq<string>>)
    ensures AllFieldsSelected(permissions, allFields) ==> r == Some([])
    ensures !AllFieldsSelected(permissions, allFields) ==>
      r == (if fieldType in allFields then Some(allFields[fieldType]) else None)
  {
    var allSelected := true;
    var pending := allFields.Keys;
    while pending != {}
      invariant pending <= allFields.Keys
      invariant allSelected <==>
        forall f :: f in allFields && f !in pending ==> SelectedLength(permissions, f) == Some(|allFields[f]|)
      decreases pending
    {
      var f :| f in pending;
      var currentSelected := SelectedLength(permissions, f) == Some(|allFields[f]|);
      allSelected := allSelected && currentSelected;
      pending := pending - {f};
    }
    if allSelected {
      r := Some([]);
    } else if fieldType in allFields {
      r := Some(allFields[fieldType]);
    } else {
      r := None;
    }
  }
}
