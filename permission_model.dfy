/**
 * The data the permission-migration compilers read: the stored schema snapshot
 * (tables, their roles and each role's permission specs), the JavaScript values a
 * permission spec is made of, and the two opaque operations the compilers emit.
 */
module PermissionModel {
  import opened Wrappers

  /** The four permission kinds; the source spells them 'select', 'insert', 'update', 'delete'. */
  datatype QueryType = Select | Insert | Update | Delete

  /** `['select', 'insert', 'update', 'delete']`, the order every fixed walk uses. */
  const AllQueryTypes: seq<QueryType> := [Select, Insert, Update, Delete]

  function Name(q: QueryType): string {
    match q
    case Select => "select"
    case Insert => "insert"
    case Update => "update"
    case Delete => "delete"
  }

  /** The query kind a string names, if any. */
  function ParseQueryType(s: string): (r: Option<QueryType>)
    ensures r.Some? ==> Name(r.value) == s
  {
    if s == "select" then Some(Select)
    else if s == "insert" then Some(Insert)
    else if s == "update" then Some(Update)
    else if s == "delete" then Some(Delete)
    else None
  }

  lemma ParseName(q: QueryType)
    ensures ParseQueryType(Name(q)) == Some(q)
  {
  }

  /** A JSON-shaped JavaScript value; a key holding `undefined` is modelled as an absent key. */
  datatype Json =
    | JNull
    | JBool(b: bool)
    | JNum(n: int)
    | JStr(s: string)
    | JArr(items: seq<Json>)
    | JObj(fields: map<string, Json>)

  /** One role's permission for one kind: a plain JavaScript object. */
  type Spec = map<string, Json>

  const FilterKey: string := "filter"
  const CheckKey: string := "check"
  const ColumnsKey: string := "columns"
  const SetKey: string := "set"
  const LimitKey: string := "limit"
  const CommentKey: string := "comment"

  /** JavaScript truthiness of a value (NaN is not modelled). */
  predicate Truthy(j: Json) {
    match j
    case JNull => false
    case JBool(b) => b
    case JNum(n) => n != 0
    case JStr(s) => s != ""
    case JArr(_) => true
    case JObj(_) => true
  }

  /** `value.length`: defined for arrays and strings, `undefined` (None) otherwise. */
  function JsLength(j: Json): Option<nat> {
    match j
    case JArr(items) => Some(|items|)
    case JStr(s) => Some(|s|)
    case _ => None
  }

  /** The JSON array of the given column names. */
  function NameArray(names: seq<string>): (r: Json)
    ensures r.JArr? && |r.items| == |names|
    ensures forall i :: 0 <= i < |names| ==> r.items[i] == JStr(names[i])
  {
    JArr(seq(|names|, i requires 0 <= i < |names| => JStr(names[i])))
  }

  /** One key of a role's `permissions` object: the kind and the stored spec. */
  datatype KindSpec = KindSpec(kind: QueryType, spec: Spec)

  /** An entry of a table's `permissions` list. */
  datatype RolePermission = RolePermission(roleName: string, permissions: seq<KindSpec>)

  /** A table of the schema snapshot (table_schema, table_name, column names, permissions). */
  datatype TableSchema = TableSchema(
    tableSchema: string,
    tableName: string,
    columns: seq<string>,
    permissions: seq<RolePermission>)

  /** The reference to a table that the query builders receive. */
  datatype TableRef = TableRef(schema: string, name: string)

  /** `getQualifiedTableDef({name, schema}, driver)`, taken to be the plain pair. */
  function QualifiedTableDef(schema: string, name: string): TableRef {
    TableRef(schema, name)
  }

  /** `getTableDef(table)` and `{name: table_name, schema: table_schema}`. */
  function TableDefOf(t: TableSchema): TableRef {
    TableRef(t.tableSchema, t.tableName)
  }

  /**
   * The two operations the compilers emit, standing for the results of the unseen
   * builders `getCreatePermissionQuery` and `getDropPermissionQuery`.
   */
  datatype PermissionQuery =
    | Create(kind: QueryType, table: TableRef, role: string, spec: Spec)
    | Drop(kind: QueryType, table: TableRef, role: string)

  /** `permissions.find(p => p.role_name === role)`: the first entry for the role. */
  function FindRole(perms: seq<RolePermission>, role: string): (r: Option<RolePermission>)
    ensures r.None? <==> forall i :: 0 <= i < |perms| ==> perms[i].roleName != role
    ensures r.Some? ==> r.value.roleName == role && r.value in perms
    ensures r.Some? ==>
      exists i :: 0 <= i < |perms| && perms[i] == r.value && forall j :: 0 <= j < i ==> perms[j].roleName != role
  {
    if perms == [] then None
    else if perms[0].roleName == role then Some(perms[0])
    else
      var r := FindRole(perms[1..], role);
      assert forall i :: 1 <= i < |perms| ==> perms[i] == perms[1..][i - 1];
      r
  }

  /** `permissions[kind]` of a role's permissions object. */
  function LookupKind(entries: seq<KindSpec>, kind: QueryType): (r: Option<Spec>)
    ensures r.None? <==> forall i :: 0 <= i < |entries| ==> entries[i].kind != kind
    ensures r.Some? ==> KindSpec(kind, r.value) in entries
  {
    if entries == [] then None
    else if entries[0].kind == kind then Some(entries[0].spec)
    else
      var r := LookupKind(entries[1..], kind);
      assert forall i :: 1 <= i < |entries| ==> entries[i] == entries[1..][i - 1];
      r
  }

  /** The keys of a JavaScript object are distinct: no kind appears twice in a role's entries. */
  predicate UniqueKinds(entries: seq<KindSpec>) {
    forall i, j :: 0 <= i < j < |entries| ==> entries[i].kind != entries[j].kind
  }

  /** A table whose every role entry is a proper object. */
  predicate WellFormedTable(t: TableSchema) {
    forall rp :: rp in t.permissions ==> UniqueKinds(rp.permissions)
  }

  /** With distinct kinds, looking up an entry's kind finds that entry's spec. */
  lemma {:induction false} LookupUnique(entries: seq<KindSpec>, i: nat)
    requires UniqueKinds(entries) && i < |entries|
    ensures LookupKind(entries, entries[i].kind) == Some(entries[i].spec)
  {
    if i > 0 {
      assert entries[0].kind != entries[i].kind;
      assert entries[1..][i - 1] == entries[i];
      LookupUnique(entries[1..], i - 1);
    }
  }

  /** `Object.keys(...)` of a role's permissions, or `[]` when the role has no entry. */
  function RoleEntries(perms: seq<RolePermission>, role: string): (r: seq<KindSpec>)
    ensures FindRole(perms, role).None? ==> r == []
    ensures FindRole(perms, role).Some? ==> r == FindRole(perms, role).value.permissions
  {
    match FindRole(perms, role)
    case Some(rp) => rp.permissions
    case None => []
  }

  /** `getTablePermissions(table, role, kind)`: the stored spec of one triple, if any. */
  function TablePermissions(t: TableSchema, role: string, kind: QueryType): (r: Option<Spec>)
    ensures r.Some? ==> KindSpec(kind, r.value) in RoleEntries(t.permissions, role)
    ensures r.None? <==> forall e :: e in RoleEntries(t.permissions, role) ==> e.kind != kind
  {
    LookupKind(RoleEntries(t.permissions, role), kind)
  }

  /** `getSchemaTables(allSchemas, schema)`: the tables of one schema, in snapshot order. */
  function SchemaTables(all: seq<TableSchema>, schema: string): (r: seq<TableSchema>)
    ensures forall t :: t in r <==> t in all && t.tableSchema == schema
    ensures |r| <= |all|
  {
    if all == [] then []
    else if all[0].tableSchema == schema then [all[0]] + SchemaTables(all[1..], schema)
    else SchemaTables(all[1..], schema)
  }

  /** `findTable(allSchemas, {name, schema})`: the first table with that schema and name. */
  function FindTable(all: seq<TableSchema>, schema: string, name: string): (r: Option<TableSchema>)
    ensures r.None? <==> forall t :: t in all ==> !(t.tableSchema == schema && t.tableName == name)
    ensures r.Some? ==> r.value in all && r.value.tableSchema == schema && r.value.tableName == name
  {
    if all == [] then None
    else if all[0].tableSchema == schema && all[0].tableName == name then Some(all[0])
    else FindTable(all[1..], schema, name)
  }

  /** The characters `String.prototype.trim` removes: ECMAScript WhiteSpace and LineTerminator. */
  predicate IsJsWhitespace(c: char) {
    ('\U{0009}' <= c <= '\U{000D}') || c == '\U{0020}' || c == '\U{00A0}' || c == '\U{1680}'
    || ('\U{2000}' <= c <= '\U{200A}') || c == '\U{2028}' || c == '\U{2029}' || c == '\U{202F}'
    || c == '\U{205F}' || c == '\U{3000}' || c == '\U{FEFF}'
  }

  /** Drops the leading whitespace. */
  function TrimStart(s: string): (r: string)
    ensures |r| <= |s| && r == s[|s| - |r|..]
    ensures forall k :: 0 <= k < |s| - |r| ==> IsJsWhitespace(s[k])
    ensures r != [] ==> !IsJsWhitespace(r[0])
  {
    if s == [] || !IsJsWhitespace(s[0]) then s
    else
      var r := TrimStart(s[1..]);
      assert forall k :: 1 <= k < |s| ==> s[k] == s[1..][k - 1];
      r
  }

  /** Drops the trailing whitespace. */
  function TrimEnd(s: string): (r: string)
    ensures |r| <= |s| && r == s[..|r|]
    ensures forall k :: |r| <= k < |s| ==> IsJsWhitespace(s[k])
    ensures r != [] ==> !IsJsWhitespace(r[|r| - 1])
  {
    if s == [] || !IsJsWhitespace(s[|s| - 1]) then s
    else
      var r := TrimEnd(s[..|s| - 1]);
      assert forall k :: 0 <= k < |s| - 1 ==> s[k] == s[..|s| - 1][k];
      r
  }

  /** How many leading characters `trim` removes. */
  function TrimOffset(s: string): (n: nat)
    ensures n <= |s|
  {
    |s| - |TrimStart(s)|
  }

  /** `s.trim()`: whitespace removed from both ends. */
  function Trim(s: string): (r: string)
    ensures |r| <= |s|
    ensures r != [] ==> !IsJsWhitespace(r[0]) && !IsJsWhitespace(r[|r| - 1])
  {
    TrimEnd(TrimStart(s))
  }

  lemma SliceOfSuffix(s: string, i: nat, n: nat)
    requires i + n <= |s|
    ensures s[i..][..n] == s[i..i + n]
  {
  }

  /** Whitespace past the end of what `TrimEnd` keeps of a suffix of `s`. */
  lemma TrailingWhitespace(s: string, i: nat)
    requires i <= |s|
    ensures forall k :: i + |TrimEnd(s[i..])| <= k < |s| ==> IsJsWhitespace(s[k])
  {
    var a := s[i..];
    var r := TrimEnd(a);
    forall k | i + |r| <= k < |s| ensures IsJsWhitespace(s[k]) {
      assert a[k - i] == s[k];
    }
  }

  /**
   * `s.trim()` is the middle slice of `s` that starts at `TrimOffset(s)`; everything cut
   * off on either side is whitespace.
   */
  lemma TrimIsMiddle(s: string)
    ensures TrimOffset(s) + |Trim(s)| <= |s|
    ensures Trim(s) == s[TrimOffset(s)..TrimOffset(s) + |Trim(s)|]
    ensures forall k :: 0 <= k < TrimOffset(s) ==> IsJsWhitespace(s[k])
    ensures forall k :: TrimOffset(s) + |Trim(s)| <= k < |s| ==> IsJsWhitespace(s[k])
  {
    var i := TrimOffset(s);
    assert TrimStart(s) == s[i..];
    SliceOfSuffix(s, i, |Trim(s)|);
    TrailingWhitespace(s, i);
  }

  /** Trimming twice is trimming once. */
  lemma {:induction false} TrimIdempotent(s: string)
    ensures Trim(Trim(s)) == Trim(s)
  {
    var r := Trim(s);
    if r != [] {
      assert TrimStart(r) == r;
      assert TrimEnd(r) == r;
    }
  }
}
