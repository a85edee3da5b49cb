/**
 * What a list of permission queries does to the stored permissions, used to state that
 * a compiled backward list undoes its forward list.  A store maps every
 * (kind, table, role) triple that has a permission to its spec; `Create` sets the
 * triple's spec and `Drop` removes it.
 */
module MigrationStore {
  import opened PermissionModel

  datatype Key = Key(kind: QueryType, table: TableRef, role: string)

  type Store = map<Key, Spec>

  function KeyOf(q: PermissionQuery): Key {
    Key(q.kind, q.table, q.role)
  }

  /** The triples a list of queries touches. */
  function KeysOf(qs: seq<PermissionQuery>): set<Key> {
    set q | q in qs :: KeyOf(q)
  }

  /** The effect of one query on the store. */
  function Apply(s: Store, q: PermissionQuery): (r: Store)
    ensures q.Create? ==> KeyOf(q) in r && r[KeyOf(q)] == q.spec
    ensures q.Drop? ==> KeyOf(q) !in r
    ensures forall k :: k != KeyOf(q) ==> (k in r <==> k in s) && (k in s ==> r[k] == s[k])
  {
    match q
    case Create(_, _, _, spec) => s[KeyOf(q) := spec]
    case Drop(_, _, _) => s - {KeyOf(q)}
  }

  /** The effect of running queries in list order. */
  function Run(s: Store, qs: seq<PermissionQuery>): Store
    decreases |qs|
  {
    if qs == [] then s else Run(Apply(s, qs[0]), qs[1..])
  }

  /** The list in the opposite order. */
  function Reverse<T>(xs: seq<T>): (r: seq<T>)
    ensures |r| == |xs|
    ensures forall i :: 0 <= i < |xs| ==> r[i] == xs[|xs| - 1 - i]
  {
    if xs == [] then [] else Reverse(xs[1..]) + [xs[0]]
  }

  lemma ReverseAppend<T>(a: seq<T>, b: seq<T>)
    ensures Reverse(a + b) == Reverse(b) + Reverse(a)
  {
  }

  lemma ReverseReverse<T>(a: seq<T>)
    ensures Reverse(Reverse(a)) == a
  {
  }

  lemma KeysOfAppend(a: seq<PermissionQuery>, b: seq<PermissionQuery>)
    ensures KeysOf(a + b) == KeysOf(a) + KeysOf(b)
  {
    assert forall q :: q in a + b <==> q in a || q in b;
  }

  lemma KeysOfPair(q: PermissionQuery, p: PermissionQuery)
    ensures KeysOf([q]) == {KeyOf(q)}
    ensures KeysOf([q, p]) == {KeyOf(q), KeyOf(p)}
  {
    assert forall x :: x in [q] <==> x == q;
    assert forall x :: x in [q, p] <==> x == q || x == p;
  }

  lemma KeysOfReverse(a: seq<PermissionQuery>)
    ensures KeysOf(Reverse(a)) == KeysOf(a)
  {
    assert forall q :: q in Reverse(a) <==> q in a by {
      forall q ensures q in Reverse(a) <==> q in a {
        if q in a {
          var i :| 0 <= i < |a| && a[i] == q;
          assert Reverse(a)[|a| - 1 - i] == q;
        }
      }
    }
  }

  /** Running two lists one after the other is running their concatenation. */
  lemma {:induction false} RunAppend(s: Store, a: seq<PermissionQuery>, b: seq<PermissionQuery>)
    ensures Run(s, a + b) == Run(Run(s, a), b)
    decreases |a|
  {
    if a == [] {
      assert a + b == b;
    } else {
      assert (a + b)[0] == a[0];
      assert (a + b)[1..] == a[1..] + b;
      RunAppend(Apply(s, a[0]), a[1..], b);
    }
  }

  /** A run leaves every triple it does not touch exactly as it was. */
  lemma {:induction false} RunFrame(s: Store, qs: seq<PermissionQuery>, k: Key)
    requires k !in KeysOf(qs)
    ensures k in Run(s, qs) <==> k in s
    ensures k in s ==> Run(s, qs)[k] == s[k]
    decreases |qs|
  {
    if qs != [] {
      assert qs[0] in qs;
      assert KeysOf(qs[1..]) <= KeysOf(qs) by {
        forall q | q in qs[1..] ensures q in qs { }
      }
      RunFrame(Apply(s, qs[0]), qs[1..], k);
    }
  }

  /** `t` with the triples of `keys` put back to what they are in `s`. */
  function RestoreSet(t: Store, s: Store, keys: set<Key>): (r: Store)
    ensures forall k :: k in keys ==> (k in r <==> k in s) && (k in s ==> r[k] == s[k])
    ensures forall k :: k !in keys ==> (k in r <==> k in t) && (k in t ==> r[k] == t[k])
  {
    map k | k in (t.Keys - keys) + (s.Keys * keys) :: if k in keys then s[k] else t[k]
  }

  lemma RestoreCompose(t: Store, s: Store, a: set<Key>, b: set<Key>)
    ensures RestoreSet(RestoreSet(t, s, a), s, b) == RestoreSet(t, s, a + b)
  {
  }

  /** Restoring every triple on which `t` and `s` differ gives `s`. */
  lemma RestoreAgreeing(t: Store, s: Store, keys: set<Key>)
    requires forall k :: k !in keys ==> (k in t <==> k in s) && (k in s ==> t[k] == s[k])
    ensures RestoreSet(t, s, keys) == s
  {
  }

  /**
   * Running `back`, from any store, puts every triple that `up` or `back` touches
   * back to its value in `s` and leaves all others alone.
   */
  ghost predicate Restoring(s: Store, up: seq<PermissionQuery>, back: seq<PermissionQuery>) {
    forall t :: Run(t, back) == RestoreSet(t, s, KeysOf(up) + KeysOf(back))
  }

  /** A restoring backward list undoes its forward list. */
  lemma RestoringRollsBack(s: Store, up: seq<PermissionQuery>, back: seq<PermissionQuery>)
    requires Restoring(s, up, back)
    ensures Run(Run(s, up), back) == s
  {
    var keys := KeysOf(up) + KeysOf(back);
    forall k | k !in keys
      ensures (k in Run(s, up) <==> k in s) && (k in s ==> Run(s, up)[k] == s[k])
    {
      RunFrame(s, up, k);
    }
    RestoreAgreeing(Run(s, up), s, keys);
  }

  /** Restoring blocks compose; the second block's backward list runs first. */
  lemma RestoringConcat(s: Store, u1: seq<PermissionQuery>, b1: seq<PermissionQuery>,
                        u2: seq<PermissionQuery>, b2: seq<PermissionQuery>)
    requires Restoring(s, u1, b1) && Restoring(s, u2, b2)
    ensures Restoring(s, u1 + u2, b2 + b1)
  {
    var k1 := KeysOf(u1) + KeysOf(b1);
    var k2 := KeysOf(u2) + KeysOf(b2);
    KeysOfAppend(u1, u2);
    KeysOfAppend(b2, b1);
    forall t ensures Run(t, b2 + b1) == RestoreSet(t, s, KeysOf(u1 + u2) + KeysOf(b2 + b1)) {
      RunAppend(t, b2, b1);
      RestoreCompose(t, s, k2, k1);
      assert KeysOf(u1 + u2) + KeysOf(b2 + b1) == k2 + k1;
    }
  }

  lemma RestoringEmpty(s: Store)
    ensures Restoring(s, [], [])
  {
    forall t ensures Run(t, []) == RestoreSet(t, s, KeysOf([]) + KeysOf([])) {
      assert KeysOf([]) == {};
    }
  }

  /** Dropping a stored triple is undone by re-creating it with its stored spec. */
  lemma RestoringDrop(s: Store, k: Key)
    requires k in s
    ensures Restoring(s, [Drop(k.kind, k.table, k.role)], [Create(k.kind, k.table, k.role, s[k])])
  {
    var d := Drop(k.kind, k.table, k.role);
    var c := Create(k.kind, k.table, k.role, s[k]);
    KeysOfPair(d, c);
    KeysOfPair(c, d);
    forall t ensures Run(t, [c]) == RestoreSet(t, s, KeysOf([d]) + KeysOf([c])) {
      assert Run(t, [c]) == Apply(t, c);
    }
  }

  /** Creating a triple that is not stored is undone by dropping it. */
  lemma RestoringCreate(s: Store, k: Key, spec: Spec)
    requires k !in s
    ensures Restoring(s, [Create(k.kind, k.table, k.role, spec)], [Drop(k.kind, k.table, k.role)])
  {
    var d := Drop(k.kind, k.table, k.role);
    var c := Create(k.kind, k.table, k.role, spec);
    KeysOfPair(d, c);
    KeysOfPair(c, d);
    forall t ensures Run(t, [d]) == RestoreSet(t, s, KeysOf([c]) + KeysOf([d])) {
      assert Run(t, [d]) == Apply(t, d);
    }
  }

  /** Replacing a stored triple is undone by dropping the new one and re-creating the old one. */
  lemma RestoringReplace(s: Store, k: Key, spec: Spec)
    requires k in s
    ensures Restoring(s, [Drop(k.kind, k.table, k.role), Create(k.kind, k.table, k.role, spec)],
                         [Drop(k.kind, k.table, k.role), Create(k.kind, k.table, k.role, s[k])])
  {
    var d := Drop(k.kind, k.table, k.role);
    var c := Create(k.kind, k.table, k.role, spec);
    var c0 := Create(k.kind, k.table, k.role, s[k]);
    KeysOfPair(d, c);
    KeysOfPair(d, c0);
    forall t ensures Run(t, [d, c0]) == RestoreSet(t, s, KeysOf([d, c]) + KeysOf([d, c0])) {
      assert [d, c0][1..] == [c0];
      assert Run(t, [d, c0]) == Run(Apply(t, d), [c0]);
      assert Run(Apply(t, d), [c0]) == Apply(Apply(t, d), c0);
    }
  }

  /** A restoring backward list still restores when the forward list is swapped for one touching no other triple. */
  lemma RestoringWiden(s: Store, u1: seq<PermissionQuery>, u2: seq<PermissionQuery>, back: seq<PermissionQuery>)
    requires Restoring(s, u1, back)
    requires KeysOf(u1) <= KeysOf(back) && KeysOf(u2) <= KeysOf(back)
    ensures Restoring(s, u2, back)
  {
    assert KeysOf(u1) + KeysOf(back) == KeysOf(u2) + KeysOf(back);
  }

  /** Whether a backward list restores depends on the forward list only through the triples it touches. */
  lemma RestoringSameKeys(s: Store, u1: seq<PermissionQuery>, u2: seq<PermissionQuery>, back: seq<PermissionQuery>)
    requires Restoring(s, u1, back) && KeysOf(u1) == KeysOf(u2)
    ensures Restoring(s, u2, back)
  {
  }

  /** Running only drops removes exactly the triples they name. */
  lemma {:induction false} RunDrops(s: Store, qs: seq<PermissionQuery>)
    requires forall i :: 0 <= i < |qs| ==> qs[i].Drop?
    ensures Run(s, qs) == s - KeysOf(qs)
    decreases |qs|
  {
    if qs == [] {
      assert KeysOf(qs) == {};
    } else {
      RunDrops(Apply(s, qs[0]), qs[1..]);
      assert qs == [qs[0]] + qs[1..];
      KeysOfAppend([qs[0]], qs[1..]);
      KeysOfPair(qs[0], qs[0]);
    }
  }

  /** Running only creates of one spec sets exactly the triples they name to that spec. */
  lemma {:induction false} RunCreates(s: Store, qs: seq<PermissionQuery>, spec: Spec)
    requires forall i :: 0 <= i < |qs| ==> qs[i].Create? && qs[i].spec == spec
    ensures forall k :: k in KeysOf(qs) ==> k in Run(s, qs) && Run(s, qs)[k] == spec
    ensures forall k :: k !in KeysOf(qs) ==> (k in Run(s, qs) <==> k in s) && (k in s ==> Run(s, qs)[k] == s[k])
    decreases |qs|
  {
    if qs != [] {
      RunCreates(Apply(s, qs[0]), qs[1..], spec);
      assert qs == [qs[0]] + qs[1..];
      KeysOfAppend([qs[0]], qs[1..]);
      KeysOfPair(qs[0], qs[0]);
    }
  }

  /** A run that ends with a drop of a triple leaves that triple absent. */
  lemma RunEndsWithDrop(s: Store, qs: seq<PermissionQuery>)
    requires qs != [] && qs[|qs| - 1].Drop?
    ensures KeyOf(qs[|qs| - 1]) !in Run(s, qs)
  {
    var n := |qs| - 1;
    assert qs == qs[..n] + [qs[n]];
    RunAppend(s, qs[..n], [qs[n]]);
    assert Run(Run(s, qs[..n]), [qs[n]]) == Apply(Run(s, qs[..n]), qs[n]);
  }
}
