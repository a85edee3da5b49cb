/**
 * `Array.prototype.sort()` with no comparator on arrays of names: a stable sort by
 * string comparison, here lexicographic order on characters.
 */
module StringOrder {

  /** `a <= b` as JavaScript compares two strings. */
  predicate StrLe(a: string, b: string)
    decreases |a|
  {
    a == [] || (b != [] && (a[0] < b[0] || (a[0] == b[0] && StrLe(a[1..], b[1..]))))
  }

  lemma {:induction false} StrLeReflexive(a: string)
    ensures StrLe(a, a)
    decreases |a|
  {
    if a != [] {
      StrLeReflexive(a[1..]);
    }
  }

  lemma {:induction false} StrLeTotal(a: string, b: string)
    ensures StrLe(a, b) || StrLe(b, a)
    decreases |a|
  {
    if a != [] && b != [] && a[0] == b[0] {
      StrLeTotal(a[1..], b[1..]);
    }
  }

  lemma {:induction false} StrLeAntisymmetric(a: string, b: string)
    requires StrLe(a, b) && StrLe(b, a)
    ensures a == b
    decreases |a|
  {
    if a != [] {
      StrLeAntisymmetric(a[1..], b[1..]);
      assert a == [a[0]] + a[1..] && b == [b[0]] + b[1..];
    }
  }

  lemma {:induction false} StrLeTransitive(a: string, b: string, c: string)
    requires StrLe(a, b) && StrLe(b, c)
    ensures StrLe(a, c)
    decreases |a|
  {
    if a != [] && a[0] == b[0] && b[0] == c[0] {
      StrLeTransitive(a[1..], b[1..], c[1..]);
    }
  }

  ghost predicate Sorted(s: seq<string>) {
    forall i, j :: 0 <= i < j < |s| ==> StrLe(s[i], s[j])
  }

  /** Insertion of one name into a list, before the first name it does not exceed. */
  function Insert(x: string, s: seq<string>): (r: seq<string>)
    ensures multiset(r) == multiset(s) + multiset{x}
  {
    if s == [] then [x]
    else if StrLe(x, s[0]) then [x] + s
    else
      var t := Insert(x, s[1..]);
      assert s == [s[0]] + s[1..];
      [s[0]] + t
  }

  /** The names of `s` in ascending order. */
  function SortStrings(s: seq<string>): (r: seq<string>)
    ensures multiset(r) == multiset(s)
  {
    if s == [] then []
    else
      var t := SortStrings(s[1..]);
      assert s == [s[0]] + s[1..];
      Insert(s[0], t)
  }

  lemma {:induction false} InsertSorted(x: string, s: seq<string>)
    requires Sorted(s)
    ensures Sorted(Insert(x, s))
  {
    if s != [] {
      if StrLe(x, s[0]) {
        forall j | 0 < j < |s| ensures StrLe(x, s[j]) {
          StrLeTransitive(x, s[0], s[j]);
        }
      } else {
        StrLeTotal(x, s[0]);
        InsertSorted(x, s[1..]);
        var t := Insert(x, s[1..]);
        forall j | 0 <= j < |t| ensures StrLe(s[0], t[j]) {
          assert t[j] in multiset(t);
          if t[j] != x {
            assert t[j] in multiset(s[1..]);
            assert t[j] in s[1..];
          }
        }
      }
    }
  }

  /** Sorting yields an ascending permutation of its input. */
  lemma {:induction false} SortStringsSorted(s: seq<string>)
    ensures Sorted(SortStrings(s))
  {
    if s != [] {
      SortStringsSorted(s[1..]);
      InsertSorted(s[0], SortStrings(s[1..]));
    }
  }

  lemma SortedHeadIsLeast(a: seq<string>, x: string)
    requires Sorted(a) && x in a
    ensures StrLe(a[0], x)
  {
    var i :| 0 <= i < |a| && a[i] == x;
    if i == 0 {
      StrLeReflexive(x);
    }
  }

  lemma SortedTail(a: seq<string>)
    requires Sorted(a) && a != []
    ensures Sorted(a[1..])
  {
  }

  lemma MultisetTail(a: seq<string>)
    requires a != []
    ensures multiset(a[1..]) == multiset(a) - multiset{a[0]}
  {
    assert a == [a[0]] + a[1..];
  }

  /** Two ascending lists with the same names are the same list. */
  lemma {:induction false} SortedUnique(a: seq<string>, b: seq<string>)
    requires Sorted(a) && Sorted(b) && multiset(a) == multiset(b)
    ensures a == b
    decreases |a|
  {
    assert |a| == |multiset(a)| == |multiset(b)| == |b|;
    if a != [] {
      assert a[0] in multiset(b) && b[0] in multiset(a);
      SortedHeadIsLeast(a, b[0]);
      SortedHeadIsLeast(b, a[0]);
      StrLeAntisymmetric(a[0], b[0]);
      MultisetTail(a);
      MultisetTail(b);
      SortedTail(a);
      SortedTail(b);
      SortedUnique(a[1..], b[1..]);
      ConsTail(a, b);
    }
  }

  lemma ConsTail(a: seq<string>, b: seq<string>)
    requires a != [] && b != [] && a[0] == b[0] && a[1..] == b[1..]
    ensures a == b
  {
    assert a == [a[0]] + a[1..] && b == [b[0]] + b[1..];
  }

  /** Sorting a list that is already ascending changes nothing. */
  lemma SortStringsOfSorted(s: seq<string>)
    requires Sorted(s)
    ensures SortStrings(s) == s
  {
    SortStringsSorted(s);
    SortedUnique(SortStrings(s), s);
  }
}
