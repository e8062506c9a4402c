/** Ordering helpers shared by every component that ranks or sorts: a stable sort under
    a caller-supplied order, and the lexicographic order on strings. */
module Sorting {
  import opened Basics

  /** A total preorder: what a sort key induces on the elements it is computed from. */
  ghost predicate TotalPreorder<T(!new)>(le: (T, T) -> bool) {
    && (forall x, y :: le(x, y) || le(y, x))
    && (forall x, y, z :: le(x, y) && le(y, z) ==> le(x, z))
  }

  ghost predicate Antisymmetric<T(!new)>(le: (T, T) -> bool) {
    forall x, y :: le(x, y) && le(y, x) ==> x == y
  }

  ghost predicate SortedBy<T>(s: seq<T>, le: (T, T) -> bool) {
    forall i, j :: 0 <= i < j < |s| ==> le(s[i], s[j])
  }

  /** Puts x, which stood before all of s in the input, in front of the first element it may precede. */
  function Insert<T>(x: T, s: seq<T>, le: (T, T) -> bool): seq<T> {
    if s == [] then [x]
    else if le(x, s[0]) then [x] + s
    else [s[0]] + Insert(x, s[1..], le)
  }

  /** Stable sort: equal elements keep their input order. */
  function Sort<T>(s: seq<T>, le: (T, T) -> bool): seq<T> {
    if s == [] then [] else Insert(s[0], Sort(s[1..], le), le)
  }

  lemma {:induction false} InsertPermutes<T>(x: T, s: seq<T>, le: (T, T) -> bool)
    ensures multiset(Insert(x, s, le)) == multiset{x} + multiset(s)
  {
    if s != [] {
      assert s == [s[0]] + s[1..];
      if !le(x, s[0]) {
        InsertPermutes(x, s[1..], le);
      }
    }
  }

  lemma {:induction false} SortPermutes<T>(s: seq<T>, le: (T, T) -> bool)
    ensures multiset(Sort(s, le)) == multiset(s)
    ensures |Sort(s, le)| == |s|
  {
    if s != [] {
      assert s == [s[0]] + s[1..];
      SortPermutes(s[1..], le);
      InsertPermutes(s[0], Sort(s[1..], le), le);
    }
    assert |multiset(Sort(s, le))| == |Sort(s, le)| && |multiset(s)| == |s|;
  }

  lemma {:induction false} InsertSorts<T(!new)>(x: T, s: seq<T>, le: (T, T) -> bool)
    requires TotalPreorder(le) && SortedBy(s, le)
    ensures SortedBy(Insert(x, s, le), le)
  {
    if s != [] && !le(x, s[0]) {
      InsertSorts(x, s[1..], le);
      InsertPermutes(x, s[1..], le);
      var r := Insert(x, s[1..], le);
      forall j | 0 <= j < |r| ensures le(s[0], r[j]) {
        assert r[j] in multiset(r);
        assert r[j] == x || r[j] in s[1..];
      }
    }
  }

  lemma {:induction false} SortSorts<T(!new)>(s: seq<T>, le: (T, T) -> bool)
    requires TotalPreorder(le)
    ensures SortedBy(Sort(s, le), le)
  {
    if s != [] {
      SortSorts(s[1..], le);
      InsertSorts(s[0], Sort(s[1..], le), le);
    }
  }

  /** Neither of the two must come before the other. */
  predicate Tied<T>(le: (T, T) -> bool, x: T, y: T) {
    le(x, y) && le(y, x)
  }

  lemma TiedBoth<T(!new)>(le: (T, T) -> bool, x: T, y: T, z: T)
    requires TotalPreorder(le)
    ensures Tied(le, x, y) && Tied(le, x, z) ==> le(y, z)
  {
  }

  lemma {:induction false} InsertKeepsTies<T(!new)>(x: T, y: T, s: seq<T>, le: (T, T) -> bool)
    requires TotalPreorder(le)
    ensures Filter(z => Tied(le, x, z), Insert(y, s, le)) == Filter(z => Tied(le, x, z), [y] + s)
  {
    var p := z => Tied(le, x, z);
    if s != [] && !le(y, s[0]) {
      InsertKeepsTies(x, y, s[1..], le);
      TiedBoth(le, x, y, s[0]);
      FilterSplits(p, [y], s);
      FilterSplits(p, [y], s[1..]);
      FilterSplits(p, [s[0]], s[1..]);
      FilterSplits(p, [s[0]], Insert(y, s[1..], le));
      assert s == [s[0]] + s[1..];
    }
  }

  /** The sort is stable: the elements tied with any x come out in the order they went in. */
  lemma {:induction false} SortIsStable<T(!new)>(x: T, s: seq<T>, le: (T, T) -> bool)
    requires TotalPreorder(le)
    ensures Filter(z => Tied(le, x, z), Sort(s, le)) == Filter(z => Tied(le, x, z), s)
  {
    if s != [] {
      SortIsStable(x, s[1..], le);
      InsertKeepsTies(x, s[0], Sort(s[1..], le), le);
      FilterSplits(z => Tied(le, x, z), [s[0]], Sort(s[1..], le));
      FilterSplits(z => Tied(le, x, z), [s[0]], s[1..]);
      assert s == [s[0]] + s[1..];
    }
  }

  /** Ascending positions: by key, and in ascending order where keys are tied. */
  ghost predicate TiesAscend(s: seq<nat>, le: (nat, nat) -> bool) {
    forall a, b :: 0 <= a < b < |s| && le(s[b], s[a]) ==> s[a] < s[b]
  }

  lemma {:induction false} InsertAscends(x: nat, s: seq<nat>, le: (nat, nat) -> bool)
    requires TiesAscend(s, le) && forall k :: 0 <= k < |s| ==> x < s[k]
    ensures TiesAscend(Insert(x, s, le), le)
  {
    if s != [] && !le(x, s[0]) {
      var r := Insert(x, s[1..], le);
      InsertAscends(x, s[1..], le);
      InsertPermutes(x, s[1..], le);
      forall b | 0 <= b < |r| && le(r[b], s[0]) ensures s[0] < r[b] {
        assert r[b] in multiset(r);
        assert r[b] == x || r[b] in s[1..];
      }
    }
  }

  lemma SortMembers<T>(s: seq<T>, le: (T, T) -> bool)
    ensures forall x :: x in Sort(s, le) <==> x in s
  {
    SortPermutes(s, le);
    forall x ensures x in Sort(s, le) <==> x in s {
      assert x in multiset(Sort(s, le)) <==> x in multiset(s);
    }
  }

  /** Sorting ascending positions by key keeps tied positions ascending. */
  lemma {:induction false} SortAscends(s: seq<nat>, le: (nat, nat) -> bool)
    requires forall a, b :: 0 <= a < b < |s| ==> s[a] < s[b]
    ensures TiesAscend(Sort(s, le), le)
  {
    if s != [] {
      SortAscends(s[1..], le);
      SortMembers(s[1..], le);
      var t := Sort(s[1..], le);
      forall k | 0 <= k < |t| ensures s[0] < t[k] {
        assert t[k] in s[1..];
      }
      InsertAscends(s[0], t, le);
    }
  }

  /** Taking the first element of one arrangement out of both leaves arrangements of the same rest. */
  lemma RemoveOne<T>(a: seq<T>, b: seq<T>, i: nat)
    requires multiset(a) == multiset(b) && a != [] && i < |b| && b[i] == a[0]
    ensures multiset(a[1..]) == multiset(b[..i] + b[i + 1..])
  {
    assert a == [a[0]] + a[1..];
    assert b == b[..i] + ([b[i]] + b[i + 1..]);
    assert multiset(a[1..]) == multiset(a) - multiset{a[0]};
    assert multiset(b[..i] + b[i + 1..]) == multiset(b) - multiset{a[0]};
  }

  lemma RemoveFirst<T>(a: seq<T>, b: seq<T>)
    requires multiset(a) == multiset(b) && a != [] && b != [] && b[0] == a[0]
    ensures multiset(a[1..]) == multiset(b[1..])
  {
    RemoveOne(a, b, 0);
    assert b[..0] + b[1..] == b[1..];
  }

  lemma SameLeast<T(!new)>(a: seq<T>, b: seq<T>, le: (T, T) -> bool)
    requires TotalPreorder(le) && Antisymmetric(le)
    requires SortedBy(a, le) && SortedBy(b, le) && multiset(a) == multiset(b) && a != [] && b != []
    ensures a[0] == b[0]
  {
    assert a[0] in multiset(b) && b[0] in multiset(a);
    var i :| 0 <= i < |b| && b[i] == a[0];
    var j :| 0 <= j < |a| && a[j] == b[0];
    assert i > 0 ==> le(b[0], b[i]);
    assert j > 0 ==> le(a[0], a[j]);
  }

  /** With ties broken, a multiset has one sorted arrangement. */
  lemma {:induction false} SortedUnique<T(!new)>(a: seq<T>, b: seq<T>, le: (T, T) -> bool)
    requires TotalPreorder(le) && Antisymmetric(le)
    requires SortedBy(a, le) && SortedBy(b, le) && multiset(a) == multiset(b)
    ensures a == b
  {
    assert |multiset(a)| == |a| && |multiset(b)| == |b|;
    if a != [] {
      SameLeast(a, b, le);
      RemoveFirst(a, b);
      SortedUnique(a[1..], b[1..], le);
      assert a == [a[0]] + a[1..] && b == [b[0]] + b[1..];
    }
  }

  // ---- no repetitions ----

  ghost predicate Distinct<T>(s: seq<T>) {
    forall i, j :: 0 <= i < j < |s| ==> s[i] != s[j]
  }

  lemma {:induction false} DistinctCounts<T>(s: seq<T>)
    ensures Distinct(s) <==> forall x :: x in multiset(s) ==> multiset(s)[x] == 1
  {
    if s != [] {
      var t := s[1..];
      assert s == [s[0]] + t;
      DistinctCounts(t);
      assert multiset(s) == multiset{s[0]} + multiset(t);
      if Distinct(s) {
        assert s[0] !in t;
        forall x | x in multiset(s) ensures multiset(s)[x] == 1 {
          if x != s[0] { assert x in multiset(t); }
        }
      }
      if forall x :: x in multiset(s) ==> multiset(s)[x] == 1 {
        assert s[0] in multiset(s);
        assert s[0] !in multiset(t);
        forall x | x in multiset(t) ensures multiset(t)[x] == 1 {
          assert x in multiset(s);
        }
        assert s[0] !in t;
      }
    }
  }

  /** Two repetition-free lists with the same members are rearrangements of each other. */
  lemma SameMembersPermute<T>(a: seq<T>, b: seq<T>)
    requires Distinct(a) && Distinct(b) && forall x :: x in a <==> x in b
    ensures multiset(a) == multiset(b)
  {
    DistinctCounts(a);
    DistinctCounts(b);
    forall x ensures multiset(a)[x] == multiset(b)[x] {
      assert x in multiset(a) <==> x in a;
      assert x in multiset(b) <==> x in b;
    }
  }

  lemma DistinctPermutes<T>(a: seq<T>, b: seq<T>)
    requires multiset(a) == multiset(b) && Distinct(a)
    ensures Distinct(b)
  {
    DistinctCounts(a);
    DistinctCounts(b);
  }

  // ---- strings ----

  /** Code-point order, a prefix before its extensions. */
  predicate StringLe(a: string, b: string) {
    if a == [] then true
    else if b == [] then false
    else if a[0] == b[0] then StringLe(a[1..], b[1..])
    else a[0] < b[0]
  }

  lemma {:induction false} StringLeTotal(a: string, b: string)
    ensures StringLe(a, b) || StringLe(b, a)
    ensures StringLe(a, b) && StringLe(b, a) ==> a == b
  {
    if a != [] && b != [] && a[0] == b[0] {
      StringLeTotal(a[1..], b[1..]);
      assert a == [a[0]] + a[1..] && b == [b[0]] + b[1..];
    }
  }

  lemma {:induction false} StringLeTransitive(a: string, b: string, c: string)
    ensures StringLe(a, b) && StringLe(b, c) ==> StringLe(a, c)
  {
    if a != [] && b != [] && c != [] && a[0] == b[0] == c[0] {
      StringLeTransitive(a[1..], b[1..], c[1..]);
    }
  }
}
