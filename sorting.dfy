/** A stable insertion sort, the model of `Array.prototype.sort` with a
    comparator: elements the comparator ranks equal keep their relative order.
    `le(a, b)` means that `a` may come before `b`. */
module Sorting {

  ghost predicate TotalPreorder<T(!new)>(le: (T, T) -> bool) {
    && (forall a, b :: le(a, b) || le(b, a))
    && (forall a, b, c :: le(a, b) && le(b, c) ==> le(a, c))
  }

  predicate SortedBy<T>(s: seq<T>, le: (T, T) -> bool) {
    forall i, j :: 0 <= i < j < |s| ==> le(s[i], s[j])
  }

  /** Puts `x` in front of the first element it may precede. */
  function Insert<T>(x: T, s: seq<T>, le: (T, T) -> bool): seq<T> {
    if s == [] then [x]
    else if le(x, s[0]) then [x] + s
    else [s[0]] + Insert(x, s[1..], le)
  }

  function SortBy<T>(s: seq<T>, le: (T, T) -> bool): seq<T> {
    if s == [] then [] else Insert(s[0], SortBy(s[1..], le), le)
  }

  lemma {:induction false} InsertPerm<T>(x: T, s: seq<T>, le: (T, T) -> bool)
    ensures multiset(Insert(x, s, le)) == multiset(s) + multiset{x}
    ensures |Insert(x, s, le)| == |s| + 1
  {
    if s != [] && !le(x, s[0]) {
      InsertPerm(x, s[1..], le);
      assert s == [s[0]] + s[1..];
    }
  }

  lemma {:induction false} InsertSorted<T(!new)>(x: T, s: seq<T>, le: (T, T) -> bool)
    requires TotalPreorder(le)
    requires SortedBy(s, le)
    ensures SortedBy(Insert(x, s, le), le)
  {
    if s == [] {
    } else if le(x, s[0]) {
      var r := [x] + s;
      forall i, j | 0 <= i < j < |r| ensures le(r[i], r[j]) {
        if i == 0 && j > 1 {
          assert le(s[0], s[j - 1]);
        }
      }
    } else {
      InsertSorted(x, s[1..], le);
      var t := Insert(x, s[1..], le);
      InsertPerm(x, s[1..], le);
      var r := [s[0]] + t;
      forall i, j | 0 <= i < j < |r| ensures le(r[i], r[j]) {
        if i == 0 {
          assert r[j] in multiset(t);
          assert r[j] in multiset(s[1..]) || r[j] == x;
          if r[j] == x {
            assert le(s[0], x);
          } else {
            var k :| 0 <= k < |s[1..]| && s[1..][k] == r[j];
            assert le(s[0], s[k + 1]);
          }
        }
      }
    }
  }

  /** The sorted sequence is ordered. */
  lemma {:induction false} SortBySorted<T(!new)>(s: seq<T>, le: (T, T) -> bool)
    requires TotalPreorder(le)
    ensures SortedBy(SortBy(s, le), le)
  {
    if s != [] {
      SortBySorted(s[1..], le);
      InsertSorted(s[0], SortBy(s[1..], le), le);
    }
  }

  /** The sorted sequence is a permutation of the input. */
  lemma {:induction false} SortByPerm<T>(s: seq<T>, le: (T, T) -> bool)
    ensures multiset(SortBy(s, le)) == multiset(s)
    ensures |SortBy(s, le)| == |s|
  {
    if s != [] {
      var r := SortBy(s[1..], le);
      SortByPerm(s[1..], le);
      InsertPerm(s[0], r, le);
      assert SortBy(s, le) == Insert(s[0], r, le);
      assert s == [s[0]] + s[1..];
      assert multiset(s) == multiset{s[0]} + multiset(s[1..]);
    }
  }

  /** Sorting keeps exactly the elements of the input. */
  lemma SortByMembers<T>(s: seq<T>, le: (T, T) -> bool, x: T)
    ensures x in SortBy(s, le) <==> x in s
  {
    SortByPerm(s, le);
    assert x in SortBy(s, le) <==> x in multiset(SortBy(s, le));
    assert x in s <==> x in multiset(s);
  }

  predicate NoDups<T(==)>(s: seq<T>) {
    forall i, j :: 0 <= i < j < |s| ==> s[i] != s[j]
  }

  lemma {:induction false} InsertNoDups<T>(x: T, s: seq<T>, le: (T, T) -> bool)
    requires NoDups(s) && x !in s
    ensures NoDups(Insert(x, s, le))
  {
    if s != [] && !le(x, s[0]) {
      InsertNoDups(x, s[1..], le);
      var t := Insert(x, s[1..], le);
      InsertPerm(x, s[1..], le);
      assert s[0] !in s[1..];
      assert s[0] !in t by {
        assert s[0] !in multiset(s[1..]) + multiset{x};
      }
      var r := [s[0]] + t;
      forall i, j | 0 <= i < j < |r| ensures r[i] != r[j] {
        if i == 0 {
          assert r[j] in t;
        }
      }
    }
  }

  /** Sorting a sequence without duplicates yields one without duplicates. */
  lemma {:induction false} SortByNoDups<T>(s: seq<T>, le: (T, T) -> bool)
    requires NoDups(s)
    ensures NoDups(SortBy(s, le))
  {
    if s != [] {
      assert NoDups(s[1..]);
      SortByNoDups(s[1..], le);
      SortByMembers(s[1..], le, s[0]);
      InsertNoDups(s[0], SortBy(s[1..], le), le);
    }
  }
  /** `a` and `b` are ranked equal: either may come before the other. */
  predicate Tied<T>(le: (T, T) -> bool, a: T, b: T) {
    le(a, b) && le(b, a)
  }

  /** The elements of `s` ranked equal to `k`, in their order in `s`. */
  function TiedWith<T>(s: seq<T>, k: T, le: (T, T) -> bool): seq<T> {
    if s == [] then []
    else (if Tied(le, k, s[0]) then [s[0]] else []) + TiedWith(s[1..], k, le)
  }

  /** An element that `x` may not precede is not ranked equal to anything `x`
      is ranked equal to. */
  lemma TiedBlocks<T(!new)>(x: T, y: T, k: T, le: (T, T) -> bool)
    requires TotalPreorder(le)
    requires Tied(le, k, x) && !le(x, y)
    ensures !Tied(le, k, y)
  {
    assert le(x, k);
  }

  /** One step of `InsertTied` past the head of `s`. */
  lemma InsertTiedStep<T>(x: T, s: seq<T>, k: T, le: (T, T) -> bool)
    requires s != [] && !le(x, s[0])
    requires Tied(le, k, x) ==> !Tied(le, k, s[0])
    requires TiedWith(Insert(x, s[1..], le), k, le)
             == (if Tied(le, k, x) then [x] else []) + TiedWith(s[1..], k, le)
    ensures TiedWith(Insert(x, s, le), k, le)
            == (if Tied(le, k, x) then [x] else []) + TiedWith(s, k, le)
  {
    var r := [s[0]] + Insert(x, s[1..], le);
    assert r[1..] == Insert(x, s[1..], le);
  }

  lemma {:induction false} InsertTied<T(!new)>(x: T, s: seq<T>, k: T, le: (T, T) -> bool)
    requires TotalPreorder(le)
    ensures TiedWith(Insert(x, s, le), k, le)
            == (if Tied(le, k, x) then [x] else []) + TiedWith(s, k, le)
  {
    if s == [] {
      assert [x][1..] == [];
    } else if le(x, s[0]) {
      assert ([x] + s)[1..] == s;
    } else {
      InsertTied(x, s[1..], k, le);
      if Tied(le, k, x) {
        TiedBlocks(x, s[0], k, le);
      }
      InsertTiedStep(x, s, k, le);
    }
  }

  /** Stability: the elements ranked equal to any `k` come out in the order
      they went in. */
  lemma {:induction false} SortByStable<T(!new)>(s: seq<T>, k: T, le: (T, T) -> bool)
    requires TotalPreorder(le)
    ensures TiedWith(SortBy(s, le), k, le) == TiedWith(s, k, le)
  {
    if s != [] {
      SortByStable(s[1..], k, le);
      InsertTied(s[0], SortBy(s[1..], le), k, le);
    }
  }
}
