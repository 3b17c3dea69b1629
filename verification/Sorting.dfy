/**
  Sorting, as sort.Slice, sort.Strings and sort.Float64s give it: of a set by a strict total order, where there is one
  result; and of a sequence of integers, equal ones included.
 */
module Sorting {
  import opened Text

  // before is a strict total order on s.
  ghost predicate Total<T(!new)>(before: (T, T) -> bool, s: set<T>) {
    && (forall x, y :: x in s && y in s && x != y ==> before(x, y) || before(y, x))
    && (forall x, y :: x in s && y in s ==> !(before(x, y) && before(y, x)))
    && (forall x, y, z :: x in s && y in s && z in s && before(x, y) && before(y, z) ==> before(x, z))
  }

  ghost predicate Ascending<T(!new)>(before: (T, T) -> bool, list: seq<T>) {
    forall i, j :: 0 <= i < j < |list| ==> before(list[i], list[j])
  }

  // The elements of s, each once, in order.
  ghost predicate Lists<T(!new)>(before: (T, T) -> bool, list: seq<T>, s: set<T>) {
    Ascending(before, list) && forall x :: x in list <==> x in s
  }

  function Insert<T(==)>(before: (T, T) -> bool, x: T, list: seq<T>): seq<T> {
    if list == [] || before(x, list[0]) then [x] + list else [list[0]] + Insert(before, x, list[1..])
  }

  lemma {:induction false} InsertLists<T(!new)>(before: (T, T) -> bool, x: T, list: seq<T>, s: set<T>)
    requires Lists(before, list, s) && x !in s && Total(before, s + {x})
    ensures Lists(before, Insert(before, x, list), s + {x})
  {
    if list != [] {
      var first, rest := list[0], list[1..];
      assert list == [first] + rest;
      assert first in s;
      if before(x, first) {
        assert Ascending(before, [x] + list) by {
          forall j | 0 <= j < |list|
            ensures before(x, list[j])
          {
            assert list[j] in s;
          }
        }
      } else {
        RestLists(before, list, s);
        assert (s - {first}) + {x} == (s + {x}) - {first};
        InsertLists(before, x, rest, s - {first});
        var more := Insert(before, x, rest);
        assert Ascending(before, [first] + more) by {
          forall j | 0 <= j < |more|
            ensures before(first, more[j])
          {
            assert more[j] in more;
            if more[j] != x { var i :| 0 <= i < |rest| && rest[i] == more[j]; assert before(list[0], list[i + 1]); }
          }
        }
      }
    }
  }

  lemma RestLists<T(!new)>(before: (T, T) -> bool, list: seq<T>, s: set<T>)
    requires Lists(before, list, s) && list != [] && Total(before, s)
    ensures Lists(before, list[1..], s - {list[0]})
  {
    assert list == [list[0]] + list[1..];
    assert list[0] in s;
    forall x | x in list[1..]
      ensures x != list[0] && x in s
    {
      var i :| 0 <= i < |list[1..]| && list[1..][i] == x;
      assert before(list[0], list[i + 1]);
    }
  }

  /** There is one such list. */
  lemma {:induction false} OneListing<T(!new)>(before: (T, T) -> bool, a: seq<T>, b: seq<T>, s: set<T>)
    requires Lists(before, a, s) && Lists(before, b, s) && Total(before, s)
    ensures a == b
    decreases |a|
  {
    assert forall i :: 0 <= i < |b| ==> b[i] in a;
    assert forall i :: 0 <= i < |a| ==> a[i] in b;
    assert b != [] ==> b[0] in a;
    if a != [] {
      assert a[0] in b && b[0] in a;
      RestLists(before, a, s);
      RestLists(before, b, s);
      OneListing(before, a[1..], b[1..], s - {a[0]});
      assert a == [a[0]] + a[1..] && b == [b[0]] + b[1..];
    }
  }

  lemma {:induction false} ListingExists<T(!new)>(before: (T, T) -> bool, s: set<T>) returns (list: seq<T>)
    requires Total(before, s)
    ensures Lists(before, list, s)
    decreases |s|
  {
    if s == {} {
      list := [];
    } else {
      var x :| x in s;
      var rest := ListingExists(before, s - {x});
      assert (s - {x}) + {x} == s;
      InsertLists(before, x, rest, s - {x});
      list := Insert(before, x, rest);
    }
  }

  ghost function Listing<T(!new)>(before: (T, T) -> bool, s: set<T>): (list: seq<T>)
    requires Total(before, s)
    ensures Lists(before, list, s)
  {
    assert exists list :: Lists(before, list, s) by { var list := ListingExists(before, s); }
    var list :| Lists(before, list, s);
    list
  }

  lemma {:induction false} ListingSize<T(!new)>(before: (T, T) -> bool, list: seq<T>, s: set<T>)
    requires Lists(before, list, s) && Total(before, s)
    ensures |list| == |s|
    decreases |list|
  {
    if list == [] {
      assert s == {};
    } else {
      RestLists(before, list, s);
      assert list[0] in s;
      ListingSize(before, list[1..], s - {list[0]});
    }
  }

  // Sorting a list of distinct elements, in whatever order they come.
  method Sort<T(!new, ==)>(before: (T, T) -> bool, list: seq<T>, ghost s: set<T>) returns (r: seq<T>)
    requires Total(before, s) && forall x :: x in list <==> x in s
    requires forall i, j :: 0 <= i < j < |list| ==> list[i] != list[j]
    ensures r == Listing(before, s)
  {
    r := [];
    ghost var part: set<T> := {};
    for i := 0 to |list|
      invariant Lists(before, r, part) && part <= s && forall x :: x in part <==> x in list[..i]
    {
      assert forall x :: x in list[..i] ==> x != list[i];
      assert list[..i + 1] == list[..i] + [list[i]];
      InsertLists(before, list[i], r, part);
      r := Insert(before, list[i], r);
      part := part + {list[i]};
    }
    assert list[..|list|] == list;
    assert part == s;
    OneListing(before, r, Listing(before, s), s);
  }

  // --- integers ---

  ghost predicate Rising(s: seq<int>) {
    forall i, j :: 0 <= i < j < |s| ==> s[i] <= s[j]
  }

  function InsertInt(x: int, s: seq<int>): seq<int> {
    if s == [] || x <= s[0] then [x] + s else [s[0]] + InsertInt(x, s[1..])
  }

  function Sorted(s: seq<int>): seq<int> {
    if s == [] then [] else InsertInt(s[|s| - 1], Sorted(s[..|s| - 1]))
  }

  ghost predicate AllAtLeast(low: int, s: seq<int>) {
    forall i :: 0 <= i < |s| ==> low <= s[i]
  }

  lemma {:induction false} InsertAtLeast(low: int, x: int, s: seq<int>)
    requires low <= x && AllAtLeast(low, s)
    ensures AllAtLeast(low, InsertInt(x, s))
  {
    if s != [] && x > s[0] { InsertAtLeast(low, x, s[1..]); }
  }

  lemma {:induction false} InsertRises(x: int, s: seq<int>)
    requires Rising(s)
    ensures Rising(InsertInt(x, s))
  {
    if s != [] && x > s[0] {
      InsertRises(x, s[1..]);
      InsertAtLeast(s[0], x, s[1..]);
    }
  }

  lemma {:induction false} InsertBag(x: int, s: seq<int>)
    ensures multiset(InsertInt(x, s)) == multiset(s) + multiset{x} && |InsertInt(x, s)| == |s| + 1
  {
    if s != [] && x > s[0] {
      InsertBag(x, s[1..]);
      assert s == [s[0]] + s[1..];
    }
  }

  lemma {:induction false} SortedRises(s: seq<int>)
    ensures Rising(Sorted(s)) && multiset(Sorted(s)) == multiset(s) && |Sorted(s)| == |s|
  {
    if s != [] {
      SortedRises(s[..|s| - 1]);
      InsertRises(s[|s| - 1], Sorted(s[..|s| - 1]));
      InsertBag(s[|s| - 1], Sorted(s[..|s| - 1]));
      assert s == s[..|s| - 1] + [s[|s| - 1]];
    }
  }

  lemma FirstIsLeast(a: seq<int>, x: int)
    requires Rising(a) && x in multiset(a)
    ensures a != [] && a[0] <= x
  {
  }

  lemma RestOfBag(a: seq<int>)
    requires a != [] && Rising(a)
    ensures multiset(a[1..]) == multiset(a) - multiset{a[0]} && a == [a[0]] + a[1..] && Rising(a[1..])
  {
    assert a == [a[0]] + a[1..];
  }

  lemma SameFirst(a: seq<int>, b: seq<int>)
    requires Rising(a) && Rising(b) && multiset(a) == multiset(b) && a != []
    ensures b != [] && a[0] == b[0] && multiset(a[1..]) == multiset(b[1..])
  {
    hide Rising;
    assert a[0] in multiset(b);
    FirstIsLeast(b, a[0]);
    FirstIsLeast(a, b[0]);
    RestOfBag(a);
    RestOfBag(b);
  }

  lemma {:induction false} OneRising(a: seq<int>, b: seq<int>)
    requires Rising(a) && Rising(b) && multiset(a) == multiset(b)
    ensures a == b
    decreases |a|
  {
    hide Rising;
    if a != [] {
      SameFirst(a, b);
      RestOfBag(a);
      RestOfBag(b);
      OneRising(a[1..], b[1..]);
    } else if b != [] {
      SameFirst(b, a);
    }
  }

  /** Sorting forgets the order it was given. */
  lemma SortedForgetsOrder(a: seq<int>, b: seq<int>)
    requires multiset(a) == multiset(b)
    ensures Sorted(a) == Sorted(b)
  {
    SortedRises(a);
    SortedRises(b);
    OneRising(Sorted(a), Sorted(b));
  }

  method SortInts(s: seq<int>) returns (r: seq<int>)
    ensures r == Sorted(s)
  {
    r := [];
    for i := 0 to |s|
      invariant r == Sorted(s[..i])
    {
      assert s[..i + 1][..i] == s[..i];
      r := InsertInt(s[i], r);
    }
    assert s[..|s|] == s;
  }

  // --- strings ---

  lemma StringsAreTotal(s: set<string>)
    ensures Total(Less, s)
  {
    forall x, y | x in s && y in s
      ensures x != y ==> Less(x, y) || Less(y, x)
      ensures !(Less(x, y) && Less(y, x))
    {
      LessTotal(x, y);
    }
    forall x, y, z | x in s && y in s && z in s && Less(x, y) && Less(y, z)
      ensures Less(x, z)
    {
      LessTrans(x, y, z);
    }
  }

  // --- lists that repeat nothing ---

  ghost predicate Once<T(!new)>(s: seq<T>) {
    forall i, j :: 0 <= i < j < |s| ==> s[i] != s[j]
  }

  lemma OncePlus<T(!new)>(s: seq<T>, x: T)
    requires Once(s) && x !in s
    ensures Once(s + [x])
  {
  }

  lemma {:induction false} OnceBag<T(!new)>(s: seq<T>)
    ensures Once(s) <==> forall x :: multiset(s)[x] <= 1
  {
    if s != [] {
      var n := |s| - 1;
      var front, last := s[..n], s[n];
      assert s == front + [last];
      OnceBag(front);
      if Once(s) {
        assert forall i :: 0 <= i < n ==> front[i] == s[i] != last;
        assert last !in multiset(front);
      } else {
        var i, j :| 0 <= i < j < |s| && s[i] == s[j];
        if j < n {
          assert front[i] == front[j] && !Once(front);
          var x :| multiset(front)[x] > 1;
          assert multiset(s)[x] > 1;
        } else {
          assert front[i] == last && last in multiset(front);
          assert multiset(s)[last] > 1;
        }
      }
    }
  }

  lemma OnceInAnyOrder<T(!new)>(a: seq<T>, b: seq<T>)
    requires multiset(a) == multiset(b) && Once(a)
    ensures Once(b)
  {
    OnceBag(a);
    OnceBag(b);
  }

  // --- by a string that need not tell the elements apart ---

  ghost predicate Falls(a: string, b: string) {
    Less(b, a)
  }

  ghost predicate RisesBy<T(!new)>(key: T -> string, list: seq<T>) {
    forall i, j :: 0 <= i < j < |list| ==> !Falls(key(list[i]), key(list[j]))
  }

  function InsertBy<T>(key: T -> string, x: T, list: seq<T>): seq<T> {
    if list == [] || !Less(key(list[0]), key(x)) then [x] + list else [list[0]] + InsertBy(key, x, list[1..])
  }

  lemma {:induction false} InsertByRises<T(!new)>(key: T -> string, x: T, list: seq<T>)
    requires RisesBy(key, list)
    ensures RisesBy(key, InsertBy(key, x, list))
    ensures forall y :: y in InsertBy(key, x, list) <==> y == x || y in list
  {
    if list != [] {
      var first, rest := list[0], list[1..];
      assert list == [first] + rest;
      hide Less;
      if !Less(key(first), key(x)) {
        forall j | 0 <= j < |list|
          ensures !Falls(key(x), key(list[j]))
        {
          if j > 0 { assert !Falls(key(first), key(list[j])); NotLessTrans(key(list[j]), key(first), key(x)); }
        }
      } else {
        InsertByRises(key, x, rest);
        LessTotal(key(first), key(x));
        var more := InsertBy(key, x, rest);
        forall j | 0 <= j < |more|
          ensures !Falls(key(first), key(more[j]))
        {
          assert more[j] in more;
          if more[j] != x { var i :| 0 <= i < |rest| && rest[i] == more[j]; assert list[i + 1] == more[j]; }
        }
      }
    }
  }

  lemma {:induction false} InsertByBag<T>(key: T -> string, x: T, list: seq<T>)
    ensures multiset(InsertBy(key, x, list)) == multiset(list) + multiset{x}
  {
    if list != [] && Less(key(list[0]), key(x)) {
      InsertByBag(key, x, list[1..]);
      assert list == [list[0]] + list[1..];
    }
  }

  lemma NotLessTrans(a: string, b: string, c: string)
    requires !Less(a, b) && !Less(b, c)
    ensures !Less(a, c)
  {
    if Less(a, c) {
      LessTotal(b, c);
      LessTotal(a, b);
      if b != c && a != b { LessTrans(c, b, a); LessTotal(a, c); }
    }
  }

  // sort.Slice by a string of each element; elements with equal strings stay in some order.
  method SortBy<T(!new)>(key: T -> string, list: seq<T>) returns (r: seq<T>)
    ensures RisesBy(key, r) && multiset(r) == multiset(list) && forall x :: x in r <==> x in list
    ensures Once(list) ==> Once(r)
  {
    r := [];
    for i := 0 to |list|
      invariant RisesBy(key, r) && multiset(r) == multiset(list[..i]) && forall x :: x in r <==> x in list[..i]
    {
      assert list[..i + 1] == list[..i] + [list[i]];
      InsertByRises(key, list[i], r);
      InsertByBag(key, list[i], r);
      r := InsertBy(key, list[i], r);
    }
    assert list[..|list|] == list;
    if Once(list) { OnceInAnyOrder(list, r); }
  }
}
