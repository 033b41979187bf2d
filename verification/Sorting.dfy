// The stable library sort that the loader (`sort_by_key`) and the median use.
module Sorting {
  type Key<!T> = T -> real

  predicate IsSorted<T>(s: seq<T>, key: Key<T>) {
    forall i, j :: 0 <= i < j < |s| ==> key(s[i]) <= key(s[j])
  }

  // Behind every element of an equal key, so equal keys keep their order.
  function Insert<T>(t: seq<T>, x: T, key: Key<T>): seq<T> {
    if t == [] || key(t[|t| - 1]) <= key(x) then t + [x]
    else Insert(t[..|t| - 1], x, key) + [t[|t| - 1]]
  }

  function Sort<T>(s: seq<T>, key: Key<T>): seq<T> {
    if s == [] then [] else Insert(Sort(s[..|s| - 1], key), s[|s| - 1], key)
  }

  function Select<T>(s: seq<T>, p: T -> bool): seq<T> {
    if s == [] then []
    else Select(s[..|s| - 1], p) + (if p(s[|s| - 1]) then [s[|s| - 1]] else [])
  }

  lemma {:induction false} InsertMembers<T>(t: seq<T>, x: T, key: Key<T>)
    ensures multiset(Insert(t, x, key)) == multiset(t) + multiset{x}
    ensures |Insert(t, x, key)| == |t| + 1
  {
    if t != [] && key(t[|t| - 1]) > key(x) {
      InsertMembers(t[..|t| - 1], x, key);
      assert t == t[..|t| - 1] + [t[|t| - 1]];
    }
  }

  lemma {:induction false} InsertSorted<T>(t: seq<T>, x: T, key: Key<T>)
    requires IsSorted(t, key)
    ensures IsSorted(Insert(t, x, key), key)
  {
    if t != [] && key(t[|t| - 1]) > key(x) {
      var front := t[..|t| - 1];
      InsertSorted(front, x, key);
      InsertMembers(front, x, key);
      var r := Insert(front, x, key);
      forall i | 0 <= i < |r| ensures key(r[i]) <= key(t[|t| - 1]) {
        assert r[i] in multiset(r);
        assert r[i] == x || r[i] in front;
      }
    }
  }

  lemma {:induction false} SortIsSorted<T>(s: seq<T>, key: Key<T>)
    ensures IsSorted(Sort(s, key), key) && |Sort(s, key)| == |s|
    ensures multiset(Sort(s, key)) == multiset(s)
  {
    if s != [] {
      var front := s[..|s| - 1];
      SortIsSorted(front, key);
      InsertSorted(Sort(front, key), s[|s| - 1], key);
      InsertMembers(Sort(front, key), s[|s| - 1], key);
      assert s == front + [s[|s| - 1]];
    }
  }

  lemma SelectAppend<T>(s: seq<T>, x: T, p: T -> bool)
    ensures Select(s + [x], p) == if p(x) then Select(s, p) + [x] else Select(s, p)
  {
    assert (s + [x])[..|s|] == s;
  }

  // When every selected element has one key, insertion appends to the selection.
  lemma {:induction false} InsertStable<T>(t: seq<T>, x: T, key: Key<T>, p: T -> bool)
    requires forall y, z :: p(y) && p(z) ==> key(y) == key(z)
    ensures Select(Insert(t, x, key), p) == Select(t, p) + (if p(x) then [x] else [])
  {
    if t == [] || key(t[|t| - 1]) <= key(x) {
      SelectAppend(t, x, p);
    } else {
      var front, last := t[..|t| - 1], t[|t| - 1];
      InsertStable(front, x, key, p);
      SelectAppend(Insert(front, x, key), last, p);
      assert !(p(x) && p(last));
    }
  }

  // Stability: elements of equal key come out in the order they went in.
  lemma {:induction false} SortIsStable<T>(s: seq<T>, key: Key<T>, p: T -> bool)
    requires forall y, z :: p(y) && p(z) ==> key(y) == key(z)
    ensures Select(Sort(s, key), p) == Select(s, p)
  {
    if s != [] {
      SortIsStable(s[..|s| - 1], key, p);
      InsertStable(Sort(s[..|s| - 1], key), s[|s| - 1], key, p);
    }
  }

  // Sorting never changes how many elements satisfy a condition.
  lemma {:induction false} InsertCounts<T>(t: seq<T>, x: T, key: Key<T>, p: T -> bool)
    ensures |Select(Insert(t, x, key), p)| == |Select(t, p)| + (if p(x) then 1 else 0)
  {
    if t == [] || key(t[|t| - 1]) <= key(x) {
      SelectAppend(t, x, p);
    } else {
      InsertCounts(t[..|t| - 1], x, key, p);
      SelectAppend(Insert(t[..|t| - 1], x, key), t[|t| - 1], p);
    }
  }

  lemma {:induction false} SortCounts<T>(s: seq<T>, key: Key<T>, p: T -> bool)
    ensures |Select(Sort(s, key), p)| == |Select(s, p)|
  {
    if s != [] {
      SortCounts(s[..|s| - 1], key, p);
      InsertCounts(Sort(s[..|s| - 1], key), s[|s| - 1], key, p);
    }
  }

  lemma {:induction false} SelectKeeps<T>(s: seq<T>, p: T -> bool, q: T -> bool)
    requires forall i :: 0 <= i < |s| ==> q(s[i])
    ensures forall i :: 0 <= i < |Select(s, p)| ==> q(Select(s, p)[i]) && p(Select(s, p)[i])
  {
    if s != [] {
      SelectKeeps(s[..|s| - 1], p, q);
    }
  }

  lemma {:induction false} SelectSorted<T>(s: seq<T>, p: T -> bool, key: Key<T>)
    requires IsSorted(s, key)
    ensures IsSorted(Select(s, p), key)
  {
    if s != [] {
      var front, last := s[..|s| - 1], s[|s| - 1];
      SelectSorted(front, p, key);
      SelectKeeps(front, p, (x: T) => key(x) <= key(last));
    }
  }

  lemma {:induction false} SelectsCommute<T>(s: seq<T>, p: T -> bool, q: T -> bool)
    ensures Select(Select(s, p), q) == Select(Select(s, q), p)
  {
    if s != [] {
      var front, last := s[..|s| - 1], s[|s| - 1];
      assert s == front + [last];
      SelectsCommute(front, p, q);
      SelectAppend(front, last, p);
      SelectAppend(front, last, q);
      SelectAppend(Select(front, p), last, q);
      SelectAppend(Select(front, q), last, p);
    }
  }

  // An element below the last goes in front of it.
  lemma InsertBefore<T>(t: seq<T>, last: T, x: T, key: Key<T>)
    requires key(last) > key(x)
    ensures Insert(t + [last], x, key) == Insert(t, x, key) + [last]
  {
    assert (t + [last])[..|t|] == t;
  }

  lemma InsertBehind<T>(t: seq<T>, x: T, key: Key<T>)
    requires t == [] || key(t[|t| - 1]) <= key(x)
    ensures Insert(t, x, key) == t + [x]
  {
  }

  lemma {:induction false} InsertThenSelect<T>(t: seq<T>, x: T, key: Key<T>, p: T -> bool)
    requires IsSorted(t, key)
    ensures Select(Insert(t, x, key), p) == if p(x) then Insert(Select(t, p), x, key) else Select(t, p)
  {
    if t == [] || key(t[|t| - 1]) <= key(x) {
      SelectAppend(t, x, p);
      SelectKeeps(t, p, (y: T) => key(y) <= key(x));
      InsertBehind(t, x, key);
      InsertBehind(Select(t, p), x, key);
    } else {
      var front, last := t[..|t| - 1], t[|t| - 1];
      assert t == front + [last];
      InsertThenSelect(front, x, key, p);
      InsertBefore(front, last, x, key);
      InsertBefore(Select(front, p), last, x, key);
      SelectAppend(front, last, p);
      SelectAppend(Insert(front, x, key), last, p);
      hide Select, Insert;
    }
  }

  lemma SortOneMore<T>(s: seq<T>, x: T, key: Key<T>)
    ensures Sort(s + [x], key) == Insert(Sort(s, key), x, key)
  {
    assert (s + [x])[..|s|] == s;
  }

  // Sorting a part gives the part of the sorted whole.
  lemma {:induction false} SortThenSelect<T>(s: seq<T>, key: Key<T>, p: T -> bool)
    ensures Select(Sort(s, key), p) == Sort(Select(s, p), key)
  {
    if s != [] {
      var front, last := s[..|s| - 1], s[|s| - 1];
      assert s == front + [last];
      SortThenSelect(front, key, p);
      SortIsSorted(front, key);
      InsertThenSelect(Sort(front, key), last, key, p);
      SelectAppend(front, last, p);
      SortOneMore(front, last, key);
      SortOneMore(Select(front, p), last, key);
      hide Select, Insert;
    }
  }

  lemma {:induction false} SelectPart<T>(s: seq<T>, p: T -> bool, lo: nat, hi: nat)
    requires lo <= hi <= |s| && forall i :: lo <= i < hi ==> p(s[i])
    ensures |Select(s, p)| >= hi - lo
  {
    if s != [] {
      if hi == |s| && lo < hi {
        SelectPart(s[..|s| - 1], p, lo, hi - 1);
      } else if hi < |s| {
        SelectPart(s[..|s| - 1], p, lo, hi);
      }
    }
  }
}
