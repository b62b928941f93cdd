/**
 * Python's `list.sort(key=...)`, which is stable: elements are put in
 * ascending key order, and elements with equal keys keep their relative
 * order.  The order is given as `le(a, b)`, "the key of `a` is not greater
 * than the key of `b`", which must be a total preorder.
 */
module Sorting {

  ghost predicate TotalPreorder<T(!new)>(le: (T, T) -> bool) {
    && (forall a, b :: le(a, b) || le(b, a))
    && (forall a, b, c :: le(a, b) && le(b, c) ==> le(a, c))
  }

  ghost predicate SortedBy<T>(s: seq<T>, le: (T, T) -> bool) {
    forall i, j :: 0 <= i < j < |s| ==> le(s[i], s[j])
  }

  /** `x` placed after every element whose key is not greater than its own. */
  function Insert<T>(x: T, s: seq<T>, le: (T, T) -> bool): (r: seq<T>)
    ensures |r| == |s| + 1
    decreases |s|
  {
    if s == [] then [x]
    else if !le(s[0], x) then [x] + s
    else [s[0]] + Insert(x, s[1..], le)
  }

  /** The stable sort, as insertion of each element in turn. */
  function SortBy<T>(s: seq<T>, le: (T, T) -> bool): (r: seq<T>)
    ensures |r| == |s|
    decreases |s|
  {
    if s == [] then [] else Insert(s[|s| - 1], SortBy(s[..|s| - 1], le), le)
  }

  // ------------------------------------------------------------- sortedness

  lemma {:induction false} InsertElements<T>(x: T, s: seq<T>, le: (T, T) -> bool)
    ensures multiset(Insert(x, s, le)) == multiset(s) + multiset{x}
    ensures forall e :: e in Insert(x, s, le) ==> e == x || e in s
    decreases |s|
  {
    if s != [] && le(s[0], x) {
      InsertElements(x, s[1..], le);
      assert s == [s[0]] + s[1..];
    }
  }

  lemma {:induction false} InsertSorted<T(!new)>(x: T, s: seq<T>, le: (T, T) -> bool)
    requires TotalPreorder(le) && SortedBy(s, le)
    ensures SortedBy(Insert(x, s, le), le)
    decreases |s|
  {
    if s == [] {
    } else if !le(s[0], x) {
      var r := [x] + s;
      assert le(x, s[0]);
      forall i, j | 0 <= i < j < |r| ensures le(r[i], r[j]) {
        if i == 0 {
          if j > 1 {
            assert le(s[0], s[j - 1]);
          }
        } else {
          assert r[i] == s[i - 1] && r[j] == s[j - 1];
        }
      }
    } else {
      assert SortedBy(s[1..], le);
      InsertSorted(x, s[1..], le);
      InsertElements(x, s[1..], le);
      var t := Insert(x, s[1..], le);
      assert forall e :: e in s[1..] ==> le(s[0], e);
      HeadSorted(s[0], t, le);
    }
  }

  lemma HeadSorted<T>(h: T, t: seq<T>, le: (T, T) -> bool)
    requires SortedBy(t, le) && forall e :: e in t ==> le(h, e)
    ensures SortedBy([h] + t, le)
  {
    var r := [h] + t;
    forall i, j | 0 <= i < j < |r| ensures le(r[i], r[j]) {
      if i == 0 {
        assert r[j] == t[j - 1] && t[j - 1] in t;
      } else {
        assert r[i] == t[i - 1] && r[j] == t[j - 1];
      }
    }
  }

  /** The sort puts keys in ascending order and is a permutation of its input. */
  lemma {:induction false} SortBySorts<T(!new)>(s: seq<T>, le: (T, T) -> bool)
    requires TotalPreorder(le)
    ensures SortedBy(SortBy(s, le), le)
    ensures multiset(SortBy(s, le)) == multiset(s)
    decreases |s|
  {
    if s != [] {
      var init := s[..|s| - 1];
      SortBySorts(init, le);
      InsertSorted(s[|s| - 1], SortBy(init, le), le);
      InsertElements(s[|s| - 1], SortBy(init, le), le);
      assert s == init + [s[|s| - 1]];
    }
  }

  // -------------------------------------------------------------- stability

  /** The elements whose key equals that of `y`, in their order in `s`. */
  function SameKey<T>(s: seq<T>, y: T, le: (T, T) -> bool): seq<T>
    decreases |s|
  {
    if s == [] then []
    else (if le(s[0], y) && le(y, s[0]) then [s[0]] else []) + SameKey(s[1..], y, le)
  }

  lemma {:induction false} SameKeyAppend<T>(s: seq<T>, x: T, y: T, le: (T, T) -> bool)
    ensures SameKey(s + [x], y, le) == SameKey(s, y, le) + SameKey([x], y, le)
    decreases |s|
  {
    if s != [] {
      assert (s + [x])[1..] == s[1..] + [x];
      SameKeyAppend(s[1..], x, y, le);
    }
  }

  lemma {:induction false} SameKeyInsert<T(!new)>(x: T, s: seq<T>, y: T, le: (T, T) -> bool)
    requires TotalPreorder(le) && SortedBy(s, le)
    ensures SameKey(Insert(x, s, le), y, le) == SameKey(s, y, le) + SameKey([x], y, le)
    decreases |s|
  {
    if s == [] {
    } else if !le(s[0], x) {
      assert ([x] + s)[1..] == s;
      if le(x, y) && le(y, x) {
        NoneAbove(s, x, y, le);
      }
    } else {
      assert SortedBy(s[1..], le);
      SameKeyInsert(x, s[1..], y, le);
      assert ([s[0]] + Insert(x, s[1..], le))[1..] == Insert(x, s[1..], le);
    }
  }

  /** When `x` precedes all of sorted `s` and `y` has `x`'s key, nothing in `s` has `y`'s key. */
  lemma {:induction false} NoneAbove<T(!new)>(s: seq<T>, x: T, y: T, le: (T, T) -> bool)
    requires TotalPreorder(le) && SortedBy(s, le)
    requires s != [] && !le(s[0], x) && le(x, y) && le(y, x)
    ensures SameKey(s, y, le) == []
    decreases |s|
  {
    if |s| > 1 {
      assert le(s[0], s[1]);
      assert SortedBy(s[1..], le);
      NoneAbove(s[1..], x, y, le);
    }
  }

  /** Elements with equal keys come out in the order they went in. */
  lemma {:induction false} SortByStable<T(!new)>(s: seq<T>, y: T, le: (T, T) -> bool)
    requires TotalPreorder(le)
    ensures SameKey(SortBy(s, le), y, le) == SameKey(s, y, le)
    decreases |s|
  {
    if s != [] {
      var init := s[..|s| - 1];
      var x := s[|s| - 1];
      SortByStable(init, y, le);
      SortBySorts(init, le);
      SameKeyInsert(x, SortBy(init, le), y, le);
      assert s == init + [x];
      SameKeyAppend(init, x, y, le);
    }
  }
}
