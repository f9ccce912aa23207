/**
 * Ordering helpers shared by the database queries: a stable insertion sort
 * driven by a strict order (Python's `list.sort` and SQL `ORDER BY`),
 * Python slicing with its negative-index rules, and SQLite's BINARY text order.
 */
module Lists {

  /** `before` is irreflexive and transitive (a strict partial order). */
  ghost predicate StrictOrder<T(!new)>(before: (T, T) -> bool) {
    && (forall a :: !before(a, a))
    && (forall a, b, c :: before(a, b) && before(b, c) ==> before(a, c))
  }

  /** No element has to come before an element placed earlier. */
  predicate Sorted<T>(s: seq<T>, before: (T, T) -> bool) {
    forall i, j :: 0 <= i < j < |s| ==> !before(s[j], s[i])
  }

  /** Inserts `x` after every element it does not have to precede (so equal keys keep their order). */
  function Insert<T>(x: T, s: seq<T>, before: (T, T) -> bool): (r: seq<T>)
    ensures |r| == |s| + 1
    ensures multiset(r) == multiset(s) + multiset{x}
  {
    if s == [] then [x]
    else if before(x, s[0]) then [x] + s
    else
      var rest := Insert(x, s[1..], before);
      assert s == [s[0]] + s[1..];
      [s[0]] + rest
  }

  lemma {:induction false} InsertSorted<T(!new)>(x: T, s: seq<T>, before: (T, T) -> bool)
    requires StrictOrder(before) && Sorted(s, before)
    ensures Sorted(Insert(x, s, before), before)
  {
    var r := Insert(x, s, before);
    if s == [] {
    } else if before(x, s[0]) {
      forall i, j | 0 <= i < j < |r| ensures !before(r[j], r[i]) {
        assert r[j] == s[j - 1];
        if i > 0 {
          assert r[i] == s[i - 1];
        } else if j > 1 {
          assert !before(s[j - 1], s[0]);
        }
      }
    } else {
      InsertSorted(x, s[1..], before);
      var rest := Insert(x, s[1..], before);
      assert r == [s[0]] + rest;
      forall j | 0 <= j < |rest| ensures !before(rest[j], s[0]) {
        assert rest[j] in multiset(rest);
        assert rest[j] == x || rest[j] in multiset(s[1..]);
        if rest[j] != x {
          var k :| 0 <= k < |s[1..]| && s[1..][k] == rest[j];
          assert s[k + 1] == rest[j];
        }
      }
    }
  }

  /** Stable insertion sort: a permutation of `s` in `before` order. */
  function Sort<T>(s: seq<T>, before: (T, T) -> bool): (r: seq<T>)
    ensures |r| == |s|
    ensures multiset(r) == multiset(s)
  {
    if s == [] then []
    else
      var init := s[..|s| - 1];
      assert s == init + [s[|s| - 1]];
      Insert(s[|s| - 1], Sort(init, before), before)
  }

  lemma {:induction false} SortSorted<T(!new)>(s: seq<T>, before: (T, T) -> bool)
    requires StrictOrder(before)
    ensures Sorted(Sort(s, before), before)
  {
    if s != [] {
      SortSorted(s[..|s| - 1], before);
      InsertSorted(s[|s| - 1], Sort(s[..|s| - 1], before), before);
    }
  }

  /** Python's index normalisation for a slice bound: negative counts from the end, then clamp. */
  function SliceBound(i: int, len: nat): (b: nat)
    ensures b <= len
  {
    var j := if i < 0 then i + len else i;
    if j < 0 then 0 else if j > len then len else j
  }

  /** Python's `s[start:stop]`. */
  function PySlice<T>(s: seq<T>, start: int, stop: int): seq<T> {
    var a := SliceBound(start, |s|);
    var b := SliceBound(stop, |s|);
    if a < b then s[a..b] else []
  }

  /** `s[offset:offset + limit]` never holds more than `limit` elements, whatever the sign of `offset`. */
  lemma PageLength<T>(s: seq<T>, offset: int, limit: int)
    ensures limit >= 0 ==> |PySlice(s, offset, offset + limit)| <= limit
  {
  }

  /** A slice takes elements of the list and nothing else. */
  lemma SliceMultiset<T>(s: seq<T>, start: int, stop: int)
    ensures multiset(PySlice(s, start, stop)) <= multiset(s)
  {
    var a := SliceBound(start, |s|);
    var b := SliceBound(stop, |s|);
    if a < b {
      assert s == s[..a] + s[a..b] + s[b..];
      assert multiset(s) == multiset(s[..a]) + multiset(s[a..b]) + multiset(s[b..]);
    }
  }

  /** A list holding each member of a set exactly once has the set's members. */
  lemma ListsSet<T>(s: seq<T>, S: set<T>)
    requires multiset(s) == multiset(S)
    ensures forall x :: x in s <==> x in S
  {
    forall x ensures x in s <==> x in S {
      assert x in s <==> x in multiset(s);
    }
  }

  /** A page starting at 0 keeps the first `min(limit, |s|)` elements. */
  lemma FirstPage<T>(s: seq<T>, limit: int)
    requires limit >= 0
    ensures PySlice(s, 0, limit) == s[..if limit < |s| then limit else |s|]
  {
  }

  /** A slice of a sorted list is sorted. */
  lemma SliceSorted<T>(s: seq<T>, start: int, stop: int, before: (T, T) -> bool)
    requires Sorted(s, before)
    ensures Sorted(PySlice(s, start, stop), before)
  {
    var a := SliceBound(start, |s|);
    var b := SliceBound(stop, |s|);
    if a < b {
      var r := s[a..b];
      forall i, j | 0 <= i < j < |r| ensures !before(r[j], r[i]) {
        assert r[i] == s[a + i] && r[j] == s[a + j];
      }
    }
  }

  // ---------------------------------------------------------------- text order

  /** SQLite's BINARY collation on text: code-point lexicographic order, a proper prefix first. */
  predicate TextLess(a: string, b: string) {
    if a == [] then b != []
    else if b == [] then false
    else if a[0] != b[0] then a[0] < b[0]
    else TextLess(a[1..], b[1..])
  }

  lemma {:induction false} TextLessIrreflexive(a: string)
    ensures !TextLess(a, a)
  {
    if a != [] {
      TextLessIrreflexive(a[1..]);
    }
  }

  lemma {:induction false} TextLessTransitive(a: string, b: string, c: string)
    requires TextLess(a, b) && TextLess(b, c)
    ensures TextLess(a, c)
  {
    if a != [] && b != [] && c != [] && a[0] == b[0] && b[0] == c[0] {
      TextLessTransitive(a[1..], b[1..], c[1..]);
    }
  }
}
