/**
 * Python's `list.sort(key=..., reverse=...)` over the key kinds the
 * sources use: numbers (cpu, memory, pid, timestamps) and text (names,
 * symbols, compared code point by code point as Python compares `str`).
 */
module Sorting {

  datatype SortKey = Num(n: real) | Text(t: string)

  /** Python's `a < b` on `str`: lexicographic by code point. */
  predicate TextLess(a: string, b: string)
  {
    if a == [] then b != []
    else if b == [] then false
    else if a[0] != b[0] then a[0] < b[0]
    else TextLess(a[1..], b[1..])
  }

  predicate KeyLess(a: SortKey, b: SortKey)
  {
    match (a, b)
    case (Num(x), Num(y)) => x < y
    case (Text(x), Text(y)) => TextLess(x, y)
    case (Num(_), Text(_)) => true
    case (Text(_), Num(_)) => false
  }

  lemma {:induction false} TextLessIrreflexive(a: string)
    ensures !TextLess(a, a)
  {
    if a != [] { TextLessIrreflexive(a[1..]); }
  }

  lemma {:induction false} TextLessTransitive(a: string, b: string, c: string)
    requires TextLess(a, b) && TextLess(b, c)
    ensures TextLess(a, c)
  {
    if a != [] && b != [] && c != [] && a[0] == b[0] == c[0] {
      TextLessTransitive(a[1..], b[1..], c[1..]);
    }
  }

  lemma KeyLessIrreflexive(a: SortKey)
    ensures !KeyLess(a, a)
  {
    if a.Text? { TextLessIrreflexive(a.t); }
  }

  lemma KeyLessTransitive(a: SortKey, b: SortKey, c: SortKey)
    requires KeyLess(a, b) && KeyLess(b, c)
    ensures KeyLess(a, c)
  {
    if a.Text? && b.Text? && c.Text? { TextLessTransitive(a.t, b.t, c.t); }
  }

  /** `x` must be placed strictly before `y`. */
  predicate Before<T>(key: T -> SortKey, desc: bool, x: T, y: T)
  {
    if desc then KeyLess(key(y), key(x)) else KeyLess(key(x), key(y))
  }

  /** No element is strictly before one that precedes it. */
  predicate SortedBy<T>(s: seq<T>, key: T -> SortKey, desc: bool)
  {
    forall i, j :: 0 <= i < j < |s| ==> !Before(key, desc, s[j], s[i])
  }

  function Insert<T>(x: T, s: seq<T>, key: T -> SortKey, desc: bool): (r: seq<T>)
    requires SortedBy(s, key, desc)
    ensures SortedBy(r, key, desc)
    ensures multiset(r) == multiset(s) + multiset{x}
    ensures |r| == |s| + 1
  {
    if s == [] then [x]
    else if Before(key, desc, x, s[0]) then
      InsertFront(x, s, key, desc);
      [x] + s
    else
      var rest := Insert(x, s[1..], key, desc);
      assert s == [s[0]] + s[1..];
      InsertBehind(x, s[0], rest, s[1..], key, desc);
      [s[0]] + rest
  }

  lemma InsertFront<T>(x: T, s: seq<T>, key: T -> SortKey, desc: bool)
    requires s != [] && SortedBy(s, key, desc) && Before(key, desc, x, s[0])
    ensures SortedBy([x] + s, key, desc)
  {
    var r := [x] + s;
    forall i, j | 0 <= i < j < |r| ensures !Before(key, desc, r[j], r[i]) {
      if i == 0 {
        if Before(key, desc, r[j], x) {
          if desc {
            KeyLessTransitive(key(s[0]), key(x), key(r[j]));
          } else {
            KeyLessTransitive(key(r[j]), key(x), key(s[0]));
          }
          if j == 1 { KeyLessIrreflexive(key(s[0])); }
          assert false;
        }
      }
    }
  }

  lemma InsertBehind<T>(x: T, h: T, rest: seq<T>, tail: seq<T>, key: T -> SortKey, desc: bool)
    requires SortedBy(rest, key, desc) && SortedBy([h] + tail, key, desc)
    requires multiset(rest) == multiset(tail) + multiset{x}
    requires !Before(key, desc, x, h)
    ensures SortedBy([h] + rest, key, desc)
  {
    var r := [h] + rest;
    forall i, j | 0 <= i < j < |r| ensures !Before(key, desc, r[j], r[i]) {
      if i == 0 {
        var y := r[j];
        assert y in multiset(rest);
        if y != x {
          assert y in multiset(tail);
          var k :| 0 <= k < |tail| && tail[k] == y;
          assert ([h] + tail)[k + 1] == y && ([h] + tail)[0] == h;
        }
      } else {
        assert r[i] == rest[i - 1] && r[j] == rest[j - 1];
      }
    }
  }

  /** Stable insertion sort: each element is inserted after everything it
      does not strictly precede. */
  function SortBy<T>(s: seq<T>, key: T -> SortKey, desc: bool): (r: seq<T>)
    ensures SortedBy(r, key, desc)
    ensures multiset(r) == multiset(s)
    ensures |r| == |s|
  {
    if s == [] then []
    else
      assert s == s[..|s| - 1] + [s[|s| - 1]];
      Insert(s[|s| - 1], SortBy(s[..|s| - 1], key, desc), key, desc)
  }

  /** The first `n` elements of the sorted list: elements of the input, in
      order, and all of the input when it has no more than `n`. */
  lemma SortedPrefix<T>(s: seq<T>, key: T -> SortKey, desc: bool, n: nat)
    ensures var r := SortBy(s, key, desc)[..if n <= |s| then n else |s|];
      (forall x :: x in r ==> x in s) &&
      (forall j, k :: 0 <= j < k < |r| ==> !Before(key, desc, r[k], r[j])) &&
      (n >= |s| ==> multiset(r) == multiset(s))
  {
    var sorted := SortBy(s, key, desc);
    var r := sorted[..if n <= |s| then n else |s|];
    forall x | x in r ensures x in s {
      assert x in multiset(sorted);
    }
    forall j, k | 0 <= j < k < |r| ensures !Before(key, desc, r[k], r[j]) {
      assert r[k] == sorted[k] && r[j] == sorted[j];
    }
    if n >= |s| {
      assert r == sorted;
    }
  }

  /** Cutting the sorted list after `n` elements leaves out nothing that
      must be placed before an element it keeps. */
  lemma SortedCutoff<T>(s: seq<T>, key: T -> SortKey, desc: bool, n: nat)
    ensures var r := SortBy(s, key, desc)[..if n <= |s| then n else |s|];
      forall p, q :: p in s && p !in r && q in r ==> !Before(key, desc, p, q)
  {
    var sorted := SortBy(s, key, desc);
    var r := sorted[..if n <= |s| then n else |s|];
    forall p, q | p in s && p !in r && q in r
      ensures !Before(key, desc, p, q)
    {
      assert p in multiset(sorted);
      var j :| 0 <= j < |sorted| && sorted[j] == p;
      var i :| 0 <= i < |r| && r[i] == q;
      assert sorted[i] == q;
      assert j >= |r| by {
        assert forall k :: 0 <= k < |r| ==> r[k] == sorted[k];
      }
    }
  }

  /** Sorting keeps exactly the elements of the input. */
  lemma SortedMembers<T>(s: seq<T>, key: T -> SortKey, desc: bool)
    ensures forall x :: x in SortBy(s, key, desc) <==> x in s
  {
    var sorted := SortBy(s, key, desc);
    forall x
      ensures x in sorted <==> x in s
    {
      assert x in sorted <==> x in multiset(sorted);
      assert x in s <==> x in multiset(s);
    }
  }
}
