/**
 * Shared vocabulary: optional values, results with an HTTP-style error
 * code, and the few Python built-ins whose exact behaviour the rest of the
 * model depends on (slicing, floor division, ASCII case mapping, strip,
 * substring search).
 */
module Common {

  datatype Option<T> = None | Some(value: T)

  /** The list of the value, if there is one. */
  function AsList<T>(o: Option<T>): seq<T>
  {
    if o.Some? then [o.value] else []
  }

  /** The supplied value, or `current` when nothing was supplied. */
  function Pick<T>(supplied: Option<T>, current: T): T
  {
    if supplied.Some? then supplied.value else current
  }

  /** A route result: a value, or an HTTP status code with a message. */
  datatype Result<T> = Ok(value: T) | Err(status: int, message: string)

  // ---------------------------------------------------------------------
  // Python slicing
  // ---------------------------------------------------------------------

  /** How Python normalises one slice bound against a length `n`. */
  function SliceBound(i: int, n: nat): (r: nat)
    ensures r <= n
    ensures 0 <= i <= n ==> r == i
    ensures i > n ==> r == n
    ensures i < 0 && -i <= n ==> r == n + i
    ensures i < 0 && -i > n ==> r == 0
  {
    if i < 0 then (if i + n < 0 then 0 else i + n)
    else if i > n then n
    else i
  }

  /** `s[start:stop]` with Python's clamping and negative-index rules. */
  function PySlice<T>(s: seq<T>, start: int, stop: int): (r: seq<T>)
    ensures |r| <= |s|
    ensures SliceBound(start, |s|) + |r| <= |s|
    ensures forall k :: 0 <= k < |r| ==> r[k] == s[SliceBound(start, |s|) + k]
  {
    var a := SliceBound(start, |s|);
    var b := SliceBound(stop, |s|);
    if a <= b then s[a..b] else []
  }

  /** `s[:n]` */
  function Take<T>(s: seq<T>, n: int): (r: seq<T>)
    ensures n >= 0 ==> r == s[..if n <= |s| then n else |s|]
    ensures n < 0 ==> r == s[..if -n <= |s| then |s| + n else 0]
  {
    PySlice(s, 0, n)
  }

  /** `s[-n:]`; note that `n == 0` gives the whole list, as `s[-0:]` is `s[0:]`. */
  function LastN<T>(s: seq<T>, n: int): (r: seq<T>)
    ensures n > 0 ==> r == s[|s| - (if n <= |s| then n else |s|)..]
    ensures n == 0 ==> r == s
  {
    PySlice(s, -n, |s|)
  }

  /** `s[-n:]` is a suffix of `s`, of `n` elements when `s` has that
      many. */
  lemma LastNFacts<T>(s: seq<T>, n: int)
    ensures var r := LastN(s, n);
      |r| <= |s| && r == s[|s| - |r|..] &&
      (n > 0 ==> |r| == (if n <= |s| then n else |s|)) &&
      (n == 0 ==> r == s)
  {
  }

  /** The same facts in terms of `Min`, with the elements of the suffix
      drawn from `s`. */
  lemma LastNShape<T>(s: seq<T>, n: int)
    ensures var r := LastN(s, n);
      |r| <= |s| && r == s[|s| - |r|..] &&
      (n > 0 ==> |r| <= n && |r| == Min(n, |s|)) &&
      (n == 0 ==> r == s) &&
      (forall x :: x in r ==> x in s)
  {
    LastNFacts(s, n);
    var r := LastN(s, n);
    SuffixMembers(s, |s| - |r|);
  }

  lemma SuffixMembers<T>(s: seq<T>, k: nat)
    requires k <= |s|
    ensures forall x :: x in s[k..] ==> x in s
  {
    forall x | x in s[k..] ensures x in s {
      var j :| 0 <= j < |s[k..]| && s[k..][j] == x;
      assert s[k + j] == x;
    }
  }

  /** A prefix one longer is the shorter prefix and the next element. */
  lemma PrefixSnoc<T>(s: seq<T>, k: int)
    requires 0 <= k < |s|
    ensures s[..k + 1] == s[..k] + [s[k]]
  {
  }

  lemma PySliceOfNonNegative<T>(s: seq<T>, start: int, size: int)
    requires 0 <= start && 0 <= size
    ensures var r := PySlice(s, start, start + size);
      |r| <= size &&
      (start + size <= |s| ==> r == s[start..start + size]) &&
      (start <= |s| < start + size ==> r == s[start..]) &&
      (start > |s| ==> r == [])
  {
  }

  // ---------------------------------------------------------------------
  // Arithmetic
  // ---------------------------------------------------------------------

  /** Python's `a // b`: the floor of the exact quotient. */
  function FloorDiv(a: int, b: int): (q: int)
    requires b != 0
    ensures b > 0 ==> b * q <= a < b * q + b
    ensures b < 0 ==> b * q >= a > b * q + b
  {
    if b > 0 then a / b else (-a) / (-b)
  }

  /** The ceiling of `total / size` for a positive size, written as the
      sources write it: `(total + size - 1) // size`. */
  function CeilDiv(total: int, size: int): (q: int)
    requires size > 0
    ensures size * (q - 1) < total <= size * q
  {
    FloorDiv(total + size - 1, size)
  }

  function Max(a: int, b: int): int { if a >= b then a else b }
  function Min(a: int, b: int): int { if a <= b then a else b }
  function MaxR(a: real, b: real): real { if a >= b then a else b }
  function MinR(a: real, b: real): real { if a <= b then a else b }
  function AbsR(a: real): real { if a < 0.0 then -a else a }

  // ---------------------------------------------------------------------
  // Strings (ASCII case mapping; Python's str methods on ASCII text)
  // ---------------------------------------------------------------------

  function LowerChar(c: char): char
  {
    if 'A' <= c <= 'Z' then (c as int + 32) as char else c
  }

  function UpperChar(c: char): char
  {
    if 'a' <= c <= 'z' then (c as int - 32) as char else c
  }

  function Lower(s: string): (r: string)
    ensures |r| == |s|
    ensures forall i :: 0 <= i < |s| ==> r[i] == LowerChar(s[i])
  {
    if s == [] then [] else [LowerChar(s[0])] + Lower(s[1..])
  }

  function Upper(s: string): (r: string)
    ensures |r| == |s|
    ensures forall i :: 0 <= i < |s| ==> r[i] == UpperChar(s[i])
  {
    if s == [] then [] else [UpperChar(s[0])] + Upper(s[1..])
  }

  /** No element occurs twice. */
  predicate Distinct<T(==)>(s: seq<T>)
  {
    forall i, j :: 0 <= i < j < |s| ==> s[i] != s[j]
  }

  /** Python's `str.isspace` on one character, which is also what `\s`
      matches in a text pattern: the ASCII controls tab to carriage return
      and the four separators after them, space, next line, no-break
      space, and the Unicode space and line separators. */
  predicate IsSpace(c: char)
  {
    ('\t' <= c <= '\r') || ('\U{001C}' <= c <= '\U{001F}') || c == ' ' || c == '\U{0085}' || c == '\U{00A0}' ||
    c == '\U{1680}' || ('\U{2000}' <= c <= '\U{200A}') || c == '\U{2028}' || c == '\U{2029}' ||
    c == '\U{202F}' || c == '\U{205F}' || c == '\U{3000}'
  }

  function StripLeft(s: string): (r: string)
    ensures |r| <= |s|
    ensures r == [] || !IsSpace(r[0])
    ensures forall i :: 0 <= i < |s| - |r| ==> IsSpace(s[i])
  {
    if s != [] && IsSpace(s[0]) then StripLeft(s[1..]) else s
  }

  function StripRight(s: string): (r: string)
    ensures |r| <= |s|
    ensures r == [] || !IsSpace(r[|r| - 1])
    ensures forall i :: |r| <= i < |s| ==> IsSpace(s[i])
  {
    if s != [] && IsSpace(s[|s| - 1]) then StripRight(s[..|s| - 1]) else s
  }

  /** Stripping on the left keeps a suffix. */
  lemma {:induction false} StripLeftSuffix(s: string)
    ensures StripLeft(s) == s[|s| - |StripLeft(s)|..]
  {
    if s != [] && IsSpace(s[0]) {
      StripLeftSuffix(s[1..]);
    }
  }

  /** Stripping on the right keeps a prefix. */
  lemma {:induction false} StripRightPrefix(s: string)
    ensures StripRight(s) == s[..|StripRight(s)|]
  {
    if s != [] && IsSpace(s[|s| - 1]) {
      StripRightPrefix(s[..|s| - 1]);
    }
  }

  /** Python's `s.strip()`, which removes `str.isspace` characters from both ends. */
  function Strip(s: string): string
  {
    StripRight(StripLeft(s))
  }

  /** `s.strip()` is empty exactly when every character is whitespace. */
  lemma StripEmptyIffBlank(s: string)
    ensures Strip(s) == [] <==> forall i :: 0 <= i < |s| ==> IsSpace(s[i])
  {
    StripLeftSuffix(s);
  }

  /** Text with no space at either end strips to itself. */
  lemma StripOfUnspaced(t: string)
    requires t != [] && !IsSpace(t[0]) && !IsSpace(t[|t| - 1])
    ensures Strip(t) == t
  {
  }

  /** Python's `s.split(sep)` for a one-character separator: the pieces
      between separators, at least one (the empty string splits to `[""]`). */
  function Split(s: string, sep: char): (r: seq<string>)
    ensures |r| >= 1
    ensures forall i :: 0 <= i < |r| ==> sep !in r[i]
  {
    if s == [] then [""]
    else
      var rest := Split(s[1..], sep);
      if s[0] == sep then [""] + rest
      else
        assert forall i :: 1 <= i < |rest| ==> rest[1..][i - 1] == rest[i];
        [[s[0]] + rest[0]] + rest[1..]
  }

  /** Python's `sep.join(parts)`. */
  function Join(parts: seq<string>, sep: char): string
    requires |parts| >= 1
  {
    if |parts| == 1 then parts[0] else parts[0] + [sep] + Join(parts[1..], sep)
  }

  /** Joining the pieces with the separator gives back the string. */
  lemma {:induction false} JoinSplit(s: string, sep: char)
    ensures Join(Split(s, sep), sep) == s
  {
    if s != [] {
      JoinSplit(s[1..], sep);
      var rest := Split(s[1..], sep);
      if s[0] != sep {
        if |rest| == 1 {
          assert s == [s[0]] + s[1..];
        } else {
          assert Join([[s[0]] + rest[0]] + rest[1..], sep) == [s[0]] + rest[0] + [sep] + Join(rest[1..], sep);
          assert s == [s[0]] + s[1..];
        }
      } else {
        assert s == [sep] + s[1..];
      }
    }
  }

  predicate StartsWith(s: string, prefix: string)
  {
    |prefix| <= |s| && s[..|prefix|] == prefix
  }

  /** Python's `sub in s`. */
  predicate Contains(s: string, sub: string)
  {
    exists i :: 0 <= i <= |s| - |sub| && OccursAt(s, sub, i)
  }

  predicate OccursAt(s: string, sub: string, i: int)
  {
    0 <= i <= |s| - |sub| && s[i..i + |sub|] == sub
  }

  /** Python's `any(x in s for x in subs)`. */
  predicate ContainsAny(s: string, subs: seq<string>)
  {
    exists k :: 0 <= k < |subs| && Contains(s, subs[k])
  }

  function Count<T>(s: seq<T>, p: T -> bool): (n: nat)
    ensures n <= |s|
  {
    if s == [] then 0 else (if p(s[0]) then 1 else 0) + Count(s[1..], p)
  }

  function Filter<T>(s: seq<T>, p: T -> bool): (r: seq<T>)
    ensures |r| == Count(s, p)
    ensures forall k :: 0 <= k < |r| ==> p(r[k])
  {
    if s == [] then [] else (if p(s[0]) then [s[0]] else []) + Filter(s[1..], p)
  }

  /** The elements kept are exactly the elements that satisfy the
      predicate. */
  lemma {:induction false} FilterMembers<T>(s: seq<T>, p: T -> bool)
    ensures forall x :: x in Filter(s, p) <==> x in s && p(x)
  {
    if s != [] {
      FilterMembers(s[1..], p);
      assert s == [s[0]] + s[1..];
    }
  }

  /** Nothing is kept when no element satisfies the predicate. */
  lemma {:induction false} FilterNone<T>(s: seq<T>, p: T -> bool)
    requires forall i :: 0 <= i < |s| ==> !p(s[i])
    ensures Filter(s, p) == []
  {
    if s != [] {
      assert forall i :: 0 <= i < |s[1..]| ==> s[1..][i] == s[i + 1];
      FilterNone(s[1..], p);
    }
  }

  /** Filtering a list extended by one element. */
  lemma {:induction false} FilterSnoc<T>(s: seq<T>, x: T, p: T -> bool)
    ensures Filter(s + [x], p) == Filter(s, p) + (if p(x) then [x] else [])
  {
    if s != [] {
      assert (s + [x])[1..] == s[1..] + [x];
      FilterSnoc(s[1..], x, p);
    } else {
      assert [x][1..] == [];
    }
  }

  /** Filtering a concatenation filters each part. */
  lemma {:induction false} FilterAppend<T>(a: seq<T>, b: seq<T>, p: T -> bool)
    ensures Filter(a + b, p) == Filter(a, p) + Filter(b, p)
  {
    if a == [] {
      assert a + b == b;
    } else {
      assert (a + b)[1..] == a[1..] + b;
      FilterAppend(a[1..], b, p);
    }
  }

  /** The values `f` gives, in order, for the elements it gives one for. */
  function FilterMap<T, U>(s: seq<T>, f: T -> Option<U>): (r: seq<U>)
    ensures |r| <= |s|
  {
    if s == [] then []
    else
      match f(s[|s| - 1])
      case Some(y) => FilterMap(s[..|s| - 1], f) + [y]
      case None => FilterMap(s[..|s| - 1], f)
  }

  /** `FilterMap` over a list extended by one element. */
  lemma FilterMapSnoc<T, U>(s: seq<T>, x: T, f: T -> Option<U>)
    ensures FilterMap(s + [x], f) == FilterMap(s, f) + (if f(x).Some? then [f(x).value] else [])
  {
    assert (s + [x])[..|s|] == s;
  }

  /** `FilterMap` over one more element of a prefix. */
  lemma FilterMapPrefix<T, U>(s: seq<T>, k: int, f: T -> Option<U>)
    requires 0 <= k < |s|
    ensures FilterMap(s[..k + 1], f) == FilterMap(s[..k], f) + (if f(s[k]).Some? then [f(s[k]).value] else [])
  {
    assert s[..k + 1] == s[..k] + [s[k]];
    FilterMapSnoc(s[..k], s[k], f);
  }

  /** Filtering and then mapping is mapping with the filter folded in. */
  lemma {:induction false} FilterThenFilterMap<T, U>(s: seq<T>, p: T -> bool, f: T -> Option<U>, g: T -> Option<U>)
    requires forall x :: g(x) == if p(x) then f(x) else None
    ensures FilterMap(Filter(s, p), f) == FilterMap(s, g)
  {
    if s != [] {
      var init := s[..|s| - 1];
      var x := s[|s| - 1];
      assert s == init + [x];
      FilterThenFilterMap(init, p, f, g);
      FilterSnoc(init, x, p);
      FilterMapSnoc(init, x, g);
      if p(x) {
        FilterMapSnoc(Filter(init, p), x, f);
      } else {
        assert Filter(s, p) == Filter(init, p);
      }
    }
  }

  /** A value is listed exactly when `f` gives it for some element. */
  lemma {:induction false} FilterMapMembers<T, U>(s: seq<T>, f: T -> Option<U>)
    ensures forall y :: y in FilterMap(s, f) <==> exists i :: 0 <= i < |s| && f(s[i]) == Some(y)
  {
    if s != [] {
      var init := s[..|s| - 1];
      FilterMapMembers(init, f);
      assert s == init + [s[|s| - 1]];
      FilterMapSnoc(init, s[|s| - 1], f);
      forall y ensures y in FilterMap(s, f) <==> exists i :: 0 <= i < |s| && f(s[i]) == Some(y) {
        if y in FilterMap(init, f) {
          var i :| 0 <= i < |init| && f(init[i]) == Some(y);
          assert s[i] == init[i];
        }
        if exists i :: 0 <= i < |s| && f(s[i]) == Some(y) {
          var i :| 0 <= i < |s| && f(s[i]) == Some(y);
          if i < |init| {
            assert s[i] == init[i];
          }
        }
      }
    }
  }

  /** The first element kept is the first element of the list that
      satisfies the predicate. */
  lemma {:induction false} FilterFirst<T>(s: seq<T>, p: T -> bool)
    requires Filter(s, p) != []
    ensures exists i :: 0 <= i < |s| && s[i] == Filter(s, p)[0] && p(s[i]) && (forall j :: 0 <= j < i ==> !p(s[j]))
  {
    if !p(s[0]) {
      FilterFirst(s[1..], p);
      var i :| 0 <= i < |s[1..]| && s[1..][i] == Filter(s[1..], p)[0] && p(s[1..][i]) &&
        forall j :: 0 <= j < i ==> !p(s[1..][j]);
      assert s[i + 1] == s[1..][i];
      assert forall j :: 1 <= j < i + 1 ==> s[j] == s[1..][j - 1];
    }
  }

  /** The last element kept is the last element of the list that passes. */
  lemma {:induction false} FilterLast<T>(s: seq<T>, p: T -> bool)
    requires Filter(s, p) != []
    ensures var f := Filter(s, p);
      exists i :: 0 <= i < |s| && s[i] == f[|f| - 1] && p(s[i]) && (forall j :: i < j < |s| ==> !p(s[j]))
  {
    var init, x := s[..|s| - 1], s[|s| - 1];
    assert s == init + [x];
    FilterSnoc(init, x, p);
    if !p(x) {
      FilterLast(init, p);
      var f := Filter(init, p);
      var i :| 0 <= i < |init| && init[i] == f[|f| - 1] && p(init[i]) && forall j :: i < j < |init| ==> !p(init[j]);
      assert s[i] == init[i];
      assert forall j :: i < j < |init| ==> s[j] == init[j];
    }
  }

  /** When every element passes, filtering keeps the whole list. */
  lemma {:induction false} FilterAll<T>(s: seq<T>, p: T -> bool)
    requires forall i :: 0 <= i < |s| ==> p(s[i])
    ensures Filter(s, p) == s
  {
    if s != [] {
      assert forall i :: 0 <= i < |s[1..]| ==> s[1..][i] == s[i + 1];
      FilterAll(s[1..], p);
    }
  }

  /** When the predicate, once true, stays true along the list, filtering
      keeps a suffix. */
  lemma {:induction false} FilterUpwardClosed<T>(s: seq<T>, p: T -> bool)
    requires forall i, j :: 0 <= i < j < |s| && p(s[i]) ==> p(s[j])
    ensures Filter(s, p) == s[|s| - |Filter(s, p)|..]
  {
    if s != [] {
      if p(s[0]) {
        FilterAll(s, p);
      } else {
        var t := s[1..];
        UpwardClosedTail(s, p);
        FilterUpwardClosed(t, p);
        assert Filter(s, p) == Filter(t, p);
        assert t[|t| - |Filter(t, p)|..] == s[|s| - |Filter(t, p)|..];
      }
    }
  }

  lemma UpwardClosedTail<T>(s: seq<T>, p: T -> bool)
    requires s != []
    requires forall i, j :: 0 <= i < j < |s| && p(s[i]) ==> p(s[j])
    ensures forall i, j :: 0 <= i < j < |s[1..]| && p(s[1..][i]) ==> p(s[1..][j])
  {
    var t := s[1..];
    forall i, j | 0 <= i < j < |t| && p(t[i])
      ensures p(t[j])
    {
      assert t[i] == s[i + 1] && t[j] == s[j + 1];
    }
  }

  /** Entries of `m` whose ids are in `keep`, in ascending id order. Ids are
      handed out in increasing order, so this is the dictionaries' insertion
      order. */
  function InKeyOrder<V>(m: map<nat, V>, keep: set<nat>, n: nat): seq<V>
  {
    if n == 0 then []
    else InKeyOrder(m, keep, n - 1) + (if n - 1 in keep && n - 1 in m then [m[n - 1]] else [])
  }

  /** The entries listed are exactly those of the kept ids below `n`. */
  lemma {:induction false} InKeyOrderMembers<V>(m: map<nat, V>, keep: set<nat>, n: nat)
    ensures forall x :: x in InKeyOrder(m, keep, n) ==> exists i :: 0 <= i < n && i in keep && i in m && m[i] == x
    ensures forall i :: 0 <= i < n && i in keep && i in m ==> m[i] in InKeyOrder(m, keep, n)
  {
    if n > 0 {
      InKeyOrderMembers(m, keep, n - 1);
    }
  }

  /** A subset is no larger than its superset. */
  lemma {:induction false} SubsetSize<T>(a: set<T>, b: set<T>)
    requires a <= b
    ensures |a| <= |b|
    decreases |a|
  {
    if a != {} {
      var x :| x in a;
      SubsetSize(a - {x}, b - {x});
    }
  }
}
