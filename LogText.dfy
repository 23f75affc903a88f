/**
 * The pieces of Python's `re` that the log monitor and the log analyzer
 * rely on, for the fixed patterns they use: `\w`, `\d` and `\s` character
 * classes, `\b` word boundaries, case-insensitive matching, the leftmost
 * match of `re.search`, and counting into a dictionary.
 */
module LogText {
  import opened Common

  // ---------------------------------------------------------------------
  // Character classes and word boundaries
  // ---------------------------------------------------------------------

  /** `\w`, over ASCII: letters, digits and the underscore. */
  predicate IsWordChar(c: char)
  {
    'a' <= c <= 'z' || 'A' <= c <= 'Z' || '0' <= c <= '9' || c == '_'
  }

  /** `\d`, over ASCII. */
  predicate IsDigit(c: char)
  {
    '0' <= c <= '9'
  }

  /** `\b` in front of a match that starts at `i` with a word character. */
  predicate WordStart(s: string, i: int)
  {
    0 <= i <= |s| && (i == 0 || !IsWordChar(s[i - 1]))
  }

  /** `\b` after a match that ends at `j` with a word character. */
  predicate WordEnd(s: string, j: int)
  {
    0 <= j <= |s| && (j == |s| || !IsWordChar(s[j]))
  }

  /** `\bw\b` matches at position `i` (case-sensitive). */
  predicate WordAt(s: string, w: string, i: int)
  {
    OccursAt(s, w, i) && WordStart(s, i) && WordEnd(s, i + |w|)
  }

  /** `w` occurs at `i` ignoring ASCII case, as under `re.IGNORECASE`. */
  predicate OccursAtCI(s: string, w: string, i: int)
  {
    0 <= i <= |s| - |w| && forall k :: 0 <= k < |w| ==> LowerChar(s[i + k]) == LowerChar(w[k])
  }

  /** `\bw\b` matches at `i` under `re.IGNORECASE`. */
  predicate WordAtCI(s: string, w: string, i: int)
  {
    OccursAtCI(s, w, i) && WordStart(s, i) && WordEnd(s, i + |w|)
  }

  /** `re.search(r'\bw\b', s)` finds a match. */
  predicate HasWord(s: string, w: string)
  {
    exists i :: 0 <= i <= |s| && WordAt(s, w, i)
  }

  /** `re.search(r'\b(w1|w2|...)\b', s)` finds a match. */
  predicate HasAnyWord(s: string, ws: seq<string>)
  {
    exists k :: 0 <= k < |ws| && HasWord(s, ws[k])
  }

  /** `re.search(r'\bw\b', s, re.IGNORECASE)` finds a match. */
  predicate HasWordCI(s: string, w: string)
  {
    exists i :: 0 <= i <= |s| && WordAtCI(s, w, i)
  }

  /** `re.search(r'\b(w1|w2|...)\b', s, re.IGNORECASE)` finds a match. */
  predicate HasAnyWordCI(s: string, ws: seq<string>)
  {
    exists k :: 0 <= k < |ws| && HasWordCI(s, ws[k])
  }

  /** A greedy run `p+`/`p*`: the first position from `i` on whose character
      is not in the class, or the end of the string. */
  function RunEnd(s: string, i: int, p: char -> bool): (e: int)
    requires 0 <= i <= |s|
    ensures i <= e <= |s|
    ensures forall k :: i <= k < e ==> p(s[k])
    ensures e == |s| || !p(s[e])
    decreases |s| - i
  {
    if i < |s| && p(s[i]) then RunEnd(s, i + 1, p) else i
  }

  // ---------------------------------------------------------------------
  // The leftmost match
  // ---------------------------------------------------------------------

  /** `re.search`: the match at the first position from `i` to `n` where
      the pattern, tried at that position, gives one. */
  function Search<T>(f: int -> Option<T>, i: int, n: int): Option<T>
    decreases n - i
  {
    if i > n then None
    else if f(i).Some? then f(i)
    else Search(f, i + 1, n)
  }

  /** The search fails exactly when the pattern matches nowhere, and what
      it finds is the match at the leftmost position that has one. */
  lemma {:induction false} SearchFinds<T>(f: int -> Option<T>, i: int, n: int)
    ensures Search(f, i, n).None? <==> forall k :: i <= k <= n ==> f(k).None?
    ensures Search(f, i, n).Some? ==> exists k :: i <= k <= n && f(k) == Search(f, i, n) && forall j :: i <= j < k ==> f(j).None?
    decreases n - i
  {
    if i <= n && f(i).None? {
      SearchFinds(f, i + 1, n);
    }
  }

  /** The tag of the first entry whose words `found` accepts: a loop over an
      ordered table of patterns that returns at the first hit. */
  function FirstTag<L>(ps: seq<(L, seq<string>)>, found: seq<string> -> bool): (r: Option<L>)
    ensures r.None? <==> forall k :: 0 <= k < |ps| ==> !found(ps[k].1)
    ensures r.Some? ==> exists k :: 0 <= k < |ps| && ps[k].0 == r.value && found(ps[k].1) && (forall j :: 0 <= j < k ==> !found(ps[j].1))
  {
    if ps == [] then None
    else if found(ps[0].1) then Some(ps[0].0)
    else
      var r := FirstTag(ps[1..], found);
      assert forall k :: 1 <= k < |ps| ==> ps[1..][k - 1] == ps[k];
      r
  }

  // ---------------------------------------------------------------------
  // Counting into a dictionary
  // ---------------------------------------------------------------------

  /** `d[k] = d.get(k, 0) + 1` for each key in turn. */
  function Tally(xs: seq<string>): map<string, nat>
  {
    if xs == [] then map[]
    else
      var m := Tally(xs[..|xs| - 1]);
      m[xs[|xs| - 1] := CountOf(m, xs[|xs| - 1]) + 1]
  }

  /** Counting one more element. */
  lemma TallySnoc(xs: seq<string>, x: string)
    ensures Tally(xs + [x]) == Tally(xs)[x := CountOf(Tally(xs), x) + 1]
  {
    assert (xs + [x])[..|xs|] == xs;
  }

  /** Counting the first `i + 1` elements counts one more than the first
      `i`. */
  lemma TallyPrefix(xs: seq<string>, i: nat)
    requires i < |xs|
    ensures Tally(xs[..i + 1]) == Tally(xs[..i])[xs[i] := CountOf(Tally(xs[..i]), xs[i]) + 1]
  {
    assert xs[..i + 1] == xs[..i] + [xs[i]];
    TallySnoc(xs[..i], xs[i]);
  }

  /** `d.get(k, 0)` */
  function CountOf(m: map<string, nat>, k: string): nat
  {
    if k in m then m[k] else 0
  }

  /** A key is counted exactly when it occurs, as often as it occurs. */
  lemma {:induction false} TallyCounts(xs: seq<string>)
    ensures forall k :: k in Tally(xs) <==> k in xs
    ensures forall k :: k in Tally(xs) ==> Tally(xs)[k] == multiset(xs)[k]
  {
    if xs != [] {
      var init := xs[..|xs| - 1];
      var x := xs[|xs| - 1];
      assert xs == init + [x];
      TallyCounts(init);
    }
  }

  /** Counting the values a classifier gives into a dictionary: a key is
      counted exactly when some element is classified as it, only listed
      names are counted when the classifier gives only those, and the
      counts of the names add up to at most the number of elements. */
  lemma ClassCounts<T>(s: seq<T>, f: T -> Option<string>, names: seq<string>)
    requires Unique(names)
    requires forall x :: x in FilterMap(s, f) ==> x in names
    ensures forall k :: k in Tally(FilterMap(s, f)) <==> exists i :: 0 <= i < |s| && f(s[i]) == Some(k)
    ensures forall k :: k in Tally(FilterMap(s, f)) ==> k in names
    ensures SumOver(Tally(FilterMap(s, f)), names) <= |s|
  {
    TallyCounts(FilterMap(s, f));
    FilterMapMembers(s, f);
    TallySum(FilterMap(s, f), names);
  }

  /** The sum of the counts of the given keys. */
  function SumOver(m: map<string, nat>, keys: seq<string>): nat
  {
    if keys == [] then 0 else CountOf(m, keys[0]) + SumOver(m, keys[1..])
  }

  predicate Unique(keys: seq<string>)
  {
    forall a, b :: 0 <= a < b < |keys| ==> keys[a] != keys[b]
  }

  lemma {:induction false} SumOverEmpty(keys: seq<string>)
    ensures SumOver(map[], keys) == 0
  {
    if keys != [] {
      SumOverEmpty(keys[1..]);
    }
  }

  lemma {:induction false} SumOverBump(m: map<string, nat>, keys: seq<string>, x: string)
    requires Unique(keys)
    ensures SumOver(m[x := CountOf(m, x) + 1], keys) == SumOver(m, keys) + (if x in keys then 1 else 0)
  {
    if keys != [] {
      assert Unique(keys[1..]) by {
        forall a, b | 0 <= a < b < |keys[1..]| ensures keys[1..][a] != keys[1..][b] {
          assert keys[1..][a] == keys[a + 1] && keys[1..][b] == keys[b + 1];
        }
      }
      SumOverBump(m, keys[1..], x);
      if keys[0] == x {
        assert x !in keys[1..] by {
          forall j | 0 <= j < |keys[1..]| ensures keys[1..][j] != x {
            assert keys[1..][j] == keys[j + 1];
          }
        }
      }
      assert x in keys <==> keys[0] == x || x in keys[1..];
    }
  }

  /** When every counted element is one of the listed (distinct) keys, the
      counts of those keys add up to the number of elements. */
  lemma {:induction false} TallySum(xs: seq<string>, keys: seq<string>)
    requires Unique(keys)
    requires forall x :: x in xs ==> x in keys
    ensures SumOver(Tally(xs), keys) == |xs|
  {
    if xs == [] {
      SumOverEmpty(keys);
    } else {
      var init := xs[..|xs| - 1];
      var x := xs[|xs| - 1];
      assert xs == init + [x];
      assert forall y :: y in init ==> y in xs;
      assert x in keys;
      TallySum(init, keys);
      SumOverBump(Tally(init), keys, x);
    }
  }
}
