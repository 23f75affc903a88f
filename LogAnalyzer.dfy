/**
 * The log analyzer's helpers: reading the last lines of a log backwards in
 * fixed-size chunks, and classifying lines by level, issue kind, source
 * and error type. The file is an in-memory string, one character per byte.
 */
module LogAnalyzer {
  import opened Common
  import opened LogText

  // ---------------------------------------------------------------------
  // Splitting and re-joining pieces
  // ---------------------------------------------------------------------

  /** Gluing the pieces of a string read earlier in the file (`a`) to the
      pieces of the text after it (`b`): the last piece of `a` and the first
      of `b` are one line. This is the tail reader's stitching step. */
  function Glue(a: seq<string>, b: seq<string>): (r: seq<string>)
    requires a != []
    ensures |r| == |a| + |b| - (if b == [] then 0 else 1)
  {
    if b == [] then a else a[..|a| - 1] + [a[|a| - 1] + b[0]] + b[1..]
  }

  lemma GlueCons(h: string, a: seq<string>, b: seq<string>)
    requires a != []
    ensures Glue([h] + a, b) == [h] + Glue(a, b)
  {
    if b != [] {
      assert ([h] + a)[..|a|] == [h] + a[..|a| - 1];
    }
  }

  lemma GlueHead(c: char, a: seq<string>, b: seq<string>)
    requires a != [] && b != []
    ensures Glue([[c] + a[0]] + a[1..], b) == [[c] + Glue(a, b)[0]] + Glue(a, b)[1..]
  {
    var h := [[c] + a[0]] + a[1..];
    var g := Glue(a, b);
    if |a| > 1 {
      assert h[..|a| - 1] == [[c] + a[0]] + a[1..|a| - 1];
      assert h[|a| - 1] == a[|a| - 1];
      assert g == [a[0]] + a[1..|a| - 1] + [a[|a| - 1] + b[0]] + b[1..];
      assert g[0] == a[0];
      assert g[1..] == a[1..|a| - 1] + [a[|a| - 1] + b[0]] + b[1..];
    } else {
      assert h == [[c] + a[0]];
      assert g == [a[0] + b[0]] + b[1..];
      assert [c] + a[0] + b[0] == [c] + (a[0] + b[0]);
    }
  }

  /** Splitting a concatenation splits both parts and joins the piece that
      straddles the boundary. */
  lemma {:induction false} SplitConcat(x: string, y: string, sep: char)
    ensures Split(x + y, sep) == Glue(Split(x, sep), Split(y, sep))
  {
    if x == [] {
      assert x + y == y;
      var sy := Split(y, sep);
      assert Glue([""], sy) == ["" + sy[0]] + sy[1..];
      assert "" + sy[0] == sy[0];
    } else {
      assert (x + y)[0] == x[0] && (x + y)[1..] == x[1..] + y;
      SplitConcat(x[1..], y, sep);
      if x[0] == sep {
        GlueCons("", Split(x[1..], sep), Split(y, sep));
      } else {
        GlueHead(x[0], Split(x[1..], sep), Split(y, sep));
      }
    }
  }

  lemma GlueAssoc(a: seq<string>, b: seq<string>, c: seq<string>)
    requires a != [] && b != []
    ensures Glue(Glue(a, b), c) == Glue(a, Glue(b, c))
  {
    if c != [] {
      if |b| == 1 {
        GlueAssocOne(a, b[0], c);
      } else {
        GlueAssocMore(a, b, c);
      }
    }
  }

  lemma GlueAssocOne(a: seq<string>, x: string, c: seq<string>)
    requires a != [] && c != []
    ensures Glue(Glue(a, [x]), c) == Glue(a, Glue([x], c))
  {
    var aInit, aLast := a[..|a| - 1], a[|a| - 1];
    var ab := Glue(a, [x]);
    var bc := Glue([x], c);
    assert ab == aInit + [aLast + x];
    assert ab[..|ab| - 1] == aInit && ab[|ab| - 1] == aLast + x;
    assert bc == [x + c[0]] + c[1..];
    assert aLast + x + c[0] == aLast + (x + c[0]);
  }

  lemma GlueAssocMore(a: seq<string>, b: seq<string>, c: seq<string>)
    requires a != [] && |b| > 1 && c != []
    ensures Glue(Glue(a, b), c) == Glue(a, Glue(b, c))
  {
    var aInit, aLast := a[..|a| - 1], a[|a| - 1];
    var mid, bLast := b[1..|b| - 1], b[|b| - 1];
    var ab := Glue(a, b);
    var bc := Glue(b, c);
    assert b[1..] == mid + [bLast] && b[..|b| - 1] == [b[0]] + mid;
    assert ab == (aInit + [aLast + b[0]] + mid) + [bLast];
    assert bc == [b[0]] + (mid + [bLast + c[0]] + c[1..]);
  }

  /** A string without separators is a single piece. */
  lemma {:induction false} SplitNoSep(s: string, sep: char)
    requires sep !in s
    ensures Split(s, sep) == [s]
  {
    if s != [] {
      assert sep !in s[1..] by {
        forall k | 0 <= k < |s[1..]| ensures s[1..][k] != sep {
          assert s[1..][k] == s[k + 1];
        }
      }
      SplitNoSep(s[1..], sep);
      assert s == [s[0]] + s[1..];
    }
  }

  // ---------------------------------------------------------------------
  // Reading the tail of a file
  // ---------------------------------------------------------------------

  const BufferSize: nat := 8192

  /** `if line.strip()` */
  predicate NonBlank(line: string)
  {
    Strip(line) != []
  }

  /** The pieces after the first one, which may be the unfinished end of an
      earlier line. */
  function Rest(lines: seq<string>): seq<string>
  {
    if lines == [] then [] else lines[1..]
  }

  /** The reading loop of `read_tail_lines` as written: from `position`
      back, one chunk at a time, while fewer than `numLines` pieces are held.
      Gives the final position and pieces. */
  function TailRead(content: string, position: nat, lines: seq<string>, numLines: int): (r: (nat, seq<string>))
    requires position <= |content|
    ensures r.0 <= position
    decreases position
  {
    if |lines| < numLines && position > 0 then
      var start := position - Min(BufferSize, position);
      TailRead(content, start, Glue(Split(content[start..position], '\n'), lines), numLines)
    else (position, lines)
  }

  /** One round of the reading loop. */
  lemma TailReadStep(content: string, position: nat, lines: seq<string>, numLines: int)
    requires 0 < position <= |content| && |lines| < numLines
    ensures var start := position - Min(BufferSize, position);
      TailRead(content, position, lines, numLines) ==
      TailRead(content, start, Glue(Split(content[start..position], '\n'), lines), numLines)
  {
  }

  /** `read_tail_lines` as written: the non-blank pieces read, the last
      `numLines` of them. */
  function TailAsWritten(content: string, numLines: int): seq<string>
  {
    var lines := TailRead(content, |content|, [], numLines).1;
    var kept := Filter(lines, NonBlank);
    if |kept| > numLines then LastN(kept, numLines) else kept
  }

  /** What the tail reader is for: the last `numLines` non-blank lines of
      the file. */
  function LastLines(content: string, numLines: int): seq<string>
  {
    if numLines <= 0 then [] else LastN(Filter(Split(content, '\n'), NonBlank), numLines)
  }

  /** The pieces read, glued after the pieces of the unread prefix, are
      always the lines of the whole file. */
  lemma {:induction false} TailReadInvariant(content: string, position: nat, lines: seq<string>, numLines: int)
    requires position <= |content|
    requires Split(content, '\n') == Glue(Split(content[..position], '\n'), lines)
    ensures var r := TailRead(content, position, lines, numLines);
      Split(content, '\n') == Glue(Split(content[..r.0], '\n'), r.1)
    decreases position
  {
    if |lines| < numLines && position > 0 {
      var start := position - Min(BufferSize, position);
      ChunkKeepsLines(content, position, lines);
      TailReadInvariant(content, start, Glue(Split(content[start..position], '\n'), lines), numLines);
    }
  }

  /** Reading one more chunk keeps the pieces held, glued after the pieces
      of the unread prefix, equal to the lines of the whole file. */
  lemma ChunkKeepsLines(content: string, position: nat, lines: seq<string>)
    requires 0 < position <= |content|
    requires Split(content, '\n') == Glue(Split(content[..position], '\n'), lines)
    ensures var start := position - Min(BufferSize, position);
      Split(content, '\n') == Glue(Split(content[..start], '\n'), Glue(Split(content[start..position], '\n'), lines))
  {
    var start := position - Min(BufferSize, position);
    assert content[..position] == content[..start] + content[start..position];
    SplitConcat(content[..start], content[start..position], '\n');
    GlueAssoc(Split(content[..start], '\n'), Split(content[start..position], '\n'), lines);
  }

  /** The result has at most `numLines` lines, none of them blank, and
      nothing at all for a count that is not positive. */
  lemma TailAsWrittenBounds(content: string, numLines: int)
    ensures var r := TailAsWritten(content, numLines);
      (numLines <= 0 ==> r == []) && |r| <= Max(numLines, 0) &&
      forall k :: 0 <= k < |r| ==> NonBlank(r[k])
  {
    var lines := TailRead(content, |content|, [], numLines).1;
    var kept := Filter(lines, NonBlank);
    if numLines <= 0 {
      assert lines == [];
    } else {
      SuffixOfFiltered(kept, numLines);
    }
  }

  /** Keeping the last `n` of a list of non-blank lines keeps at most `n`
      lines, all non-blank. */
  lemma SuffixOfFiltered(kept: seq<string>, n: int)
    requires n > 0 && forall k :: 0 <= k < |kept| ==> NonBlank(kept[k])
    ensures var r := if |kept| > n then LastN(kept, n) else kept;
      |r| <= n && forall k :: 0 <= k < |r| ==> NonBlank(r[k])
  {
    if |kept| > n {
      var r := LastN(kept, n);
      assert r == kept[|kept| - n..];
      forall k | 0 <= k < |r| ensures NonBlank(r[k]) {
        assert r[k] == kept[|kept| - n + k];
      }
    }
  }

  /** Once the start of the file is reached, the pieces held are the lines
      of the file, up to blank ones. */
  lemma AtStartAllLines(content: string, lines: seq<string>)
    requires Split(content, '\n') == Glue(Split(content[..0], '\n'), lines)
    ensures Filter(lines, NonBlank) == Filter(Split(content, '\n'), NonBlank)
  {
    assert content[..0] == "";
    assert Split("", '\n') == [""];
    GlueOntoEmpty(lines);
    if lines == [] {
      StripEmptyIffBlank("");
      assert Filter([""], NonBlank) == [];
    }
  }

  /** Gluing onto the single empty piece changes nothing, except that
      nothing glued leaves that piece. */
  lemma GlueOntoEmpty(lines: seq<string>)
    ensures Glue([""], lines) == if lines == [] then [""] else lines
  {
    if lines != [] {
      assert "" + lines[0] == lines[0];
      assert [lines[0]] + lines[1..] == lines;
    }
  }

  /** When the reading reaches the start of the file, the result is the
      last `numLines` non-blank lines of the whole file. */
  lemma TailAtStart(content: string, numLines: int)
    requires numLines > 0
    requires TailRead(content, |content|, [], numLines).0 == 0
    ensures TailAsWritten(content, numLines) == LastLines(content, numLines)
  {
    assert content[..|content|] == content;
    assert Split(content, '\n') == Glue(Split(content[..|content|], '\n'), []);
    TailReadInvariant(content, |content|, [], numLines);
    AtStartAllLines(content, TailRead(content, |content|, [], numLines).1);
  }

  /** The last `n` of a list whose suffix has at least `n` elements come
      from that suffix. */
  lemma LastNOfLongSuffix<T>(x: seq<T>, y: seq<T>, n: int)
    requires n > 0 && |y| >= n
    ensures LastN(x + y, n) == LastN(y, n)
  {
    assert (x + y)[|x + y| - n..] == y[|y| - n..];
  }

  /** Stopping early is safe once the whole lines read, those after the
      first piece, hold `numLines` non-blank lines. */
  lemma StoppedEarly(content: string, position: nat, lines: seq<string>, numLines: int)
    requires 0 < position <= |content| && numLines > 0
    requires Split(content, '\n') == Glue(Split(content[..position], '\n'), lines)
    requires Count(Rest(lines), NonBlank) >= numLines
    ensures LastN(Filter(Rest(lines), NonBlank), numLines) == LastLines(content, numLines)
  {
    assert lines != [];
    var s := Split(content[..position], '\n');
    var head := s[..|s| - 1] + [s[|s| - 1] + lines[0]];
    assert Split(content, '\n') == head + Rest(lines);
    FilterAppend(head, Rest(lines), NonBlank);
    LastNOfLongSuffix(Filter(head, NonBlank), Filter(Rest(lines), NonBlank), numLines);
  }

  /** A file that fits in one buffer, or that has fewer lines than asked
      for, is read to its start. */
  lemma TailReadsAll(content: string, numLines: int)
    requires numLines > 0
    requires |content| <= BufferSize || |Split(content, '\n')| < numLines
    ensures TailRead(content, |content|, [], numLines).0 == 0
  {
    if |content| <= BufferSize {
      if |content| > 0 {
        var next := Glue(Split(content[0..|content|], '\n'), []);
        assert TailRead(content, |content|, [], numLines) == TailRead(content, 0, next, numLines);
      }
    } else {
      assert content[..|content|] == content;
      ShortFileReadsAll(content, |content|, [], numLines);
    }
  }

  lemma {:induction false} ShortFileReadsAll(content: string, position: nat, lines: seq<string>, numLines: int)
    requires position <= |content|
    requires Split(content, '\n') == Glue(Split(content[..position], '\n'), lines)
    requires |Split(content, '\n')| < numLines
    ensures TailRead(content, position, lines, numLines).0 == 0
    decreases position
  {
    if position > 0 {
      var start := position - Min(BufferSize, position);
      ChunkKeepsLines(content, position, lines);
      ShortFileReadsAll(content, start, Glue(Split(content[start..position], '\n'), lines), numLines);
    }
  }

  /** An unfinished first piece is returned as a line: with an 8193-byte
      file of one line and one line asked for, the first chunk already holds
      one piece, the loop stops, and the line comes back without its first
      byte. */
  lemma TailTruncatesFirstLine()
    ensures var content := "a" + seq(BufferSize, _ => 'b');
      TailAsWritten(content, 1) == [content[1..]] &&
      LastLines(content, 1) == [content] && content[1..] != content
  {
    var content := "a" + seq(BufferSize, _ => 'b');
    OneLongLine(content);
    OneLineTail(content);
    OneLineLast(content);
  }

  /** A file of one non-blank line of `BufferSize + 1` bytes loses its
      first byte to the tail reader. */
  lemma OneLineTail(content: string)
    requires |content| == BufferSize + 1
    requires Split(content[1..], '\n') == [content[1..]] && NonBlank(content[1..])
    ensures TailAsWritten(content, 1) == [content[1..]]
  {
    var tail := content[1..];
    assert content[1..|content|] == tail;
    assert TailRead(content, |content|, [], 1) == TailRead(content, 1, [tail], 1);
    assert Filter([tail], NonBlank) == [tail];
  }

  lemma OneLineLast(content: string)
    requires Split(content, '\n') == [content] && NonBlank(content)
    ensures LastLines(content, 1) == [content]
  {
    assert Filter([content], NonBlank) == [content];
  }

  /** The file of that example is one line, and so is what follows its first
      byte; neither is blank. */
  lemma OneLongLine(content: string)
    requires content == "a" + seq(BufferSize, _ => 'b')
    ensures Split(content, '\n') == [content] && NonBlank(content)
    ensures Split(content[1..], '\n') == [content[1..]] && NonBlank(content[1..])
    ensures content[1..] != content
  {
    assert forall k :: 0 <= k < |content| ==> content[k] == 'a' || content[k] == 'b';
    SingleLine(content);
    SingleLine(content[1..]);
    assert content[1] != content[0];
  }

  /** A non-empty string of letters is one line, and not a blank one. */
  lemma SingleLine(s: string)
    requires s != [] && forall k :: 0 <= k < |s| ==> 'a' <= s[k] <= 'z'
    ensures Split(s, '\n') == [s] && NonBlank(s)
  {
    SplitNoSep(s, '\n');
    StripEmptyIffBlank(s);
    assert !IsSpace(s[0]);
  }

  /** One round of `read_tail_lines`: the chunk of up to `BufferSize`
      characters before `position` is split into lines, and its last piece
      is joined to the first piece held. */
  method ReadChunk(content: string, position: nat, lines: seq<string>) returns (start: nat, lines': seq<string>)
    requires 0 < position <= |content|
    ensures start == position - Min(BufferSize, position)
    ensures lines' == Glue(Split(content[start..position], '\n'), lines)
  {
    var readSize := Min(BufferSize, position);
    start := position - readSize;
    var chunkLines := Split(content[start..start + readSize], '\n');
    ghost var read := chunkLines;
    lines' := lines;
    if lines' != [] && chunkLines != [] {
      lines' := [chunkLines[|chunkLines| - 1] + lines'[0]] + lines'[1..];
      chunkLines := chunkLines[..|chunkLines| - 1];
    }
    lines' := chunkLines + lines';
    assert lines' == Glue(read, lines);
  }

  /** `read_tail_lines` as written. */
  method ReadTailLinesAsWritten(content: string, numLines: int) returns (r: seq<string>)
    ensures r == TailAsWritten(content, numLines)
  {
    var lines: seq<string> := [];
    var position: nat := |content|;
    while |lines| < numLines && position > 0
      invariant position <= |content|
      invariant TailRead(content, position, lines, numLines) == TailRead(content, |content|, [], numLines)
      decreases position
    {
      TailReadStep(content, position, lines, numLines);
      position, lines := ReadChunk(content, position, lines);
    }
    r := Filter(lines, NonBlank);
    if |r| > numLines {
      r := LastN(r, numLines);
    }
  }

  /** `read_tail_lines` with the stopping test it needs: reading goes on
      until the pieces after the first one, which are whole lines, hold
      `numLines` non-blank lines, or the start of the file is reached. */
  method ReadTailLines(content: string, numLines: int) returns (r: seq<string>)
    ensures r == LastLines(content, numLines)
  {
    var lines: seq<string> := [];
    var position: nat := |content|;
    assert content[..|content|] == content;
    while numLines > 0 && position > 0 && Count(Rest(lines), NonBlank) < numLines
      invariant position <= |content|
      invariant Split(content, '\n') == Glue(Split(content[..position], '\n'), lines)
      decreases position
    {
      ChunkKeepsLines(content, position, lines);
      position, lines := ReadChunk(content, position, lines);
    }
    if numLines <= 0 {
      r := [];
    } else if position == 0 {
      AtStartAllLines(content, lines);
      r := LastN(Filter(lines, NonBlank), numLines);
    } else {
      StoppedEarly(content, position, lines, numLines);
      r := LastN(Filter(Rest(lines), NonBlank), numLines);
    }
  }

  // ---------------------------------------------------------------------
  // Log levels
  // ---------------------------------------------------------------------

  /** The level words, in the order the pattern's alternation lists them. */
  const LevelWords: seq<string> := ["DEBUG", "INFO", "WARN", "WARNING", "ERROR", "FATAL", "CRITICAL"]

  /** One of the level names. */
  predicate IsLevel(x: string)
  {
    x in LevelWords
  }

  predicate UpperWord(w: string)
  {
    forall k :: 0 <= k < |w| ==> 'A' <= w[k] <= 'Z'
  }

  /** The text of the first alternative, in pattern order, that matches at
      `i` as a whole word, ignoring case. */
  function WordMatchAt(s: string, ws: seq<string>, i: int): Option<string>
  {
    if ws == [] then None
    else if WordAtCI(s, ws[0], i) then Some(s[i..i + |ws[0]|])
    else WordMatchAt(s, ws[1..], i)
  }

  /** No alternative matching gives no match, and a match is the text of
      an alternative that does. */
  lemma {:induction false} WordMatchAtFinds(s: string, ws: seq<string>, i: int)
    ensures WordMatchAt(s, ws, i).None? <==> forall k :: 0 <= k < |ws| ==> !WordAtCI(s, ws[k], i)
    ensures WordMatchAt(s, ws, i).Some? ==> exists k :: 0 <= k < |ws| && WordAtCI(s, ws[k], i) && WordMatchAt(s, ws, i).value == s[i..i + |ws[k]|]
  {
    if ws != [] && !WordAtCI(s, ws[0], i) {
      WordMatchAtFinds(s, ws[1..], i);
      assert forall k :: 1 <= k < |ws| ==> ws[1..][k - 1] == ws[k];
      if WordMatchAt(s, ws, i).Some? {
        var k :| 0 <= k < |ws[1..]| && WordAtCI(s, ws[1..][k], i) && WordMatchAt(s, ws, i).value == s[i..i + |ws[1..][k]|];
        assert ws[1..][k] == ws[k + 1];
      }
    }
  }

  /** The match at `i` is the first alternative, in order, that matches. */
  lemma {:induction false} WordMatchAtFirst(s: string, ws: seq<string>, i: int, k: int)
    requires 0 <= k < |ws| && WordAtCI(s, ws[k], i)
    requires forall j :: 0 <= j < k ==> !WordAtCI(s, ws[j], i)
    ensures WordMatchAt(s, ws, i) == Some(s[i..i + |ws[k]|])
  {
    if k > 0 {
      assert ws[1..][k - 1] == ws[k];
      assert forall j :: 0 <= j < k - 1 ==> ws[1..][j] == ws[j + 1];
      WordMatchAtFirst(s, ws[1..], i, k - 1);
    }
  }

  /** `[w]` at `i` for an alternative `w`, ignoring case. */
  predicate BracketedAt(s: string, w: string, i: int)
  {
    0 <= i && i + |w| + 2 <= |s| && s[i] == '[' && OccursAtCI(s, w, i + 1) && s[i + 1 + |w|] == ']'
  }

  /** The text inside the brackets for the first alternative that matches
      bracketed at `i`. */
  function BracketMatchAt(s: string, ws: seq<string>, i: int): Option<string>
  {
    if ws == [] then None
    else if BracketedAt(s, ws[0], i) then Some(s[i + 1..i + 1 + |ws[0]|])
    else BracketMatchAt(s, ws[1..], i)
  }

  lemma {:induction false} BracketMatchAtFinds(s: string, ws: seq<string>, i: int)
    ensures BracketMatchAt(s, ws, i).Some? ==> exists k :: 0 <= k < |ws| && BracketedAt(s, ws[k], i) && BracketMatchAt(s, ws, i).value == s[i + 1..i + 1 + |ws[k]|]
  {
    if ws != [] && !BracketedAt(s, ws[0], i) {
      BracketMatchAtFinds(s, ws[1..], i);
      if BracketMatchAt(s, ws, i).Some? {
        var k :| 0 <= k < |ws[1..]| && BracketedAt(s, ws[1..][k], i) && BracketMatchAt(s, ws, i).value == s[i + 1..i + 1 + |ws[1..][k]|];
        assert ws[1..][k] == ws[k + 1];
      }
    }
  }

  /** `re.search(r'\b(w1|w2|...)\b', s, re.IGNORECASE)`, giving the text
      of the match. */
  function WordSearch(s: string, ws: seq<string>): Option<string>
  {
    Search(i => WordMatchAt(s, ws, i), 0, |s|)
  }

  /** `re.search(r'\[(w1|w2|...)\]', s, re.IGNORECASE)`, giving the text
      between the brackets. */
  function BracketSearch(s: string, ws: seq<string>): Option<string>
  {
    Search(i => BracketMatchAt(s, ws, i), 0, |s|)
  }

  /** The word search fails exactly when no alternative occurs as a whole
      word, and what it finds is an alternative up to case. */
  lemma WordSearchFinds(s: string, ws: seq<string>)
    ensures WordSearch(s, ws).None? <==> forall k :: 0 <= k < |ws| ==> !HasWordCI(s, ws[k])
    ensures WordSearch(s, ws).Some? ==> exists k, i :: 0 <= k < |ws| && WordAtCI(s, ws[k], i) && WordSearch(s, ws).value == s[i..i + |ws[k]|]
  {
    var f := i => WordMatchAt(s, ws, i);
    assert WordSearch(s, ws) == Search(f, 0, |s|);
    SearchFinds(f, 0, |s|);
    if WordSearch(s, ws).None? {
      forall k, i | 0 <= k < |ws| && 0 <= i <= |s| ensures !WordAtCI(s, ws[k], i) {
        assert f(i).None?;
        WordMatchAtFinds(s, ws, i);
      }
    } else {
      var i :| 0 <= i <= |s| && f(i) == WordSearch(s, ws);
      WordMatchAtFinds(s, ws, i);
      var k :| 0 <= k < |ws| && WordAtCI(s, ws[k], i) && f(i).value == s[i..i + |ws[k]|];
      assert HasWordCI(s, ws[k]);
    }
  }

  lemma BracketSearchFinds(s: string, ws: seq<string>)
    ensures BracketSearch(s, ws).Some? ==> exists k, i :: 0 <= k < |ws| && BracketedAt(s, ws[k], i) && BracketSearch(s, ws).value == s[i + 1..i + 1 + |ws[k]|]
  {
    var f := i => BracketMatchAt(s, ws, i);
    assert BracketSearch(s, ws) == Search(f, 0, |s|);
    SearchFinds(f, 0, |s|);
    if BracketSearch(s, ws).Some? {
      var i :| 0 <= i <= |s| && f(i) == BracketSearch(s, ws);
      BracketMatchAtFinds(s, ws, i);
      var k :| 0 <= k < |ws| && BracketedAt(s, ws[k], i) && f(i).value == s[i + 1..i + 1 + |ws[k]|];
    }
  }

  /** Text that equals an upper-case word up to case upper-cases to it. */
  lemma UpperOfMatch(s: string, w: string, i: int)
    requires OccursAtCI(s, w, i) && UpperWord(w)
    ensures Upper(s[i..i + |w|]) == w
  {
    forall k | 0 <= k < |w| ensures Upper(s[i..i + |w|])[k] == w[k] {
      assert s[i..i + |w|][k] == s[i + k];
      UpperOfLowerChar(s[i + k], w[k]);
    }
  }

  lemma UpperOfLowerChar(a: char, b: char)
    requires LowerChar(a) == LowerChar(b) && 'A' <= b <= 'Z'
    ensures UpperChar(a) == b
  {
  }

  lemma LevelWordsUpper()
    ensures forall k :: 0 <= k < |LevelWords| ==> UpperWord(LevelWords[k])
  {
    assert UpperWord("DEBUG") && UpperWord("INFO") && UpperWord("WARN") && UpperWord("WARNING");
    assert UpperWord("ERROR") && UpperWord("FATAL") && UpperWord("CRITICAL");
  }

  /** The bracketed pattern never decides: a bracketed alternative is also
      a whole word, so the first pattern already finds a match. */
  lemma BracketNeverDecides(s: string, ws: seq<string>)
    ensures WordSearch(s, ws).None? ==> BracketSearch(s, ws).None?
  {
    if BracketSearch(s, ws).Some? {
      BracketSearchFinds(s, ws);
      var k, i :| 0 <= k < |ws| && BracketedAt(s, ws[k], i) && BracketSearch(s, ws).value == s[i + 1..i + 1 + |ws[k]|];
      assert WordAtCI(s, ws[k], i + 1);
      WordSearchFinds(s, ws);
      assert HasWordCI(s, ws[k]);
    }
  }

  /** Over upper-case alternatives, what either search finds upper-cases to
      one of them. */
  lemma FoundUpper(s: string, ws: seq<string>)
    requires forall k :: 0 <= k < |ws| ==> UpperWord(ws[k])
    ensures WordSearch(s, ws).Some? ==> Upper(WordSearch(s, ws).value) in ws
    ensures BracketSearch(s, ws).Some? ==> Upper(BracketSearch(s, ws).value) in ws
  {
    WordFoundUpper(s, ws);
    BracketFoundUpper(s, ws);
  }

  lemma WordFoundUpper(s: string, ws: seq<string>)
    requires forall k :: 0 <= k < |ws| ==> UpperWord(ws[k])
    ensures WordSearch(s, ws).Some? ==> Upper(WordSearch(s, ws).value) in ws
  {
    if WordSearch(s, ws).Some? {
      WordSearchFinds(s, ws);
      var k, i :| 0 <= k < |ws| && WordAtCI(s, ws[k], i) && WordSearch(s, ws).value == s[i..i + |ws[k]|];
      UpperOfMatch(s, ws[k], i);
    }
  }

  lemma BracketFoundUpper(s: string, ws: seq<string>)
    requires forall k :: 0 <= k < |ws| ==> UpperWord(ws[k])
    ensures BracketSearch(s, ws).Some? ==> Upper(BracketSearch(s, ws).value) in ws
  {
    if BracketSearch(s, ws).Some? {
      BracketSearchFinds(s, ws);
      var k, i :| 0 <= k < |ws| && BracketedAt(s, ws[k], i) && BracketSearch(s, ws).value == s[i + 1..i + 1 + |ws[k]|];
      UpperOfMatch(s, ws[k], i + 1);
    }
  }

  /** `extract_log_level`: the leftmost level word, upper-cased, or the
      bracketed form when the first pattern finds none. */
  function ExtractLogLevel(line: string): Option<string>
  {
    match WordSearch(line, LevelWords)
    case Some(t) => Some(Upper(t))
    case None =>
      match BracketSearch(line, LevelWords)
      case Some(t) => Some(Upper(t))
      case None => None
  }

  /** Whatever level is found is one of the level names, upper-case. */
  lemma ExtractedIsLevel(line: string)
    ensures ExtractLogLevel(line).Some? ==> IsLevel(ExtractLogLevel(line).value)
  {
    LevelWordsUpper();
    FoundUpper(line, LevelWords);
  }

  /** A line has no level exactly when no level word occurs in it as a
      whole word, in any case. */
  lemma NoLevel(line: string)
    ensures ExtractLogLevel(line).None? <==> forall k :: 0 <= k < |LevelWords| ==> !HasWordCI(line, LevelWords[k])
  {
    BracketNeverDecides(line, LevelWords);
    WordSearchFinds(line, LevelWords);
  }

  /** "WARN" is listed before "WARNING", but as a whole word it does not
      match inside "WARNING", so the longer name is found. */
  lemma WarningNotWarn()
    ensures ExtractLogLevel("WARNING: low disk") == Some("WARNING")
  {
    var s := "WARNING: low disk";
    assert LevelWords[0] == "DEBUG" && LevelWords[1] == "INFO" && LevelWords[2] == "WARN" && LevelWords[3] == "WARNING";
    assert LowerChar(s[0 + 0]) != LowerChar(LevelWords[0][0]) && LowerChar(s[0 + 0]) != LowerChar(LevelWords[1][0]);
    assert IsWordChar(s[4]);
    assert WordAtCI(s, LevelWords[3], 0);
    WordMatchAtFirst(s, LevelWords, 0, 3);
    assert s[0..7] == "WARNING";
    var f := i => WordMatchAt(s, LevelWords, i);
    assert WordSearch(s, LevelWords) == Search(f, 0, |s|);
    assert f(0) == Some("WARNING");
    assert WordSearch(s, LevelWords) == Some("WARNING");
    LevelWordsUpper();
    assert UpperWord(LevelWords[3]);
    UpperOfMatch(s, LevelWords[3], 0);
  }

  /** `analyze_log_levels`: counts per level, leaving out lines without
      one. */
  method AnalyzeLogLevels(lines: seq<string>) returns (levels: map<string, nat>)
    ensures levels == Tally(FilterMap(lines, ExtractLogLevel))
  {
    levels := map[];
    ghost var found: seq<string> := [];
    for i := 0 to |lines|
      invariant found == FilterMap(lines[..i], ExtractLogLevel)
      invariant levels == Tally(found)
    {
      FilterMapPrefix(lines, i, ExtractLogLevel);
      var level := ExtractLogLevel(lines[i]);
      if level.Some? {
        TallySnoc(found, level.value);
        levels := levels[level.value := CountOf(levels, level.value) + 1];
        found := found + [level.value];
      }
    }
    assert lines[..|lines|] == lines;
  }

  lemma LevelWordsUnique()
    ensures Unique(LevelWords)
  {
  }

  /** The counts are keyed by upper-case level names only, a name appears
      exactly when some line has that level, and the counts add up to at
      most the number of lines. */
  lemma LogLevelCounts(lines: seq<string>)
    ensures var m := Tally(FilterMap(lines, ExtractLogLevel));
      (forall k :: k in m ==> IsLevel(k)) &&
      (forall k :: k in m <==> exists i :: 0 <= i < |lines| && ExtractLogLevel(lines[i]) == Some(k)) &&
      SumOver(m, LevelWords) <= |lines|
  {
    LevelsAreLevelWords(lines);
    LevelWordsUnique();
    ClassCounts(lines, ExtractLogLevel, LevelWords);
  }

  lemma LevelsAreLevelWords(lines: seq<string>)
    ensures forall x :: x in FilterMap(lines, ExtractLogLevel) ==> x in LevelWords
  {
    FilterMapMembers(lines, ExtractLogLevel);
    forall x | x in FilterMap(lines, ExtractLogLevel) ensures x in LevelWords {
      var i :| 0 <= i < |lines| && ExtractLogLevel(lines[i]) == Some(x);
      ExtractedIsLevel(lines[i]);
    }
  }

  // ---------------------------------------------------------------------
  // Errors and warnings
  // ---------------------------------------------------------------------

  datatype IssueType = ErrorIssue | WarningIssue

  datatype Issue = Issue(issueType: IssueType, content: string)

  const ErrorKeywords: seq<string> := ["error", "fail", "exception", "critical", "fatal"]
  const WarningKeywords: seq<string> := ["warn", "warning"]
  const MaxIssues: nat := 20

  /** Error keywords are tried before warning keywords, each as a whole
      word and ignoring case. */
  function IssueTypeOf(line: string): Option<IssueType>
  {
    if HasAnyWordCI(line, ErrorKeywords) then Some(ErrorIssue)
    else if HasAnyWordCI(line, WarningKeywords) then Some(WarningIssue)
    else None
  }

  /** The issue a line reports, if any. */
  function IssueOf(line: string): Option<Issue>
  {
    match IssueTypeOf(line)
    case Some(t) => Some(Issue(t, line))
    case None => None
  }

  /** `detect_errors_warnings`: one issue per line with error or warning
      keywords, in order, and the last 20 of them. */
  method DetectErrorsWarnings(lines: seq<string>) returns (issues: seq<Issue>)
    ensures issues == LastN(FilterMap(lines, IssueOf), MaxIssues)
  {
    var found: seq<Issue> := [];
    for i := 0 to |lines|
      invariant found == FilterMap(lines[..i], IssueOf)
    {
      FilterMapPrefix(lines, i, IssueOf);
      var t := IssueTypeOf(lines[i]);
      if t.Some? {
        found := found + [Issue(t.value, lines[i])];
      }
    }
    assert lines[..|lines|] == lines;
    issues := LastN(found, MaxIssues);
  }

  /** Every issue reported is a line of the input with the type that line
      has; every line with a type is reported unless more than 20 later
      issues push it out; and at most 20 come back, the most recent ones in
      the order of the lines. */
  lemma ReportedIssues(lines: seq<string>)
    ensures var all := FilterMap(lines, IssueOf); var r := LastN(all, MaxIssues);
      (forall x :: x in r ==> x.content in lines && IssueTypeOf(x.content) == Some(x.issueType)) &&
      (forall i :: 0 <= i < |lines| && IssueTypeOf(lines[i]).Some? ==> Issue(IssueTypeOf(lines[i]).value, lines[i]) in all) &&
      |r| <= MaxIssues && r == all[|all| - |r|..] && (|all| <= MaxIssues ==> r == all)
  {
    var all := FilterMap(lines, IssueOf);
    LastNFacts(all, MaxIssues);
    IssuesFromLines(lines);
    TypedLinesFound(lines);
    forall x | x in LastN(all, MaxIssues) ensures x in all {
    }
  }

  /** Each issue found is a line of the input with that line's type. */
  lemma IssuesFromLines(lines: seq<string>)
    ensures forall x :: x in FilterMap(lines, IssueOf) ==> x.content in lines && IssueTypeOf(x.content) == Some(x.issueType)
  {
    FilterMapMembers(lines, IssueOf);
    forall x | x in FilterMap(lines, IssueOf) ensures x.content in lines && IssueTypeOf(x.content) == Some(x.issueType) {
      var i :| 0 <= i < |lines| && IssueOf(lines[i]) == Some(x);
    }
  }

  /** Each line that has a type is found. */
  lemma TypedLinesFound(lines: seq<string>)
    ensures forall i :: 0 <= i < |lines| && IssueTypeOf(lines[i]).Some? ==> Issue(IssueTypeOf(lines[i]).value, lines[i]) in FilterMap(lines, IssueOf)
  {
    FilterMapMembers(lines, IssueOf);
    forall i | 0 <= i < |lines| && IssueTypeOf(lines[i]).Some? ensures Issue(IssueTypeOf(lines[i]).value, lines[i]) in FilterMap(lines, IssueOf) {
      assert IssueOf(lines[i]) == Some(Issue(IssueTypeOf(lines[i]).value, lines[i]));
    }
  }

  /** A line with both kinds of keyword is an error. */
  lemma ErrorOverWarning()
    ensures IssueTypeOf("warning: disk error") == Some(ErrorIssue)
  {
    assert WordAtCI("warning: disk error", ErrorKeywords[0], 14);
  }

  /** Keywords count only as whole words: a plural is not one. */
  lemma PluralIsNoIssue()
    ensures IssueTypeOf("errors") == None
  {
  }

  // ---------------------------------------------------------------------
  // Sources
  // ---------------------------------------------------------------------

  /** A source name: a non-empty run of word characters found in the line. */
  predicate TagIn(s: string, t: string)
  {
    t != [] && (forall k :: 0 <= k < |t| ==> IsWordChar(t[k])) && Contains(s, t)
  }

  /** `\b(\w+)\[\d+\]:` at `i`, as in `sshd[1234]:`. The word run is
      maximal, since the next character must be a bracket. */
  function PidTagAt(s: string, i: int): (r: Option<string>)
    ensures r.Some? ==> TagIn(s, r.value)
  {
    if 0 <= i < |s| && WordStart(s, i) && IsWordChar(s[i]) then
      var e := RunEnd(s, i, IsWordChar);
      if e < |s| && s[e] == '[' then
        var f := RunEnd(s, e + 1, IsDigit);
        if f > e + 1 && f + 1 < |s| && s[f] == ']' && s[f + 1] == ':' then
          assert OccursAt(s, s[i..e], i);
          Some(s[i..e])
        else None
      else None
    else None
  }

  /** `\b(\w+):` at `i`. */
  function ColonTagAt(s: string, i: int): (r: Option<string>)
    ensures r.Some? ==> TagIn(s, r.value)
  {
    if 0 <= i < |s| && WordStart(s, i) && IsWordChar(s[i]) then
      var e := RunEnd(s, i, IsWordChar);
      if e < |s| && s[e] == ':' then
        assert OccursAt(s, s[i..e], i);
        Some(s[i..e])
      else None
    else None
  }

  /** `\[(\w+)\]` at `i`. */
  function BracketTagAt(s: string, i: int): (r: Option<string>)
    ensures r.Some? ==> TagIn(s, r.value)
  {
    if 0 <= i && i + 1 < |s| && s[i] == '[' then
      var e := RunEnd(s, i + 1, IsWordChar);
      if e > i + 1 && e < |s| && s[e] == ']' then
        assert OccursAt(s, s[i + 1..e], i + 1);
        Some(s[i + 1..e])
      else None
    else None
  }

  /** `extract_source`: the first of the three patterns that matches, at
      its leftmost match; "unknown" when none matches. */
  function ExtractSource(line: string): string
  {
    match Search(i => PidTagAt(line, i), 0, |line|)
    case Some(t) => t
    case None =>
      match Search(i => ColonTagAt(line, i), 0, |line|)
      case Some(t) => t
      case None =>
        match Search(i => BracketTagAt(line, i), 0, |line|)
        case Some(t) => t
        case None => "unknown"
  }

  /** The source is a word-character run from the line, or "unknown". */
  lemma SourceIsTag(line: string)
    ensures ExtractSource(line) == "unknown" || TagIn(line, ExtractSource(line))
  {
    var f := i => PidTagAt(line, i);
    var g := i => ColonTagAt(line, i);
    var h := i => BracketTagAt(line, i);
    SearchFinds(f, 0, |line|);
    SearchFinds(g, 0, |line|);
    SearchFinds(h, 0, |line|);
    if Search(f, 0, |line|).Some? {
      var i :| 0 <= i <= |line| && f(i) == Search(f, 0, |line|);
      assert PidTagAt(line, i).Some?;
    } else if Search(g, 0, |line|).Some? {
      var i :| 0 <= i <= |line| && g(i) == Search(g, 0, |line|);
      assert ColonTagAt(line, i).Some?;
    } else if Search(h, 0, |line|).Some? {
      var i :| 0 <= i <= |line| && h(i) == Search(h, 0, |line|);
      assert BracketTagAt(line, i).Some?;
    }
  }

  /** When none of the three patterns matches anywhere, the source is
      "unknown". */
  lemma SourceUnknown(line: string)
    requires forall i :: 0 <= i <= |line| ==> PidTagAt(line, i).None? && ColonTagAt(line, i).None? && BracketTagAt(line, i).None?
    ensures ExtractSource(line) == "unknown"
  {
    var f := i => PidTagAt(line, i);
    var g := i => ColonTagAt(line, i);
    var h := i => BracketTagAt(line, i);
    assert forall i :: 0 <= i <= |line| ==> f(i).None? && g(i).None? && h(i).None?;
    SearchFinds(f, 0, |line|);
    SearchFinds(g, 0, |line|);
    SearchFinds(h, 0, |line|);
  }

  /** The `name[pid]:` pattern comes first: when it matches anywhere, the
      source is its leftmost match. */
  lemma SourcePidFirst(line: string)
    requires exists i :: 0 <= i <= |line| && PidTagAt(line, i).Some?
    ensures exists i :: 0 <= i <= |line| && PidTagAt(line, i) == Some(ExtractSource(line)) && (forall j :: 0 <= j < i ==> PidTagAt(line, j).None?)
  {
    var f := i => PidTagAt(line, i);
    SearchFinds(f, 0, |line|);
    var k :| 0 <= k <= |line| && PidTagAt(line, k).Some?;
    assert f(k).Some?;
    assert Search(f, 0, |line|).Some?;
    assert ExtractSource(line) == Search(f, 0, |line|).value;
    var i :| 0 <= i <= |line| && f(i) == Search(f, 0, |line|) && forall j :: 0 <= j < i ==> f(j).None?;
    forall j | 0 <= j < i ensures PidTagAt(line, j).None? {
      assert f(j).None?;
    }
  }

  /** A syslog-style line `name[pid]: ...` has `name` as its source. */
  lemma SourceOfPidPrefix(name: string, pid: string, rest: string)
    requires name != [] && forall k :: 0 <= k < |name| ==> IsWordChar(name[k])
    requires pid != [] && forall k :: 0 <= k < |pid| ==> IsDigit(pid[k])
    ensures ExtractSource(name + "[" + pid + "]:" + rest) == name
  {
    var s := name + "[" + pid + "]:" + rest;
    var e := RunEnd(s, 0, IsWordChar);
    assert forall k :: 0 <= k < |name| ==> s[k] == name[k];
    assert s[|name|] == '[';
    assert e == |name|;
    var f := RunEnd(s, |name| + 1, IsDigit);
    assert forall k :: 0 <= k < |pid| ==> s[|name| + 1 + k] == pid[k];
    assert s[|name| + 1 + |pid|] == ']' && s[|name| + 2 + |pid|] == ':';
    assert f == |name| + 1 + |pid|;
    assert s[0..|name|] == name;
    assert PidTagAt(s, 0) == Some(name);
  }

  // ---------------------------------------------------------------------
  // Error types
  // ---------------------------------------------------------------------

  datatype ErrorType = Timeout | Connection | Permission | Authentication | FileSystem | General

  function ErrorTypeName(t: ErrorType): string
  {
    match t
    case Timeout => "timeout"
    case Connection => "connection"
    case Permission => "permission"
    case Authentication => "authentication"
    case FileSystem => "filesystem"
    case General => "general"
  }

  /** `\bfile|directory\b`: the alternation binds loosest, so this is "file"
      at the start of a word, or "directory" at the end of one. */
  predicate MentionsFileSystem(s: string)
  {
    (exists i :: 0 <= i <= |s| && OccursAtCI(s, "file", i) && WordStart(s, i)) ||
    (exists i :: 0 <= i <= |s| && OccursAtCI(s, "directory", i) && WordEnd(s, i + 9))
  }

  /** `extract_error_type`: timeout, connection, permission and
      authentication as whole words, in that order, then the file-system
      test, else general. */
  function ExtractErrorType(line: string): ErrorType
  {
    if HasWordCI(line, "timeout") then Timeout
    else if HasWordCI(line, "connection") then Connection
    else if HasWordCI(line, "permission") then Permission
    else if HasWordCI(line, "authentication") then Authentication
    else if MentionsFileSystem(line) then FileSystem
    else General
  }

  /** The tests are tried in order: a timed-out connection is a timeout. */
  lemma TimeoutBeforeConnection()
    ensures ExtractErrorType("Connection timeout") == Timeout
  {
    assert WordAtCI("Connection timeout", "timeout", 11);
  }

  /** "file" needs only a word boundary in front and "directory" only one
      behind, so longer words that start or end with them count. */
  lemma FileStartsWord()
    ensures ExtractErrorType("filename") == FileSystem
  {
    assert OccursAtCI("filename", "file", 0) && WordStart("filename", 0);
  }

  lemma DirectoryEndsWord()
    ensures ExtractErrorType("subdirectory") == FileSystem
  {
    assert OccursAtCI("subdirectory", "directory", 3) && WordEnd("subdirectory", 12);
  }

  /** "file" inside a word does not count. */
  lemma FileInsideWord()
    ensures ExtractErrorType("profile") == General
  {
    var s := "profile";
    forall i | 0 <= i <= |s| ensures !(OccursAtCI(s, "file", i) && WordStart(s, i)) {
      if i == 3 {
        assert IsWordChar(s[2]);
      } else if i < 3 {
        assert LowerChar(s[i + 0]) != LowerChar("file"[0]);
      }
    }
    assert !OccursAtCI(s, "timeout", 0) by {
      assert LowerChar(s[0]) != LowerChar("timeout"[0]);
    }
  }
}
