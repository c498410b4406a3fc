/** Lines of a text, by scanning it: where they start and end, and where an offset lies. */
module Lines {
  import opened Options
  import opened Rope

  /** The position of the newline that has `n` newlines before it. */
  function Nth(s: seq<CodePoint>, n: nat): Option<nat>
    decreases |s|
  {
    if s == [] then None
    else if s[0] == NEWLINE && n == 0 then Some(0)
    else
      var p :- Nth(s[1..], if s[0] == NEWLINE then n - 1 else n);
      Some(p + 1)
  }

  lemma {:induction false} CountFirst(s: seq<CodePoint>)
    requires s != []
    ensures Count(s) == Count(s[1..]) + if s[0] == NEWLINE then 1 else 0
  {
    CountAppend([s[0]], s[1..]);
    assert s == [s[0]] + s[1..];
    assert [s[0]][..0] == [];
  }

  /** The search finds the newline with exactly `n` before it, and fails only when there are
      not that many. */
  lemma {:induction false} NthIs(s: seq<CodePoint>, n: nat)
    ensures match Nth(s, n)
            case Some(i) => i < |s| && s[i] == NEWLINE && Count(s[..i]) == n
            case None => Count(s) <= n
    decreases |s|
  {
    if s != [] {
      CountFirst(s);
      if s[0] == NEWLINE && n == 0 {
        assert s[..0] == [];
      } else {
        var n' := if s[0] == NEWLINE then n - 1 else n;
        NthIs(s[1..], n');
        if Nth(s[1..], n').Some? {
          var i := Nth(s[1..], n').value;
          CountFirst(s[..i + 1]);
          assert s[..i + 1][1..] == s[1..][..i];
        }
      }
    }
  }

  lemma CountUpTo(s: seq<CodePoint>, i: nat, j: nat)
    requires i <= j <= |s|
    ensures Count(s[..j]) == Count(s[..i]) + Count(s[i..j])
  {
    CountAppend(s[..i], s[i..j]);
    assert s[..j] == s[..i] + s[i..j];
  }

  lemma CountNewline(s: seq<CodePoint>, i: nat)
    requires i < |s|
    ensures Count(s[..i + 1]) == Count(s[..i]) + if s[i] == NEWLINE then 1 else 0
  {
    assert s[..i + 1][..i] == s[..i];
  }

  /** There is only one such newline. */
  lemma NthUnique(s: seq<CodePoint>, n: nat, i: nat)
    requires i < |s| && s[i] == NEWLINE && Count(s[..i]) == n
    ensures Nth(s, n) == Some(i)
  {
    NthIs(s, n);
    CountNewline(s, i);
    CountUpTo(s, i + 1, |s|);
    assert s[..|s|] == s;
    var j := Nth(s, n).value;
    CountNewline(s, j);
    if j < i {
      CountUpTo(s, j + 1, i);
    } else if i < j {
      CountUpTo(s, i + 1, j);
    }
  }

  // ----- what the buffer answers -----

  function LineCount(s: seq<CodePoint>): nat {
    Count(s) + 1
  }

  function LineStart(s: seq<CodePoint>, line: nat): Option<nat> {
    if line == 0 then Some(0)
    else if line >= LineCount(s) then None
    else
      var p :- Nth(s, line - 1);
      Some(p + 1)
  }

  /** Start and end of a line, its newline not included. */
  function LineRange(s: seq<CodePoint>, line: nat): Option<(nat, nat)> {
    if line >= LineCount(s) then None
    else
      var start :- LineStart(s, line);
      var end := if line + 1 < LineCount(s) && Nth(s, line).Some? then Nth(s, line).value else |s|;
      Some((start, end))
  }

  function OffsetToLineCol(s: seq<CodePoint>, offset: nat): (nat, int) {
    var pos := Least(offset, |s|);
    var nl := Count(s[..pos]);
    var start := if nl > 0 && Nth(s, nl - 1).Some? then Nth(s, nl - 1).value + 1 else 0;
    (nl, pos - start)
  }

  function LineColToOffset(s: seq<CodePoint>, line: nat, col: nat): int {
    var start := if LineStart(s, line).Some? then LineStart(s, line).value else |s|;
    match LineRange(s, line)
    case Some((a, b)) => start + if col < b - a then col else b - a
    case None => start
  }

  // ----- what they mean -----

  /** A line runs from its start, with `line` newlines before it, to the next newline or the
      end of the text, with no newline inside. */
  lemma LineIs(s: seq<CodePoint>, line: nat)
    requires line < LineCount(s)
    ensures var r := LineRange(s, line);
            r.Some? && LineStart(s, line) == Some(r.value.0)
            && var (a, b) := r.value;
               a <= b <= |s| && Count(s[..a]) == line && Count(s[..b]) == line
               && (b < |s| <==> line + 1 < LineCount(s)) && (b < |s| ==> s[b] == NEWLINE)
               && (a > 0 ==> s[a - 1] == NEWLINE) && (line == 0 ==> a == 0)
  {
    assert s[..0] == [] && s[..|s|] == s;
    if line > 0 {
      NthIs(s, line - 1);
      CountNewline(s, Nth(s, line - 1).value);
    }
    NthIs(s, line);
    var a := LineStart(s, line).value;
    if line + 1 < LineCount(s) {
      var b := Nth(s, line).value;
      if b < a {
        CountNewline(s, b);
        CountUpTo(s, b + 1, a);
      }
    }
  }

  /** An offset lies in the line of the newlines before it. */
  lemma OffsetInLine(s: seq<CodePoint>, p: nat, line: nat)
    requires p <= |s| && line < LineCount(s)
    ensures LineRange(s, line).Some?
    ensures var (a, b) := LineRange(s, line).value; (a <= p <= b <==> Count(s[..p]) == line)
  {
    LineIs(s, line);
    var (a, b) := LineRange(s, line).value;
    if p < a {
      CountUpTo(s, p, a - 1);
      CountNewline(s, a - 1);
    } else if p <= b {
      CountUpTo(s, a, p);
      CountUpTo(s, p, b);
    } else {
      CountNewline(s, b);
      CountUpTo(s, b + 1, p);
    }
  }

  lemma CountPrefix(s: seq<CodePoint>, p: nat)
    requires p <= |s|
    ensures Count(s[..p]) <= Count(s)
  {
    CountUpTo(s, p, |s|);
    assert s[..|s|] == s;
  }

  lemma LineColIs(s: seq<CodePoint>, p: nat)
    requires p <= |s|
    ensures var (line, col) := OffsetToLineCol(s, p);
            line == Count(s[..p]) && line < LineCount(s) && LineStart(s, line).Some?
            && col == p - LineStart(s, line).value
  {
    CountPrefix(s, p);
    LineIs(s, Count(s[..p]));
  }

  /** From an offset to line and column and back. */
  lemma OffsetRoundTrip(s: seq<CodePoint>, p: nat)
    requires p <= |s|
    ensures var (line, col) := OffsetToLineCol(s, p);
            col >= 0 && LineColToOffset(s, line, col) == p
  {
    var line := Count(s[..p]);
    LineColIs(s, p);
    LineIs(s, line);
    OffsetInLine(s, p, line);
  }

  /** From line and column to the offset and back: the column is clamped to the line. */
  lemma LineColRoundTrip(s: seq<CodePoint>, line: nat, col: nat)
    requires line < LineCount(s)
    ensures LineRange(s, line).Some?
    ensures var (a, b) := LineRange(s, line).value;
            var p := LineColToOffset(s, line, col);
            a <= b && 0 <= p <= |s|
            && OffsetToLineCol(s, p) == (line, Least(col, b - a))
  {
    LineIs(s, line);
    var p := LineColToOffset(s, line, col);
    OffsetInLine(s, p, line);
    LineColIs(s, p);
  }

  /** There is no line past the last: it has no start and no range, and its offset is the end. */
  lemma PastTheLastLine(s: seq<CodePoint>, line: nat, col: nat)
    ensures LineStart(s, line).None? <==> line > Count(s)
    ensures LineRange(s, line).None? <==> line > Count(s)
    ensures line > Count(s) ==> LineColToOffset(s, line, col) == |s|
  {
    hide Nth, Count;
    if line <= Count(s) {
      LineIs(s, line);
    }
  }

  /** The lines from `line` on, joined by newlines. */
  function JoinedFrom(s: seq<CodePoint>, line: nat): seq<CodePoint>
    requires line < LineCount(s)
    decreases LineCount(s) - line
  {
    LineIs(s, line);
    var (a, b) := LineRange(s, line).value;
    if line + 1 == LineCount(s) then s[a..b] else s[a..b] + [NEWLINE] + JoinedFrom(s, line + 1)
  }

  lemma NextLine(s: seq<CodePoint>, line: nat)
    requires line + 1 < LineCount(s)
    ensures LineRange(s, line).Some? && LineRange(s, line + 1).Some?
    ensures LineRange(s, line + 1).value.0 == LineRange(s, line).value.1 + 1
  {
    LineIs(s, line);
    LineIs(s, line + 1);
  }

  lemma {:induction false} JoinedIs(s: seq<CodePoint>, line: nat)
    requires line < LineCount(s)
    ensures LineRange(s, line).Some? && LineRange(s, line).value.0 <= |s|
    ensures JoinedFrom(s, line) == s[LineRange(s, line).value.0..]
    decreases LineCount(s) - line
  {
    hide LineRange, LineCount, LineStart, Count;
    LineIs(s, line);
    var (a, b) := LineRange(s, line).value;
    if line + 1 < LineCount(s) {
      NextLine(s, line);
      JoinedIs(s, line + 1);
      CutAt(s, a, b);
    }
  }

  lemma CutAt(s: seq<CodePoint>, a: nat, b: nat)
    requires a <= b < |s|
    ensures s[a..] == s[a..b] + [s[b]] + s[b + 1..]
  {
  }

  /** The lines joined by newlines are the text. */
  lemma LinesJoin(s: seq<CodePoint>)
    ensures JoinedFrom(s, 0) == s
  {
    LineIs(s, 0);
    JoinedIs(s, 0);
    assert s[0..] == s;
  }
}
