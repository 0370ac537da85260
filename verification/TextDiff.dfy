/** The line diff: a table of common-subsequence lengths, and the edit script read off it. */
module TextDiff {
  import opened Prelude
  import Printer

  type Lines = seq<string>

  // ----- Common subsequences

  /** `c` is left of `a` after deleting some lines. */
  predicate Subsequence(c: Lines, a: Lines) {
    c == [] || (a != [] && ((c[0] == a[0] && Subsequence(c[1..], a[1..])) || Subsequence(c, a[1..])))
  }

  function Lcs(a: Lines, b: Lines): nat
    decreases |a| + |b|
  {
    if a == [] || b == [] then 0
    else if a[0] == b[0] then Lcs(a[1..], b[1..]) + 1
    else if Lcs(a[1..], b) < Lcs(a, b[1..]) then Lcs(a, b[1..]) else Lcs(a[1..], b)
  }

  lemma {:induction false} SubsequenceTail(c: Lines, a: Lines)
    requires c != [] && Subsequence(c, a)
    ensures Subsequence(c[1..], a)
    decreases |a|
  {
    if Subsequence(c, a[1..]) {
      SubsequenceTail(c, a[1..]);
      SubsequenceMore(c[1..], a[1..], a[0]);
      assert [a[0]] + a[1..] == a;
    } else {
      SubsequenceMore(c[1..], a[1..], a[0]);
      assert [a[0]] + a[1..] == a;
    }
  }

  lemma SubsequenceMore(c: Lines, a: Lines, line: string)
    requires Subsequence(c, a)
    ensures Subsequence(c, [line] + a)
  {
    assert ([line] + a)[1..] == a;
  }

  lemma {:induction false} SubsequenceShort(c: Lines, a: Lines)
    requires Subsequence(c, a)
    ensures |c| <= |a|
    decreases |a|
  {
    if c != [] {
      if Subsequence(c, a[1..]) {
        SubsequenceShort(c, a[1..]);
      } else {
        SubsequenceShort(c[1..], a[1..]);
      }
    }
  }

  /** No common subsequence is longer than the table says. */
  lemma {:induction false} LcsIsLongest(a: Lines, b: Lines, c: Lines)
    requires Subsequence(c, a) && Subsequence(c, b)
    ensures |c| <= Lcs(a, b)
    decreases |a| + |b|
  {
    if c != [] {
      if a[0] == b[0] {
        if c[0] == a[0] {
          if Subsequence(c, a[1..]) {
            SubsequenceTail(c, a[1..]);
          }
          if Subsequence(c, b[1..]) {
            SubsequenceTail(c, b[1..]);
          }
          LcsIsLongest(a[1..], b[1..], c[1..]);
        } else {
          LcsIsLongest(a[1..], b[1..], c);
        }
      } else if c[0] == a[0] {
        LcsIsLongest(a, b[1..], c);
      } else {
        LcsIsLongest(a[1..], b, c);
      }
    }
  }

  // ----- The script

  function Removed(line: string): string {
    "-" + line
  }

  function Added(line: string): string {
    "+" + line
  }

  function All(lines: Lines, mark: string): Lines {
    if lines == [] then [] else [mark + lines[0]] + All(lines[1..], mark)
  }

  function Script(a: Lines, b: Lines): Lines
    decreases |a| + |b|
  {
    if a == [] then All(b, "+")
    else if b == [] then All(a, "-")
    else if a[0] == b[0] then Script(a[1..], b[1..])
    else if Lcs(a[1..], b) >= Lcs(a, b[1..]) then [Removed(a[0])] + Script(a[1..], b)
    else [Added(b[0])] + Script(a, b[1..])
  }

  /** The lines the script keeps. */
  function Common(a: Lines, b: Lines): Lines
    decreases |a| + |b|
  {
    if a == [] || b == [] then []
    else if a[0] == b[0] then [a[0]] + Common(a[1..], b[1..])
    else if Lcs(a[1..], b) >= Lcs(a, b[1..]) then Common(a[1..], b)
    else Common(a, b[1..])
  }

  /** The lines of a script that carry the mark, without it. */
  function Marked(script: Lines, mark: char): Lines {
    if script == [] then []
    else (if script[0] != "" && script[0][0] == mark then [script[0][1..]] else []) + Marked(script[1..], mark)
  }

  /** `lines` is `kept` with the `deleted` lines put back in between, both in order. */
  predicate Merges(lines: Lines, kept: Lines, deleted: Lines) {
    if lines == [] then kept == [] && deleted == []
    else || (kept != [] && kept[0] == lines[0] && Merges(lines[1..], kept[1..], deleted))
         || (deleted != [] && deleted[0] == lines[0] && Merges(lines[1..], kept, deleted[1..]))
  }

  lemma {:induction false} AllMarked(lines: Lines, mark: char, other: char)
    requires mark != other
    ensures Marked(All(lines, [mark]), mark) == lines && Marked(All(lines, [mark]), other) == []
    ensures |All(lines, [mark])| == |lines|
  {
    if lines != [] {
      var all := All(lines, [mark]);
      assert all[0] == [mark] + lines[0] && all[0][1..] == lines[0];
      assert all[1..] == All(lines[1..], [mark]);
      AllMarked(lines[1..], mark, other);
    }
  }

  lemma {:induction false} MergesDeleted(lines: Lines)
    ensures Merges(lines, [], lines)
  {
    if lines != [] {
      MergesDeleted(lines[1..]);
    }
  }

  lemma MarkedFirst(line: string, script: Lines, mark: char)
    ensures Marked([Removed(line)] + script, mark) == (if mark == '-' then [line] else []) + Marked(script, mark)
    ensures Marked([Added(line)] + script, mark) == (if mark == '+' then [line] else []) + Marked(script, mark)
  {
    assert ([Removed(line)] + script)[1..] == script && ([Added(line)] + script)[1..] == script;
    assert Removed(line)[1..] == line && Added(line)[1..] == line;
  }

  /** Deleting the `-` lines from `a` and the `+` lines from `b` leaves the same lines. */
  lemma {:induction false} ScriptIsCorrect(a: Lines, b: Lines)
    ensures Merges(a, Common(a, b), Marked(Script(a, b), '-'))
    ensures Merges(b, Common(a, b), Marked(Script(a, b), '+'))
    decreases |a| + |b|
  {
    if a == [] {
      AllMarked(b, '+', '-');
      MergesDeleted(b);
    } else if b == [] {
      AllMarked(a, '-', '+');
      MergesDeleted(a);
    } else if a[0] == b[0] {
      ScriptIsCorrect(a[1..], b[1..]);
      assert Common(a, b)[1..] == Common(a[1..], b[1..]);
    } else if Lcs(a[1..], b) >= Lcs(a, b[1..]) {
      ScriptIsCorrect(a[1..], b);
      var rest := Script(a[1..], b);
      MarkedFirst(a[0], rest, '-');
      MarkedFirst(a[0], rest, '+');
      assert ([a[0]] + Marked(rest, '-'))[1..] == Marked(rest, '-');
      assert [] + Marked(rest, '+') == Marked(rest, '+');
    } else {
      ScriptIsCorrect(a, b[1..]);
      var rest := Script(a, b[1..]);
      MarkedFirst(b[0], rest, '-');
      MarkedFirst(b[0], rest, '+');
      assert ([b[0]] + Marked(rest, '+'))[1..] == Marked(rest, '+');
      assert [] + Marked(rest, '-') == Marked(rest, '-');
    }
  }

  /** What is kept is a longest common subsequence, and the script has one line for every other line. */
  lemma {:induction false} ScriptLength(a: Lines, b: Lines)
    ensures |Common(a, b)| == Lcs(a, b)
    ensures |Script(a, b)| + 2 * Lcs(a, b) == |a| + |b|
    decreases |a| + |b|
  {
    if a == [] {
      AllMarked(b, '+', '-');
    } else if b == [] {
      AllMarked(a, '-', '+');
    } else if a[0] == b[0] {
      ScriptLength(a[1..], b[1..]);
    } else if Lcs(a[1..], b) >= Lcs(a, b[1..]) {
      ScriptLength(a[1..], b);
    } else {
      ScriptLength(a, b[1..]);
    }
  }

  lemma {:induction false} MergesSubsequence(lines: Lines, kept: Lines, deleted: Lines)
    requires Merges(lines, kept, deleted)
    ensures Subsequence(kept, lines) && |lines| == |kept| + |deleted|
    decreases |lines|
  {
    if lines != [] {
      if kept != [] && kept[0] == lines[0] && Merges(lines[1..], kept[1..], deleted) {
        MergesSubsequence(lines[1..], kept[1..], deleted);
      } else {
        MergesSubsequence(lines[1..], kept, deleted[1..]);
      }
    }
  }

  /** No way of deleting lines from both texts until they agree deletes fewer than the script does. */
  lemma ScriptIsMinimal(a: Lines, b: Lines, kept: Lines, minus: Lines, plus: Lines)
    requires Merges(a, kept, minus) && Merges(b, kept, plus)
    ensures |Script(a, b)| <= |minus| + |plus|
  {
    MergesSubsequence(a, kept, minus);
    MergesSubsequence(b, kept, plus);
    LcsIsLongest(a, b, kept);
    ScriptLength(a, b);
  }

  lemma {:induction false} SubsequenceWhole(c: Lines, a: Lines)
    requires Subsequence(c, a) && |c| == |a|
    ensures c == a
    decreases |a|
  {
    if c != [] {
      if Subsequence(c, a[1..]) {
        SubsequenceShort(c, a[1..]);
      }
      SubsequenceWhole(c[1..], a[1..]);
    }
  }

  /** The script is empty exactly when the texts have the same lines. */
  lemma ScriptIsEmpty(a: Lines, b: Lines)
    ensures Script(a, b) == [] <==> a == b
  {
    ScriptLength(a, b);
    ScriptIsCorrect(a, b);
    MergesSubsequence(a, Common(a, b), Marked(Script(a, b), '-'));
    MergesSubsequence(b, Common(a, b), Marked(Script(a, b), '+'));
    SubsequenceShort(Common(a, b), a);
    SubsequenceShort(Common(a, b), b);
    if Script(a, b) == [] {
      SubsequenceWhole(Common(a, b), a);
      SubsequenceWhole(Common(a, b), b);
    } else if a == b {
      SelfSubsequence(a);
      LcsIsLongest(a, b, a);
    }
  }

  lemma {:induction false} SelfSubsequence(a: Lines)
    ensures Subsequence(a, a)
  {
    if a != [] {
      SelfSubsequence(a[1..]);
    }
  }

  // ----- The algorithm

  ghost predicate RowDone(table: array2<nat>, a: Lines, b: Lines, i: nat, from: nat)
    reads table
    requires table.Length0 == |a| + 1 && table.Length1 == |b| + 1 && i <= |a|
  {
    forall j | from <= j <= |b| :: table[i, j] == Lcs(a[i..], b[j..])
  }

  /** Fills row `i` from its right end: each cell from its right, lower and diagonal neighbours. */
  method FillRow(table: array2<nat>, a: Lines, b: Lines, i: nat)
    requires table.Length0 == |a| + 1 && table.Length1 == |b| + 1 && i < |a|
    requires RowDone(table, a, b, i + 1, 0) && table[i, |b|] == 0
    modifies table
    ensures RowDone(table, a, b, i, 0)
    ensures forall k, j | 0 <= k <= |a| && k != i && 0 <= j <= |b| :: table[k, j] == old(table[k, j])
  {
    var j := |b|;
    assert b[|b|..] == [];
    while j > 0
      invariant 0 <= j <= |b|
      invariant RowDone(table, a, b, i, j)
      invariant forall k, j | 0 <= k <= |a| && k != i && 0 <= j <= |b| :: table[k, j] == old(table[k, j])
    {
      j := j - 1;
      assert a[i..][1..] == a[i + 1..] && b[j..][1..] == b[j + 1..];
      assert table[i + 1, j] == Lcs(a[i + 1..], b[j..]) && table[i + 1, j + 1] == Lcs(a[i + 1..], b[j + 1..]);
      var cell := if a[i] == b[j] then table[i + 1, j + 1] + 1
                  else if table[i + 1, j] < table[i, j + 1] then table[i, j + 1] else table[i + 1, j];
      assert cell == Lcs(a[i..], b[j..]);
      table[i, j] := cell;
    }
  }

  /** Fills the table from the far corner, one row at a time. */
  method FillTable(a: Lines, b: Lines) returns (table: array2<nat>)
    ensures fresh(table) && table.Length0 == |a| + 1 && table.Length1 == |b| + 1
    ensures forall i | 0 <= i <= |a| :: RowDone(table, a, b, i, 0)
  {
    table := new nat[|a| + 1, |b| + 1]((i, j) => 0);
    var i := |a|;
    assert a[|a|..] == [];
    while i > 0
      invariant 0 <= i <= |a|
      invariant forall k | i <= k <= |a| :: RowDone(table, a, b, k, 0)
      invariant forall k | 0 <= k < i :: table[k, |b|] == 0
    {
      i := i - 1;
      label Before:
      FillRow(table, a, b, i);
      forall k | i < k <= |a| ensures RowDone(table, a, b, k, 0) {
        assert old@Before(RowDone(table, a, b, k, 0));
      }
    }
  }

  method TextDiff(textA: string, textB: string) returns (out: Lines)
    ensures out == Script(Printer.LinesOf(textA), Printer.LinesOf(textB))
  {
    var a, b := Printer.LinesOf(textA), Printer.LinesOf(textB);
    var table := FillTable(a, b);
    out := [];
    var i, j := 0, 0;
    assert a[0..] == a && b[0..] == b;
    assert [] + Script(a, b) == Script(a, b);
    while i < |a| && j < |b|
      invariant i <= |a| && j <= |b|
      invariant forall k | 0 <= k <= |a| :: RowDone(table, a, b, k, 0)
      invariant out + Script(a[i..], b[j..]) == Script(a, b)
    {
      assert a[i..][1..] == a[i + 1..] && b[j..][1..] == b[j + 1..];
      if a[i] == b[j] {
        i, j := i + 1, j + 1;
      } else {
        assert RowDone(table, a, b, i, 0) && RowDone(table, a, b, i + 1, 0);
        if table[i + 1, j] >= table[i, j + 1] {
          OneMore(out, Removed(a[i]), Script(a[i + 1..], b[j..]));
          out := out + [Removed(a[i])];
          i := i + 1;
        } else {
          OneMore(out, Added(b[j]), Script(a[i..], b[j + 1..]));
          out := out + [Added(b[j])];
          j := j + 1;
        }
      }
    }
    while i < |a|
      invariant i <= |a| && j <= |b| && (i < |a| ==> j == |b|)
      invariant out + Script(a[i..], b[j..]) == Script(a, b)
    {
      assert a[i..][1..] == a[i + 1..] && b[j..] == [];
      ScriptAll(a[i..]);
      ScriptAll(a[i + 1..]);
      OneMore(out, Removed(a[i]), Script(a[i + 1..], b[j..]));
      out := out + [Removed(a[i])];
      i := i + 1;
    }
    while j < |b|
      invariant i == |a| && j <= |b|
      invariant out + Script(a[i..], b[j..]) == Script(a, b)
    {
      assert b[j..][1..] == b[j + 1..] && a[i..] == [];
      OneMore(out, Added(b[j]), Script(a[i..], b[j + 1..]));
      out := out + [Added(b[j])];
      j := j + 1;
    }
    assert Script([], []) == [] && a[i..] == [] && b[j..] == [];
    assert out + [] == out;
  }

  lemma ScriptAll(a: Lines)
    ensures Script(a, []) == All(a, "-")
  {
  }

  lemma OneMore(out: Lines, line: string, rest: Lines)
    ensures out + ([line] + rest) == out + [line] + rest
  {
  }

  // ----- The lines of a text

  /** A line without its break, `\r\n` or `\n`; a return in front of the latter would belong to it. */
  predicate IsLine(line: string, carriage: bool) {
    '\n' !in line && (!carriage && line != "" ==> line[|line| - 1] != '\r')
  }

  /** Lines with a break behind each; some of the breaks have a carriage return. */
  function Broken(lines: Lines, carriages: seq<bool>): string
    requires |carriages| == |lines|
  {
    if lines == [] then ""
    else lines[0] + (if carriages[0] then "\r\n" else "\n") + Broken(lines[1..], carriages[1..])
  }

  lemma NewlineAt(s: string, i: nat, end: nat)
    requires i <= end <= |s| && (forall k | i <= k < end :: s[k] != '\n') && (end < |s| ==> s[end] == '\n')
    ensures Printer.FirstNewline(s, i) == end
    decreases end - i
  {
    if i < end {
      NewlineAt(s, i + 1, end);
    }
  }

  lemma FirstLineRead(line: string, carriage: bool, rest: string)
    requires IsLine(line, carriage)
    ensures Printer.LinesOf(line + (if carriage then "\r\n" else "\n") + rest) == [line] + Printer.LinesOf(rest)
  {
    var s := line + (if carriage then "\r\n" else "\n") + rest;
    var end := if carriage then |line| + 1 else |line|;
    NewlineAt(s, 0, end);
    assert s[end + 1..] == rest && s[..|line|] == line;
    assert line != "" ==> s[|line| - 1] == line[|line| - 1];
  }

  /** A text is read as the lines it is made of; an empty rest behind the last break is no line. */
  lemma {:induction false} LinesRead(lines: Lines, carriages: seq<bool>, last: string)
    requires |carriages| == |lines| && forall i | 0 <= i < |lines| :: IsLine(lines[i], carriages[i])
    requires '\n' !in last
    ensures Printer.LinesOf(Broken(lines, carriages) + last) == lines + if last == "" then [] else [last]
    decreases |lines|
  {
    hide IsLine, Printer.LinesOf;
    if lines == [] {
      assert "" + last == last;
      LastLineRead(last);
    } else {
      var rest := Broken(lines[1..], carriages[1..]) + last;
      FirstLineRead(lines[0], carriages[0], rest);
      LinesRead(lines[1..], carriages[1..], last);
      assert Broken(lines, carriages) + last == lines[0] + (if carriages[0] then "\r\n" else "\n") + rest;
    }
  }

  lemma LastLineRead(last: string)
    requires '\n' !in last
    ensures Printer.LinesOf(last) == if last == "" then [] else [last]
  {
    NewlineAt(last, 0, |last|);
  }
}
