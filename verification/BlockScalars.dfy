/**
 Block scalars in source text. A header line and indented lines below it lex to one token whose text
 is given by the lines as they were meant, without any function of the lexer.
 */
module BlockScalars {
  import opened Prelude
  import opened Syntax
  import opened Numbers
  import opened Lexing
  import opened ValueText
  import opened LexedText
  import opened LexedSource
  import opened Values
  import P = Printer

  // ----- How a block scalar is written

  predicate Spaces(s: string) {
    forall k | 0 <= k < |s| :: s[k] == ' '
  }

  /** Lines with line breaks between them and none behind the last. */
  function Joined(lines: seq<string>): string {
    if lines == [] then "" else if |lines| == 1 then lines[0] else lines[0] + "\n" + Joined(lines[1..])
  }

  function Breaks(n: nat): (s: string)
    ensures |s| == n && forall k | 0 <= k < n :: s[k] == '\n'
  {
    seq(n, _ => '\n')
  }

  /**
   A block scalar: its indicator, how its end is chomped, the digit that may give its indentation, the
   characters behind the indicator, what else stands on that line, its lines and how they are written,
   and the blank lines behind them.
   */
  datatype Block = Block(indicator: BlockIndicator, chomping: Chomping, digit: Option<nat>, marks: string, tail: string,
    lines: seq<string>, written: seq<string>, blanks: seq<string>)

  function ChompMark(chomping: Chomping): string {
    match chomping
    case Clip => ""
    case Keep => "+"
    case Strip => "-"
  }

  function DigitMark(digit: Option<nat>): string
    requires digit.Some? ==> 1 <= digit.value <= 9
  {
    if digit.Some? then [Digit(digit.value)] else ""
  }

  function HeaderText(b: Block): string {
    (if b.indicator.Literal? then "|" else ">") + b.marks + b.tail
  }

  function BodyText(b: Block): string {
    Unlines(b.written) + Unlines(b.blanks)
  }

  /** The marks come in either order, and a blank or a comment may follow them. */
  ghost predicate HeaderOk(b: Block) {
    && (b.digit.Some? ==> 1 <= b.digit.value <= 9)
    && (|| b.marks == ChompMark(b.chomping) + DigitMark(b.digit)
        || b.marks == DigitMark(b.digit) + ChompMark(b.chomping))
    && Clean(b.tail) && (b.tail != "" ==> b.tail[0] == ' ' || b.tail[0] == '\t' || b.tail[0] == '#')
  }

  /** A line is written behind `width` spaces; an empty one may have fewer. */
  predicate WrittenAs(line: string, written: string, width: nat) {
    written == P.Pad(width) + line || (line == "" && Spaces(written) && |written| <= width)
  }

  /** The first line with content starts with something other than a space. */
  predicate StartsFlush(lines: seq<string>) {
    lines == [] || (if Spaces(lines[0]) then StartsFlush(lines[1..]) else lines[0][0] != ' ')
  }

  /** All lines stand `width` in, which is what the digit says, or deeper than the header's line. */
  ghost predicate BodyOk(b: Block, indent: nat, width: nat) {
    && |b.written| == |b.lines|
    && (forall i | 0 <= i < |b.lines| :: Clean(b.lines[i]) && WrittenAs(b.lines[i], b.written[i], width))
    && (forall i | 0 <= i < |b.blanks| :: Spaces(b.blanks[i]) && |b.blanks[i]| <= width)
    && if b.digit.Some? then width == indent + b.digit.value else width > indent && StartsFlush(b.lines)
  }

  /** The last line is not blank. */
  predicate EndsInContent(lines: seq<string>) {
    lines != [] && !Spaces(lines[|lines| - 1])
  }

  /** Without lines the digit gives the indentation, or it is one more than that of the header's line. */
  predicate Ends(b: Block, indent: nat, width: nat) {
    EndsInContent(b.lines) || (b.lines == [] && (b.digit.None? ==> width == indent + 1))
  }

  /** The indentation once all lines are read. */
  function BaseOf(b: Block, width: nat): Option<nat> {
    if b.lines == [] && b.digit.None? then None else Some(width)
  }

  /** What follows is the end, or a line with content that stands less than `width` in. */
  ghost predicate Outside(rest: string, width: nat) {
    rest == "" || exists k: nat :: OutsideAt(rest, width, k)
  }

  predicate OutsideAt(rest: string, width: nat, k: nat) {
    k < width && k < |rest| && Spaces(rest[..k]) && rest[k] != ' ' && rest[k] != '\n' && rest[k] != '\r'
  }

  /** The text: no final line break, one, or one more than there are blank lines. */
  function BlockText(b: Block): string {
    if b.lines == [] then
      Breaks(match b.chomping case Strip => 0 case Clip => Least(|b.blanks|, 1) case Keep => |b.blanks|)
    else
      Joined(b.lines) +
      match b.chomping
      case Strip => ""
      case Clip => "\n"
      case Keep => "\n" + Breaks(|b.blanks|)
  }

  function Least(a: nat, b: nat): nat {
    if a < b then a else b
  }

  // ----- The lines that are taken

  lemma {:induction false} SpacesAll(line: string, i: nat)
    requires i <= |line|
    ensures SpacesEnd(line, i) == |line| <==> Spaces(line[i..])
    decreases |line| - i
  {
    if i < |line| && line[i] == ' ' {
      SpacesAll(line, i + 1);
      assert line[i..] == [' '] + line[i + 1..];
      assert forall k | 0 < k < |line| - i :: line[i..][k] == line[i + 1..][k - 1];
    } else if i < |line| {
      assert line[i..][0] == line[i];
    }
  }

  /** Whether a line with content belongs to the scalar. */
  predicate Deep(line: string, base: Option<nat>, indent: nat) {
    if base.Some? then SpacesEnd(line, 0) >= base.value else SpacesEnd(line, 0) > indent
  }

  function BaseBehind(line: string, base: Option<nat>): Option<nat> {
    if Spaces(line) || base.Some? then base else Some(SpacesEnd(line, 0))
  }

  lemma LineTaken(prefix: string, line: string, rest: string, base: Option<nat>, indent: nat)
    requires Clean(line) && (Spaces(line) || Deep(line, base, indent))
    ensures var source := prefix + (line + "\n" + rest);
      var after := BlockLines(source, |prefix| + |line| + 1, BaseBehind(line, base), indent);
      BlockLines(source, |prefix|, base, indent) == ([line] + after.0, after.1, after.2)
  {
    var source := prefix + (line + "\n" + rest);
    LineFound(prefix, line, rest);
    SpacesAll(line, 0);
    assert line[0..] == line;
    assert source[|prefix|..ContentEnd(source, |prefix|)] == line;
    hide Clean, ContentEnd, NextLine, SpacesEnd;
  }

  lemma Regrouped(prefix: string, line: string, rest: string, behind: string)
    ensures prefix + ((line + "\n" + rest) + behind) == prefix + (line + "\n" + (rest + behind))
    ensures prefix + (line + "\n" + (rest + behind)) == (prefix + (line + "\n")) + (rest + behind)
    ensures |prefix + (line + "\n")| == |prefix| + |line| + 1
  {
  }

  lemma Consed<T>(a: seq<T>, b: seq<T>)
    requires a != []
    ensures [a[0]] + (a[1..] + b) == a + b
  {
  }

  /** Lines that are blank or have `width` spaces in front. */
  ghost predicate Fit(written: seq<string>, width: nat) {
    forall i | 0 <= i < |written| :: Clean(written[i]) && (Spaces(written[i]) || SpacesEnd(written[i], 0) >= width)
  }

  lemma FitParts(written: seq<string>, width: nat)
    requires Fit(written, width) && written != []
    ensures Clean(written[0]) && (Spaces(written[0]) || SpacesEnd(written[0], 0) >= width) && Fit(written[1..], width)
  {
    hide Clean, Spaces, SpacesEnd;
  }

  /** Blank lines, and lines with content that are deep enough, are taken once the indentation is known. */
  lemma {:induction false} LinesTaken(prefix: string, written: seq<string>, rest: string, base: nat, indent: nat)
    requires Fit(written, base)
    ensures var source := prefix + (Unlines(written) + rest);
      var after := BlockLines(source, |prefix| + |Unlines(written)|, Some(base), indent);
      BlockLines(source, |prefix|, Some(base), indent) == (written + after.0, after.1, after.2)
    decreases |written|
  {
    hide BlockLines, Clean, Spaces, Fit;
    if written == [] {
      var after := BlockLines(prefix + ("" + rest), |prefix|, Some(base), indent);
      assert Unlines(written) == "" && written + after.0 == after.0;
    } else {
      var line, more := written[0], Unlines(written[1..]);
      UnfoldUnlines(written);
      FitParts(written, base);
      Regrouped(prefix, line, more, rest);
      LineTaken(prefix, line, more + rest, Some(base), indent);
      LinesTaken(prefix + (line + "\n"), written[1..], rest, base, indent);
      Consed(written,
             BlockLines(prefix + (Unlines(written) + rest), |prefix| + |Unlines(written)|, Some(base), indent).0);
    }
  }

  /** In front of the first line with content the indentation is not known; that line gives it. */
  lemma {:induction false} FirstLines(prefix: string, written: seq<string>, rest: string, width: nat, indent: nat)
    requires width > indent && Fit(written, width) && FirstAt(written, width)
    ensures var source := prefix + (Unlines(written) + rest);
      var after := BlockLines(source, |prefix| + |Unlines(written)|, BaseFound(written, width), indent);
      BlockLines(source, |prefix|, None, indent) == (written + after.0, after.1, after.2)
    decreases |written|
  {
    hide BlockLines, Clean, Spaces, SpacesEnd, Fit;
    if written == [] {
      var after := BlockLines(prefix + ("" + rest), |prefix|, None, indent);
      assert Unlines(written) == "" && written + after.0 == after.0;
    } else {
      var line, more := written[0], Unlines(written[1..]);
      UnfoldUnlines(written);
      FitParts(written, width);
      Regrouped(prefix, line, more, rest);
      LineTaken(prefix, line, more + rest, None, indent);
      if Spaces(line) {
        FirstLines(prefix + (line + "\n"), written[1..], rest, width, indent);
      } else {
        LinesTaken(prefix + (line + "\n"), written[1..], rest, width, indent);
      }
      Consed(written, BlockLines(prefix + (Unlines(written) + rest), |prefix| + |Unlines(written)|,
                                 BaseFound(written, width), indent).0);
    }
  }

  /** The first line with content stands at `width`. */
  predicate FirstAt(written: seq<string>, width: nat) {
    written == [] || (if Spaces(written[0]) then FirstAt(written[1..], width) else SpacesEnd(written[0], 0) == width)
  }

  function BaseFound(written: seq<string>, width: nat): Option<nat> {
    if written == [] then None else if Spaces(written[0]) then BaseFound(written[1..], width) else Some(width)
  }

  /** What follows the scalar ends it. */
  lemma LinesEnd(prefix: string, rest: string, base: Option<nat>, indent: nat)
    requires Outside(rest, if base.Some? then base.value else indent + 1)
    ensures BlockLines(prefix + rest, |prefix|, base, indent) == ([], |prefix|, base)
  {
    var source := prefix + rest;
    if rest != "" {
      var k: nat :| OutsideAt(rest, if base.Some? then base.value else indent + 1, k);
      forall i | |prefix| <= i < |prefix| + k ensures source[i] == ' ' {
        assert rest[..k][i - |prefix|] == ' ';
      }
      assert source[|prefix| + k] == rest[k];
      LineReaches(source, |prefix|, |prefix| + k);
      var content := source[|prefix|..ContentEnd(source, |prefix|)];
      assert content[k] == rest[k] && forall i | 0 <= i < k :: content[i] == ' ';
      PadEnd(content, k, 0);
    }
  }

  /** A line without breaks up to `at`, where it has content, ends behind it. */
  lemma LineReaches(source: string, start: nat, at: nat)
    requires start <= at < |source| && source[at] != '\n' && source[at] != '\r'
    requires forall i | start <= i < at :: source[i] == ' '
    ensures ContentEnd(source, start) > at
  {
    var end := LineEnd(source, start);
    if end <= at {
      assert false;
    }
  }

  // ----- The text

  lemma {:induction false} Dedented(lines: seq<string>, written: seq<string>, width: nat)
    requires |written| == |lines| && forall i | 0 <= i < |lines| :: WrittenAs(lines[i], written[i], width)
    ensures Dedent(written, width) == Unlines(lines)
  {
    if lines != [] {
      assert WrittenAs(lines[0], written[0], width);
      Dedented(lines[1..], written[1..], width);
    }
  }

  lemma {:induction false} BlanksDedented(blanks: seq<string>, width: nat)
    requires forall i | 0 <= i < |blanks| :: |blanks[i]| <= width
    ensures Dedent(blanks, width) == Breaks(|blanks|)
  {
    if blanks != [] {
      BlanksDedented(blanks[1..], width);
    }
  }

  lemma {:induction false} DedentConcat(a: seq<string>, b: seq<string>, width: nat)
    ensures Dedent(a + b, width) == Dedent(a, width) + Dedent(b, width)
  {
    if a == [] {
      assert a + b == b;
    } else {
      assert (a + b)[1..] == a[1..] + b;
      DedentConcat(a[1..], b, width);
    }
  }

  lemma {:induction false} LinesJoined(lines: seq<string>)
    requires lines != []
    ensures Unlines(lines) == Joined(lines) + "\n"
  {
    if |lines| > 1 {
      LinesJoined(lines[1..]);
    } else {
      assert Unlines(lines[1..]) == "";
    }
  }

  lemma {:induction false} JoinedEnds(lines: seq<string>)
    requires EndsInContent(lines) && Clean(lines[|lines| - 1])
    ensures var text := Joined(lines); text != "" && text[|text| - 1] != '\n'
  {
    if |lines| > 1 {
      JoinedEnds(lines[1..]);
    }
  }

  lemma {:induction false} Stripped(text: string, n: nat)
    requires text != "" && text[|text| - 1] != '\n'
    ensures StripNewlines(text + Breaks(n)) == text
  {
    if n == 0 {
      assert text + Breaks(0) == text;
    } else {
      assert (text + Breaks(n))[..|text| + n - 1] == text + Breaks(n - 1);
      Stripped(text, n - 1);
    }
  }

  lemma {:induction false} Clipped(text: string, n: nat)
    requires text != "" && text[|text| - 1] != '\n'
    ensures ClipNewlines(text + Breaks(n + 1)) == text + "\n"
  {
    var all := text + Breaks(n + 1);
    if n == 0 {
      assert all == text + "\n" && all[|all| - 2] == text[|text| - 1];
    } else {
      assert all[..|all| - 1] == text + Breaks(n);
      Clipped(text, n - 1);
    }
  }

  lemma Chomped(text: string, n: nat, chomping: Chomping)
    requires text != "" && text[|text| - 1] != '\n'
    ensures Chomp(text + "\n" + Breaks(n), chomping) ==
      text + match chomping case Strip => "" case Clip => "\n" case Keep => "\n" + Breaks(n)
  {
    assert text + "\n" + Breaks(n) == text + Breaks(n + 1);
    Stripped(text, n + 1);
    Clipped(text, n);
  }

  lemma {:induction false} OnlyBreaks(n: nat)
    ensures StripNewlines(Breaks(n)) == "" && ClipNewlines(Breaks(n)) == Breaks(Least(n, 1))
  {
    if n > 0 {
      assert Breaks(n)[..n - 1] == Breaks(n - 1);
      OnlyBreaks(n - 1);
    }
  }

  /** Taking the lines apart again and chomping them gives the text. */
  lemma TextFound(b: Block, indent: nat, width: nat)
    requires BodyOk(b, indent, width) && Ends(b, indent, width)
    ensures Chomp(Dedent(b.written + b.blanks, width), b.chomping) == BlockText(b)
  {
    hide Dedent, Clean, WrittenAs, StartsFlush;
    BlanksDedented(b.blanks, width);
    if b.lines == [] {
      assert b.written + b.blanks == b.blanks;
      OnlyBreaks(|b.blanks|);
    } else {
      hide Chomp;
      DedentConcat(b.written, b.blanks, width);
      Dedented(b.lines, b.written, width);
      LinesJoined(b.lines);
      JoinedEnds(b.lines);
      Chomped(Joined(b.lines), |b.blanks|, b.chomping);
    }
  }

  // ----- The header

  lemma ChompRead(line: string, q: nat, chomping: Chomping, h: Header)
    requires Stands(line, q, ChompMark(chomping)) && h.chomping.Clip?
    ensures ReadHeader(line, q, h) == ReadHeader(line, q + |ChompMark(chomping)|, h.(chomping := chomping))
  {
    if !chomping.Clip? {
      assert line[q + 0] == ChompMark(chomping)[0];
    }
  }

  lemma DigitRead(line: string, q: nat, digit: Option<nat>, h: Header)
    requires digit.Some? ==> 1 <= digit.value <= 9
    requires Stands(line, q, DigitMark(digit)) && h.indentation.None?
    ensures ReadHeader(line, q, h) == ReadHeader(line, q + |DigitMark(digit)|, h.(indentation := digit))
  {
    if digit.Some? {
      assert line[q + 0] == DigitMark(digit)[0];
    }
  }

  lemma HeaderRead(line: string, q: nat, b: Block)
    requires HeaderOk(b) && Stands(line, q, b.marks + b.tail) && q + |b.marks| + |b.tail| == |line|
    ensures ReadHeader(line, q, Header(Clip, None)) == Ok(Header(b.chomping, b.digit))
  {
    StandsSplit(line, q, b.marks, b.tail);
    var chomp, digit := ChompMark(b.chomping), DigitMark(b.digit);
    var start := Header(Clip, None);
    if b.marks == chomp + digit {
      StandsSplit(line, q, chomp, digit);
      ChompRead(line, q, b.chomping, start);
      DigitRead(line, q + |chomp|, b.digit, start.(chomping := b.chomping));
    } else {
      StandsSplit(line, q, digit, chomp);
      DigitRead(line, q, b.digit, start);
      ChompRead(line, q + |digit|, b.chomping, start.(indentation := b.digit));
    }
    var end := q + |b.marks|;
    if b.tail != "" {
      assert line[end + 0] == b.tail[0];
    }
  }

  // ----- The body

  lemma PaddedPlain(line: string, width: nat)
    ensures Clean(line) ==> Clean(P.Pad(width) + line)
    ensures Spaces(line) ==> Spaces(P.Pad(width) + line)
  {
  }

  lemma PaddedLine(line: string, width: nat)
    requires !Spaces(line)
    ensures var written := P.Pad(width) + line;
      && !Spaces(written) && SpacesEnd(written, 0) >= width
      && (line[0] != ' ' ==> SpacesEnd(written, 0) == width)
  {
    var written := P.Pad(width) + line;
    var k :| 0 <= k < |line| && line[k] != ' ';
    assert written[width + k] == line[k];
    assert written[width] == line[0];
    if line[0] != ' ' {
      PadEnd(written, width, 0);
    }
  }

  lemma LineFits(line: string, written: string, width: nat)
    requires Clean(line) && WrittenAs(line, written, width)
    ensures Clean(written) && Spaces(written) == Spaces(line)
    ensures !Spaces(line) ==> SpacesEnd(written, 0) >= width
    ensures !Spaces(line) && line[0] != ' ' ==> SpacesEnd(written, 0) == width
  {
    PaddedPlain(line, width);
    if !Spaces(line) {
      PaddedLine(line, width);
    }
  }

  lemma {:induction false} FlushFirst(lines: seq<string>, written: seq<string>, blanks: seq<string>, width: nat)
    requires |written| == |lines| && StartsFlush(lines)
    requires forall i | 0 <= i < |lines| :: Clean(lines[i]) && WrittenAs(lines[i], written[i], width)
    requires forall i | 0 <= i < |blanks| :: Spaces(blanks[i])
    ensures FirstAt(written + blanks, width)
    ensures (exists i | 0 <= i < |lines| :: !Spaces(lines[i])) ==> BaseFound(written + blanks, width) == Some(width)
    decreases |lines| + |blanks|
  {
    hide Clean, WrittenAs, Spaces;
    var all := written + blanks;
    if lines != [] {
      assert all[0] == written[0] && all[1..] == written[1..] + blanks;
      LineFits(lines[0], written[0], width);
      if Spaces(lines[0]) {
        FlushFirst(lines[1..], written[1..], blanks, width);
        if i :| 0 <= i < |lines| && !Spaces(lines[i]) {
          assert !Spaces(lines[1..][i - 1]);
        }
      }
    } else if blanks != [] {
      assert all[0] == blanks[0] && all[1..] == [] + blanks[1..];
      FlushFirst([], [], blanks[1..], width);
    }
  }

  lemma SpacesClean(s: string)
    requires Spaces(s)
    ensures Clean(s)
  {
  }

  lemma BodyFits(b: Block, indent: nat, width: nat)
    requires BodyOk(b, indent, width)
    ensures Fit(b.written + b.blanks, width)
  {
    hide Clean, WrittenAs, Spaces, StartsFlush;
    var all := b.written + b.blanks;
    forall i | 0 <= i < |all| ensures Clean(all[i]) && (Spaces(all[i]) || SpacesEnd(all[i], 0) >= width) {
      if i < |b.written| {
        LineFits(b.lines[i], b.written[i], width);
      } else {
        assert all[i] == b.blanks[i - |b.written|];
        SpacesClean(all[i]);
      }
    }
  }

  /** The lines of the scalar are exactly its own, and its indentation is found. */
  lemma BodyTaken(prefix: string, b: Block, indent: nat, width: nat, rest: string)
    requires BodyOk(b, indent, width) && Ends(b, indent, width) && Outside(rest, width)
    ensures BlockLines(prefix + (BodyText(b) + rest), |prefix|, if b.digit.Some? then Some(width) else None, indent)
      == (b.written + b.blanks, |prefix| + |BodyText(b)|, BaseOf(b, width))
  {
    hide BodyOk, BlockLines, Outside, Ends, BaseOf, BodyText;
    BodyEntered(prefix, b, indent, width, rest);
    TextThenRest(prefix, BodyText(b), rest);
    BaseWidth(b, indent, width);
    LinesEnd(prefix + BodyText(b), rest, BaseOf(b, width), indent);
    assert b.written + b.blanks + [] == b.written + b.blanks;
  }

  lemma BodyLines(b: Block)
    ensures BodyText(b) == Unlines(b.written + b.blanks)
  {
    UnlinesConcat(b.written, b.blanks);
  }

  lemma KnownEntered(prefix: string, b: Block, indent: nat, width: nat, rest: string)
    requires BodyOk(b, indent, width) && Ends(b, indent, width) && b.digit.Some?
    ensures var source := prefix + (BodyText(b) + rest);
      var after := BlockLines(source, |prefix| + |BodyText(b)|, BaseOf(b, width), indent);
      BlockLines(source, |prefix|, if b.digit.Some? then Some(width) else None, indent)
        == (b.written + b.blanks + after.0, after.1, after.2)
  {
    hide BlockLines, FirstAt, BaseFound, Unlines, Ends, BaseOf, Fit, BodyOk, BodyText;
    BodyLines(b);
    BodyFits(b, indent, width);
    BaseWidth(b, indent, width);
    LinesTaken(prefix, b.written + b.blanks, rest, width, indent);
  }

  lemma FoundEntered(prefix: string, b: Block, indent: nat, width: nat, rest: string)
    requires BodyOk(b, indent, width) && Ends(b, indent, width) && b.digit.None?
    ensures var source := prefix + (BodyText(b) + rest);
      var after := BlockLines(source, |prefix| + |BodyText(b)|, BaseOf(b, width), indent);
      BlockLines(source, |prefix|, if b.digit.Some? then Some(width) else None, indent)
        == (b.written + b.blanks + after.0, after.1, after.2)
  {
    hide BlockLines, FirstAt, BaseFound, Unlines, Ends, BaseOf, Fit, BodyOk, BodyText;
    BodyLines(b);
    BodyFits(b, indent, width);
    BodyFlush(b, indent, width);
    FirstLines(prefix, b.written + b.blanks, rest, width, indent);
  }

  lemma BodyEntered(prefix: string, b: Block, indent: nat, width: nat, rest: string)
    requires BodyOk(b, indent, width) && Ends(b, indent, width)
    ensures var source := prefix + (BodyText(b) + rest);
      var after := BlockLines(source, |prefix| + |BodyText(b)|, BaseOf(b, width), indent);
      BlockLines(source, |prefix|, if b.digit.Some? then Some(width) else None, indent)
        == (b.written + b.blanks + after.0, after.1, after.2)
  {
    hide BlockLines, FirstAt, BaseFound, Unlines, Ends, BaseOf, Fit, BodyOk, BodyText;
    if b.digit.Some? {
      KnownEntered(prefix, b, indent, width, rest);
    } else {
      FoundEntered(prefix, b, indent, width, rest);
    }
  }

  lemma BaseWidth(b: Block, indent: nat, width: nat)
    requires Ends(b, indent, width)
    ensures width == if BaseOf(b, width).Some? then BaseOf(b, width).value else indent + 1
    ensures b.digit.Some? ==> BaseOf(b, width) == Some(width)
  {
  }

  lemma TextThenRest(prefix: string, text: string, rest: string)
    ensures prefix + (text + rest) == (prefix + text) + rest && |prefix + text| == |prefix| + |text|
  {
  }

  lemma BodyFlush(b: Block, indent: nat, width: nat)
    requires BodyOk(b, indent, width) && Ends(b, indent, width) && b.digit.None?
    ensures width > indent && FirstAt(b.written + b.blanks, width)
    ensures BaseFound(b.written + b.blanks, width) == BaseOf(b, width)
  {
    hide Clean, WrittenAs, Spaces, FirstAt, BaseFound;
    FlushFirst(b.lines, b.written, b.blanks, width);
    if b.lines == [] {
      assert b.written + b.blanks == b.blanks;
      NoBase(b.blanks, width);
    } else {
      assert !Spaces(b.lines[|b.lines| - 1]);
    }
  }

  lemma {:induction false} NoBase(blanks: seq<string>, width: nat)
    requires forall i | 0 <= i < |blanks| :: Spaces(blanks[i])
    ensures BaseFound(blanks, width) == None
  {
    if blanks != [] {
      NoBase(blanks[1..], width);
    }
  }

  // ----- Whole block scalars

  /** The line reads as some pieces and, behind `head`, the header of a block scalar. */
  ghost predicate Opens(alphabet: Alphabet, head: string, line: string, pieces: seq<Piece>) {
    var indent := SpacesEnd(line, 0);
    && Clean(head) && |head| < |line| && indent < |line| && line[indent] != '\t'
    && ScanFrom(alphabet, line, indent) == Ok(LineScan(pieces, Some(|head|)))
  }

  ghost predicate BlockOk(b: Block, indent: nat, width: nat, rest: string) {
    HeaderOk(b) && BodyOk(b, indent, width) && Ends(b, indent, width) && Outside(rest, width)
  }

  lemma HeaderClean(b: Block)
    requires HeaderOk(b)
    ensures Clean(HeaderText(b))
  {
  }

  lemma HeaderStands(head: string, b: Block)
    ensures var line := head + HeaderText(b);
      && line[|head|] == (if b.indicator.Literal? then '|' else '>')
      && Stands(line, |head| + 1, b.marks + b.tail) && |head| + 1 + |b.marks| + |b.tail| == |line|
  {
    var mark := if b.indicator.Literal? then "|" else ">";
    assert HeaderText(b) == mark + (b.marks + b.tail);
    assert head + HeaderText(b) == (head + mark) + (b.marks + b.tail);
  }

  /** What is read of the header and taken of the lines is put together. */
  lemma Assembled(source: string, start: nat, line: string, col: nat, indent: nat, b: Block, width: nat, end: nat)
    requires start < |source| && col < |line| && line[col] == if b.indicator.Literal? then '|' else '>'
    requires ReadHeader(line, col + 1, Header(Clip, None)) == Ok(Header(b.chomping, b.digit))
    requires (b.digit.Some? ==> width == indent + b.digit.value) && Ends(b, indent, width)
    requires BlockLines(source, NextLine(source, start), if b.digit.Some? then Some(width) else None, indent)
      == (b.written + b.blanks, end, BaseOf(b, width))
    requires Chomp(Dedent(b.written + b.blanks, width), b.chomping) == BlockText(b)
    ensures BlockScalarAt(source, start, line, col, indent) == Ok((BlockScalar(b.indicator, BlockText(b)), end))
  {
    hide ReadHeader, BlockLines, NextLine, Chomp, Dedent, BlockText;
  }

  lemma HeaderLine(prefix: string, head: string, b: Block, rest: string)
    requires Clean(head) && HeaderOk(b)
    ensures var line := head + HeaderText(b);
      var source := prefix + (line + "\n" + (BodyText(b) + rest));
      && Clean(line) && LineAt(source, |prefix|) == line && NextLine(source, |prefix|) == |prefix| + |line| + 1
      && source == (prefix + (line + "\n")) + (BodyText(b) + rest)
  {
    HeaderClean(b);
    hide HeaderText, BodyText, HeaderOk, LineAt, NextLine, Clean;
    CleanStands(head, HeaderText(b));
    LineFound(prefix, head + HeaderText(b), BodyText(b) + rest);
    Regrouped(prefix, head + HeaderText(b), BodyText(b), rest);
  }

  lemma BlockFound(prefix: string, head: string, b: Block, indent: nat, width: nat, rest: string)
    requires Clean(head) && BlockOk(b, indent, width, rest)
    ensures var line := head + HeaderText(b);
      var source := prefix + (line + "\n" + (BodyText(b) + rest));
      && LineAt(source, |prefix|) == line
      && BlockScalarAt(source, |prefix|, line, |head|, indent)
         == Ok((BlockScalar(b.indicator, BlockText(b)), |prefix| + |line| + 1 + |BodyText(b)|))
  {
    hide HeaderText, BodyText, BlockLines, Dedent, Chomp, BlockText, HeaderOk, Outside, Ends, LineAt, NextLine,
      Clean, ReadHeader, BlockScalarAt, Stands;
    var line := head + HeaderText(b);
    HeaderLine(prefix, head, b, rest);
    HeaderStands(head, b);
    HeaderRead(line, |head| + 1, b);
    BodyTaken(prefix + (line + "\n"), b, indent, width, rest);
    TextFound(b, indent, width);
    var source := prefix + (line + "\n" + (BodyText(b) + rest));
    Assembled(source, |prefix|, line, |head|, indent, b, width, |prefix| + |line| + 1 + |BodyText(b)|);
  }

  lemma LineScans(alphabet: Alphabet, source: string, start: nat, line: string, pieces: seq<Piece>, col: nat,
                  kind: TokenKind, end: nat)
    requires start < |source| && LineAt(source, start) == line && col < |line| && end <= |source|
    requires SpacesEnd(line, 0) < |line| && line[SpacesEnd(line, 0)] != '\t'
    requires ScanFrom(alphabet, line, SpacesEnd(line, 0)) == Ok(LineScan(pieces, Some(col)))
    requires BlockScalarAt(source, start, line, col, SpacesEnd(line, 0)) == Ok((kind, end))
    requires PiecesFit(line, pieces)
    ensures ScanLine(alphabet, source, start)
      == Ok((TokensOf(source, start, pieces) + [Token(kind, SpanOf(source, start + col, end))], end))
  {
    hide ScanFrom, BlockScalarAt, TokensOf, SpanOf, SpacesEnd, LineAt, NextLine;
  }

  lemma Behind(prefix: string, line: string, body: string, rest: string)
    ensures var source := prefix + (line + "\n" + (body + rest));
      var end := |prefix| + |line| + 1 + |body|;
      && |prefix| < |source| && |prefix| + |line| <= |source| && end <= |source|
      && source == (prefix + (line + "\n" + body)) + rest && source[end..] == rest
  {
    var front := prefix + (line + "\n" + body);
    assert prefix + (line + "\n" + (body + rest)) == front + rest;
    assert (front + rest)[|front|..] == rest;
  }

  /**
   A line that opens a block scalar, and its lines below it, lex to the pieces of the line and one
   token with the text of the scalar; lexing goes on behind it.
   */
  lemma BlockLexes(alphabet: Alphabet, prefix: string, head: string, pieces: seq<Piece>, b: Block, width: nat,
                   rest: string)
    requires Opens(alphabet, head, head + HeaderText(b), pieces)
    requires BlockOk(b, SpacesEnd(head + HeaderText(b), 0), width, rest)
    ensures PiecesFit(head + HeaderText(b), pieces)
    ensures var line := head + HeaderText(b);
      var source := prefix + (line + "\n" + (BodyText(b) + rest));
      var end := |prefix| + |line| + 1 + |BodyText(b)|;
      && end <= |source| && source[end..] == rest
      && ScanLine(alphabet, source, |prefix|) ==
           Ok((TokensOf(source, |prefix|, pieces)
               + [Token(BlockScalar(b.indicator, BlockText(b)), SpanOf(source, |prefix| + |head|, end))], end))
  {
    hide HeaderText, BodyText, BlockText, BlockOk, ScanFrom, BlockScalarAt, ScanLine, TokensOf, SpanOf, LineAt,
      SpacesEnd, Clean;
    var line := head + HeaderText(b);
    var source := prefix + (line + "\n" + (BodyText(b) + rest));
    var end := |prefix| + |line| + 1 + |BodyText(b)|;
    ScanFits(alphabet, line, SpacesEnd(line, 0));
    BlockFound(prefix, head, b, SpacesEnd(line, 0), width, rest);
    Behind(prefix, line, BodyText(b), rest);
    LineScans(alphabet, source, |prefix|, line, pieces, |head|, BlockScalar(b.indicator, BlockText(b)), end);
  }

  // ----- Lines that open one

  lemma IndicatorFound(alphabet: Alphabet, line: string, col: nat)
    requires col < |line| && (line[col] == '|' || line[col] == '>')
    ensures ScanFrom(alphabet, line, col) == Ok(LineScan([], Some(col)))
  {
  }

  /** Alone on its line. */
  lemma AloneOpens(alphabet: Alphabet, indent: nat, b: Block)
    ensures var line := P.Pad(indent) + HeaderText(b);
      Opens(alphabet, P.Pad(indent), line, []) && SpacesEnd(line, 0) == indent
  {
    HeaderStands(P.Pad(indent), b);
    hide HeaderText, PieceAt, ScanFrom;
    var line := P.Pad(indent) + HeaderText(b);
    PadEnd(line, indent, 0);
    IndicatorFound(alphabet, line, indent);
  }

  lemma HeadOpens(alphabet: Alphabet, head: string, indent: nat, b: Block, pieces: seq<Piece>)
    requires Clean(head) && HeadScans(alphabet, head + " " + HeaderText(b), indent, |head|, pieces)
    ensures Opens(alphabet, head + " ", head + " " + HeaderText(b), pieces)
  {
    HeaderStands(head + " ", b);
    var line := head + " " + HeaderText(b);
    assert line[|head|] == ' ' && Clean(head + " ");
    hide HeaderText, PieceAt, ScanFrom, Clean;
    ScanSpace(alphabet, line, |head|);
    IndicatorFound(alphabet, line, |head| + 1);
    assert pieces + [] == pieces;
  }

  /** Behind a dash. */
  lemma DashOpens(alphabet: Alphabet, indent: nat, b: Block)
    ensures var head := P.Pad(indent) + "- ";
      var line := head + HeaderText(b);
      Opens(alphabet, head, line, DashPieces(indent)) && SpacesEnd(line, 0) == indent
  {
    hide HeaderText, PieceAt, ScanFrom;
    var head := P.Pad(indent) + "-";
    var line := head + " " + HeaderText(b);
    assert line[indent] == '-' && line[indent + 1] == ' ' && head + " " == P.Pad(indent) + "- ";
    DashScans(alphabet, line, indent);
    HeadOpens(alphabet, head, indent, b, DashPieces(indent));
  }

  /** Behind a key. */
  lemma KeyOpens(alphabet: Alphabet, indent: nat, key: Value, b: Block)
    requires IsLeaf(key)
    ensures var head := P.Pad(indent) + LeafText(key) + ": ";
      var line := head + HeaderText(b);
      Opens(alphabet, head, line, KeyPieces(key, indent)) && SpacesEnd(line, 0) == indent
  {
    hide HeaderText, PieceAt, ScanFrom, LeafText, KeyPieces;
    var text := LeafText(key);
    var head := P.Pad(indent) + text + ":";
    LeafClean(key);
    var line := head + " " + HeaderText(b);
    assert head + " " == P.Pad(indent) + text + ": ";
    assert forall k | 0 <= k < |text + ":"| :: line[indent + k] == (text + ":")[k];
    assert line[|head|] == ' ';
    KeyScans(alphabet, line, indent, key);
    HeadOpens(alphabet, head, indent, b, KeyPieces(key, indent));
  }
}
