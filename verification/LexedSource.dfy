/** From lines to a source: what a text of scannable lines lexes to. */
module LexedSource {
  import opened Prelude
  import opened Syntax
  import opened Lexing
  import opened ValueText
  import opened LexedText

  /** What the parser looks at in a token: its kind, line and column. */
  datatype Shape = Shape(kind: TokenKind, line: nat, column: nat)

  function ShapeOf(token: Token): Shape {
    Shape(token.kind, token.span.line, token.span.column)
  }

  function ShapesOf(tokens: seq<Token>): (shapes: seq<Shape>)
    ensures |shapes| == |tokens| && forall i | 0 <= i < |tokens| :: shapes[i] == ShapeOf(tokens[i])
  {
    if tokens == [] then [] else [ShapeOf(tokens[0])] + ShapesOf(tokens[1..])
  }

  /** The pieces of line `n`, counted from one, as the parser sees them. */
  function PieceShapes(pieces: seq<Piece>, n: nat): (shapes: seq<Shape>)
    ensures |shapes| == |pieces| && forall i | 0 <= i < |pieces| ::
      shapes[i] == Shape(pieces[i].kind, n, pieces[i].start + 1)
  {
    if pieces == [] then [] else [Shape(pieces[0].kind, n, pieces[0].start + 1)] + PieceShapes(pieces[1..], n)
  }

  function LinesShapes(lines: seq<seq<Piece>>, n: nat): seq<Shape> {
    if lines == [] then [] else PieceShapes(lines[0], n) + LinesShapes(lines[1..], n + 1)
  }

  /** A text that is empty or ends a line. */
  predicate EndsLine(text: string) {
    text == "" || text[|text| - 1] == '\n'
  }

  lemma {:induction false} PositionAfter(prefix: string, rest: string)
    requires EndsLine(prefix) && Clean(rest)
    ensures Newlines(prefix + rest) == Newlines(prefix) && LastLine(prefix + rest) == |rest|
    decreases |rest|
  {
    if rest == "" {
      assert prefix + rest == prefix;
    } else {
      PositionAfter(prefix, rest[..|rest| - 1]);
      assert (prefix + rest)[..|prefix + rest| - 1] == prefix + rest[..|rest| - 1];
    }
  }

  /** The line that starts behind `prefix`. */
  lemma LineFound(prefix: string, line: string, rest: string)
    requires Clean(line)
    ensures var source := prefix + (line + "\n" + rest);
      && LineAt(source, |prefix|) == line && NextLine(source, |prefix|) == |prefix| + |line| + 1
  {
    var source := prefix + (line + "\n" + rest);
    forall k | 0 <= k < |line| ensures source[|prefix| + k] == line[k] {
    }
    assert source[|prefix| + |line|] == '\n';
    assert LineEnd(source, |prefix|) == |prefix| + |line|;
    if line != "" {
      assert source[|prefix| + |line| - 1] == line[|line| - 1];
    }
  }

  lemma {:induction false} TokensShape(prefix: string, line: string, rest: string, pieces: seq<Piece>)
    requires EndsLine(prefix) && Clean(line) && PiecesFit(line, pieces)
    ensures var source := prefix + (line + "\n" + rest);
      ShapesOf(TokensOf(source, |prefix|, pieces)) == PieceShapes(pieces, Newlines(prefix) + 1)
    decreases |pieces|
  {
    var source := prefix + (line + "\n" + rest);
    if pieces != [] {
      var start := pieces[0].start;
      assert source[..|prefix| + start] == prefix + line[..start];
      PositionAfter(prefix, line[..start]);
      TokensShape(prefix, line, rest, pieces[1..]);
      var tokens := TokensOf(source, |prefix|, pieces);
      assert ShapeOf(tokens[0]) == Shape(pieces[0].kind, Newlines(prefix) + 1, start + 1);
      hide SpanOf, ShapeOf;
      assert tokens[1..] == TokensOf(source, |prefix|, pieces[1..]);
    }
  }

  lemma LineLexes(alphabet: Alphabet, prefix: string, line: string, rest: string, pieces: seq<Piece>)
    requires EndsLine(prefix) && Scans(alphabet, line, pieces)
    ensures var source := prefix + (line + "\n" + rest);
      && ScanLine(alphabet, source, |prefix|).Ok?
      && ScanLine(alphabet, source, |prefix|).value.1 == |prefix| + |line| + 1
      && ShapesOf(ScanLine(alphabet, source, |prefix|).value.0) == PieceShapes(pieces, Newlines(prefix) + 1)
  {
    LineFound(prefix, line, rest);
    ScanFits(alphabet, line, SpacesEnd(line, 0));
    TokensShape(prefix, line, rest, pieces);
    hide ScanFrom, TokensOf;
  }

  lemma ShapesConcat(a: seq<Token>, b: seq<Token>)
    ensures ShapesOf(a + b) == ShapesOf(a) + ShapesOf(b)
  {
  }

  lemma NextPrefix(prefix: string, line: string)
    requires EndsLine(prefix) && Clean(line)
    ensures EndsLine(prefix + (line + "\n")) && Newlines(prefix + (line + "\n")) == Newlines(prefix) + 1
  {
    PositionAfter(prefix, line);
    var text := prefix + (line + "\n");
    assert text[..|text| - 1] == prefix + line;
  }

  /** Scannable lines lex to their pieces, each on its own line, and a final `Eof`. */
  lemma {:induction false} LinesLex(alphabet: Alphabet, prefix: string, lines: seq<string>, pieces: seq<seq<Piece>>)
    requires EndsLine(prefix) && AllScan(alphabet, lines, pieces)
    ensures var r := LexFrom(alphabet, prefix + Unlines(lines), |prefix|);
      r.Ok? && ShapesOf(r.value)
        == LinesShapes(pieces, Newlines(prefix) + 1) + [Shape(Eof, Newlines(prefix) + |lines| + 1, 1)]
    decreases |lines|
  {
    hide ScanLine, PieceShapes, Scans, LexFrom, Clean, EndsLine, ShapesOf, Newlines;
    if lines == [] {
      EndLexes(alphabet, prefix);
      assert [] + [Shape(Eof, Newlines(prefix) + 1, 1)] == [Shape(Eof, Newlines(prefix) + 1, 1)];
    } else {
      hide AllScan, Unlines, LinesShapes;
      var line, rest := lines[0], Unlines(lines[1..]);
      var next := prefix + (line + "\n");
      FirstScans(alphabet, prefix, lines, pieces);
      LinesLex(alphabet, next, lines[1..], pieces[1..]);
      UnfoldUnlines(lines);
      LineThenRest(alphabet, prefix, line, rest, pieces[0]);
      UnfoldLines(pieces, Newlines(prefix) + 1);
      var a, b := PieceShapes(pieces[0], Newlines(prefix) + 1), LinesShapes(pieces[1..], Newlines(prefix) + 2);
      var eof := Shape(Eof, Newlines(prefix) + |lines| + 1, 1);
      var after := LexFrom(alphabet, next + rest, |next|).value;
      assert ShapesOf(after) == b + [eof];
      assert ShapesOf(LexFrom(alphabet, prefix + (line + "\n" + rest), |prefix|).value) == a + ShapesOf(after);
      Append(a, b, eof);
    }
  }

  /** A whole source of such lines. */
  lemma AllLex(alphabet: Alphabet, lines: seq<string>, pieces: seq<seq<Piece>>)
    requires AllScan(alphabet, lines, pieces)
    ensures var r := Lex(alphabet, Unlines(lines));
      r.Ok? && ShapesOf(r.value) == LinesShapes(pieces, 1) + [Shape(Eof, |lines| + 1, 1)]
  {
    hide AllScan, LexFrom, Unlines, LinesShapes, ShapesOf, Newlines, EndsLine;
    AtStart(Unlines(lines));
    LinesLex(alphabet, "", lines, pieces);
  }

  lemma AtStart(text: string)
    ensures "" + text == text && EndsLine("") && Newlines("") == 0
  {
  }

  lemma UnfoldUnlines(lines: seq<string>)
    requires lines != []
    ensures Unlines(lines) == lines[0] + "\n" + Unlines(lines[1..])
  {
  }

  lemma Append(a: seq<Shape>, b: seq<Shape>, last: Shape)
    ensures a + (b + [last]) == a + b + [last]
  {
  }

  lemma EndLexes(alphabet: Alphabet, prefix: string)
    requires EndsLine(prefix)
    ensures var r := LexFrom(alphabet, prefix + "", |prefix|);
      r.Ok? && ShapesOf(r.value) == [Shape(Eof, Newlines(prefix) + 1, 1)]
  {
    hide ScanLine;
    assert prefix + "" == prefix;
    PositionAfter(prefix, "");
    assert prefix[..|prefix|] == prefix;
  }

  lemma FirstScans(alphabet: Alphabet, prefix: string, lines: seq<string>, pieces: seq<seq<Piece>>)
    requires AllScan(alphabet, lines, pieces) && lines != [] && EndsLine(prefix)
    ensures |pieces| == |lines| && Scans(alphabet, lines[0], pieces[0]) && AllScan(alphabet, lines[1..], pieces[1..])
    ensures EndsLine(prefix + (lines[0] + "\n")) && Newlines(prefix + (lines[0] + "\n")) == Newlines(prefix) + 1
  {
    assert Scans(alphabet, lines[0], pieces[0]);
    forall k | 0 <= k < |lines| - 1 ensures Scans(alphabet, lines[1..][k], pieces[1..][k]) {
      assert Scans(alphabet, lines[k + 1], pieces[k + 1]);
    }
    NextPrefix(prefix, lines[0]);
  }

  lemma Regroup(prefix: string, line: string, rest: string)
    ensures prefix + (line + "\n" + rest) == prefix + (line + "\n") + rest
    ensures |prefix + (line + "\n")| == |prefix| + |line| + 1
  {
  }

  /** One line at a time. */
  lemma LexStep(alphabet: Alphabet, source: string, start: nat)
    requires start < |source| && ScanLine(alphabet, source, start).Ok?
    requires LexFrom(alphabet, source, ScanLine(alphabet, source, start).value.1).Ok?
    ensures LexFrom(alphabet, source, start).Ok?
    ensures ShapesOf(LexFrom(alphabet, source, start).value) ==
      ShapesOf(ScanLine(alphabet, source, start).value.0)
        + ShapesOf(LexFrom(alphabet, source, ScanLine(alphabet, source, start).value.1).value)
  {
    hide ScanLine, ShapesOf;
    var line := ScanLine(alphabet, source, start).value;
    ShapesConcat(line.0, LexFrom(alphabet, source, line.1).value);
  }

  /** The tokens of the first line, then those of the rest. */
  lemma LineThenRest(alphabet: Alphabet, prefix: string, line: string, rest: string, pieces: seq<Piece>)
    requires EndsLine(prefix) && Scans(alphabet, line, pieces)
    requires var next := prefix + (line + "\n"); LexFrom(alphabet, next + rest, |next|).Ok?
    ensures var next := prefix + (line + "\n");
      var source := prefix + (line + "\n" + rest);
      && LexFrom(alphabet, source, |prefix|).Ok?
      && ShapesOf(LexFrom(alphabet, source, |prefix|).value)
         == PieceShapes(pieces, Newlines(prefix) + 1) + ShapesOf(LexFrom(alphabet, next + rest, |next|).value)
  {
    hide ScanLine, PieceShapes, Scans, LexFrom, ShapesOf, EndsLine, Newlines, Clean;
    LineLexes(alphabet, prefix, line, rest, pieces);
    var source := prefix + (line + "\n" + rest);
    Regroup(prefix, line, rest);
    LexStep(alphabet, source, |prefix|);
  }

  lemma UnfoldLines(lines: seq<seq<Piece>>, n: nat)
    requires lines != []
    ensures LinesShapes(lines, n) == PieceShapes(lines[0], n) + LinesShapes(lines[1..], n + 1)
  {
  }
}
