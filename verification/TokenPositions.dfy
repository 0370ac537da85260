/** Where the tokens of a source lie: in bounds, in order, and with only layout between them. */
module TokenPositions {
  import opened Prelude
  import opened Syntax
  import opened Lexing
  import ArenaInvariant

  /** Only spaces and line ends stand in `from..to`. */
  ghost predicate Layout(source: string, from: nat, to: nat) {
    from <= to <= |source| && forall i | from <= i < to :: source[i] == ' ' || source[i] == '\r' || source[i] == '\n'
  }

  /** The tokens cover `from..to` in order, up to layout, each with the position counted from the source. */
  ghost predicate Tiled(source: string, from: nat, tokens: seq<Token>, to: nat)
    decreases |tokens|
  {
    if tokens == [] then Layout(source, from, to)
    else
      var span := tokens[0].span;
      && Layout(source, from, span.start) && span.start <= span.end <= |source|
      && span == SpanOf(source, span.start, span.end)
      && Tiled(source, span.end, tokens[1..], to)
  }

  lemma {:induction false} TiledJoin(source: string, from: nat, a: seq<Token>, mid: nat, b: seq<Token>, to: nat)
    requires Tiled(source, from, a, mid) && Tiled(source, mid, b, to)
    ensures Tiled(source, from, a + b, to)
    decreases |a|
  {
    if a == [] {
      assert a + b == b;
      TiledEarlier(source, from, mid, b, to);
    } else {
      TiledJoin(source, a[0].span.end, a[1..], mid, b, to);
      assert (a + b)[1..] == a[1..] + b;
    }
  }

  lemma {:induction false} TiledEarlier(source: string, from: nat, mid: nat, tokens: seq<Token>, to: nat)
    requires Layout(source, from, mid) && Tiled(source, mid, tokens, to)
    ensures Tiled(source, from, tokens, to)
  {
  }

  /** The pieces of a line from column `col`, with only spaces between and behind them. */
  ghost predicate PiecesTiled(line: string, col: nat, pieces: seq<Piece>, end: nat)
    decreases |pieces|
  {
    if pieces == [] then col <= end <= |line| && forall i | col <= i < end :: line[i] == ' '
    else
      && col <= pieces[0].start <= pieces[0].end <= |line|
      && (forall i | col <= i < pieces[0].start :: line[i] == ' ')
      && PiecesTiled(line, pieces[0].end, pieces[1..], end)
  }

  lemma {:induction false} PiecesEarlier(line: string, col: nat, mid: nat, pieces: seq<Piece>, end: nat)
    requires col <= mid && (forall i | col <= i < mid && i < |line| :: line[i] == ' ')
      && PiecesTiled(line, mid, pieces, end)
    ensures PiecesTiled(line, col, pieces, end)
  {
  }

  lemma {:induction false} ScanTiles(alphabet: Alphabet, line: string, col: nat)
    requires col <= |line|
    ensures var r := ScanFrom(alphabet, line, col);
      r.Ok? ==> PiecesTiled(line, col, r.value.pieces, if r.value.block.Some? then r.value.block.value else |line|)
    decreases |line| - col
  {
    if col < |line| {
      if line[col] == ' ' {
        ScanTiles(alphabet, line, col + 1);
        var r := ScanFrom(alphabet, line, col + 1);
        if r.Ok? {
          PiecesEarlier(line, col, col + 1, r.value.pieces, if r.value.block.Some? then r.value.block.value
                        else |line|);
        }
      } else {
        var found := PieceAt(alphabet, line, col);
        if found.Ok? && found.value.Inner? {
          var piece := found.value.piece;
          ScanTiles(alphabet, line, piece.end);
          var rest := ScanFrom(alphabet, line, piece.end);
          if rest.Ok? {
            assert ([piece] + rest.value.pieces)[1..] == rest.value.pieces;
          }
        } else if found.Ok? && found.value.Final? {
          assert [found.value.piece][1..] == [];
        }
      }
    }
  }

  lemma {:induction false} TokensTile(source: string, start: nat, col: nat, pieces: seq<Piece>, end: nat)
    requires start <= |source| && PiecesTiled(LineAt(source, start), col, pieces, end)
    requires PiecesFit(LineAt(source, start), pieces)
    ensures Tiled(source, start + col, TokensOf(source, start, pieces), start + end)
    decreases |pieces|
  {
    var line := LineAt(source, start);
    if pieces == [] {
      forall i | start + col <= i < start + end ensures source[i] == ' ' {
        assert line[i - start] == ' ';
      }
    } else {
      TokensTile(source, start, pieces[0].end, pieces[1..], end);
      forall i | start + col <= i < start + pieces[0].start ensures source[i] == ' ' {
        assert line[i - start] == ' ';
      }
    }
  }

  /** Between a line's content and the next line stand at most a carriage return and a newline. */
  lemma LineEndIsLayout(source: string, start: nat)
    requires start < |source|
    ensures Layout(source, start + |LineAt(source, start)|, NextLine(source, start))
  {
  }

  lemma LineTiles(alphabet: Alphabet, source: string, start: nat)
    requires start < |source|
    ensures var r := ScanLine(alphabet, source, start); r.Ok? ==> Tiled(source, start, r.value.0, r.value.1)
  {
    hide ScanFrom, BlockScalarAt, SpanOf, NextLine;
    var r := ScanLine(alphabet, source, start);
    if r.Ok? {
      var line := LineAt(source, start);
      var indent := SpacesEnd(line, 0);
      LineEndIsLayout(source, start);
      if indent == |line| {
        BlankTiles(source, start, start + |line|, NextLine(source, start),
                   Token(BlankLine, SpanOf(source, start, start + |line|)));
      } else {
        ScanFits(alphabet, line, indent);
        ScanTiles(alphabet, line, indent);
        var scan := ScanFrom(alphabet, line, indent).value;
        var end := if scan.block.Some? then scan.block.value else |line|;
        PiecesEarlier(line, 0, indent, scan.pieces, end);
        TokensTile(source, start, 0, scan.pieces, end);
        var tokens := TokensOf(source, start, scan.pieces);
        if scan.block.None? {
          TiledJoin(source, start, tokens, start + end, [], NextLine(source, start));
          assert tokens + [] == tokens;
        } else {
          var token := r.value.0[|r.value.0| - 1];
          BlankTiles(source, start + end, r.value.1, r.value.1, token);
          TiledJoin(source, start, tokens, start + end, [token], r.value.1);
        }
      }
    }
  }

  lemma BlankTiles(source: string, start: nat, end: nat, to: nat, token: Token)
    requires start <= end <= |source| && token.span == SpanOf(source, start, end) && Layout(source, end, to)
    ensures Tiled(source, start, [token], to)
  {
    assert [token][1..] == [];
  }

  /** Scanning from any line start tiles the rest of the source, and its last token is the only `Eof`. */
  lemma {:induction false} LexTiles(alphabet: Alphabet, source: string, start: nat)
    requires start <= |source|
    ensures var r := LexFrom(alphabet, source, start);
      r.Ok? ==> Tiled(source, start, r.value, |source|) && r.value != [] && r.value[|r.value| - 1].kind.Eof?
    decreases |source| - start
  {
    if start >= |source| {
      BlankTiles(source, start, start, start, Token(Eof, SpanOf(source, start, start)));
    } else {
      hide ScanLine, Tiled, SpanOf;
      var line := ScanLine(alphabet, source, start);
      if line.Ok? {
        var (tokens, next) := line.value;
        LineTiles(alphabet, source, start);
        LexTiles(alphabet, source, next);
        var rest := LexFrom(alphabet, source, next);
        if rest.Ok? {
          assert LexFrom(alphabet, source, start) == Ok(tokens + rest.value);
          hide LexFrom;
          TiledJoin(source, start, tokens, next, rest.value, |source|);
        }
      }
    }
  }

  lemma {:induction false} TiledOrdered(source: string, from: nat, tokens: seq<Token>, to: nat, i: nat)
    requires Tiled(source, from, tokens, to) && i < |tokens|
    ensures from <= tokens[i].span.start <= tokens[i].span.end <= to
    ensures forall j | i < j < |tokens| :: tokens[i].span.end <= tokens[j].span.start
    decreases |tokens|
  {
    var rest := tokens[1..];
    if i > 0 {
      TiledOrdered(source, tokens[0].span.end, rest, to, i - 1);
      forall j | i < j < |tokens| ensures tokens[i].span.end <= tokens[j].span.start {
        assert tokens[j] == rest[j - 1];
      }
    } else {
      TiledEnds(source, tokens[0].span.end, rest, to);
      forall j | 0 < j < |tokens| ensures tokens[0].span.end <= tokens[j].span.start {
        TiledOrdered(source, tokens[0].span.end, rest, to, j - 1);
        assert tokens[j] == rest[j - 1];
      }
    }
  }

  lemma {:induction false} TiledEnds(source: string, from: nat, tokens: seq<Token>, to: nat)
    requires Tiled(source, from, tokens, to)
    ensures from <= to
    decreases |tokens|
  {
    if tokens != [] {
      TiledEnds(source, tokens[0].span.end, tokens[1..], to);
    }
  }

  /** Whatever the source, its tokens are ordered and disjoint: what the nesting of spans relies on. */
  lemma LexedTokensOrdered(alphabet: Alphabet, source: string)
    requires Lex(alphabet, source).Ok?
    ensures ArenaInvariant.Ordered(Lex(alphabet, source).value)
  {
    LexTiles(alphabet, source, 0);
    var tokens := Lex(alphabet, source).value;
    forall i | 0 <= i < |tokens|
      ensures tokens[i].span.start <= tokens[i].span.end
      ensures forall j | i < j < |tokens| :: tokens[i].span.end <= tokens[j].span.start
    {
      TiledOrdered(source, 0, tokens, |source|, i);
    }
  }
}
