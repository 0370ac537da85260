/** Which kinds of token come out of the lexer. */
module LexedKinds {
  import opened Prelude
  import opened Syntax
  import opened Lexing

  /** A token of the source itself: not its end, and no scalar has a tag attached. */
  predicate Written(kind: TokenKind) {
    !kind.Eof? && (kind.Scalar? ==> kind.tag.None?)
  }

  lemma {:induction false} PiecesWritten(alphabet: Alphabet, line: string, col: nat)
    requires col <= |line|
    ensures var r := ScanFrom(alphabet, line, col); r.Ok? ==> forall p | p in r.value.pieces :: Written(p.kind)
    decreases |line| - col
  {
    if col < |line| {
      if line[col] == ' ' {
        PiecesWritten(alphabet, line, col + 1);
      } else {
        var found := PieceAt(alphabet, line, col);
        if found.Ok? && found.value.Inner? {
          PiecesWritten(alphabet, line, found.value.piece.end);
        }
      }
    }
  }

  lemma {:induction false} TokensWritten(source: string, start: nat, pieces: seq<Piece>)
    requires start <= |source| && forall p | p in pieces :: Written(p.kind)
    requires forall i | 0 <= i < |pieces| :: start + pieces[i].start <= |source| && start + pieces[i].end <= |source|
    ensures forall t | t in TokensOf(source, start, pieces) :: Written(t.kind)
  {
    if pieces != [] {
      TokensWritten(source, start, pieces[1..]);
    }
  }

  lemma LineWritten(alphabet: Alphabet, source: string, start: nat)
    requires start < |source|
    ensures var r := ScanLine(alphabet, source, start); r.Ok? ==> forall t | t in r.value.0 :: Written(t.kind)
  {
    var line := LineAt(source, start);
    var indent := SpacesEnd(line, 0);
    ScanFits(alphabet, line, indent);
    PiecesWritten(alphabet, line, indent);
    var scan := ScanFrom(alphabet, line, indent);
    if scan.Ok? {
      TokensWritten(source, start, scan.value.pieces);
    }
  }

  /** Written tokens, and then the end. */
  predicate EndsInEof(tokens: seq<Token>) {
    tokens != [] && tokens[|tokens| - 1].kind.Eof? && forall i | 0 <= i < |tokens| - 1 :: Written(tokens[i].kind)
  }

  lemma WrittenThen(tokens: seq<Token>, rest: seq<Token>)
    requires (forall t | t in tokens :: Written(t.kind)) && EndsInEof(rest)
    ensures EndsInEof(tokens + rest)
  {
    hide Written;
  }

  /** Lexed tokens end in the only `Eof`, and none is a scalar with a tag attached. */
  lemma {:induction false} LexedWritten(alphabet: Alphabet, source: string, start: nat)
    requires start <= |source|
    ensures var r := LexFrom(alphabet, source, start); r.Ok? ==> EndsInEof(r.value)
    decreases |source| - start
  {
    hide ScanLine, Written, SpanOf;
    if start < |source| {
      LineWritten(alphabet, source, start);
      var line := ScanLine(alphabet, source, start);
      if line.Ok? {
        LexedWritten(alphabet, source, line.value.1);
        var rest := LexFrom(alphabet, source, line.value.1);
        if rest.Ok? {
          WrittenThen(line.value.0, rest.value);
        }
      }
    }
  }
}
