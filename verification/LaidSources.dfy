/** Source texts: what a laid out text reads as, block scalars under keys, and what a dash misses. */
module LaidSources {
  import opened Prelude
  import opened Syntax
  import opened Arena
  import opened Grammar
  import opened Values
  import opened Layouts
  import opened LayoutParsing
  import opened LaidStreams
  import ParsersAgree
  import R = RoundTrip
  import L = Lexing
  import V = ValueText
  import T = LexedText
  import P = Printer
  import S = LexedSource
  import Q = QuotedScalars
  import B = BlockScalars

  /** Nothing is refused for meaning different things under the two versions. */
  ghost predicate Clear(cfg: Config, tokens: seq<Token>) {
    cfg.options.strictVersion && cfg.options.yamlVersion.None? ==>
      forall i | 0 <= i < |tokens| && tokens[i].kind.Scalar? && tokens[i].kind.style == Plain ::
        !Ambiguous(cfg, tokens[i].kind.raw)
  }

  /** A text whose tokens are laid out as one document reads as that document says. */
  lemma SourceReads(cfg: Config, alphabet: L.Alphabet, text: string, page: Page, eof: nat, v: Value)
    requires L.Lex(alphabet, text).Ok?
    requires var tokens := L.Lex(alphabet, text).value;
      && Clear(cfg, tokens) && StreamLaid(tokens, 0, [page], eof)
      && StreamMeaning(cfg, InitialVersion(cfg.options), tokens, [page], map[]) == Some([v])
    ensures R.ReadBack(cfg, EveryAnchor, alphabet, text) == Some(v)
  {
    hide L.LexFrom, StreamLaid, StreamMeaning, Parse, FromNode;
    var tokens := L.Lex(alphabet, text).value;
    var g := Grammar(cfg, EveryAnchor, tokens);
    ParsersAgree.LexedUntagged(alphabet, text);
    assert Steady(g, cfg.options.yamlVersion.Some?);
    hide L.Lex;
    StreamParses(g, [page], eof, [v]);
    assert [v][0] == v;
  }

  // ----- A block scalar under a key

  /** A mapping of one key and one value: three tokens on one line. */
  const ONE_ENTRY := Page([], None, Some(Layout([], Keys([Entry(OneScalar(0), 1, Some(Layout([], Atom(2))))]))), None)

  lemma OneEntryLaid(tokens: seq<Token>)
    requires |tokens| == 4 && tokens[0].kind.Scalar? && tokens[1].kind.Colon? && tokens[3].kind.Eof?
    requires tokens[2].kind.BlockScalar? && tokens[2].span.line == tokens[0].span.line
    ensures StreamLaid(tokens, 0, [ONE_ENTRY], 3)
  {
  }

  lemma OneEntryMeans(cfg: Config, version: YamlVersion, tokens: seq<Token>, key: string, text: string)
    requires |tokens| == 4 && tokens[0].kind == TokenKind.Scalar(key, DoubleQuoted, None)
    requires tokens[2].kind.BlockScalar? && tokens[2].kind.text == text
    requires !cfg.options.mergeKeys || key != "<<"
    ensures StreamMeaning(cfg, version, tokens, [ONE_ENTRY], map[]) == Some([VMapping([(VString(key), VString(text))])])
  {
    var entries := [Entry(OneScalar(0), 1, Some(Layout([], Atom(2))))];
    assert Meaning(cfg, version, tokens, Layout([], Atom(2)), map[]) == Some((VString(text), map[]));
    assert KeyMeaning(cfg, version, tokens, OneScalar(0), map[]) == Some((VString(key), map[]));
    assert EntriesMeaning(cfg, version, tokens, entries[1..], map[]) == Some(([], map[]));
    assert [(VString(key), VString(text))] + [] == [(VString(key), VString(text))];
    assert EntriesMeaning(cfg, version, tokens, entries, map[]) == Some(([(VString(key), VString(text))], map[]));
    var layout := Layout([], Keys(entries));
    assert CoreMeaning(cfg, version, tokens, Keys(entries), map[])
      == Some((VMapping([(VString(key), VString(text))]), map[]));
    assert Meaning(cfg, version, tokens, layout, map[]) == Some((VMapping([(VString(key), VString(text))]), map[]));
    assert StreamMeaning(cfg, version, tokens, [ONE_ENTRY][1..], map[]) == Some([]);
    assert [VMapping([(VString(key), VString(text))])] + [] == [VMapping([(VString(key), VString(text))])];
    hide Meaning;
  }

  /** A quoted key and a block scalar behind it. */
  function KeyedBlock(key: string, b: B.Block): string {
    V.LeafText(VString(key)) + ": " + B.HeaderText(b) + "\n" + B.BodyText(b)
  }

  /** Two pieces of the first line become tokens of the first line. */
  lemma KeyTokens(line: string, body: string, key: Value)
    requires V.IsLeaf(key) && T.Clean(line) && L.PiecesFit(line, T.KeyPieces(key, 0))
    ensures var tokens := L.TokensOf(line + "\n" + body, 0, T.KeyPieces(key, 0));
      && |tokens| == 2 && tokens[0].kind == Q.LeafToken(key) && tokens[1].kind.Colon? && tokens[0].span.line == 1
  {
    var pieces, text := T.KeyPieces(key, 0), line + "\n" + body;
    assert "" + (line + "\n" + body) == text;
    hide L.TokensOf, T.Clean, V.LeafText, Q.LeafToken;
    S.TokensShape("", line, body, pieces);
    var tokens := L.TokensOf(text, 0, pieces);
    var shapes := S.PieceShapes(pieces, 1);
    assert L.Newlines("") == 0;
    assert |shapes| == 2 && S.ShapesOf(tokens) == shapes;
    assert S.ShapeOf(tokens[0]) == shapes[0] && S.ShapeOf(tokens[1]) == shapes[1];
  }

  lemma ThirdToken(head: string, behind: string)
    requires T.Clean(head)
    ensures var text := head + behind; L.SpanOf(text, |head|, |text|).line == 1
  {
    assert (head + behind)[..|head|] == "" + head;
    S.PositionAfter("", head);
  }

  lemma WholeLexes(alphabet: L.Alphabet, text: string, tokens: seq<Token>)
    requires text != "" && L.ScanLine(alphabet, text, 0) == Ok((tokens, |text|))
    ensures L.Lex(alphabet, text) == Ok(tokens + [Token(Eof, L.SpanOf(text, |text|, |text|))])
  {
    hide L.ScanLine, L.SpanOf;
    assert L.LexFrom(alphabet, text, |text|) == Ok([Token(Eof, L.SpanOf(text, |text|, |text|))]);
  }

  /** A quoted key, a colon and a block scalar that starts on their line. */
  predicate KeyAndBlock(tokens: seq<Token>, key: string, kind: TokenKind) {
    && |tokens| == 4 && kind.BlockScalar?
    && tokens[0].kind == TokenKind.Scalar(key, DoubleQuoted, None) && tokens[1].kind.Colon?
    && tokens[2].kind == kind && tokens[2].span.line == tokens[0].span.line && tokens[3].kind.Eof?
  }

  lemma KeyedLexes(alphabet: L.Alphabet, head: string, header: string, body: string, key: string, kind: TokenKind)
    requires var line, pieces := head + header, T.KeyPieces(VString(key), 0);
      && T.Clean(head) && T.Clean(line) && L.PiecesFit(line, pieces) && kind.BlockScalar?
      && L.ScanLine(alphabet, line + "\n" + body, 0)
         == Ok((L.TokensOf(line + "\n" + body, 0, pieces)
                + [Token(kind, L.SpanOf(line + "\n" + body, |head|, |line + "\n" + body|))], |line + "\n" + body|))
    ensures var tokens := L.Lex(alphabet, head + header + "\n" + body);
      tokens.Ok? && KeyAndBlock(tokens.value, key, kind)
  {
    hide L.ScanLine, L.TokensOf, L.SpanOf, L.Lex, L.LexFrom, T.KeyPieces, T.Clean, L.PiecesFit, V.LeafText;
    var line := head + header;
    KeyTokens(line, body, VString(key));
    ThirdToken(head, header + "\n" + body);
    Together(head, header, body);
    WholeLexes(alphabet, line + "\n" + body, L.ScanLine(alphabet, line + "\n" + body, 0).value.0);
  }

  /** A block scalar that is the whole text. */
  lemma AloneLexes(alphabet: L.Alphabet, head: string, pieces: seq<L.Piece>, b: B.Block, width: nat)
    requires B.Opens(alphabet, head, head + B.HeaderText(b), pieces)
    requires B.BlockOk(b, L.SpacesEnd(head + B.HeaderText(b), 0), width, "")
    ensures L.PiecesFit(head + B.HeaderText(b), pieces)
    ensures var text := head + B.HeaderText(b) + "\n" + B.BodyText(b);
      var token := Token(BlockScalar(b.indicator, B.BlockText(b)), L.SpanOf(text, |head|, |text|));
      L.ScanLine(alphabet, text, 0) == Ok((L.TokensOf(text, 0, pieces) + [token], |text|))
  {
    hide B.HeaderText, B.BodyText, B.BlockText, B.BlockOk, L.ScanLine, L.TokensOf, L.SpanOf, B.Opens, L.PiecesFit,
      L.SpacesEnd;
    B.BlockLexes(alphabet, "", head, pieces, b, width, "");
    KeyedText(head + B.HeaderText(b), B.BodyText(b));
  }

  lemma KeyedBlockLexes(alphabet: L.Alphabet, key: string, b: B.Block, width: nat)
    requires B.BlockOk(b, 0, width, "")
    ensures var tokens := L.Lex(alphabet, KeyedBlock(key, b));
      tokens.Ok? && KeyAndBlock(tokens.value, key, BlockScalar(b.indicator, B.BlockText(b)))
  {
    var head, pieces := V.LeafText(VString(key)) + ": ", T.KeyPieces(VString(key), 0);
    KeyHead(alphabet, key, b);
    hide V.LeafText, B.HeaderText, B.BodyText, B.BlockText, B.BlockOk, L.ScanLine, L.TokensOf, L.SpanOf, L.Lex,
      T.KeyPieces, T.Clean, B.Opens, L.PiecesFit, L.SpacesEnd, KeyAndBlock;
    AloneLexes(alphabet, head, pieces, b, width);
    KeyedLexes(alphabet, head, B.HeaderText(b), B.BodyText(b), key, BlockScalar(b.indicator, B.BlockText(b)));
  }

  lemma KeyHead(alphabet: L.Alphabet, key: string, b: B.Block)
    requires B.HeaderOk(b)
    ensures var head := V.LeafText(VString(key)) + ": ";
      var line := head + B.HeaderText(b);
      && T.Clean(head) && T.Clean(line) && L.SpacesEnd(line, 0) == 0
      && B.Opens(alphabet, head, line, T.KeyPieces(VString(key), 0))
  {
    var leaf := VString(key);
    var head := V.LeafText(leaf) + ": ";
    assert P.Pad(0) + V.LeafText(leaf) + ": " == head;
    B.KeyOpens(alphabet, 0, leaf, b);
    T.LeafClean(leaf);
    B.HeaderClean(b);
    hide V.LeafText, B.HeaderText, B.Opens, L.SpacesEnd;
  }

  lemma KeyedText(line: string, body: string)
    ensures "" + (line + "\n" + (body + "")) == line + "\n" + body
  {
  }

  lemma Together(head: string, header: string, body: string)
    ensures head + header + "\n" + body == head + (header + "\n" + body)
  {
  }

  lemma KeyAndBlockReads(cfg: Config, alphabet: L.Alphabet, text: string, key: string, kind: TokenKind)
    requires !cfg.options.mergeKeys || key != "<<"
    requires L.Lex(alphabet, text).Ok? && KeyAndBlock(L.Lex(alphabet, text).value, key, kind)
    ensures R.ReadBack(cfg, EveryAnchor, alphabet, text) == Some(VMapping([(VString(key), VString(kind.text))]))
  {
    hide L.Lex, R.ReadBack, StreamLaid, StreamMeaning;
    var tokens := L.Lex(alphabet, text).value;
    OneEntryLaid(tokens);
    OneEntryMeans(cfg, InitialVersion(cfg.options), tokens, key, kind.text);
    SourceReads(cfg, alphabet, text, ONE_ENTRY, 3, VMapping([(VString(key), VString(kind.text))]));
  }

  /** A block scalar under a key is read as its text, under all options. */
  lemma KeyedBlockReads(cfg: Config, alphabet: L.Alphabet, key: string, b: B.Block, width: nat)
    requires B.BlockOk(b, 0, width, "") && (!cfg.options.mergeKeys || key != "<<")
    ensures R.ReadBack(cfg, EveryAnchor, alphabet, KeyedBlock(key, b))
      == Some(VMapping([(VString(key), VString(B.BlockText(b)))]))
  {
    KeyedBlockLexes(alphabet, key, b, width);
    hide B.BlockOk, B.BlockText, L.Lex, KeyedBlock, R.ReadBack, KeyAndBlock;
    KeyAndBlockReads(cfg, alphabet, KeyedBlock(key, b), key, BlockScalar(b.indicator, B.BlockText(b)));
  }

  // ----- Where the token behind a dash hides the value

  /**
   The parser looks at the token right behind a dash, comments and blank lines included: on another
   line and no deeper than the dash, it leaves the item null whatever comes behind it.
   */
  lemma ItemHidden(g: Grammar, s: PState, dash: Span)
    requires s.pos < |g.tokens|
    requires g.tokens[s.pos].span.line != dash.line && g.tokens[s.pos].span.column <= dash.column
    ensures ParseItem(g, s, dash) == Ok(AddNull(s, dash))
  {
  }

  function TokenIn(kind: TokenKind, start: nat, end: nat, line: nat, column: nat): Token {
    Token(kind, Span(start, end, line, column))
  }

  /** The tokens of `-`, a blank line and an indented `a`. */
  const HIDDEN := [TokenIn(SequenceEntry, 0, 1, 1, 1), TokenIn(BlankLine, 2, 2, 2, 1),
                   TokenIn(TokenKind.Scalar("a", Plain, None), 5, 6, 3, 3), TokenIn(Eof, 7, 7, 4, 1)]

  const HIDDEN_TEXT := "-\n\n  a\n"

  lemma HiddenLexes(alphabet: L.Alphabet)
    ensures L.Lex(alphabet, HIDDEN_TEXT) == Ok(HIDDEN)
  {
    hide L.ScanLine;
    FirstLine(alphabet);
    SecondLine(alphabet);
    ThirdLine(alphabet);
    assert L.LexFrom(alphabet, HIDDEN_TEXT, 7) == Ok([HIDDEN[3]]) by { Positions(); }
    assert L.LexFrom(alphabet, HIDDEN_TEXT, 3) == Ok([HIDDEN[2]] + [HIDDEN[3]]);
    assert L.LexFrom(alphabet, HIDDEN_TEXT, 2) == Ok([HIDDEN[1]] + ([HIDDEN[2]] + [HIDDEN[3]]));
    assert [HIDDEN[0]] + ([HIDDEN[1]] + ([HIDDEN[2]] + [HIDDEN[3]])) == HIDDEN;
  }

  lemma Position(start: nat, end: nat, prefix: string, rest: string, line: nat)
    requires S.EndsLine(prefix) && T.Clean(rest) && start <= |HIDDEN_TEXT| && end <= |HIDDEN_TEXT|
    requires HIDDEN_TEXT[..start] == prefix + rest && L.Newlines(prefix) + 1 == line
    ensures L.SpanOf(HIDDEN_TEXT, start, end) == Span(start, end, line, |rest| + 1)
  {
    S.PositionAfter(prefix, rest);
    hide L.Newlines, L.LastLine;
  }

  lemma Counts()
    ensures L.Newlines("-\n") == 1 && L.Newlines("-\n\n") == 2 && L.Newlines(HIDDEN_TEXT) == 3
  {
    S.NextPrefix("", "-");
    S.NextPrefix("-\n", "");
    S.NextPrefix("-\n\n", "  a");
    hide L.Newlines;
    assert "" + ("-" + "\n") == "-\n" && "-\n" + ("" + "\n") == "-\n\n" && "-\n\n" + ("  a" + "\n") == HIDDEN_TEXT;
    assert L.Newlines("") == 0 by { NoLines(); }
  }

  lemma NoLines()
    ensures L.Newlines("") == 0
  {
  }

  lemma Positions()
    ensures L.SpanOf(HIDDEN_TEXT, 0, 1) == HIDDEN[0].span && L.SpanOf(HIDDEN_TEXT, 2, 2) == HIDDEN[1].span
    ensures L.SpanOf(HIDDEN_TEXT, 5, 6) == HIDDEN[2].span && L.SpanOf(HIDDEN_TEXT, 7, 7) == HIDDEN[3].span
  {
    hide L.Newlines, L.SpanOf;
    Counts();
    NoLines();
    Position(0, 1, "", "", 1);
    Position(2, 2, "-\n", "", 2);
    Position(5, 6, "-\n\n", "  ", 3);
    Position(7, 7, HIDDEN_TEXT, "", 4);
  }

  lemma OneToken(start: nat, piece: L.Piece)
    requires start + piece.start <= |HIDDEN_TEXT| && start + piece.end <= |HIDDEN_TEXT|
    ensures [piece] + [] == [piece]
    ensures L.TokensOf(HIDDEN_TEXT, start, [piece])
      == [Token(piece.kind, L.SpanOf(HIDDEN_TEXT, start + piece.start, start + piece.end))]
  {
  }

  lemma FirstLine(alphabet: L.Alphabet)
    ensures L.ScanLine(alphabet, HIDDEN_TEXT, 0) == Ok(([HIDDEN[0]], 2))
  {
    Positions();
    S.LineFound("", "-", "\n  a\n");
    assert "" + ("-" + "\n" + "\n  a\n") == HIDDEN_TEXT;
    T.DashScans(alphabet, "-", 0);
    assert L.ScanFrom(alphabet, "-", 1) == Ok(L.LineScan([], None));
    OneToken(0, L.Piece(SequenceEntry, 0, 1));
  }

  lemma SecondLine(alphabet: L.Alphabet)
    ensures L.ScanLine(alphabet, HIDDEN_TEXT, 2) == Ok(([HIDDEN[1]], 3))
  {
    Positions();
    S.LineFound("-\n", "", "  a\n");
    assert "-\n" + ("" + "\n" + "  a\n") == HIDDEN_TEXT;
  }

  lemma ThirdLine(alphabet: L.Alphabet)
    ensures L.ScanLine(alphabet, HIDDEN_TEXT, 3) == Ok(([HIDDEN[2]], 7))
  {
    Positions();
    S.LineFound("-\n\n", "  a", "");
    assert "-\n\n" + ("  a" + "\n" + "") == HIDDEN_TEXT;
    T.PadEnd("  a", 2, 0);
    assert "  a"[2..L.TrimmedEnd("  a", 2, 3)] == "a" && L.PlainEnd("  a", 3) == 3;
    assert L.PieceAt(alphabet, "  a", 2) == Ok(L.Inner(L.Piece(HIDDEN[2].kind, 2, 3)));
    T.ScanOne(alphabet, "  a", 2, L.Piece(HIDDEN[2].kind, 2, 3));
    assert L.ScanFrom(alphabet, "  a", 3) == Ok(L.LineScan([], None));
    OneToken(3, L.Piece(HIDDEN[2].kind, 2, 3));
  }

  /** So that text is refused, although without the blank line it is a sequence of one item. */
  lemma BlankHides(cfg: Config, keyAnchors: KeyAnchors, alphabet: L.Alphabet)
    ensures L.Lex(alphabet, HIDDEN_TEXT) == Ok(HIDDEN)
    ensures Parse(Grammar(cfg, keyAnchors, HIDDEN)) == Err(TrailingContent)
  {
    HiddenLexes(alphabet);
    hide L.Lex;
    var g := Grammar(cfg, keyAnchors, HIDDEN);
    var s := InitialState(g);
    assert SkipPos(HIDDEN, 0) == 0 && SkipPos(HIDDEN, 1) == 2 && SkipPos(HIDDEN, 2) == 2;
    assert SkipTrivia(g, s).pos == 0;
    var u := SkipTrivia(g, s);
    assert ConsumeDirectives(g, u).Ok? && ConsumeDirectives(g, u).value.pos == 0;
    var t := ConsumeDirectives(g, u).value;
    HiddenValue(g, t);
  }

  lemma HiddenValue(g: Grammar, s: PState)
    requires g.tokens == HIDDEN && s.pos == 0
    ensures ParseOneDocument(g, s) == Err(TrailingContent)
  {
    var first := Advance(SkipTrivia(g, s));
    var (u, item) := AddNull(first, HIDDEN[0].span);
    assert ParseItem(g, first, HIDDEN[0].span) == Ok((u, item));
    assert SkipPos(HIDDEN, 1) == 2;
    assert !DashAt(g, SkipTrivia(g, u).pos, Some(1));
    var end := SpanEnd(u.document.nodes, item, 1);
    var rest := ParseBlockSequence(g, u, [item], Some(HIDDEN[0].span), end, Some(1));
    assert rest.Ok? && rest.value.0.pos == 2;
    assert [] + [item] == [item];
    assert ParseBlockSequence(g, s, [], None, 0, None) == rest;
    assert SkipTrivia(g, s) == s by { assert s.pending + TriviaFrom(HIDDEN, 0) == s.pending; }
    assert ParseValue(g, s) == rest;
    HiddenRest(g, PushRoot(rest.value.0, rest.value.1));
  }

  lemma HiddenRest(g: Grammar, s: PState)
    requires g.tokens == HIDDEN && s.pos == 2
    ensures EndDocument(g, s) == Err(TrailingContent)
  {
    assert SkipPos(HIDDEN, 2) == 2;
    assert ConsumeDirectives(g, SkipTrivia(g, SkipTrivia(g, s))).value.pos == 2;
  }
}
