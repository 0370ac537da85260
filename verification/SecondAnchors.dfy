/** A flow key with two anchors, from its source text: where the two parsers part. */
module SecondAnchors {
  import opened Prelude
  import opened Syntax
  import opened Arena
  import opened Grammar
  import opened Machine
  import opened Runs
  import opened StreamEquivalence
  import opened MachineInvariant
  import opened Lexing
  import opened LexedText
  import opened LexedSource
  import opened ValueText
  import opened KeyAnchors
  import opened ParsersAgree
  import opened Decoding
  import opened StreamDecoding
  import ArenaInvariant
  import G = Grammar

  /** Letters count as alphanumeric; spaces and brackets do not. */
  predicate NamesEnd(alphabet: Alphabet) {
    alphabet('a') && alphabet('b') && !alphabet(' ') && !alphabet('}')
  }

  /** The line `{&x &y "k": value}`. */
  function KeyLine(x: char, y: char, value: string): string {
    ['{', '&', x, ' ', '&', y, ' ', '"', 'k', '"', ':', ' '] + value + ['}']
  }

  /** The kinds of the tokens of that line. */
  function KeyKinds(x: string, y: string, value: TokenKind): seq<TokenKind> {
    [LeftBrace, TokenKind.Anchor(x), TokenKind.Anchor(y), TokenKind.Scalar("k", DoubleQuoted, None), Colon, value,
     RightBrace, Eof]
  }

  /** Tokens of these kinds, wherever they stand. */
  predicate Spelled(tokens: seq<Token>, kinds: seq<TokenKind>) {
    |tokens| == |kinds| && forall i | 0 <= i < |kinds| :: tokens[i].kind == kinds[i]
  }

  // ----- Lexing the line

  lemma NameFound(alphabet: Alphabet, line: string, col: nat)
    requires col + 2 < |line| && (line[col] == '&' || line[col] == '*')
    requires NameChar(alphabet, line[col + 1]) && !NameChar(alphabet, line[col + 2])
    ensures var name := [line[col + 1]];
      PieceAt(alphabet, line, col) ==
        Ok(Inner(Piece(if line[col] == '&' then TokenKind.Anchor(name) else TokenKind.Alias(name), col, col + 2)))
  {
    assert NameEnd(alphabet, line, col + 1) == col + 2;
    assert line[col + 1..col + 2] == [line[col + 1]];
  }

  lemma LetterFound(alphabet: Alphabet, line: string, col: nat)
    requires col + 2 < |line| && line[col] == '"' && line[col + 1] != '"' && line[col + 1] != '\\'
      && line[col + 2] == '"'
    ensures PieceAt(alphabet, line, col) ==
      Ok(Inner(Piece(TokenKind.Scalar([line[col + 1]], DoubleQuoted, None), col, col + 3)))
  {
    assert "" + [line[col + 1]] == [line[col + 1]];
    assert Quoted(line, col + 2, '"', [line[col + 1]]) == Ok(([line[col + 1]], col + 3));
  }

  lemma MarkFound(alphabet: Alphabet, line: string, col: nat)
    requires col < |line|
    requires line[col] == '{' || line[col] == '}' || (line[col] == ':' && SpaceOrEnd(line, col + 1))
    ensures var kind := if line[col] == '{' then LeftBrace else if line[col] == '}' then RightBrace else Colon;
      PieceAt(alphabet, line, col) == Ok(Inner(Piece(kind, col, col + 1)))
  {
  }

  /** Piece `i`, the space behind it if there is one, and the pieces after it. */
  lemma Scanned(alphabet: Alphabet, line: string, pieces: seq<Piece>, i: nat)
    requires i < |pieces| && pieces[i].start < |line| && line[pieces[i].start] != ' '
    requires PieceAt(alphabet, line, pieces[i].start) == Ok(Inner(pieces[i]))
    requires var end := if pieces[i].end < |line| && line[pieces[i].end] == ' ' then pieces[i].end + 1
      else pieces[i].end;
      end <= |line| && ScanFrom(alphabet, line, end) == Ok(LineScan(pieces[i + 1..], None))
    ensures ScanFrom(alphabet, line, pieces[i].start) == Ok(LineScan(pieces[i..], None))
  {
    hide PieceAt;
    var piece := pieces[i];
    ScanOne(alphabet, line, piece.start, piece);
    if piece.end < |line| && line[piece.end] == ' ' {
      ScanSpace(alphabet, line, piece.end);
    }
    assert [piece] + pieces[i + 1..] == pieces[i..];
  }

  /** The pieces of the line, of which `value` has length `n`. */
  function KeyPieces(x: char, y: char, kind: TokenKind, n: nat): seq<Piece> {
    [Piece(LeftBrace, 0, 1), Piece(TokenKind.Anchor([x]), 1, 3), Piece(TokenKind.Anchor([y]), 4, 6),
     Piece(TokenKind.Scalar("k", DoubleQuoted, None), 7, 10), Piece(Colon, 10, 11), Piece(kind, 12, 12 + n),
     Piece(RightBrace, 12 + n, 13 + n)]
  }

  /** What the line holds, a `value` of the right kind included. */
  ghost predicate KeyLineOk(alphabet: Alphabet, x: char, y: char, value: string, kind: TokenKind) {
    && NamesEnd(alphabet) && (x == 'a' || x == 'b') && (y == 'a' || y == 'b')
    && Clean(value) && value != "" && value[0] != ' '
    && PieceAt(alphabet, KeyLine(x, y, value), 12) == Ok(Inner(Piece(kind, 12, 12 + |value|)))
  }

  lemma KeyLineFinds(alphabet: Alphabet, x: char, y: char, value: string, kind: TokenKind, i: nat)
    requires KeyLineOk(alphabet, x, y, value, kind) && i < 7
    ensures var line, piece := KeyLine(x, y, value), KeyPieces(x, y, kind, |value|)[i];
      piece.start < |line| && line[piece.start] != ' ' && PieceAt(alphabet, line, piece.start) == Ok(Inner(piece))
  {
    var line, end := KeyLine(x, y, value), 12 + |value|;
    assert line[12] == value[0];
    hide PieceAt;
    if i == 0 || i == 4 || i == 6 {
      MarkFound(alphabet, line, if i == 0 then 0 else if i == 4 then 10 else end);
    } else if i == 1 || i == 2 {
      NameFound(alphabet, line, if i == 1 then 1 else 4);
    } else if i == 3 {
      LetterFound(alphabet, line, 7);
    }
  }

  lemma {:induction false} KeyLineScansFrom(alphabet: Alphabet, x: char, y: char, value: string, kind: TokenKind,
                                            i: nat)
    requires KeyLineOk(alphabet, x, y, value, kind) && i < 7
    ensures var line, pieces := KeyLine(x, y, value), KeyPieces(x, y, kind, |value|);
      pieces[i].start < |line| && ScanFrom(alphabet, line, pieces[i].start) == Ok(LineScan(pieces[i..], None))
    decreases 7 - i
  {
    hide PieceAt;
    var line, pieces := KeyLine(x, y, value), KeyPieces(x, y, kind, |value|);
    KeyLineFinds(alphabet, x, y, value, kind, i);
    if i == 6 {
      assert pieces[7..] == [];
      assert ScanFrom(alphabet, line, |line|) == Ok(LineScan([], None));
    } else {
      KeyLineScansFrom(alphabet, x, y, value, kind, i + 1);
      hide ScanFrom;
      assert line[12] == value[0];
    }
    hide ScanFrom;
    Scanned(alphabet, line, pieces, i);
  }

  lemma KeyLineScans(alphabet: Alphabet, x: char, y: char, value: string, kind: TokenKind)
    requires KeyLineOk(alphabet, x, y, value, kind)
    ensures Scans(alphabet, KeyLine(x, y, value), KeyPieces(x, y, kind, |value|))
  {
    hide PieceAt, ScanFrom, KeyLine, KeyPieces, KeyLineOk, Clean, SpacesEnd;
    KeyLineScansFrom(alphabet, x, y, value, kind, 0);
    KeyLineStarts(alphabet, x, y, value, kind);
  }

  lemma KeyLineStarts(alphabet: Alphabet, x: char, y: char, value: string, kind: TokenKind)
    requires KeyLineOk(alphabet, x, y, value, kind)
    ensures var line, pieces := KeyLine(x, y, value), KeyPieces(x, y, kind, |value|);
      && Clean(line) && line[0] == '{' && SpacesEnd(line, 0) == 0 && pieces[0].start == 0 && pieces[0..] == pieces
  {
    hide PieceAt;
  }

  /** A line on its own lexes to its pieces and an `Eof`. */
  lemma OneLineLexes(alphabet: Alphabet, line: string, pieces: seq<Piece>)
    requires Scans(alphabet, line, pieces)
    ensures var tokens := Lex(alphabet, line + "\n");
      && tokens.Ok? && |tokens.value| == |pieces| + 1 && tokens.value[|pieces|].kind.Eof?
      && forall i | 0 <= i < |pieces| :: tokens.value[i].kind == pieces[i].kind
  {
    hide Scans, LexFrom;
    LinesLex(alphabet, "", [line], [pieces]);
    assert Unlines([line]) == line + "\n" == "" + Unlines([line]);
    var tokens := Lex(alphabet, line + "\n").value;
    assert LinesShapes([pieces], 1) == PieceShapes(pieces, 1) + LinesShapes([], 2) == PieceShapes(pieces, 1);
    assert ShapesOf(tokens) == PieceShapes(pieces, 1) + [Shape(Eof, 2, 1)];
    assert |tokens| == |pieces| + 1;
    forall i | 0 <= i < |tokens| ensures tokens[i].kind == if i < |pieces| then pieces[i].kind else Eof {
      assert ShapesOf(tokens)[i].kind == tokens[i].kind;
    }
  }

  /** The line lexes to tokens of the kinds it spells. */
  lemma KeyLineLexes(alphabet: Alphabet, x: char, y: char, value: string, kind: TokenKind)
    requires KeyLineOk(alphabet, x, y, value, kind)
    ensures var tokens := Lex(alphabet, KeyLine(x, y, value) + "\n");
      tokens.Ok? && Spelled(tokens.value, KeyKinds([x], [y], kind))
  {
    hide Scans, LexFrom, KeyLine, KeyLineOk;
    KeyLineScans(alphabet, x, y, value, kind);
    OneLineLexes(alphabet, KeyLine(x, y, value), KeyPieces(x, y, kind, |value|));
  }

  // ----- Parsing it under either policy

  /** The mapping's value is an alias to the second anchor, or a quoted string. */
  predicate ValueKind(kind: TokenKind, second: string) {
    kind == TokenKind.Alias(second) || (kind.Scalar? && kind.style.DoubleQuoted?)
  }

  /** What either policy makes of the line: the error it ends with, if any. */
  function Verdict(policy: G.KeyAnchors, first: string, second: string, value: TokenKind): Option<ErrorKind> {
    if policy.EveryAnchor? && first == second then Some(InvalidAnchor)
    else if policy.FirstAnchor? && first != second && value.Alias? then Some(UnknownAnchor)
    else None
  }

  /** The scalar behind the anchors of the key. */
  lemma BareKeyParses(g: Grammar, s: PState)
    requires s.pos < |g.tokens| && g.tokens[s.pos].kind.Scalar? && g.tokens[s.pos].kind.style.DoubleQuoted?
    ensures var r := ParseFlowKey(g, s, true); r.Ok? && r.value.0.pos == s.pos + 1 && r.value.0.anchors == s.anchors
  {
    hide TriviaFrom;
  }

  lemma KeyParses(g: Grammar, s: PState, a: string, b: string, value: TokenKind)
    requires Spelled(g.tokens, KeyKinds(a, b, value)) && s.pos == 1 && s.anchors == map[]
    ensures var r := ParseFlowKey(g, s, false);
      if g.keyAnchors.EveryAnchor? && a == b then r == Err(InvalidAnchor)
      else r.Ok? && r.value.0.pos == 4 && r.value.0.anchors.Keys == if g.keyAnchors.FirstAnchor? then {a} else {a, b}
  {
    assert |g.tokens| == 8 && g.tokens[1].kind == TokenKind.Anchor(a) && g.tokens[2].kind == TokenKind.Anchor(b)
      && g.tokens[3].kind == TokenKind.Scalar("k", DoubleQuoted, None) by {
      assert forall i | 0 <= i < 8 :: g.tokens[i].kind == KeyKinds(a, b, value)[i];
    }
    hide TriviaFrom, Spelled, KeyKinds;
    var at1 := SkipTrivia(g, s);
    var at2 := SkipTrivia(g, Advance(at1));
    var at3 := SkipTrivia(g, Advance(SkipTrivia(g, at2)));
    assert at1.pos == 1 && at2.pos == 2 && at3.pos == 3;
    BareKeyParses(g, at3);
    var scalar := ParseFlowKey(g, at3, true);
    var inner := ParseFlowKey(g, at2, true);
    assert inner == if g.keyAnchors.FirstAnchor? then scalar else Declare(scalar.value.0, scalar.value.1, b);
  }

  lemma ValueParses(g: Grammar, t: PState, a: string, b: string, value: TokenKind)
    requires Spelled(g.tokens, KeyKinds(a, b, value)) && t.pos == 4 && ValueKind(value, b)
    ensures var r := ParseFlowEntryValue(g, t);
      if value.Alias? && b !in t.anchors then r == Err(UnknownAnchor) else r.Ok? && r.value.0.pos == 6
  {
    var kinds := KeyKinds(a, b, value);
    assert forall i | 0 <= i < 8 :: g.tokens[i].kind == kinds[i];
    var at5 := SkipTrivia(g, Advance(SkipTrivia(g, t)));
    assert at5.pos == 5 && at5.anchors == t.anchors;
    assert ParseValue(g, at5) == ParseLeaf(g, SkipTrivia(g, at5));
  }

  /** The entry: its value is read up to the closing brace, or the verdict is an error of its key or its value. */
  ghost predicate EntryParsed(g: Grammar, s: PState, verdict: Option<ErrorKind>)
    requires s.pos <= |g.tokens|
  {
    var key := ParseFlowKey(g, s, false);
    if key.Err? then verdict == Some(key.error)
    else
      var value := ParseFlowEntryValue(g, key.value.0);
      if value.Err? then verdict == Some(value.error) else verdict == None && value.value.0.pos == 6
  }

  lemma EntryParses(g: Grammar, s: PState, a: string, b: string, value: TokenKind)
    requires Spelled(g.tokens, KeyKinds(a, b, value)) && ValueKind(value, b)
    requires s.pos == 1 && s.anchors == map[]
    ensures EntryParsed(g, s, Verdict(g.keyAnchors, a, b, value))
  {
    assert |g.tokens| == 8;
    hide ParseFlowKey, ParseFlowEntryValue, KeyKinds;
    KeyParses(g, s, a, b, value);
    var key := ParseFlowKey(g, s, false);
    if key.Ok? {
      ValueParses(g, key.value.0, a, b, value);
    }
  }

  lemma MappingParses(g: Grammar, s: PState, verdict: Option<ErrorKind>, open: Span, end: nat)
    requires !g.cfg.options.mergeKeys && |g.tokens| == 8 && s.pos == 1 && EntryParsed(g, s, verdict)
    requires g.tokens[1].kind.Anchor? && g.tokens[6].kind.RightBrace?
    ensures var r := ParseFlowMapping(g, s, [], open, end);
      if verdict.Some? then r == Err(verdict.value) else r.Ok? && r.value.0.pos == 7
  {
    hide ParseFlowKey, ParseFlowEntryValue, TriviaFrom, SpanEnd;
    if verdict.None? {
      var (t, keyId) := ParseFlowKey(g, s, false).value;
      var (u, valueId) := ParseFlowEntryValue(g, t).value;
      MappingEnds(g, SkipTrivia(g, u), [(keyId, valueId)], open,
                  SpanEnd(u.document.nodes, valueId, SpanEnd(u.document.nodes, keyId, end)));
    }
  }

  lemma MappingEnds(g: Grammar, s: PState, entries: seq<(NodeId, NodeId)>, open: Span, end: nat)
    requires !g.cfg.options.mergeKeys && s.pos < |g.tokens| && g.tokens[s.pos].kind.RightBrace?
    ensures var r := ParseFlowMapping(g, s, entries, open, end); r.Ok? && r.value.0.pos == s.pos + 1
  {
  }

  /** The whole stream: the verdict is all that the policy decides. */
  lemma LineParses(g: Grammar, a: string, b: string, value: TokenKind)
    requires !g.cfg.options.mergeKeys && Spelled(g.tokens, KeyKinds(a, b, value)) && ValueKind(value, b)
    ensures var verdict := Verdict(g.keyAnchors, a, b, value);
      if verdict.Some? then Parse(g) == Err(verdict.value) else Parse(g).Ok?
  {
    assert |g.tokens| == 8 && g.tokens[0].kind.LeftBrace? && g.tokens[1].kind.Anchor?
      && g.tokens[6].kind.RightBrace? && g.tokens[7].kind.Eof? by {
      assert forall i | 0 <= i < 8 :: g.tokens[i].kind == KeyKinds(a, b, value)[i];
    }
    hide KeyKinds, Spelled, ParseDocument, Parse, ParseFlowMapping, EntryParsed;
    var s := SkipTrivia(g, InitialState(g));
    var at1 := SkipTrivia(g, Advance(s));
    assert s.pos == 0 && at1.pos == 1;
    EntryParses(g, at1, a, b, value);
    MappingParses(g, at1, Verdict(g.keyAnchors, a, b, value), g.tokens[0].span, g.tokens[0].span.end);
    ContentParses(g, s, at1);
    StreamEnds(g, s);
  }

  /** A document that is one flow mapping. */
  lemma ContentParses(g: Grammar, s: PState, at1: PState)
    requires |g.tokens| > 1 && s.pos == 0 && g.tokens[0].kind.LeftBrace?
    requires s == SkipTrivia(g, InitialState(g)) && at1 == SkipTrivia(g, Advance(s))
    ensures ParseDocument(g, DocumentContent(g, s), DocumentStartSpan(g, s)) ==
      ParseFlowMapping(g, at1, [], g.tokens[0].span, g.tokens[0].span.end)
  {
    hide ParseFlowMapping;
    assert SkipTrivia(g, s) == s;
    assert ParseValue(g, s) == ParseFlowMapping(g, at1, [], g.tokens[0].span, g.tokens[0].span.end);
  }

  lemma StreamEnds(g: Grammar, s: PState)
    requires |g.tokens| == 8 && s == SkipTrivia(g, InitialState(g)) && s.pos == 0 && g.tokens[0].kind.LeftBrace?
      && g.tokens[7].kind.Eof?
    requires var r := ParseDocument(g, DocumentContent(g, s), DocumentStartSpan(g, s)); r.Ok? ==> r.value.0.pos == 7
    ensures var r := ParseDocument(g, DocumentContent(g, s), DocumentStartSpan(g, s));
      if r.Err? then Parse(g) == Err(r.error) else Parse(g).Ok?
  {
    hide ParseDocument;
    assert SkipTrivia(g, s) == s by {
      assert TriviaFrom(g.tokens, 0) == [] && s.pending + [] == s.pending;
    }
    hide TriviaFrom;
    assert ConsumeDirectives(g, s) == Ok(s);
    var r := ParseDocument(g, DocumentContent(g, s), DocumentStartSpan(g, s));
    if r.Ok? {
      EndsAt(g, PushRoot(r.value.0, r.value.1));
      var ended := EndDocument(g, PushRoot(r.value.0, r.value.1)).value;
      assert ParseDocuments(g, ended) == Ok(ended);
    }
    hide EndDocument;
    assert ParseOneDocument(g, s) == if r.Err? then Err(r.error) else EndDocument(g, PushRoot(r.value.0, r.value.1));
  }

  lemma EndsAt(g: Grammar, t: PState)
    requires t.pos == 7 && |g.tokens| == 8 && g.tokens[7].kind.Eof?
    ensures EndDocument(g, t).Ok? && EndDocument(g, t).value.pos == 7
  {
    hide TriviaFrom;
    var u := SkipTrivia(g, SkipTrivia(g, t));
    assert u.pos == 7;
    assert ConsumeDirectives(g, u) == Ok(SkipTrivia(g, u));
  }

  // ----- The two sources

  /** `{&a &b "k": *b}`: the arena parser accepts it, the event parser does not know the alias. */
  lemma AliasToSecondAnchor(cfg: Config, alphabet: Alphabet)
    requires NamesEnd(alphabet) && !cfg.options.mergeKeys
    ensures var tokens := Lex(alphabet, "{&a &b \"k\": *b}\n");
      && tokens.Ok? && Valid(tokens.value, InitialMachine(cfg))
      && Run(G.Grammar(cfg, FirstAnchor, tokens.value), InitialMachine(cfg)) == Err(UnknownAnchor)
      && Parse(G.Grammar(cfg, EveryAnchor, tokens.value)).Ok?
  {
    hide Run, Valid, Parse, LexFrom, ScanFrom;
    var line := KeyLine('a', 'b', "*b");
    assert line + "\n" == "{&a &b \"k\": *b}\n";
    NameFound(alphabet, line, 12);
    KeyLineLexes(alphabet, 'a', 'b', "*b", TokenKind.Alias("b"));
    hide Lex, KeyLine;
    Disagree(cfg, alphabet, line + "\n", "a", "b", TokenKind.Alias("b"));
  }

  /** `{&a &a "k": "v"}`: the event parser accepts it, the arena parser finds the anchor declared twice. */
  lemma SameAnchorTwice(cfg: Config, alphabet: Alphabet)
    requires NamesEnd(alphabet) && !cfg.options.mergeKeys
    ensures var tokens := Lex(alphabet, "{&a &a \"k\": \"v\"}\n");
      && tokens.Ok? && Valid(tokens.value, InitialMachine(cfg))
      && Run(G.Grammar(cfg, FirstAnchor, tokens.value), InitialMachine(cfg)).Ok?
      && Parse(G.Grammar(cfg, EveryAnchor, tokens.value)) == Err(InvalidAnchor)
  {
    hide Run, Valid, Parse, LexFrom, ScanFrom;
    var line := KeyLine('a', 'a', "\"v\"");
    assert line + "\n" == "{&a &a \"k\": \"v\"}\n";
    LetterFound(alphabet, line, 12);
    KeyLineLexes(alphabet, 'a', 'a', "\"v\"", TokenKind.Scalar("v", DoubleQuoted, None));
    hide Lex, KeyLine;
    Disagree(cfg, alphabet, line + "\n", "a", "a", TokenKind.Scalar("v", DoubleQuoted, None));
  }

  /** So iterating over its documents yields a value from a stream that the arena parser refuses. */
  lemma DecodedThoughRefused(cfg: Config, alphabet: Alphabet)
    requires NamesEnd(alphabet) && !cfg.options.mergeKeys
    ensures var tokens := Lex(alphabet, "{&a &a \"k\": \"v\"}\n");
      && tokens.Ok? && Valid(tokens.value, InitialMachine(cfg))
      && !EndsInError(Iterated(G.Grammar(cfg, FirstAnchor, tokens.value)))
      && Parse(G.Grammar(cfg, EveryAnchor, tokens.value)).Err?
  {
    hide Lex, Valid, Parse, Iterated;
    SameAnchorTwice(cfg, alphabet);
    var line := KeyLine('a', 'a', "\"v\"");
    assert line + "\n" == "{&a &a \"k\": \"v\"}\n";
    LetterFound(alphabet, line, 12);
    KeyLineLexes(alphabet, 'a', 'a', "\"v\"", TokenKind.Scalar("v", DoubleQuoted, None));
    hide KeyLine;
    AcceptedValues(cfg, alphabet, line + "\n", "a", "a", TokenKind.Scalar("v", DoubleQuoted, None));
  }

  lemma AcceptedValues(cfg: Config, alphabet: Alphabet, source: string, a: string, b: string, value: TokenKind)
    requires !cfg.options.mergeKeys && Lex(alphabet, source).Ok? && value.Scalar? && value.style.DoubleQuoted?
    requires Spelled(Lex(alphabet, source).value, KeyKinds(a, b, value))
    ensures var tokens := Lex(alphabet, source).value;
      Valid(tokens, InitialMachine(cfg)) && !EndsInError(Iterated(G.Grammar(cfg, FirstAnchor, tokens)))
  {
    hide Valid, Parse, Lex, Run, Iterated, KeyKinds, Spelled, ArenaInvariant.HasAlias;
    var g := G.Grammar(cfg, FirstAnchor, Lex(alphabet, source).value);
    SourceAgrees(g, alphabet, source);
    LineParses(g, a, b, value);
    NoAliases(g.tokens, a, b, value);
    GrammarValues(g);
  }

  lemma NoAliases(tokens: seq<Token>, a: string, b: string, value: TokenKind)
    requires value.Scalar? && Spelled(tokens, KeyKinds(a, b, value))
    ensures !ArenaInvariant.HasAlias(tokens)
  {
    var kinds := KeyKinds(a, b, value);
    assert forall i | 0 <= i < |kinds| :: !kinds[i].Alias?;
    assert forall i | 0 <= i < |tokens| :: tokens[i].kind == kinds[i];
  }

  /** Without aliases, every document the first-anchor policy accepts decodes. */
  lemma GrammarValues(g: Grammar)
    requires Followed(g) && Parse(g).Ok? && !ArenaInvariant.HasAlias(g.tokens)
    ensures Valid(g.tokens, InitialMachine(g.cfg)) && !EndsInError(Iterated(g))
  {
    hide Parse, Valid, MachineInvariant.Final, DecodeStream;
    DocumentsMatchGrammar(g);
    ArenaInvariant.ParsedArenaOk(g);
    var document := Parse(g).value.document;
    forall i | 0 <= i < |document.nodes| ensures !document.nodes[i].kind.Alias? {
      assert ArenaInvariant.NodeOk(g, document.nodes, i);
    }
    AllValues(document.nodes, document.documents);
  }

  /** What the two parsers make of a source that lexes to such tokens. */
  lemma Disagree(cfg: Config, alphabet: Alphabet, source: string, a: string, b: string, value: TokenKind)
    requires !cfg.options.mergeKeys && Lex(alphabet, source).Ok? && ValueKind(value, b)
    requires Spelled(Lex(alphabet, source).value, KeyKinds(a, b, value))
    ensures var tokens := Lex(alphabet, source).value;
      var first, every := Verdict(FirstAnchor, a, b, value), Verdict(EveryAnchor, a, b, value);
      && Valid(tokens, InitialMachine(cfg))
      && var run := Run(G.Grammar(cfg, FirstAnchor, tokens), InitialMachine(cfg));
         var parsed := Parse(G.Grammar(cfg, EveryAnchor, tokens));
         && (if first.Some? then run == Err(first.value) else run.Ok?)
         && (if every.Some? then parsed == Err(every.value) else parsed.Ok?)
  {
    hide Run, Valid, Parse, Lex, KeyKinds;
    var g := G.Grammar(cfg, FirstAnchor, Lex(alphabet, source).value);
    SourceAgrees(g, alphabet, source);
    LineParses(g, a, b, value);
    LineParses(Every(g), a, b, value);
  }
}
