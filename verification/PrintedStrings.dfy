/** When the text of a string is read back as that string, for strings the printer does not put in double quotes. */
module PrintedStrings {
  import opened Prelude
  import opened Syntax
  import opened Lexing
  import opened Layouts
  import opened QuotedScalars
  import opened WrittenTokens
  import opened LaidSources
  import opened Values
  import A = Arena
  import G = Grammar
  import P = Printer
  import R = RoundTrip
  import S = LexedSource
  import T = LexedText
  import Resolve
  import N = Numbers

  /** The text of a string that is not double-quoted, on a line of its own. */
  function StringLine(floats: Resolve.Floats, s: string, style: ScalarStyle, raw: string): string {
    P.ScalarText(floats, A.ScalarData(String(s), style, raw, None)) + "\n"
  }

  /** What else a line may be taken for. */
  predicate IsSignText(s: string) {
    s == "-" || s == "?" || s == "---" || s == "..."
  }

  // ----- One line of one token

  ghost predicate OneToken(r: Result<seq<Token>, ErrorKind>, kind: TokenKind) {
    && r.Ok? && |r.value| == 2 && r.value[0].kind == kind && r.value[1].kind.Eof?
    && r.value[0].span.line == 1 && r.value[0].span.column == 1
    && r.value[1].span.line == 2 && r.value[1].span.column == 1
  }

  lemma LineRead(alphabet: Alphabet, line: string, piece: Piece)
    requires '\n' !in line && line != "" && line[|line| - 1] != '\r' && line[0] != ' ' && line[0] != '\t'
    requires ScanFrom(alphabet, line, 0) == Ok(LineScan([piece], None)) && piece.start == 0 && piece.end <= |line|
    ensures OneToken(Lex(alphabet, line + "\n"), piece.kind)
  {
    hide ScanFrom, ScanLine, LineAt, NextLine, SpanOf, Lex;
    var text := line + "\n";
    FirstLine(line);
    LineScanned(alphabet, text, line, piece);
    WholeLexes(alphabet, text, [Token(piece.kind, SpanOf(text, 0, piece.end))]);
    Spans(line, piece.end);
  }

  lemma FirstLine(line: string)
    requires '\n' !in line && (line != "" ==> line[|line| - 1] != '\r')
    ensures var text := line + "\n"; LineAt(text, 0) == line && NextLine(text, 0) == |text|
  {
    var text := line + "\n";
    LineShort(text, line, "\n");
    assert forall i | 0 <= i < |line| :: text[i] == line[i];
    assert text[|line|] == '\n' && LineEnd(text, 0) == |line|;
  }

  lemma LineScanned(alphabet: Alphabet, text: string, line: string, piece: Piece)
    requires text != "" && LineAt(text, 0) == line && NextLine(text, 0) == |text|
    requires line != "" && line[0] != ' ' && line[0] != '\t' && piece.start == 0 && piece.end <= |line| <= |text|
    requires ScanFrom(alphabet, line, 0) == Ok(LineScan([piece], None))
    ensures ScanLine(alphabet, text, 0) == Ok(([Token(piece.kind, SpanOf(text, 0, piece.end))], |text|))
  {
    hide ScanFrom, LineAt, NextLine, SpanOf;
    assert SpacesEnd(line, 0) == 0;
    ScanFits(alphabet, line, 0);
    var token := Token(piece.kind, SpanOf(text, 0 + piece.start, 0 + piece.end));
    assert TokensOf(text, 0, [piece][1..]) == [];
    assert TokensOf(text, 0, [piece]) == [token] + [] == [token];
  }

  lemma Spans(line: string, end: nat)
    requires '\n' !in line && end <= |line|
    ensures var text := line + "\n";
      && SpanOf(text, 0, end).line == 1 && SpanOf(text, 0, end).column == 1
      && SpanOf(text, |text|, |text|).line == 2 && SpanOf(text, |text|, |text|).column == 1
  {
    hide Newlines, Lexing.LastLine;
    Positions(line);
  }

  lemma Positions(line: string)
    requires '\n' !in line
    ensures var text := line + "\n";
      && Newlines(text[..0]) == 0 && LastLine(text[..0]) == 0
      && Newlines(text[..|text|]) == 1 && LastLine(text[..|text|]) == 0
  {
    var text := line + "\n";
    assert text[..|text|] == text && text[..|text| - 1] == line;
    Unbroken(line);
  }

  lemma {:induction false} Unbroken(line: string)
    requires '\n' !in line
    ensures Newlines(line) == 0
  {
    if line != "" {
      Unbroken(line[..|line| - 1]);
    }
  }

  // ----- What the line reads as

  const ATOM := Page([], None, Some(Layout([], Atom(0))), None)

  lemma ScalarAlone(cfg: Config, alphabet: Alphabet, text: string, kind: TokenKind)
    requires OneToken(Lex(alphabet, text), kind) && kind.Scalar?
    requires cfg.options.strictVersion && cfg.options.yamlVersion.None? && kind.style == Plain ==>
      !Ambiguous(cfg, kind.raw)
    ensures R.ReadBack(cfg, G.EveryAnchor, alphabet, text)
      == Some(ScalarMeaning(cfg, InitialVersion(cfg.options), kind.raw, kind.style))
  {
    hide Lex, R.ReadBack, ScalarMeaning;
    var tokens := Lex(alphabet, text).value;
    var v := ScalarMeaning(cfg, InitialVersion(cfg.options), kind.raw, kind.style);
    AtomLaid(tokens);
    AtomMeans(cfg, InitialVersion(cfg.options), tokens);
    SourceReads(cfg, alphabet, text, ATOM, 1, v);
  }

  lemma AtomLaid(tokens: seq<Token>)
    requires |tokens| == 2 && tokens[0].kind.Scalar? && tokens[1].kind.Eof?
    ensures StreamLaid(tokens, 0, [ATOM], 1)
  {
  }

  lemma AtomMeans(cfg: Config, version: YamlVersion, tokens: seq<Token>)
    requires |tokens| == 2 && tokens[0].kind.Scalar?
    ensures StreamMeaning(cfg, version, tokens, [ATOM], map[])
      == Some([ScalarMeaning(cfg, version, tokens[0].kind.raw, tokens[0].kind.style)])
  {
    hide ScalarMeaning;
    var v := ScalarMeaning(cfg, version, tokens[0].kind.raw, tokens[0].kind.style);
    assert Meaning(cfg, version, tokens, Layout([], Atom(0)), map[]) == Some((v, map[]));
    assert StreamMeaning(cfg, version, tokens, [ATOM][1..], map[]) == Some([]);
    assert [v] + [] == [v];
  }

  /** A dash, a question mark or a document marker on its own is no string. */
  lemma SignAlone(cfg: Config, alphabet: Alphabet, text: string, kind: TokenKind, s: string)
    requires OneToken(Lex(alphabet, text), kind)
    requires kind.SequenceEntry? || kind.MappingKey? || kind.DocumentStart? || kind.DocumentEnd?
    ensures R.ReadBack(cfg, G.EveryAnchor, alphabet, text) != Some(VString(s))
  {
    hide Lex;
    var tokens := Lex(alphabet, text).value;
    if kind.MappingKey? {
      AskedAlone(G.Grammar(cfg, G.EveryAnchor, tokens));
    } else {
      SignLaid(cfg, tokens);
      SourceReads(cfg, alphabet, text, SignPage(kind), 1, if kind.SequenceEntry? then VSequence([VNull]) else VNull);
    }
  }

  function SignPage(kind: TokenKind): Page {
    match kind
    case DocumentStart => Page([], Some(0), None, None)
    case DocumentEnd => Page([], None, None, Some(0))
    case _ => Page([], None, Some(Layout([], Dashes([Item(0, None)]))), None)
  }

  lemma SignLaid(cfg: Config, tokens: seq<Token>)
    requires |tokens| == 2 && tokens[1].kind.Eof? && tokens[0].span.line == 1 && tokens[0].span.column == 1
    requires tokens[1].span.line == 2 && tokens[1].span.column == 1
    requires var kind := tokens[0].kind; kind.SequenceEntry? || kind.DocumentStart? || kind.DocumentEnd?
    ensures StreamLaid(tokens, 0, [SignPage(tokens[0].kind)], 1)
    ensures StreamMeaning(cfg, InitialVersion(cfg.options), tokens, [SignPage(tokens[0].kind)], map[])
      == Some([if tokens[0].kind.SequenceEntry? then VSequence([VNull]) else VNull])
  {
    var kind, version := tokens[0].kind, InitialVersion(cfg.options);
    var page := SignPage(kind);
    assert StreamMeaning(cfg, version, tokens, [page][1..], map[]) == Some([]);
    if kind.SequenceEntry? {
      var items := [Item(0, None)];
      assert ItemsMeaning(cfg, version, tokens, items[1..], map[]) == Some(([], map[])) && [VNull] + [] == [VNull];
      assert ItemsMeaning(cfg, version, tokens, items, map[]) == Some(([VNull], map[]));
      assert CoreMeaning(cfg, version, tokens, Dashes(items), map[]) == Some((VSequence([VNull]), map[]));
      assert Meaning(cfg, version, tokens, Layout([], Dashes(items)), map[]) == Some((VSequence([VNull]), map[]));
      assert [VSequence([VNull])] + [] == [VSequence([VNull])];
    } else {
      assert [VNull] + [] == [VNull];
    }
  }

  lemma AskedAlone(g: G.Grammar)
    requires |g.tokens| == 2 && g.tokens[0].kind.MappingKey? && g.tokens[1].kind.Eof?
    ensures G.Parse(g).Err?
  {
    var s := G.InitialState(g);
    var u := G.SkipTrivia(g, s);
    assert u.pos == 0;
    assert G.ConsumeDirectives(g, u).Ok? && G.ConsumeDirectives(g, u).value.pos == 0;
    AskedValue(g, G.ConsumeDirectives(g, u).value);
  }

  lemma AskedValue(g: G.Grammar, s: G.PState)
    requires |g.tokens| == 2 && g.tokens[0].kind.MappingKey? && g.tokens[1].kind.Eof? && s.pos == 0
    ensures G.ParseOneDocument(g, s).Err?
  {
    var t := G.SkipTrivia(g, G.DocumentContent(g, s));
    assert t.pos == 0;
    var u := G.SkipTrivia(g, t);
    assert u.pos == 0;
    var v := G.SkipTrivia(g, G.Advance(G.SkipTrivia(g, u)));
    assert v.pos == 1 && G.ParseValue(g, v).Err?;
    assert G.ParseBlockKey(g, G.SkipTrivia(g, u)).Err?;
    assert G.ParseBlockMapping(g, u, [], None, 0, None).Err?;
    assert G.ParseValue(g, t).Err?;
  }

  // ----- Strings

  /** A string that needs no quotes is written plainly, unless it is one of the signs. */
  lemma NoQuotesPlain(s: string)
    requires !P.NeedsQuotes(s)
    ensures s != "" && '\n' !in s && s[|s| - 1] != '\r' && s[0] != ' ' && s[0] != '\t'
    ensures !IsSignText(s) ==> PlainText(s)
  {
  }

  lemma PlainRead(alphabet: Alphabet, s: string)
    requires !alphabet(' ') && !P.NeedsQuotes(s)
    ensures OneToken(Lex(alphabet, s + "\n"), if IsSignText(s) then SignOf(s) else TokenKind.Scalar(s, Plain, None))
  {
    var kind := if IsSignText(s) then SignOf(s) else TokenKind.Scalar(s, Plain, None);
    NoQuotesPlain(s);
    hide ScanFrom, P.NeedsQuotes, PlainText, OneToken;
    var kinds := [kind];
    assert kinds[1..] == [] && AllWritable(alphabet, [], 0) && AllWritable(alphabet, kinds, 0);
    assert Spaced(kinds) == s;
    LineReads(alphabet, s, 0, kinds);
    assert Written(kinds, 0) == [Piece(kind, 0, |s|)];
    LineRead(alphabet, s, Piece(kind, 0, |s|));
  }

  function SignOf(s: string): TokenKind {
    if s == "-" then SequenceEntry
    else if s == "?" then MappingKey
    else if s == "---" then DocumentStart
    else DocumentEnd
  }

  lemma QuotedRead(alphabet: Alphabet, s: string)
    ensures var r := Lex(alphabet, "'" + P.Doubled(s) + "'" + "\n");
      if '\n' in s then r.Err? else OneToken(r, TokenKind.Scalar(s, SingleQuoted, None))
  {
    hide P.Doubled, ScanLine, OneToken, Lex;
    if '\n' in s {
      var a, b := SplitAtBreak(s);
      SingleQuotedBroken(alphabet, s, a, b, "'\n");
      assert "'" + P.Doubled(s) + "'\n" == "'" + P.Doubled(s) + "'" + "\n";
      LineRefused(alphabet, "'" + P.Doubled(s) + "'" + "\n");
    } else {
      WholeRead(alphabet, s);
    }
  }

  lemma LineRefused(alphabet: Alphabet, text: string)
    requires text != "" && ScanLine(alphabet, text, 0).Err?
    ensures Lex(alphabet, text).Err?
  {
    hide ScanLine;
  }

  lemma WholeRead(alphabet: Alphabet, s: string)
    requires '\n' !in s
    ensures OneToken(Lex(alphabet, "'" + P.Doubled(s) + "'" + "\n"), TokenKind.Scalar(s, SingleQuoted, None))
  {
    hide P.Doubled, Quoted, ScanFrom, OneToken, Lex;
    var line := "'" + P.Doubled(s) + "'";
    DoubledBreaks(s);
    SingleQuotedReads(line, 1, s, "");
    assert "" + s == s;
    QuoteFound(alphabet, line, s);
    LineRead(alphabet, line, Piece(TokenKind.Scalar(s, SingleQuoted, None), 0, |line|));
  }

  /**
   A string that is not printed in double quotes is read back as itself if and only if it was put in
   quotes and has no line break, or was not and is none of the signs nor a spelling of anything else.
   */
  lemma StringReads(cfg: Config, alphabet: Alphabet, floats: Resolve.Floats, s: string, style: ScalarStyle, raw: string)
    requires !alphabet(' ') && !style.DoubleQuoted?
    requires cfg.options.strictVersion && cfg.options.yamlVersion.None? ==> !Ambiguous(cfg, s)
    ensures R.ReadBack(cfg, G.EveryAnchor, alphabet, StringLine(floats, s, style, raw)) == Some(VString(s)) <==>
      if P.NeedsQuotes(s) then '\n' !in s
      else !IsSignText(s) && FromScalar(cfg.resolve(s, InitialVersion(cfg.options))) == VString(s)
  {
    hide P.NeedsQuotes, P.Doubled, Lex, R.ReadBack, OneToken, IsSignText;
    var text := StringLine(floats, s, style, raw);
    if P.NeedsQuotes(s) {
      assert text == "'" + P.Doubled(s) + "'" + "\n";
      QuotedRead(alphabet, s);
      if '\n' in s {
        Refused(cfg, alphabet, text);
      } else {
        ScalarAlone(cfg, alphabet, text, TokenKind.Scalar(s, SingleQuoted, None));
      }
    } else {
      PlainRead(alphabet, s);
      if IsSignText(s) {
        SignAlone(cfg, alphabet, text, SignOf(s), s);
      } else {
        ScalarAlone(cfg, alphabet, text, TokenKind.Scalar(s, Plain, None));
      }
    }
  }

  lemma Refused(cfg: Config, alphabet: Alphabet, text: string)
    requires Lex(alphabet, text).Err?
    ensures R.ReadBack(cfg, G.EveryAnchor, alphabet, text) == None
  {
    hide Lex;
  }

  /** So a string of digits loses its quotes, and reads back as the number. */
  lemma DigitsLoseQuotes(options: Options, floats: Resolve.Floats, floatEq: (nat, nat) -> bool, alphabet: Alphabet,
                         i: nat)
    requires !alphabet(' ') && N.FitsI64(i)
    ensures var s := N.Decimal(i);
      R.ReadBack(R.ConfigOf(options, floats, floatEq), G.EveryAnchor, alphabet, StringLine(floats, s, SingleQuoted, s))
        == Some(VInt(i))
  {
    hide R.ReadBack, Lex, OneToken, P.NeedsQuotes, Resolve.ResolveScalar;
    var s, cfg := N.Decimal(i), R.ConfigOf(options, floats, floatEq);
    DigitsPlain(i);
    Resolve.IntRoundTrip(floats, i, Version11);
    Resolve.IntRoundTrip(floats, i, Version12);
    PlainRead(alphabet, s);
    assert cfg.resolve(s, Version11) == cfg.resolve(s, Version12) == Int(i);
    assert StringLine(floats, s, SingleQuoted, s) == s + "\n";
    ScalarAlone(cfg, alphabet, s + "\n", TokenKind.Scalar(s, Plain, None));
    assert InitialVersion(options) == Version11 || InitialVersion(options) == Version12;
  }

  lemma DigitPlain(c: char)
    requires N.IsDigit(c, 10)
    ensures c !in P.SPECIAL && !IsWhitespace(c) && c != '-' && c != '?' && c != '.'
  {
  }

  lemma DigitsPlain(i: nat)
    ensures var s := N.Decimal(i); !P.NeedsQuotes(s) && !IsSignText(s) && N.IntText(i) == s
  {
    var s := N.Decimal(i);
    N.DecimalReads(i);
    hide IsWhitespace, N.IsDigit, N.Decimal;
    forall k | 0 <= k < |s| ensures s[k] !in P.SPECIAL && !IsWhitespace(s[k]) {
      DigitPlain(s[k]);
    }
    DigitPlain(s[0]);
  }
}
