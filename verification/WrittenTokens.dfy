/** Tokens written on a line, with a space between any two, are read back from it. */
module WrittenTokens {
  import opened Prelude
  import opened Syntax
  import opened Lexing
  import opened LexedText
  import Q = QuotedScalars
  import P = Printer
  import R = Resolve
  import S = LexedSource
  import V = ValueText
  import opened Arena
  import G = Grammar

  /** How a token is written. */
  function KindText(kind: TokenKind): string {
    match kind
    case DocumentStart => "---"
    case DocumentEnd => "..."
    case MappingKey => "?"
    case SequenceEntry => "-"
    case Colon => ":"
    case Comma => ","
    case LeftBrace => "{"
    case RightBrace => "}"
    case LeftBracket => "["
    case RightBracket => "]"
    case Anchor(name) => "&" + name
    case Alias(name) => "*" + name
    case Tag(name) => "!" + name
    case Directive(text) => "%" + text
    case Comment(text) => "#" + (if text == "" then "" else " " + text)
    case Scalar(raw, style, _) =>
      if style.DoubleQuoted? then "\"" + P.Escaped(raw) + "\""
      else if style.SingleQuoted? then "'" + P.Doubled(raw) + "'"
      else raw
    case _ => ""
  }

  predicate Name(alphabet: Alphabet, name: string) {
    name != "" && forall i | 0 <= i < |name| :: NameChar(alphabet, name[i])
  }

  /** No blank at either end. */
  predicate Trimmed(text: string) {
    text != "" ==> !IsWhitespace(text[0]) && !IsWhitespace(text[|text| - 1])
  }

  predicate IsBracket(c: char) {
    c == '{' || c == '}' || c == '[' || c == ']' || c == ','
  }

  /**
   A spelling that needs no quotes: it starts like nothing else, no `#` follows a blank in it, no `:`
   stands in front of one, and there are no brackets, braces or commas.
   */
  predicate PlainText(raw: string) {
    && raw != "" && Trimmed(raw) && raw[0] !in "#&*!%|>'\"" && (raw[0] in "-?:" ==> |raw| > 1 && !IsWhitespace(raw[1]))
    && !(|raw| >= 3 && (raw[..3] == "---" || raw[..3] == "...") && (|raw| == 3 || IsWhitespace(raw[3])))
    && forall i | 0 <= i < |raw| :: PlainAt(raw, i)
  }

  predicate PlainAt(raw: string, i: nat)
    requires i < |raw|
  {
    && !IsBracket(raw[i])
    && (raw[i] == '#' ==> i > 0 && !IsWhitespace(raw[i - 1]))
    && (raw[i] == ':' ==> i + 1 < |raw| && !IsWhitespace(raw[i + 1]))
  }

  /** What ends a plain scalar in front of it. */
  predicate EndsPlain(kind: TokenKind) {
    || kind.Colon? || kind.Comma? || kind.LeftBrace? || kind.RightBrace? || kind.LeftBracket? || kind.RightBracket?
    || kind.Comment?
  }

  /** Whether a token may be written at a column, with `behind` on the rest of the line. */
  ghost predicate Writable(alphabet: Alphabet, kind: TokenKind, col: nat, behind: seq<TokenKind>) {
    match kind
    case DocumentStart => col == 0
    case DocumentEnd => col == 0
    case Anchor(name) => Name(alphabet, name)
    case Alias(name) => Name(alphabet, name)
    case Tag(name) => Name(alphabet, name)
    case Directive(text) => col == 0 && behind == [] && (text != "" ==> !IsWhitespace(text[|text| - 1]))
    case Comment(text) => behind == [] && (text != "" ==> !IsWhitespace(text[0]))
    case Scalar(raw, style, tag) =>
      && tag.None? && (style.DoubleQuoted? || style.SingleQuoted? || style.Plain?)
      && (style.Plain? ==> PlainText(raw) && (behind != [] ==> EndsPlain(behind[0])))
    case BlockScalar(_, _) => false
    case BlankLine => false
    case Eof => false
    case _ => true
  }

  function Spaced(kinds: seq<TokenKind>): string {
    if kinds == [] then "" else if |kinds| == 1 then KindText(kinds[0])
    else KindText(kinds[0]) + " " + Spaced(kinds[1..])
  }

  /** The column behind a token and the space that follows it. */
  function NextColumn(kind: TokenKind, col: nat): nat {
    col + |KindText(kind)| + 1
  }

  ghost predicate AllWritable(alphabet: Alphabet, kinds: seq<TokenKind>, col: nat)
    decreases |kinds|
  {
    kinds == [] ||
    (&& Writable(alphabet, kinds[0], col, kinds[1..])
     && AllWritable(alphabet, kinds[1..], NextColumn(kinds[0], col)))
  }

  /** Each token starts where it is written; a plain scalar takes the space behind it along. */
  function Written(kinds: seq<TokenKind>, col: nat): seq<Piece>
    decreases |kinds|
  {
    if kinds == [] then []
    else
      var end := col + |KindText(kinds[0])|;
      var plain := kinds[0].Scalar? && kinds[0].style.Plain? && |kinds| > 1;
      [Piece(kinds[0], col, if plain then end + 1 else end)] + Written(kinds[1..], NextColumn(kinds[0], col))
  }

  // ----- One token

  lemma {:induction false} NameReaches(alphabet: Alphabet, line: string, i: nat, end: nat)
    requires i <= end <= |line| && forall k | i <= k < end :: NameChar(alphabet, line[k])
    requires end < |line| ==> !NameChar(alphabet, line[end])
    ensures NameEnd(alphabet, line, i) == end
    decreases end - i
  {
    if i < end {
      NameReaches(alphabet, line, i + 1, end);
    }
  }

  /** The line goes on with a space, or ends. */
  predicate Breaks(line: string, at: nat) {
    at < |line| ==> line[at] == ' '
  }

  lemma NamedFound(alphabet: Alphabet, line: string, col: nat, kind: TokenKind)
    requires kind.Anchor? || kind.Alias? || kind.Tag?
    requires Name(alphabet, kind.name) && !alphabet(' ')
    requires Stands(line, col, KindText(kind)) && Breaks(line, col + |KindText(kind)|)
    ensures line[col] != ' '
    ensures PieceAt(alphabet, line, col) == Ok(Inner(Piece(kind, col, col + |KindText(kind)|)))
  {
    var text := KindText(kind);
    var end := col + |text|;
    assert line[col + 0] == text[0];
    forall k | col < k < end ensures NameChar(alphabet, line[k]) {
      assert line[col + (k - col)] == text[k - col] == kind.name[k - col - 1];
    }
    NameReaches(alphabet, line, col + 1, end);
    forall k | 0 <= k < |kind.name| ensures line[col + 1 + k] == kind.name[k] {
      assert line[col + (k + 1)] == text[k + 1];
    }
    assert line[col + 1..end] == kind.name;
    assert col == 0 ==> !IsMarker(line);
  }

  /** A token that is one character, or a document marker. */
  predicate IsSign(kind: TokenKind) {
    || kind.DocumentStart? || kind.DocumentEnd? || kind.MappingKey? || kind.SequenceEntry? || kind.Colon? || kind.Comma?
    || kind.LeftBrace? || kind.RightBrace? || kind.LeftBracket? || kind.RightBracket?
  }

  lemma SignFound(alphabet: Alphabet, line: string, col: nat, kind: TokenKind)
    requires IsSign(kind) && (kind.DocumentStart? || kind.DocumentEnd? ==> col == 0)
    requires Stands(line, col, KindText(kind)) && Breaks(line, col + |KindText(kind)|)
    ensures line[col] != ' '
    ensures PieceAt(alphabet, line, col) == Ok(Inner(Piece(kind, col, col + |KindText(kind)|)))
  {
    var text := KindText(kind);
    assert line[col + 0] == text[0];
    if kind.DocumentStart? || kind.DocumentEnd? {
      assert line[0 + 1] == text[1] && line[0 + 2] == text[2];
      assert line[..3] == text;
    } else {
      assert col == 0 ==> !IsMarker(line);
    }
  }

  /** What is left of the line belongs to the token. */
  lemma FinalFound(alphabet: Alphabet, line: string, col: nat, kind: TokenKind)
    requires kind.Directive? || kind.Comment?
    requires Writable(alphabet, kind, col, []) && Stands(line, col, KindText(kind)) && col + |KindText(kind)| == |line|
    ensures line[col] != ' '
    ensures PieceAt(alphabet, line, col) == Ok(Final(Piece(kind, col, |line|)))
  {
    var text := KindText(kind);
    assert line[col + 0] == text[0];
    forall k | 0 < k < |text| ensures line[col + 1..][k - 1] == text[k] {
      assert line[col + k] == text[k];
    }
    assert line[col + 1..] == text[1..];
    if kind.Directive? {
      assert text[1..] == kind.text && R.TrimEnd(kind.text) == kind.text;
      assert !IsMarker(line);
    } else if kind.text != "" {
      assert text[1..] == " " + kind.text && (" " + kind.text)[1..] == kind.text;
      assert R.TrimStart(kind.text) == kind.text;
    }
  }

  lemma QuotedFound(alphabet: Alphabet, line: string, col: nat, kind: TokenKind)
    requires kind.Scalar? && kind.tag.None? && (kind.style.DoubleQuoted? || kind.style.SingleQuoted?)
    requires Stands(line, col, KindText(kind)) && Breaks(line, col + |KindText(kind)|)
    ensures line[col] != ' '
    ensures PieceAt(alphabet, line, col) == Ok(Inner(Piece(kind, col, col + |KindText(kind)|)))
  {
    if kind.style.DoubleQuoted? {
      Q.StringFound(alphabet, line, col, kind.raw);
    } else {
      var q := "'";
      assert KindText(kind) == q + (P.Doubled(kind.raw) + q);
      StandsSplit(line, col, q, P.Doubled(kind.raw) + q);
      Q.SingleQuotedReads(line, col + 1, kind.raw, "");
      assert line[col + 0] == q[0] && "" + kind.raw == kind.raw;
      hide Quoted, P.Doubled;
      assert col == 0 ==> !IsMarker(line);
    }
  }

  // ----- Plain scalars

  /** Inside a plain text nothing stops; behind it the end of the line, or a space and something that does. */
  lemma PlainGoesOn(line: string, col: nat, raw: string, i: nat)
    requires PlainText(raw) && Stands(line, col, raw) && 0 < i < |raw|
    ensures !PlainStops(line, col + i)
  {
    hide IsWhitespace;
    assert PlainAt(raw, i) && line[col + i] == raw[i] && line[col + (i - 1)] == raw[i - 1];
    if i + 1 < |raw| {
      assert line[col + (i + 1)] == raw[i + 1];
    }
  }

  lemma {:induction false} PlainReaches(line: string, i: nat, end: nat)
    requires i <= end <= |line| && forall k | i <= k < end :: !PlainStops(line, k)
    requires end < |line| ==> PlainStops(line, end)
    ensures PlainEnd(line, i) == end
    decreases end - i
  {
    hide PlainStops;
    if i < end {
      PlainReaches(line, i + 1, end);
    }
  }

  /** The line ends behind the text, or a space follows and behind it something that ends a plain scalar. */
  predicate PlainBehind(line: string, at: nat) {
    at == |line| || (at + 1 < |line| && line[at] == ' ' && PlainStops(line, at + 1))
  }

  lemma PlainScanned(line: string, col: nat, raw: string)
    requires PlainText(raw) && Stands(line, col, raw) && PlainBehind(line, col + |raw|)
    ensures var at := col + |raw|;
      var end := if at == |line| then at else at + 1;
      PlainEnd(line, col + 1) == end && TrimmedEnd(line, col, end) == at && line[col..at] == raw
  {
    var at := col + |raw|;
    forall k | col + 1 <= k < at ensures !PlainStops(line, k) {
      PlainGoesOn(line, col, raw, k - col);
    }
    assert at < |line| ==> !PlainStops(line, at);
    assert line[col + (|raw| - 1)] == raw[|raw| - 1];
    PlainReaches(line, col + 1, if at == |line| then at else at + 1);
    assert line[col..at] == raw;
  }

  lemma PlainFound(alphabet: Alphabet, line: string, col: nat, raw: string)
    requires PlainText(raw) && Stands(line, col, raw) && PlainBehind(line, col + |raw|)
    ensures line[col] != ' '
    ensures var at := col + |raw|;
      PieceAt(alphabet, line, col)
        == Ok(Inner(Piece(TokenKind.Scalar(raw, Plain, None), col, if at == |line| then at else at + 1)))
  {
    PlainScanned(line, col, raw);
    PlainStarts(line, col, raw);
    hide PlainEnd, TrimmedEnd, Quoted, PlainStops, PlainText, IsMarker, IsWhitespace;
  }

  /** A plain text looks like the start of nothing else. */
  lemma PlainStarts(line: string, col: nat, raw: string)
    requires PlainText(raw) && Stands(line, col, raw) && PlainBehind(line, col + |raw|)
    ensures var c := line[col];
      && c !in " \t#&*!%|>'\"" && !IsBracket(c) && (c in "-?:" ==> !SpaceOrEnd(line, col + 1))
        && (col == 0 ==> !IsMarker(line))
  {
    assert line[col + 0] == raw[0] && !IsWhitespace(raw[0]) && PlainAt(raw, 0);
    if raw[0] in "-?:" {
      assert line[col + 1] == raw[1];
    }
    if col == 0 && |raw| >= 3 {
      assert line[..3] == raw[..3] by {
        assert line[0 + 0] == raw[0] && line[0 + 1] == raw[1] && line[0 + 2] == raw[2];
      }
      assert |raw| > 3 ==> line[0 + 3] == raw[3];
    } else if col == 0 && |raw| == 2 && |line| > 2 {
      assert line[2] == ' ';
    }
  }

  // ----- Whole lines

  /** The first token stands at the front; the end of the line or a space and the others follow it. */
  lemma SpacedParts(line: string, col: nat, kinds: seq<TokenKind>)
    requires kinds != [] && Stands(line, col, Spaced(kinds)) && col + |Spaced(kinds)| == |line|
    ensures var text, at := KindText(kinds[0]), col + |KindText(kinds[0])|;
      && Stands(line, col, text) && Breaks(line, at)
      && (|kinds| == 1 ==> at == |line|)
      && (|kinds| > 1 ==>
            && at < |line| && line[at] == ' ' && NextColumn(kinds[0], col) == at + 1
            && Stands(line, at + 1, Spaced(kinds[1..])) && at + 1 + |Spaced(kinds[1..])| == |line|)
  {
    hide KindText;
    var text, rest := KindText(kinds[0]), Spaced(kinds[1..]);
    if |kinds| > 1 {
      assert Spaced(kinds) == text + (" " + rest);
      StandsSplit(line, col, text, " " + rest);
      StandsSplit(line, col + |text|, " ", rest);
      assert line[col + |text| + 0] == " "[0];
    }
  }

  /** What ends a plain scalar stops it behind a space. */
  lemma NextStops(line: string, at: nat, kinds: seq<TokenKind>)
    requires kinds != [] && EndsPlain(kinds[0]) && at < |line| && line[at] == ' '
    requires Stands(line, at + 1, Spaced(kinds)) && at + 1 + |Spaced(kinds)| == |line|
    ensures PlainBehind(line, at)
  {
    hide Spaced, KindText, PlainBehind, EndsPlain;
    SpacedParts(line, at + 1, kinds);
    SignStops(line, at, kinds[0]);
  }

  lemma SignStops(line: string, at: nat, kind: TokenKind)
    requires EndsPlain(kind) && at < |line| && line[at] == ' ' && Stands(line, at + 1, KindText(kind))
    requires Breaks(line, at + 1 + |KindText(kind)|)
    ensures PlainBehind(line, at)
  {
    assert line[at + 1 + 0] == KindText(kind)[0];
  }

  /** The first token is found where it is written. */
  lemma FirstFound(alphabet: Alphabet, line: string, col: nat, kinds: seq<TokenKind>)
    requires kinds != [] && !alphabet(' ') && AllWritable(alphabet, kinds, col)
    requires Stands(line, col, Spaced(kinds)) && col + |Spaced(kinds)| == |line|
    ensures col < |line| && line[col] != ' '
    ensures var piece := Written(kinds, col)[0];
      PieceAt(alphabet, line, col)
        == Ok(if kinds[0].Directive? || kinds[0].Comment? then Final(piece) else Inner(piece))
  {
    hide Spaced, PieceAt, KindText, AllWritable, Written, Writable, PlainText, EndsPlain, PlainBehind, Name;
    FirstParts(alphabet, kinds, col);
    SpacedParts(line, col, kinds);
    KindFound(alphabet, line, col, kinds);
  }

  /** What the first token asks for, and where it is expected. */
  lemma FirstParts(alphabet: Alphabet, kinds: seq<TokenKind>, col: nat)
    requires kinds != [] && AllWritable(alphabet, kinds, col)
    ensures Writable(alphabet, kinds[0], col, kinds[1..])
    ensures Written(kinds, col) != [] && var end := col + |KindText(kinds[0])|;
      Written(kinds, col)[0] == Piece(kinds[0], col, if IsPlain(kinds[0]) && |kinds| > 1 then end + 1 else end)
  {
    hide KindText, Writable;
  }

  predicate IsPlain(kind: TokenKind) {
    kind.Scalar? && kind.style.Plain?
  }

  lemma KindFound(alphabet: Alphabet, line: string, col: nat, kinds: seq<TokenKind>)
    requires kinds != [] && !alphabet(' ') && Writable(alphabet, kinds[0], col, kinds[1..])
    requires Stands(line, col, KindText(kinds[0])) && Breaks(line, col + |KindText(kinds[0])|)
    requires Stands(line, col, Spaced(kinds)) && col + |Spaced(kinds)| == |line|
    ensures col < |line| && line[col] != ' '
    ensures var end := col + |KindText(kinds[0])|;
      var piece := Piece(kinds[0], col, if IsPlain(kinds[0]) && |kinds| > 1 then end + 1 else end);
      PieceAt(alphabet, line, col)
        == Ok(if kinds[0].Directive? || kinds[0].Comment? then Final(piece) else Inner(piece))
  {
    hide Spaced, PieceAt, PlainText, PlainBehind, Name;
    var kind := kinds[0];
    if kind.Directive? || kind.Comment? {
      SpacedParts(line, col, kinds);
      FinalFound(alphabet, line, col, kind);
    } else if kind.Anchor? || kind.Alias? || kind.Tag? {
      NamedFound(alphabet, line, col, kind);
    } else if IsSign(kind) {
      SignFound(alphabet, line, col, kind);
    } else if kind.style.Plain? {
      PlainKind(alphabet, line, col, kinds);
    } else {
      QuotedFound(alphabet, line, col, kind);
    }
  }

  lemma PlainKind(alphabet: Alphabet, line: string, col: nat, kinds: seq<TokenKind>)
    requires kinds != [] && IsPlain(kinds[0]) && Writable(alphabet, kinds[0], col, kinds[1..])
    requires Stands(line, col, Spaced(kinds)) && col + |Spaced(kinds)| == |line|
    ensures col < |line| && line[col] != ' '
    ensures var end := col + |kinds[0].raw|;
      PieceAt(alphabet, line, col) == Ok(Inner(Piece(kinds[0], col, if |kinds| > 1 then end + 1 else end)))
  {
    hide Spaced, PieceAt, PlainText, PlainBehind;
    SpacedParts(line, col, kinds);
    var at := col + |kinds[0].raw|;
    if |kinds| > 1 {
      NextStops(line, at, kinds[1..]);
    } else {
      EndStops(line);
    }
    PlainFound(alphabet, line, col, kinds[0].raw);
  }

  lemma EndStops(line: string)
    ensures PlainBehind(line, |line|)
  {
  }

  /** Tokens written with spaces in between are scanned from the line, each where it is written. */
  lemma {:induction false} LineReads(alphabet: Alphabet, line: string, col: nat, kinds: seq<TokenKind>)
    requires !alphabet(' ') && AllWritable(alphabet, kinds, col)
    requires Stands(line, col, Spaced(kinds)) && col + |Spaced(kinds)| == |line|
    ensures ScanFrom(alphabet, line, col) == Ok(LineScan(Written(kinds, col), None))
    decreases |kinds|
  {
    hide PieceAt, KindText;
    if kinds != [] {
      FirstFound(alphabet, line, col, kinds);
      SpacedParts(line, col, kinds);
      var piece, rest := Written(kinds, col)[0], kinds[1..];
      if kinds[0].Directive? || kinds[0].Comment? {
        assert rest == [] && [piece] + Written([], 0) == [piece];
      } else {
        ScanOne(alphabet, line, col, piece);
        if rest == [] {
          assert ScanFrom(alphabet, line, |line|) == Ok(LineScan([], None));
        } else {
          if piece.end == col + |KindText(kinds[0])| {
            ScanSpace(alphabet, line, piece.end);
          }
          LineReads(alphabet, line, NextColumn(kinds[0], col), rest);
        }
      }
    }
  }

  /** Lines of tokens: how far in each line starts, and its tokens. */
  datatype Row = Row(indent: nat, kinds: seq<TokenKind>)

  function RowText(row: Row): string {
    P.Pad(row.indent) + Spaced(row.kinds)
  }

  function RowTexts(rows: seq<Row>): (texts: seq<string>)
    ensures |texts| == |rows| && forall i | 0 <= i < |rows| :: texts[i] == RowText(rows[i])
  {
    if rows == [] then [] else [RowText(rows[0])] + RowTexts(rows[1..])
  }

  function RowPieces(rows: seq<Row>): (pieces: seq<seq<Piece>>)
    ensures |pieces| == |rows| && forall i | 0 <= i < |rows| :: pieces[i] == Written(rows[i].kinds, rows[i].indent)
  {
    if rows == [] then [] else [Written(rows[0].kinds, rows[0].indent)] + RowPieces(rows[1..])
  }

  ghost predicate RowOk(alphabet: Alphabet, row: Row) {
    row.kinds != [] && AllWritable(alphabet, row.kinds, row.indent) && Clean(Spaced(row.kinds))
  }

  lemma RowScans(alphabet: Alphabet, row: Row)
    requires !alphabet(' ') && RowOk(alphabet, row)
    ensures Scans(alphabet, RowText(row), Written(row.kinds, row.indent))
  {
    hide PieceAt, ScanFrom, Spaced, KindText, Clean;
    var line := RowText(row);
    assert Clean(P.Pad(row.indent)) by { PadClean(row.indent); }
    CleanStands(P.Pad(row.indent), Spaced(row.kinds));
    LineReads(alphabet, line, row.indent, row.kinds);
    FirstFound(alphabet, line, row.indent, row.kinds);
    NoTab(alphabet, line, row.indent);
    PadEnd(line, row.indent, 0);
  }

  lemma PadClean(n: nat)
    ensures Clean(P.Pad(n))
  {
  }

  lemma NoTab(alphabet: Alphabet, line: string, col: nat)
    requires col < |line| && line[col] != ' ' && PieceAt(alphabet, line, col).Ok?
    ensures line[col] != '\t'
  {
  }

  /** Every list of tokens that can be set out in lines is what some text lexes to, at just those places. */
  lemma RowsLex(alphabet: Alphabet, rows: seq<Row>)
    requires !alphabet(' ') && forall i | 0 <= i < |rows| :: RowOk(alphabet, rows[i])
    ensures var tokens := Lex(alphabet, V.Unlines(RowTexts(rows)));
      tokens.Ok? && S.ShapesOf(tokens.value)
        == S.LinesShapes(RowPieces(rows), 1) + [S.Shape(Eof, |rows| + 1, 1)]
  {
    hide AllScan, Lex, S.ShapesOf, S.LinesShapes, V.Unlines, RowOk;
    RowsScan(alphabet, rows);
    S.AllLex(alphabet, RowTexts(rows), RowPieces(rows));
  }

  lemma RowsScan(alphabet: Alphabet, rows: seq<Row>)
    requires !alphabet(' ') && forall i | 0 <= i < |rows| :: RowOk(alphabet, rows[i])
    ensures AllScan(alphabet, RowTexts(rows), RowPieces(rows))
  {
    hide RowOk, Scans, RowText, Written;
    forall i | 0 <= i < |rows| ensures Scans(alphabet, RowTexts(rows)[i], RowPieces(rows)[i]) {
      RowScans(alphabet, rows[i]);
    }
  }

  // ----- Comments and blank lines

  /** A comment is written without its blanks in front, and on one line. */
  ghost predicate TriviumOk(kind: TriviaKind) {
    kind.CommentTrivia? ==> Clean(kind.text) && (kind.text != "" ==> !IsWhitespace(kind.text[0]))
  }

  function TriviumToken(kind: TriviaKind): TokenKind {
    match kind
    case CommentTrivia(text) => Comment(text)
    case BlankLineTrivia => BlankLine
  }

  /** A printed comment or blank line is a line of its own again. */
  lemma TriviumLexes(alphabet: Alphabet, prefix: string, kind: TriviaKind, indent: nat, rest: string)
    requires !alphabet(' ') && S.EndsLine(prefix) && TriviumOk(kind)
    ensures var text := P.TriviumText(kind, indent);
      var source := prefix + (text + rest);
      var scanned := ScanLine(alphabet, source, |prefix|);
      && scanned.Ok? && scanned.value.1 == |prefix| + |text| && |scanned.value.0| == 1
      && scanned.value.0[0].kind == TriviumToken(kind)
  {
    match kind {
      case CommentTrivia(text) => CommentLexes(alphabet, prefix, text, indent, rest);
      case BlankLineTrivia =>
        S.LineFound(prefix, "", rest);
        assert "" + "\n" + rest == "\n" + rest;
    }
  }

  lemma CommentRow(alphabet: Alphabet, text: string, indent: nat)
    requires Clean(text) && (text != "" ==> !IsWhitespace(text[0]))
    ensures var row := Row(indent, [Comment(text)]);
      RowOk(alphabet, row) && P.TriviumText(CommentTrivia(text), indent) == RowText(row) + "\n"
  {
    var kinds := [Comment(text)];
    assert kinds[1..] == [] && AllWritable(alphabet, [], 0);
    assert Spaced(kinds) == KindText(kinds[0]);
  }

  lemma CommentLexes(alphabet: Alphabet, prefix: string, text: string, indent: nat, rest: string)
    requires !alphabet(' ') && S.EndsLine(prefix) && TriviumOk(CommentTrivia(text))
    ensures var line := P.TriviumText(CommentTrivia(text), indent);
      var scanned := ScanLine(alphabet, prefix + (line + rest), |prefix|);
      && scanned.Ok? && scanned.value.1 == |prefix| + |line| && |scanned.value.0| == 1
      && scanned.value.0[0].kind == Comment(text)
  {
    hide ScanLine, RowText, RowOk, Scans, S.EndsLine, Clean, P.TriviumText;
    var row := Row(indent, [Comment(text)]);
    var pieces := Written(row.kinds, indent);
    CommentRow(alphabet, text, indent);
    RowScans(alphabet, row);
    S.LineLexes(alphabet, prefix, RowText(row), rest, pieces);
    var scanned := ScanLine(alphabet, prefix + (RowText(row) + "\n" + rest), |prefix|).value.0;
    assert S.ShapeOf(scanned[0]) == S.PieceShapes(pieces, Newlines(prefix) + 1)[0];
  }

  lemma {:induction false} Shifted(token: Token, tokens: seq<Token>, i: nat)
    requires i <= |tokens|
    ensures G.TriviaFrom([token] + tokens, i + 1) == G.TriviaFrom(tokens, i)
    decreases |tokens| - i
  {
    hide G.TriviaAt;
    if i < |tokens| {
      assert ([token] + tokens)[i + 1] == tokens[i];
      Shifted(token, tokens, i + 1);
    }
  }

  lemma OneMore(token: Token, tokens: seq<Token>)
    requires token.kind.Comment? || token.kind.BlankLine?
    ensures G.TriviaFrom([token] + tokens, 0) == [G.TriviaAt(token)] + G.TriviaFrom(tokens, 0)
  {
    Shifted(token, tokens, 0);
  }

  /** A comment or blank line in front of tokens is read in front of their trivia. */
  lemma TriviumRead(alphabet: Alphabet, prefix: string, kind: TriviaKind, indent: nat, more: string)
    requires !alphabet(' ') && S.EndsLine(prefix) && TriviumOk(kind)
    requires var front := prefix + P.TriviumText(kind, indent); LexFrom(alphabet, front + more, |front|).Ok?
    ensures S.EndsLine(prefix + P.TriviumText(kind, indent))
    ensures var front := prefix + P.TriviumText(kind, indent);
      var tokens := LexFrom(alphabet, front + more, |prefix|);
      && tokens.Ok? && tokens.value != []
      && var read := G.TriviaFrom(tokens.value, 0);
         && read != [] && read[0].kind == kind
         && read[1..] == G.TriviaFrom(LexFrom(alphabet, front + more, |front|).value, 0)
  {
    TriviumEnds(prefix, kind, indent);
    hide ScanLine, P.TriviumText, S.EndsLine, TriviumOk;
    var text := P.TriviumText(kind, indent);
    TriviumLexes(alphabet, prefix, kind, indent, more);
    assert prefix + (text + more) == (prefix + text) + more;
    var source := (prefix + text) + more;
    var scanned := ScanLine(alphabet, source, |prefix|).value.0;
    var behind := LexFrom(alphabet, source, |prefix + text|).value;
    assert LexFrom(alphabet, source, |prefix|) == Ok(scanned + behind);
    assert scanned == [scanned[0]];
    OneMore(scanned[0], behind);
  }

  lemma TriviumEnds(prefix: string, kind: TriviaKind, indent: nat)
    ensures S.EndsLine(prefix + P.TriviumText(kind, indent)) && P.TriviumText(kind, indent) != ""
  {
  }

  /** Printed comments and blank lines are read back as the same ones, and nothing behind them is. */
  lemma {:induction false} TriviaRead(alphabet: Alphabet, prefix: string, trivia: seq<Trivia>, indent: nat,
                                      rest: string)
    requires !alphabet(' ') && S.EndsLine(prefix) && forall i | 0 <= i < |trivia| :: TriviumOk(trivia[i].kind)
    requires var front := prefix + P.TriviaText(trivia, indent);
      var behind := LexFrom(alphabet, front + rest, |front|);
      behind.Ok? && behind.value != [] && !behind.value[0].kind.Comment? && !behind.value[0].kind.BlankLine?
    ensures var source := prefix + P.TriviaText(trivia, indent) + rest;
      var tokens := LexFrom(alphabet, source, |prefix|);
      && tokens.Ok?
      && var read := G.TriviaFrom(tokens.value, 0);
         |read| == |trivia| && forall i | 0 <= i < |trivia| :: read[i].kind == trivia[i].kind
    decreases |trivia|
  {
    hide LexFrom, P.TriviumText, S.EndsLine, TriviumOk;
    if trivia == [] {
      assert prefix + P.TriviaText(trivia, indent) == prefix;
    } else {
      hide G.TriviaFrom;
      var kind, more := trivia[0].kind, P.TriviaText(trivia[1..], indent);
      var text := P.TriviumText(kind, indent);
      Parts(prefix, text, more, rest);
      TriviumEnds(prefix, kind, indent);
      TriviaRead(alphabet, prefix + text, trivia[1..], indent, rest);
      TriviumRead(alphabet, prefix, kind, indent, more + rest);
      var read := G.TriviaFrom(LexFrom(alphabet, prefix + (text + more) + rest, |prefix|).value, 0);
      forall i | 0 < i < |trivia| ensures i < |read| && read[i].kind == trivia[i].kind {
        assert read[i] == read[1..][i - 1] && trivia[i] == trivia[1..][i - 1];
      }
    }
  }

  lemma Parts(prefix: string, text: string, more: string, rest: string)
    ensures prefix + (text + more) + rest == (prefix + text) + more + rest
    ensures (prefix + text) + more + rest == (prefix + text) + (more + rest)
    ensures prefix + (text + more) == (prefix + text) + more
  {
  }
}
