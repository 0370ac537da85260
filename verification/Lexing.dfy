/** Tokenizing, as functions of the source text: lines, the pieces of a line, and block scalars. */
module Lexing {
  import opened Prelude
  import opened Syntax
  import opened Numbers
  import Resolve

  /** Which characters count as alphanumeric in anchor, alias and tag names. */
  type Alphabet = char -> bool

  // ----- Positions

  function Newlines(text: string): nat {
    if text == "" then 0 else Newlines(text[..|text| - 1]) + (if text[|text| - 1] == '\n' then 1 else 0)
  }

  /** The length of the last, unfinished line of `text`. */
  function LastLine(text: string): nat {
    if text == "" || text[|text| - 1] == '\n' then 0 else LastLine(text[..|text| - 1]) + 1
  }

  /** The span from `start` to `end`; its line and column are counted from the source in front of it. */
  function SpanOf(source: string, start: nat, end: nat): Span
    requires start <= |source| && end <= |source|
  {
    Span(start, end, Newlines(source[..start]) + 1, LastLine(source[..start]) + 1)
  }

  // ----- Lines

  function LineEnd(source: string, start: nat): (end: nat)
    requires start <= |source|
    ensures start <= end <= |source|
    ensures end < |source| ==> source[end] == '\n'
    ensures forall i | start <= i < end :: source[i] != '\n'
    decreases |source| - start
  {
    if start < |source| && source[start] != '\n' then LineEnd(source, start + 1) else start
  }

  /** Where the line's content ends, without a trailing carriage return. */
  function ContentEnd(source: string, start: nat): (end: nat)
    requires start <= |source|
    ensures start <= end <= LineEnd(source, start)
  {
    var end := LineEnd(source, start);
    if end > start && source[end - 1] == '\r' then end - 1 else end
  }

  function NextLine(source: string, start: nat): (next: nat)
    requires start <= |source|
    ensures start <= next <= |source|
    ensures start < |source| ==> start < next
  {
    var end := LineEnd(source, start);
    if end < |source| then end + 1 else end
  }

  /** The first position at or after `i` that does not hold a space. */
  function SpacesEnd(line: string, i: nat): (end: nat)
    requires i <= |line|
    ensures i <= end <= |line|
    ensures end < |line| ==> line[end] != ' '
    ensures forall j | i <= j < end :: line[j] == ' '
    decreases |line| - i
  {
    if i < |line| && line[i] == ' ' then SpacesEnd(line, i + 1) else i
  }

  // ----- Names and scalars within a line

  predicate NameChar(alphabet: Alphabet, c: char) {
    alphabet(c) || c == '-' || c == '_' || c == ':' || c == '!'
  }

  function NameEnd(alphabet: Alphabet, line: string, i: nat): (end: nat)
    requires i <= |line|
    ensures i <= end <= |line|
    decreases |line| - i
  {
    if i < |line| && NameChar(alphabet, line[i]) then NameEnd(alphabet, line, i + 1) else i
  }

  predicate SpaceOrEnd(line: string, i: nat) {
    i < |line| ==> IsWhitespace(line[i])
  }

  /** A character given by its hexadecimal code, which must be that of a Unicode scalar value. */
  function CodePoint(hex: string): Option<char> {
    var code := FromRadix(hex, 16, 0xFFFF_FFFF);
    if code.Some? && (code.value < 0xD800 || 0xE000 <= code.value < 0x11_0000) then Some(code.value as char) else None
  }

  /** The escape whose backslash is at `p`: the character it stands for, and where it ends. */
  function Escape(line: string, p: nat): (r: Option<(char, nat)>)
    requires p < |line|
    ensures r.Some? ==> p < r.value.1 <= |line|
  {
    if p + 1 >= |line| then None else
    var c := line[p + 1];
    if c == 'x' || c == 'X' || c == 'u' || c == 'U' then
      var width := if c == 'u' then 4 else if c == 'U' then 8 else 2;
      if p + 2 + width > |line| then None else
      var code := CodePoint(line[p + 2..p + 2 + width]);
      if code.None? then None else Some((code.value, p + 2 + width))
    else
      Some((if c == 'n' then '\n' else if c == 'r' then '\r' else if c == 't' then '\t' else if c == '0' then '\0'
            else c, p + 2))
  }

  /** The quoted scalar read up to `p` as `value`: its whole text, and the position past the closing quote. */
  function Quoted(line: string, p: nat, quote: char, value: string): (r: Result<(string, nat), ErrorKind>)
    requires p <= |line|
    ensures r.Ok? ==> p < r.value.1 <= |line|
    decreases |line| - p
  {
    if p >= |line| then Err(InvalidScalar)
    else if line[p] == quote then
      if quote == '\'' && p + 1 < |line| && line[p + 1] == '\'' then Quoted(line, p + 2, quote, value + "'")
      else Ok((value, p + 1))
    else if quote == '"' && line[p] == '\\' then
      var escape := Escape(line, p);
      if escape.None? then Err(InvalidScalar)
      else Quoted(line, escape.value.1, quote, value + [escape.value.0])
    else
      Quoted(line, p + 1, quote, value + [line[p]])
  }

  predicate IsFlowIndicator(c: char) {
    c == '{' || c == '}' || c == '[' || c == ']' || c == ','
  }

  /** Whether a plain scalar stops in front of position `i`. */
  predicate PlainStops(line: string, i: nat)
    requires i < |line|
  {
    || (line[i] == '#' && (i == 0 || IsWhitespace(line[i - 1])))
    || IsFlowIndicator(line[i])
    || (line[i] == ':' && SpaceOrEnd(line, i + 1))
  }

  /** Where a plain scalar stops. */
  function PlainEnd(line: string, i: nat): (end: nat)
    requires i <= |line|
    ensures i <= end <= |line|
    decreases |line| - i
  {
    if i < |line| && !PlainStops(line, i) then PlainEnd(line, i + 1) else i
  }

  /** The end of the last character of `line[start..end]` that is not whitespace. */
  function TrimmedEnd(line: string, start: nat, end: nat): (r: nat)
    requires start <= end <= |line|
    ensures start <= r <= end
    decreases end
  {
    if end > start && IsWhitespace(line[end - 1]) then TrimmedEnd(line, start, end - 1) else end
  }

  // ----- The pieces of a line

  datatype Piece = Piece(kind: TokenKind, start: nat, end: nat)

  /** What stands at a position: a piece after which scanning goes on, the last one, or a block scalar. */
  datatype Found = Inner(piece: Piece) | Final(piece: Piece) | BlockHeader

  function Punctuation(c: char): Option<TokenKind> {
    match c
    case '{' => Some(LeftBrace)
    case '}' => Some(RightBrace)
    case '[' => Some(LeftBracket)
    case ']' => Some(RightBracket)
    case ',' => Some(Comma)
    case _ => None
  }

  predicate IsMarker(line: string) {
    |line| >= 3 && (line[..3] == "---" || line[..3] == "...") && SpaceOrEnd(line, 3)
  }

  function PieceAt(alphabet: Alphabet, line: string, col: nat): (r: Result<Found, ErrorKind>)
    requires col < |line| && line[col] != ' '
    ensures r.Ok? && !r.value.BlockHeader? ==> col == r.value.piece.start < r.value.piece.end <= |line|
    ensures r.Ok? && r.value.Final? ==> r.value.piece.end == |line|
  {
    var c := line[col];
    if c == '\t' then Err(TabCharacter)
    else if c == '#' then Ok(Final(Piece(Comment(Resolve.TrimStart(line[col + 1..])), col, |line|)))
    else if col == 0 && IsMarker(line) then
      Ok(Inner(Piece(if line[0] == '-' then DocumentStart else DocumentEnd, 0, 3)))
    else if c == '-' && SpaceOrEnd(line, col + 1) then Ok(Inner(Piece(SequenceEntry, col, col + 1)))
    else if c == '?' && SpaceOrEnd(line, col + 1) then Ok(Inner(Piece(MappingKey, col, col + 1)))
    else if c == '&' || c == '*' || c == '!' then
      var end := NameEnd(alphabet, line, col + 1);
      var name := line[col + 1..end];
      if name == "" then Err(InvalidAnchor)
      else Ok(Inner(Piece(if c == '&' then Anchor(name) else if c == '*' then Alias(name) else Tag(name), col, end)))
    else if c == '%' && col == 0 then Ok(Final(Piece(Directive(Resolve.TrimEnd(line[1..])), 0, |line|)))
    else if Punctuation(c).Some? then Ok(Inner(Piece(Punctuation(c).value, col, col + 1)))
    else if c == ':' && SpaceOrEnd(line, col + 1) then Ok(Inner(Piece(Colon, col, col + 1)))
    else if c == '|' || c == '>' then Ok(BlockHeader)
    else if c == '\'' || c == '"' then
      var read :- Quoted(line, col + 1, c, "");
      Ok(Inner(Piece(Scalar(read.0, if c == '\'' then SingleQuoted else DoubleQuoted, None), col, read.1)))
    else
      var end := PlainEnd(line, col + 1);
      Ok(Inner(Piece(Scalar(line[col..TrimmedEnd(line, col, end)], Plain, None), col, end)))
  }

  /** The pieces of a line, and the column of the block scalar that ends it, if one does. */
  datatype LineScan = LineScan(pieces: seq<Piece>, block: Option<nat>)

  function Prepend(pieces: seq<Piece>, r: Result<LineScan, ErrorKind>): Result<LineScan, ErrorKind> {
    var scan :- r;
    Ok(LineScan(pieces + scan.pieces, scan.block))
  }

  function ScanFrom(alphabet: Alphabet, line: string, col: nat): Result<LineScan, ErrorKind>
    requires col <= |line|
    decreases |line| - col
  {
    if col >= |line| then Ok(LineScan([], None))
    else if line[col] == ' ' then ScanFrom(alphabet, line, col + 1)
    else
      var found :- PieceAt(alphabet, line, col);
      match found
      case BlockHeader => Ok(LineScan([], Some(col)))
      case Final(piece) => Ok(LineScan([piece], None))
      case Inner(piece) => Prepend([piece], ScanFrom(alphabet, line, piece.end))
  }

  // ----- Block scalars

  datatype Chomping = Clip | Keep | Strip

  datatype Header = Header(chomping: Chomping, indentation: Option<nat>)

  /** The indicators after `|` or `>`, up to the first blank or comment. */
  function ReadHeader(line: string, q: nat, header: Header): Result<Header, ErrorKind>
    requires q <= |line|
    decreases |line| - q
  {
    if q >= |line| || line[q] == ' ' || line[q] == '\t' || line[q] == '#' then Ok(header)
    else if line[q] == '+' then ReadHeader(line, q + 1, header.(chomping := Keep))
    else if line[q] == '-' then ReadHeader(line, q + 1, header.(chomping := Strip))
    else if '1' <= line[q] <= '9' then ReadHeader(line, q + 1, header.(indentation := Some((line[q] - '0') as nat)))
    else Err(InvalidScalar)
  }

  /** The lines of a block scalar from `current` on; `base` is its indentation once known. */
  function BlockLines(source: string, current: nat, base: Option<nat>, indent: nat)
    : (r: (seq<string>, nat, Option<nat>))
    requires current <= |source|
    ensures current <= r.1 <= |source|
    decreases |source| - current
  {
    if current >= |source| then ([], current, base) else
    var content := source[current..ContentEnd(source, current)];
    var leading := SpacesEnd(content, 0);
    var blank := leading == |content|;
    if !blank && (if base.Some? then leading < base.value else leading <= indent) then ([], current, base) else
    var rest := BlockLines(source, NextLine(source, current), if blank || base.Some? then base
                           else Some(leading), indent);
    ([content] + rest.0, rest.1, rest.2)
  }

  function Dedent(lines: seq<string>, base: nat): string {
    if lines == [] then ""
    else (if |lines[0]| <= base then "" else lines[0][base..]) + "\n" + Dedent(lines[1..], base)
  }

  function StripNewlines(value: string): string {
    if value != "" && value[|value| - 1] == '\n' then StripNewlines(value[..|value| - 1]) else value
  }

  function ClipNewlines(value: string): string {
    if |value| > 1 && value[|value| - 1] == '\n' && value[|value| - 2] == '\n' then ClipNewlines(value[..|value| - 1])
      else value
  }

  function Chomp(value: string, chomping: Chomping): string {
    match chomping
    case Strip => StripNewlines(value)
    case Clip => ClipNewlines(value)
    case Keep => value
  }

  /** The block scalar whose indicator is at `col` of the line at `start`: its token kind and where it ends. */
  function BlockScalarAt(source: string, start: nat, line: string, col: nat, indent: nat)
    : (r: Result<(TokenKind, nat), ErrorKind>)
    requires start < |source| && col < |line|
    ensures r.Ok? ==> NextLine(source, start) <= r.value.1 <= |source|
  {
    var header :- ReadHeader(line, col + 1, Header(Clip, None));
    var base := if header.indentation.Some? then Some(indent + header.indentation.value) else None;
    var (lines, end, found) := BlockLines(source, NextLine(source, start), base, indent);
    var value := Dedent(lines, if found.Some? then found.value else indent + 1);
    Ok((BlockScalar(if line[col] == '|' then Literal else Folded, Chomp(value, header.chomping)), end))
  }

  // ----- Whole lines and the whole source

  function TokensOf(source: string, start: nat, pieces: seq<Piece>): seq<Token>
    requires start <= |source|
    requires forall i | 0 <= i < |pieces| :: start + pieces[i].start <= |source| && start + pieces[i].end <= |source|
  {
    if pieces == [] then []
    else
      [Token(pieces[0].kind, SpanOf(source, start + pieces[0].start, start + pieces[0].end))]
      + TokensOf(source, start, pieces[1..])
  }

  function LineAt(source: string, start: nat): (line: string)
    requires start <= |source|
    ensures start + |line| <= |source|
  {
    source[start..ContentEnd(source, start)]
  }

  ghost predicate PiecesFit(line: string, pieces: seq<Piece>) {
    forall i | 0 <= i < |pieces| :: pieces[i].start <= |line| && pieces[i].end <= |line|
  }

  lemma {:induction false} ScanFits(alphabet: Alphabet, line: string, col: nat)
    requires col <= |line|
    ensures var r := ScanFrom(alphabet, line, col);
      r.Ok? ==> PiecesFit(line, r.value.pieces) && (r.value.block.Some? ==> r.value.block.value < |line|)
    decreases |line| - col
  {
    if col < |line| {
      if line[col] == ' ' {
        ScanFits(alphabet, line, col + 1);
      } else {
        var found := PieceAt(alphabet, line, col);
        if found.Ok? && found.value.Inner? {
          ScanFits(alphabet, line, found.value.piece.end);
        }
      }
    }
  }

  /** The tokens of the line at `start` and where scanning goes on: the next line, or past a block scalar. */
  function ScanLine(alphabet: Alphabet, source: string, start: nat): (r: Result<(seq<Token>, nat), ErrorKind>)
    requires start < |source|
    ensures r.Ok? ==> start < r.value.1 <= |source|
  {
    var line := LineAt(source, start);
    var indent := SpacesEnd(line, 0);
    if indent < |line| && line[indent] == '\t' then Err(TabCharacter)
    else if indent == |line| then
      Ok(([Token(BlankLine, SpanOf(source, start, start + |line|))], NextLine(source, start)))
    else
      ScanFits(alphabet, line, indent);
      var scan :- ScanFrom(alphabet, line, indent);
      var tokens := TokensOf(source, start, scan.pieces);
      if scan.block.None? then Ok((tokens, NextLine(source, start)))
      else
        var (kind, end) :- BlockScalarAt(source, start, line, scan.block.value, indent);
        Ok((tokens + [Token(kind, SpanOf(source, start + scan.block.value, end))], end))
  }

  /** All tokens from the line at `start` on, `Eof` included. */
  function LexFrom(alphabet: Alphabet, source: string, start: nat): Result<seq<Token>, ErrorKind>
    requires start <= |source|
    decreases |source| - start
  {
    if start >= |source| then Ok([Token(Eof, SpanOf(source, |source|, |source|))])
    else
      var (tokens, next) :- ScanLine(alphabet, source, start);
      var rest :- LexFrom(alphabet, source, next);
      Ok(tokens + rest)
  }

  function Lex(alphabet: Alphabet, source: string): Result<seq<Token>, ErrorKind> {
    LexFrom(alphabet, source, 0)
  }
}
