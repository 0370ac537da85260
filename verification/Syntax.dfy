/** Tokens, scalar values, parser options and `%YAML` directives. */
module Syntax {
  import opened Prelude

  /** A half-open source range; `line` and `column` count from one and locate `start`. */
  datatype Span = Span(start: nat, end: nat, line: nat, column: nat)

  /** The span given to placeholders that have no token to point at. */
  const ORIGIN := Span(0, 0, 1, 1)

  datatype ScalarStyle = Plain | SingleQuoted | DoubleQuoted | BlockLiteral | BlockChomped

  datatype BlockIndicator = Literal | Folded

  datatype TokenKind =
    | DocumentStart
    | DocumentEnd
    | MappingKey
    | SequenceEntry
    | Colon
    | Comma
    | LeftBrace
    | RightBrace
    | LeftBracket
    | RightBracket
    | Anchor(name: string)
    | Alias(name: string)
    | Tag(name: string)
    | Directive(text: string)
    | Scalar(raw: string, style: ScalarStyle, tag: Option<string>)
    | BlockScalar(indicator: BlockIndicator, text: string)
    | Comment(text: string)
    | BlankLine
    | Eof

  datatype Token = Token(kind: TokenKind, span: Span)

  predicate IsTrivia(kind: TokenKind) {
    kind.Comment? || kind.BlankLine?
  }

  datatype YamlVersion = Version11 | Version12

  /** A resolved scalar. A float is held as its 64-bit pattern; nothing here does arithmetic on it. */
  datatype ScalarValue =
    | Null
    | Bool(b: bool)
    | Int(i: int)
    | Float(bits: nat)
    | String(s: string)
    | Timestamp(s: string)

  datatype Options = Options(yamlVersion: Option<YamlVersion>, mergeKeys: bool, strictVersion: bool)

  /** Parser options together with the implicit-resolution table and the equality of floats. */
  datatype Config = Config(
    options: Options,
    resolve: (string, YamlVersion) -> ScalarValue,
    floatEq: (nat, nat) -> bool)

  /** Equality of resolved values, comparing floats with the float equality. */
  predicate SameValue(cfg: Config, a: ScalarValue, b: ScalarValue) {
    if a.Float? && b.Float? then cfg.floatEq(a.bits, b.bits) else a == b
  }

  /** Whether a plain scalar means different things under the two versions. */
  predicate Ambiguous(cfg: Config, raw: string) {
    !SameValue(cfg, cfg.resolve(raw, Version11), cfg.resolve(raw, Version12))
  }

  function InitialVersion(options: Options): YamlVersion {
    if options.yamlVersion.Some? then options.yamlVersion.value else Version12
  }

  // ----- Directives

  predicate IsWhitespace(c: char) {
    || '\U{9}' <= c <= '\U{D}'
    || c == ' ' || c == '\U{85}' || c == '\U{A0}' || c == '\U{1680}'
    || '\U{2000}' <= c <= '\U{200A}'
    || c == '\U{2028}' || c == '\U{2029}' || c == '\U{202F}' || c == '\U{205F}' || c == '\U{3000}'
  }

  /** The length of the run starting at `i` of characters that are (or are not) whitespace. */
  function RunEnd(text: string, i: nat, white: bool): (end: nat)
    requires i <= |text|
    ensures i <= end <= |text|
    decreases |text| - i
  {
    if i < |text| && IsWhitespace(text[i]) == white then RunEnd(text, i + 1, white) else i
  }

  /** The first whitespace-separated word at or after `i`, and the position just past it. */
  function NextWord(text: string, i: nat): (word: Option<(string, nat)>)
    requires i <= |text|
    ensures word.Some? ==> word.value.1 <= |text|
  {
    var start := RunEnd(text, i, true);
    var end := RunEnd(text, start, false);
    if start == end then None else Some((text[start..end], end))
  }

  /** What a directive asks for: nothing, a version, or a version that does not exist. */
  function DirectiveVersion(text: string): Result<Option<YamlVersion>, ErrorKind> {
    match NextWord(text, 0)
    case None => Ok(None)
    case Some((name, rest)) =>
      if name != "YAML" then Ok(None) else
      match NextWord(text, rest)
      case None => Ok(None)
      case Some((version, _)) =>
        if version == "1.1" || version == "1.1." then Ok(Some(Version11))
        else if version == "1.2" || version == "1.2." then Ok(Some(Version12))
        else Err(InvalidDirective)
  }
}
