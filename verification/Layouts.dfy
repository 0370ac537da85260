/**
 How a value is laid out in a list of tokens, and what it reads as. A layout says where in the list
 each token of a value stands; comments and blank lines may stand in between. Its meaning is given by
 the tokens and the values that anchors stand for, without any parser.
 */
module Layouts {
  import opened Prelude
  import opened Syntax
  import opened Values

  /** A value: the positions of the anchors and tags in front of it, and what they stand in front of. */
  datatype Layout = Layout(props: seq<nat>, core: Core)

  datatype Core =
    | Atom(at: nat)
    | Dashes(items: seq<Item>)
    | Keys(entries: seq<Entry>)
    | Brackets(open: nat, elements: seq<Element>, close: nat)
    | Braces(open: nat, pairs: seq<Pair>, close: nat)

  /** A dash and the value beside or below it; a value left out is null. */
  datatype Item = Item(dash: nat, value: Option<Layout>)

  /** The key of a block mapping: one scalar, or any value behind a `?`. */
  datatype Key = OneScalar(at: nat) | Asked(at: nat, key: Layout)

  datatype Entry = Entry(key: Key, colon: nat, value: Option<Layout>)

  /** An element of a flow sequence, and the commas behind it. */
  datatype Element = Element(value: Layout, commas: seq<nat>)

  datatype Pair = Pair(key: Layout, colon: nat, value: Option<Layout>, commas: seq<nat>)

  // ----- Tokens

  function TokenAt(tokens: seq<Token>, i: nat): Token {
    if i < |tokens| then tokens[i] else Token(Eof, ORIGIN)
  }

  function KindAt(tokens: seq<Token>, i: nat): TokenKind {
    TokenAt(tokens, i).kind
  }

  function ColumnAt(tokens: seq<Token>, i: nat): nat {
    TokenAt(tokens, i).span.column
  }

  /** What may stand between the tokens of a value. */
  predicate IsGap(kind: TokenKind) {
    kind.Comment? || kind.BlankLine?
  }

  /** The first token at or behind `i` that is no comment and no blank line is the one at `at`. */
  ghost predicate Next(tokens: seq<Token>, i: nat, at: nat) {
    i <= at < |tokens| && (forall k | i <= k < at :: IsGap(tokens[k].kind)) && !IsGap(tokens[at].kind)
  }

  /** Where a value below a key stands: on its line, to its right, or as a dash right under it. */
  predicate UnderKey(token: Token, key: Token) {
    || token.span.line == key.span.line
    || token.span.column > key.span.column
    || (token.kind.SequenceEntry? && token.span.column == key.span.column)
  }

  /** Where a value behind a dash stands: on its line or to its right. */
  predicate BesideDash(token: Token, dash: Token) {
    token.span.line == dash.span.line || token.span.column > dash.span.column
  }

  predicate IsMarker(kind: TokenKind) {
    kind.DocumentStart? || kind.DocumentEnd?
  }

  /** What a value starts with. */
  predicate OpensValue(kind: TokenKind) {
    || kind.Scalar? || kind.BlockScalar? || kind.Alias? || kind.Anchor? || kind.Tag? || kind.SequenceEntry?
    || kind.MappingKey? || kind.LeftBracket? || kind.LeftBrace?
  }

  predicate ClosesFlow(kind: TokenKind) {
    kind.Comma? || kind.RightBrace? || kind.RightBracket?
  }

  // ----- Where a layout ends

  function End(layout: Layout): nat
    decreases layout
  {
    match layout.core
    case Atom(at) => at + 1
    case Dashes(items) => if items == [] then 0 else ItemEnd(items[|items| - 1])
    case Keys(entries) => if entries == [] then 0 else EntryEnd(entries[|entries| - 1])
    case Brackets(_, _, close) => close + 1
    case Braces(_, _, close) => close + 1
  }

  function ItemEnd(item: Item): nat
    decreases item
  {
    if item.value.Some? then End(item.value.value) else item.dash + 1
  }

  function KeyEnd(key: Key): nat {
    if key.OneScalar? then key.at + 1 else End(key.key)
  }

  function EntryEnd(entry: Entry): nat
    decreases entry
  {
    if entry.value.Some? then End(entry.value.value) else entry.colon + 1
  }

  function PairEnd(pair: Pair): nat {
    if pair.value.Some? then End(pair.value.value) else pair.colon + 1
  }

  /** Behind the last of `commas`, or `i` if there is none. */
  function CommasEnd(i: nat, commas: seq<nat>): nat {
    if commas == [] then i else commas[|commas| - 1] + 1
  }

  /** The first of `commas`, or `otherwise` if there is none. */
  function FirstComma(commas: seq<nat>, otherwise: nat): nat {
    if commas == [] then otherwise else commas[0]
  }

  // ----- What may follow

  /** The next token, at `stop`, is no further part of the value. */
  ghost predicate Closes(tokens: seq<Token>, layout: Layout, stop: nat)
    decreases layout
  {
    match layout.core
    case Atom(at) => KindAt(tokens, at).Scalar? ==> !KindAt(tokens, at + 1).Colon?
    case Dashes(items) =>
      items != [] ==>
        && ItemCloses(tokens, items[|items| - 1], stop)
        && !(KindAt(tokens, stop).SequenceEntry? && ColumnAt(tokens, stop) == ColumnAt(tokens, items[0].dash))
    case Keys(entries) =>
      entries != [] ==>
        && EntryCloses(tokens, entries[|entries| - 1], stop)
        && !(StartsKey(KindAt(tokens, stop)) && ColumnAt(tokens, stop) == ColumnAt(tokens, entries[0].key.at))
    case Brackets(_, _, _) => true
    case Braces(_, _, _) => true
  }

  predicate StartsKey(kind: TokenKind) {
    kind.Scalar? || kind.MappingKey?
  }

  /** What is neither beside the dash nor below it leaves a missing item null. */
  ghost predicate ItemCloses(tokens: seq<Token>, item: Item, stop: nat)
    decreases item
  {
    if item.value.Some? then Closes(tokens, item.value.value, stop) else
    var dash, next := TokenAt(tokens, item.dash), TokenAt(tokens, item.dash + 1);
    if next.span.line == dash.span.line then ClosesFlow(next.kind)
    else IsMarker(next.kind) || !BesideDash(next, dash)
  }

  ghost predicate EntryCloses(tokens: seq<Token>, entry: Entry, stop: nat)
    decreases entry
  {
    if entry.value.Some? then Closes(tokens, entry.value.value, stop) else
    var key, next := TokenAt(tokens, entry.key.at), TokenAt(tokens, stop);
    IsMarker(next.kind) || !UnderKey(next, key)
  }

  // ----- Layouts

  /** The tokens from `i` on are written as the layout says. */
  ghost predicate Laid(tokens: seq<Token>, i: nat, layout: Layout)
    decreases layout.core, 1, |layout.props|
  {
    if layout.props == [] then CoreLaid(tokens, i, layout.core)
    else
      && Next(tokens, i, layout.props[0])
      && (KindAt(tokens, layout.props[0]).Anchor? || KindAt(tokens, layout.props[0]).Tag?)
      && Laid(tokens, layout.props[0] + 1, Layout(layout.props[1..], layout.core))
  }

  ghost predicate CoreLaid(tokens: seq<Token>, i: nat, core: Core)
    decreases core, 0
  {
    match core
    case Atom(at) =>
      Next(tokens, i, at)
        && (KindAt(tokens, at).Scalar? || KindAt(tokens, at).BlockScalar? || KindAt(tokens, at).Alias?)
    case Dashes(items) =>
      items != [] && ItemsLaid(tokens, i, items, ColumnAt(tokens, items[0].dash))
    case Keys(entries) =>
      && entries != [] && EntriesLaid(tokens, i, entries, ColumnAt(tokens, entries[0].key.at))
      && (entries[0].key.OneScalar? ==> entries[0].colon == entries[0].key.at + 1)
    case Brackets(open, elements, close) =>
      && Next(tokens, i, open) && KindAt(tokens, open).LeftBracket? && KindAt(tokens, close).RightBracket?
      && ElementsLaid(tokens, open + 1, elements, close)
    case Braces(open, pairs, close) =>
      && Next(tokens, i, open) && KindAt(tokens, open).LeftBrace? && KindAt(tokens, close).RightBrace?
      && PairsLaid(tokens, open + 1, pairs, close)
  }

  /** Dashes in one column, each with its value beside it or further in. */
  ghost predicate ItemsLaid(tokens: seq<Token>, i: nat, items: seq<Item>, column: nat)
    decreases items
  {
    items == [] ||
    var dash := items[0].dash;
    && Next(tokens, i, dash) && KindAt(tokens, dash).SequenceEntry? && ColumnAt(tokens, dash) == column
    && ItemLaid(tokens, items[0])
    && (|items| > 1 ==> ItemCloses(tokens, items[0], items[1].dash))
    && ItemsLaid(tokens, ItemEnd(items[0]), items[1..], column)
  }

  ghost predicate ItemLaid(tokens: seq<Token>, item: Item)
    decreases item
  {
    item.value.Some? ==>
      && BesideDash(TokenAt(tokens, item.dash + 1), TokenAt(tokens, item.dash))
      && Laid(tokens, item.dash + 1, item.value.value)
  }

  /** Keys in one column, each with its colon, and its value behind it or below it. */
  ghost predicate EntriesLaid(tokens: seq<Token>, i: nat, entries: seq<Entry>, column: nat)
    decreases entries
  {
    entries == [] ||
    var e := entries[0];
    var key := e.key;
    assert key < e;
    && Next(tokens, i, key.at) && ColumnAt(tokens, key.at) == column
    && KeyLaid(tokens, key, entries[0].colon) && KindAt(tokens, entries[0].colon).Colon?
    && EntryLaid(tokens, entries[0])
    && (|entries| > 1 ==> EntryCloses(tokens, entries[0], entries[1].key.at))
    && EntriesLaid(tokens, EntryEnd(entries[0]), entries[1..], column)
  }

  ghost predicate KeyLaid(tokens: seq<Token>, key: Key, colon: nat)
    decreases key
  {
    Next(tokens, KeyEnd(key), colon) &&
    match key
    case OneScalar(at) => KindAt(tokens, at).Scalar?
    case Asked(at, value) =>
      KindAt(tokens, at).MappingKey? && Laid(tokens, at + 1, value) && Closes(tokens, value, colon)
  }

  ghost predicate EntryLaid(tokens: seq<Token>, entry: Entry)
    decreases entry
  {
    entry.value.Some? ==>
      && Laid(tokens, entry.colon + 1, entry.value.value)
      && UnderKey(TokenAt(tokens, Start(entry.value.value)), TokenAt(tokens, entry.key.at))
  }

  /** The first token of a value. */
  function Start(layout: Layout): nat {
    if layout.props != [] then layout.props[0] else
    match layout.core
    case Atom(at) => at
    case Dashes(items) => if items == [] then 0 else items[0].dash
    case Keys(entries) => if entries == [] then 0 else entries[0].key.at
    case Brackets(open, _, _) => open
    case Braces(open, _, _) => open
  }

  /** One or more commas between the elements, and perhaps behind the last. */
  ghost predicate CommasLaid(tokens: seq<Token>, i: nat, commas: seq<nat>)
    decreases |commas|
  {
    commas == [] ||
    (Next(tokens, i, commas[0]) && KindAt(tokens, commas[0]).Comma? && CommasLaid(tokens, commas[0] + 1, commas[1..]))
  }

  ghost predicate ElementsLaid(tokens: seq<Token>, i: nat, elements: seq<Element>, close: nat)
    decreases elements
  {
    if elements == [] then Next(tokens, i, close)
    else
      var e := elements[0];
      && Laid(tokens, i, e.value) && Closes(tokens, e.value, FirstComma(e.commas, close))
      && CommasLaid(tokens, End(e.value), e.commas) && (|elements| > 1 ==> e.commas != [])
      && ElementsLaid(tokens, CommasEnd(End(e.value), e.commas), elements[1..], close)
  }

  /** Keys are scalars, perhaps under anchors and tags; a value left out in front of a comma or brace is null. */
  ghost predicate PairsLaid(tokens: seq<Token>, i: nat, pairs: seq<Pair>, close: nat)
    decreases pairs
  {
    if pairs == [] then Next(tokens, i, close)
    else
      var p := pairs[0];
      && Laid(tokens, i, p.key) && p.key.core.Atom? && KindAt(tokens, p.key.core.at).Scalar?
      && Next(tokens, End(p.key), p.colon) && KindAt(tokens, p.colon).Colon?
      && (p.value.Some? ==>
            && Laid(tokens, p.colon + 1, p.value.value)
            && Closes(tokens, p.value.value, FirstComma(p.commas, close)))
      && CommasLaid(tokens, PairEnd(p), p.commas) && (|pairs| > 1 ==> p.commas != [])
      && PairsLaid(tokens, CommasEnd(PairEnd(p), p.commas), pairs[1..], close)
  }

  // ----- What a layout reads as

  /** The values anchors stand for. */
  type Env = map<string, Value>

  function ScalarMeaning(cfg: Config, version: YamlVersion, raw: string, style: ScalarStyle): Value {
    if style == Plain then FromScalar(cfg.resolve(raw, version)) else VString(raw)
  }

  /** A key spelled `<<` is not a key where merging is on. */
  predicate IsMerge(cfg: Config, kind: TokenKind) {
    cfg.options.mergeKeys && ((kind.Scalar? && kind.raw == "<<") || (kind.BlockScalar? && kind.text == "<<"))
  }

  /** The outermost tag in front of a value. */
  function OuterTag(tokens: seq<Token>, props: seq<nat>): Option<string> {
    if props == [] then None
    else
      match KindAt(tokens, props[0])
      case Tag(name) => Some(name)
      case _ => OuterTag(tokens, props[1..])
  }

  /** The tag `!str` leaves a value as it is. */
  function Tagged(tag: Option<string>, bare: Value): Value {
    match tag
    case None => bare
    case Some(name) => if name == "!str" then bare else VTagged(name, bare)
  }

  /** The anchors in front of a value come to stand for it; none may stand for something already. */
  function Declared(tokens: seq<Token>, props: seq<nat>, v: Value, env: Env): Option<Env> {
    if props == [] then Some(env)
    else
      match Declared(tokens, props[1..], v, env)
      case None => None
      case Some(known) =>
        match KindAt(tokens, props[0])
        case Anchor(name) => if name in known then None else Some(known[name := v])
        case _ => Some(known)
  }

  predicate IsAlias(tokens: seq<Token>, core: Core) {
    core.Atom? && KindAt(tokens, core.at).Alias?
  }

  /**
   * The value of a layout and what anchors stand for behind it. There is none if an alias is unknown, a name is given
   * twice, or a key would be merged.
   */
  function Meaning(cfg: Config, version: YamlVersion, tokens: seq<Token>, layout: Layout, env: Env)
    : Option<(Value, Env)>
    decreases layout.core, 1
  {
    match CoreMeaning(cfg, version, tokens, layout.core, env)
    case None => None
    case Some((bare, known)) =>
      var v := if IsAlias(tokens, layout.core) then bare else Tagged(OuterTag(tokens, layout.props), bare);
      match Declared(tokens, layout.props, v, known)
      case None => None
      case Some(env') => Some((v, env'))
  }

  function CoreMeaning(cfg: Config, version: YamlVersion, tokens: seq<Token>, core: Core, env: Env)
    : Option<(Value, Env)>
    decreases core, 0
  {
    match core
    case Atom(at) =>
      (match KindAt(tokens, at)
       case Scalar(raw, style, _) => Some((ScalarMeaning(cfg, version, raw, style), env))
       case BlockScalar(_, text) => Some((VString(text), env))
       case Alias(name) => if name in env then Some((env[name], env)) else None
       case _ => None)
    case Dashes(items) =>
      (match ItemsMeaning(cfg, version, tokens, items, env)
       case None => None
       case Some((values, env')) => Some((VSequence(values), env')))
    case Keys(entries) =>
      (match EntriesMeaning(cfg, version, tokens, entries, env)
       case None => None
       case Some((values, env')) => Some((VMapping(values), env')))
    case Brackets(_, elements, _) =>
      (match ElementsMeaning(cfg, version, tokens, elements, env)
       case None => None
       case Some((values, env')) => Some((VSequence(values), env')))
    case Braces(_, pairs, _) =>
      (match PairsMeaning(cfg, version, tokens, pairs, env)
       case None => None
       case Some((values, env')) => Some((VMapping(values), env')))
  }

  /** A value left out is null. */
  function OptionMeaning(cfg: Config, version: YamlVersion, tokens: seq<Token>, value: Option<Layout>, env: Env)
    : Option<(Value, Env)>
    decreases value
  {
    if value.Some? then Meaning(cfg, version, tokens, value.value, env) else Some((VNull, env))
  }

  function ItemsMeaning(cfg: Config, version: YamlVersion, tokens: seq<Token>, items: seq<Item>, env: Env)
    : Option<(seq<Value>, Env)>
    decreases items
  {
    if items == [] then Some(([], env)) else
    var item := items[0];
    assert item.value < item;
    match OptionMeaning(cfg, version, tokens, item.value, env)
    case None => None
    case Some((v, known)) =>
      match ItemsMeaning(cfg, version, tokens, items[1..], known)
      case None => None
      case Some((rest, env')) => Some(([v] + rest, env'))
  }

  function KeyMeaning(cfg: Config, version: YamlVersion, tokens: seq<Token>, key: Key, env: Env): Option<(Value, Env)>
    decreases key
  {
    match key
    case OneScalar(at) =>
      var kind := KindAt(tokens, at);
      if kind.Scalar? && !IsMerge(cfg, kind) then Some((ScalarMeaning(cfg, version, kind.raw, kind.style), env))
      else None
    case Asked(_, value) => if Mergeable(cfg, tokens, value) then None else Meaning(cfg, version, tokens, value, env)
  }

  predicate Mergeable(cfg: Config, tokens: seq<Token>, key: Layout) {
    key.core.Atom? && IsMerge(cfg, KindAt(tokens, key.core.at))
  }

  function EntriesMeaning(cfg: Config, version: YamlVersion, tokens: seq<Token>, entries: seq<Entry>, env: Env)
    : Option<(seq<(Value, Value)>, Env)>
    decreases entries
  {
    if entries == [] then Some(([], env)) else
    var e := entries[0];
    assert e.key < e && e.value < e;
    match KeyMeaning(cfg, version, tokens, e.key, env)
    case None => None
    case Some((k, keyed)) =>
      match OptionMeaning(cfg, version, tokens, e.value, keyed)
      case None => None
      case Some((v, known)) =>
        match EntriesMeaning(cfg, version, tokens, entries[1..], known)
        case None => None
        case Some((rest, env')) => Some(([(k, v)] + rest, env'))
  }

  function ElementsMeaning(cfg: Config, version: YamlVersion, tokens: seq<Token>, elements: seq<Element>, env: Env)
    : Option<(seq<Value>, Env)>
    decreases elements
  {
    if elements == [] then Some(([], env)) else
    match Meaning(cfg, version, tokens, elements[0].value, env)
    case None => None
    case Some((v, known)) =>
      match ElementsMeaning(cfg, version, tokens, elements[1..], known)
      case None => None
      case Some((rest, env')) => Some(([v] + rest, env'))
  }

  function PairsMeaning(cfg: Config, version: YamlVersion, tokens: seq<Token>, pairs: seq<Pair>, env: Env)
    : Option<(seq<(Value, Value)>, Env)>
    decreases pairs
  {
    if pairs == [] then Some(([], env)) else
    var p := pairs[0];
    assert p.key < p && p.value < p;
    if Mergeable(cfg, tokens, p.key) then None else
    match Meaning(cfg, version, tokens, p.key, env)
    case None => None
    case Some((k, keyed)) =>
      match OptionMeaning(cfg, version, tokens, p.value, keyed)
      case None => None
      case Some((v, known)) =>
        match PairsMeaning(cfg, version, tokens, pairs[1..], known)
        case None => None
        case Some((rest, env')) => Some(([(k, v)] + rest, env'))
  }

  // ----- Streams

  /** A document: the directives in front of it, its `---`, its value, and its `...`. */
  datatype Page = Page(directives: seq<nat>, start: Option<nat>, value: Option<Layout>, end: Option<nat>)

  /** Where the content of a page begins, behind its directives and its `---`. */
  function ContentStart(i: nat, page: Page): nat {
    if page.start.Some? then page.start.value + 1 else CommasEnd(i, page.directives)
  }

  function ContentEnd(i: nat, page: Page): nat {
    if page.value.Some? then End(page.value.value) else ContentStart(i, page)
  }

  function PageEnd(i: nat, page: Page): nat {
    if page.end.Some? then page.end.value + 1 else ContentEnd(i, page)
  }

  /** The first token of a page behind its directives. */
  function PageStart(page: Page): nat {
    if page.start.Some? then page.start.value
    else if page.value.Some? then Start(page.value.value)
    else if page.end.Some? then page.end.value else 0
  }

  /** The first token of a list of pages, or `eof`. */
  function StreamStart(pages: seq<Page>, eof: nat): nat {
    if pages == [] then eof else FirstComma(pages[0].directives, PageStart(pages[0]))
  }

  ghost predicate DirectivesLaid(tokens: seq<Token>, i: nat, directives: seq<nat>)
    decreases |directives|
  {
    directives == [] ||
    (&& Next(tokens, i, directives[0]) && KindAt(tokens, directives[0]).Directive?
     && DirectiveVersion(KindAt(tokens, directives[0]).text).Ok?
     && DirectivesLaid(tokens, directives[0] + 1, directives[1..]))
  }

  /** Between its directives and `stop`, the token behind it. */
  ghost predicate PageLaid(tokens: seq<Token>, i: nat, page: Page, stop: nat) {
    var behind := if page.end.Some? then page.end.value else stop;
    && (page.start.Some? ==> Next(tokens, CommasEnd(i, page.directives), page.start.value)
                             && KindAt(tokens, page.start.value).DocumentStart?)
    && (page.end.Some? ==> KindAt(tokens, page.end.value).DocumentEnd?)
    && Next(tokens, ContentEnd(i, page), behind)
    && if page.value.Some?
       then Laid(tokens, ContentStart(i, page), page.value.value) && Closes(tokens, page.value.value, behind)
       else (page.start.Some? || page.end.Some?) && (KindAt(tokens, behind).Eof? || KindAt(tokens, behind).DocumentEnd?)
  }

  /** Pages one after another up to the end; only the first may go without `---`. */
  ghost predicate StreamLaid(tokens: seq<Token>, i: nat, pages: seq<Page>, eof: nat)
    decreases |pages|
  {
    if pages == [] then Next(tokens, i, eof) && KindAt(tokens, eof).Eof?
    else
      && DirectivesLaid(tokens, i, pages[0].directives)
      && PageLaid(tokens, i, pages[0], StreamStart(pages[1..], eof))
      && (|pages| > 1 ==> pages[1].start.Some?)
      && StreamLaid(tokens, PageEnd(i, pages[0]), pages[1..], eof)
  }

  /** The version in force behind some directives; none of them counts where the options name one. */
  function VersionBehind(cfg: Config, tokens: seq<Token>, version: YamlVersion, directives: seq<nat>): YamlVersion
    decreases |directives|
  {
    if directives == [] then version
    else
      var kind := KindAt(tokens, directives[0]);
      var asked := if kind.Directive? then DirectiveVersion(kind.text) else Ok(None);
      var version := if cfg.options.yamlVersion.None? && asked.Ok? && asked.value.Some? then asked.value.value
        else version;
      VersionBehind(cfg, tokens, version, directives[1..])
  }

  /** The values of the documents, in order; what an anchor stands for carries over. */
  function StreamMeaning(cfg: Config, version: YamlVersion, tokens: seq<Token>, pages: seq<Page>, env: Env)
    : Option<seq<Value>>
    decreases |pages|
  {
    if pages == [] then Some([]) else
    var version := VersionBehind(cfg, tokens, version, pages[0].directives);
    match OptionMeaning(cfg, version, tokens, pages[0].value, env)
    case None => None
    case Some((v, known)) =>
      match StreamMeaning(cfg, version, tokens, pages[1..], known)
      case None => None
      case Some(rest) => Some([v] + rest)
  }
}
