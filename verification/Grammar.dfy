/**
 The recursive-descent grammar as functions over the parser's whole state. Each function is named
 after the parsing routine it specifies and threads the state that routine updates in place.
 */
module Grammar {
  import opened Prelude
  import opened Syntax
  import opened Arena
  import MergeKeys

  /** Which anchors of a flow mapping key are kept when a key carries several. */
  datatype KeyAnchors = EveryAnchor | FirstAnchor

  datatype Grammar = Grammar(cfg: Config, keyAnchors: KeyAnchors, tokens: seq<Token>)

  datatype PState = PState(
    pos: nat,
    document: Document,
    anchors: map<string, NodeId>,
    version: YamlVersion,
    pinned: bool,
    pending: seq<Trivia>)

  type Parsed = Result<(PState, NodeId), ErrorKind>

  // ----- Token access

  /** The position of the first token at or after `pos` that is not a comment or a blank line. */
  function SkipPos(tokens: seq<Token>, pos: nat): (end: nat)
    requires pos <= |tokens|
    ensures pos <= end <= |tokens|
    ensures end < |tokens| ==> !IsTrivia(tokens[end].kind)
    ensures pos < |tokens| && !IsTrivia(tokens[pos].kind) ==> end == pos
    decreases |tokens| - pos
  {
    if pos < |tokens| && IsTrivia(tokens[pos].kind) then SkipPos(tokens, pos + 1) else pos
  }

  function TriviaAt(token: Token): Trivia
    requires IsTrivia(token.kind)
  {
    Trivia(if token.kind.Comment? then CommentTrivia(token.kind.text) else BlankLineTrivia, token.span)
  }

  /** The trivia tokens starting at `pos`. */
  function TriviaFrom(tokens: seq<Token>, pos: nat): seq<Trivia>
    requires pos <= |tokens|
    decreases |tokens| - pos
  {
    if pos < |tokens| && IsTrivia(tokens[pos].kind)
    then [TriviaAt(tokens[pos])] + TriviaFrom(tokens, pos + 1)
    else []
  }

  predicate AtEof(tokens: seq<Token>, pos: nat) {
    pos < |tokens| ==> tokens[pos].kind.Eof?
  }

  predicate PeekIsColon(tokens: seq<Token>, pos: nat) {
    pos + 1 < |tokens| && tokens[pos + 1].kind.Colon?
  }

  /** A block sequence may align with its key; anything else below the key must be indented further. */
  predicate ValueFollowsKey(tokens: seq<Token>, pos: nat, keyCol: nat, keyLine: nat) {
    pos < |tokens| &&
    var t := tokens[pos];
    if t.span.line == keyLine then !t.kind.DocumentStart? && !t.kind.DocumentEnd?
    else if t.kind.DocumentStart? || t.kind.DocumentEnd? then false
    else if t.kind.SequenceEntry? then t.span.column >= keyCol
    else t.span.column > keyCol
  }

  predicate ValueFollowsDash(tokens: seq<Token>, pos: nat, dashCol: nat, dashLine: nat) {
    pos < |tokens| &&
    var t := tokens[pos];
    if t.span.line == dashLine then !t.kind.Comma? && !t.kind.RightBrace? && !t.kind.RightBracket?
    else if t.kind.DocumentStart? || t.kind.DocumentEnd? then false
    else t.span.column > dashCol
  }

  // ----- State updates

  function SkipTrivia(g: Grammar, s: PState): PState
    requires s.pos <= |g.tokens|
  {
    s.(pos := SkipPos(g.tokens, s.pos), pending := s.pending + TriviaFrom(g.tokens, s.pos))
  }

  function Advance(s: PState): PState {
    s.(pos := s.pos + 1)
  }

  function AddNode(s: PState, kind: NodeKind, span: Span, trivia: seq<Trivia>): (PState, NodeId) {
    var node := NodeData(kind, Some(span), trivia, None, None);
    (s.(document := s.document.(nodes := s.document.nodes + [node])), |s.document.nodes|)
  }

  /** Adds a node that takes over the trivia seen since the last one. */
  function AddWithTrivia(s: PState, kind: NodeKind, span: Span): (PState, NodeId) {
    AddNode(s.(pending := []), kind, span, s.pending)
  }

  function AddNull(s: PState, span: Span): (PState, NodeId) {
    AddNode(s, NodeKind.Scalar(NullScalar()), span, [])
  }

  function SetAnchor(nodes: seq<NodeData>, id: NodeId, name: string): seq<NodeData>
    requires id < |nodes|
  {
    nodes[id := nodes[id].(anchor := Some(name))]
  }

  function SetTag(nodes: seq<NodeData>, id: NodeId, name: string): seq<NodeData>
    requires id < |nodes|
  {
    nodes[id := nodes[id].(tag := Some(name))]
  }

  /** Registers an anchor once its node is complete; a name may be declared only once. */
  function Declare(s: PState, id: NodeId, name: string): Parsed
    requires id < |s.document.nodes|
  {
    if name in s.anchors then Err(InvalidAnchor)
    else
      var document := s.document.(nodes := SetAnchor(s.document.nodes, id, name));
      Ok((s.(anchors := s.anchors[name := id], document := document), id))
  }

  function Retag(s: PState, id: NodeId, name: string): (PState, NodeId)
    requires id < |s.document.nodes|
  {
    (s.(document := s.document.(nodes := SetTag(s.document.nodes, id, name))), id)
  }

  /** Only plain scalars resolve; under a strict, unpinned version an ambiguous one is refused. */
  function ResolveScalarValue(g: Grammar, s: PState, raw: string, style: ScalarStyle, tag: Option<string>)
    : Result<ScalarValue, ErrorKind>
  {
    if tag == Some("!str") || style != Plain then Ok(String(raw))
    else if g.cfg.options.strictVersion && !s.pinned && Ambiguous(g.cfg, raw) then Err(AmbiguousVersion)
    else Ok(g.cfg.resolve(raw, s.version))
  }

  // ----- Progress

  ghost predicate Extends(before: map<string, NodeId>, after: map<string, NodeId>) {
    forall name | name in before :: name in after && after[name] == before[name]
  }

  /** `t` comes from `s` by reading tokens, adding nodes and declaring anchors, and by nothing else. */
  ghost predicate Grows(g: Grammar, s: PState, t: PState) {
    && s.pos <= t.pos <= |g.tokens|
    && s.document.nodes <= t.document.nodes
    && Extends(s.anchors, t.anchors)
    && t.document == s.document.(nodes := t.document.nodes)
    && t.version == s.version
    && t.pinned == s.pinned
  }

  /** Progress that ends in a node which did not exist before. */
  ghost predicate Yields(g: Grammar, s: PState, r: Parsed) {
    r.Ok? ==> Grows(g, s, r.value.0) && |s.document.nodes| <= r.value.1 < |r.value.0.document.nodes|
  }

  // ----- Values

  /** A value that is a single token: a scalar, a block scalar or an alias. */
  function ParseLeaf(g: Grammar, s: PState): (r: Parsed)
    requires s.pos < |g.tokens|
    ensures Yields(g, s, r)
    ensures r.Ok? ==> s.pos < r.value.0.pos
  {
    var token := g.tokens[s.pos];
    match token.kind
    case Scalar(raw, style, tag) =>
      var value :- ResolveScalarValue(g, s, raw, style, tag);
      Ok(AddWithTrivia(Advance(s), NodeKind.Scalar(ScalarData(value, style, raw, tag)), token.span))
    case BlockScalar(indicator, text) =>
      var style := if indicator.Literal? then BlockLiteral else BlockChomped;
      Ok(AddWithTrivia(Advance(s), NodeKind.Scalar(ScalarData(String(text), style, text, None)), token.span))
    case Alias(name) =>
      if name !in s.anchors then Err(UnknownAnchor)
      else Ok(AddWithTrivia(Advance(s), NodeKind.Alias(s.anchors[name]), token.span))
    case _ => Err(UnexpectedCharacter)
  }

  function ParseValue(g: Grammar, s: PState): (r: Parsed)
    requires s.pos <= |g.tokens|
    ensures Yields(g, s, r)
    ensures r.Ok? ==> s.pos < r.value.0.pos
    decreases |g.tokens| - s.pos, 5
  {
    var s := SkipTrivia(g, s);
    if s.pos >= |g.tokens| then Err(UnexpectedEof) else
    var kind, span := g.tokens[s.pos].kind, g.tokens[s.pos].span;
    if kind.Anchor? then
      var (t, id) :- ParseValue(g, SkipTrivia(g, Advance(s)));
      Declare(t, id, kind.name)
    else if kind.Tag? then
      var (t, id) :- ParseValue(g, SkipTrivia(g, Advance(s)));
      Ok(Retag(t, id, kind.name))
    else if kind.LeftBrace? then ParseFlowMapping(g, SkipTrivia(g, Advance(s)), [], span, span.end)
    else if kind.LeftBracket? then ParseFlowSequence(g, SkipTrivia(g, Advance(s)), [], span, span.end)
    else if kind.SequenceEntry? then ParseBlockSequence(g, s, [], None, 0, None)
    else if kind.MappingKey? || (kind.Scalar? && PeekIsColon(g.tokens, s.pos)) then
      ParseBlockMapping(g, s, [], None, 0, None)
    else ParseLeaf(g, s)
  }

  // ----- Block sequences

  predicate DashAt(g: Grammar, pos: nat, itemCol: Option<nat>) {
    && pos < |g.tokens|
    && g.tokens[pos].kind.SequenceEntry?
    && (itemCol.Some? ==> g.tokens[pos].span.column == itemCol.value)
  }

  /** The item after the dash at `s.pos - 1`, or a null placed on the dash itself. */
  function ParseItem(g: Grammar, s: PState, dash: Span): (r: Parsed)
    requires s.pos <= |g.tokens|
    ensures Yields(g, s, r)
    decreases |g.tokens| - s.pos, 6
  {
    if ValueFollowsDash(g.tokens, s.pos, dash.column, dash.line) then ParseValue(g, s)
    else Ok(AddNull(s, dash))
  }

  /** The span from the first entry to the end of the last thing inside. */
  function BlockSpan(first: Option<Span>, lastEnd: nat): Span {
    if first.Some? then first.value.(end := Max(lastEnd, first.value.end)) else ORIGIN
  }

  function ParseBlockSequence(g: Grammar, s: PState, items: seq<NodeId>, first: Option<Span>, lastEnd: nat,
                              itemCol: Option<nat>)
    : (r: Parsed)
    requires s.pos <= |g.tokens|
    ensures Yields(g, s, r)
    ensures r.Ok? && DashAt(g, s.pos, itemCol) ==> s.pos < r.value.0.pos
    decreases |g.tokens| - s.pos, 4
  {
    var s := SkipTrivia(g, s);
    if !DashAt(g, s.pos, itemCol) then
      Ok(AddWithTrivia(s, NodeKind.Sequence(items), BlockSpan(first, lastEnd)))
    else
      var dash := g.tokens[s.pos].span;
      var (t, item) :- ParseItem(g, Advance(s), dash);
      ParseBlockSequence(g, t, items + [item], if first.None? then Some(dash) else first,
                         SpanEnd(t.document.nodes, item, Max(lastEnd, dash.end)), Some(dash.column))
  }

  // ----- Block mappings

  predicate KeyAt(g: Grammar, pos: nat, entryCol: Option<nat>) {
    && pos < |g.tokens|
    && (g.tokens[pos].kind.MappingKey? || g.tokens[pos].kind.Scalar?)
    && (entryCol.Some? ==> g.tokens[pos].span.column == entryCol.value)
  }

  /** The key at `s.pos`: an arbitrary value after `?`, otherwise the bare scalar itself. */
  function ParseBlockKey(g: Grammar, s: PState): (r: Parsed)
    requires KeyAt(g, s.pos, None)
    ensures Yields(g, s, r)
    ensures r.Ok? ==> s.pos < r.value.0.pos
    decreases |g.tokens| - s.pos, 3
  {
    match g.tokens[s.pos].kind
    case Scalar(raw, style, tag) =>
      var value :- ResolveScalarValue(g, s, raw, style, tag);
      Ok(AddNode(Advance(s), NodeKind.Scalar(ScalarData(value, style, raw, tag)), g.tokens[s.pos].span, []))
    case _ => ParseValue(g, SkipTrivia(g, Advance(s)))
  }

  /** The colon and the value of the entry whose key token was at `key`. */
  function ParseBlockEntryValue(g: Grammar, s: PState, key: Span): (r: Parsed)
    requires s.pos <= |g.tokens|
    ensures Yields(g, s, r)
    decreases |g.tokens| - s.pos, 3
  {
    var s := SkipTrivia(g, s);
    if s.pos >= |g.tokens| then Err(UnexpectedEof)
    else if !g.tokens[s.pos].kind.Colon? then Err(UnexpectedCharacter)
    else
      var colon := g.tokens[s.pos].span;
      var s := SkipTrivia(g, Advance(s));
      if ValueFollowsKey(g.tokens, s.pos, key.column, key.line) then ParseValue(g, s)
      else Ok(AddNull(s, colon))
  }

  function FinishMapping(g: Grammar, s: PState, entries: seq<(NodeId, NodeId)>, span: Span): (r: Parsed)
    requires s.pos <= |g.tokens|
    ensures Yields(g, s, r)
  {
    var entries :- MergeKeys.ApplyMergeKeys(g.cfg.options.mergeKeys, s.document.nodes, entries);
    Ok(AddWithTrivia(s, NodeKind.Mapping(entries), span))
  }

  function ParseBlockMapping(g: Grammar, s: PState, entries: seq<(NodeId, NodeId)>, first: Option<Span>, lastEnd: nat,
                             entryCol: Option<nat>)
    : (r: Parsed)
    requires s.pos <= |g.tokens|
    ensures Yields(g, s, r)
    ensures r.Ok? && KeyAt(g, s.pos, entryCol) ==> s.pos < r.value.0.pos
    decreases |g.tokens| - s.pos, 4
  {
    var s := SkipTrivia(g, s);
    if !KeyAt(g, s.pos, entryCol) then
      FinishMapping(g, s, entries, BlockSpan(first, lastEnd))
    else
      var token := g.tokens[s.pos].span;
      var (t, key) :- ParseBlockKey(g, s);
      var (u, value) :- ParseBlockEntryValue(g, t, token);
      ParseBlockMapping(g, u, entries + [(key, value)], if first.None? then Some(token) else first,
                        SpanEnd(u.document.nodes, value, SpanEnd(u.document.nodes, key, lastEnd)), Some(token.column))
  }

  // ----- Flow collections

  function FlowSpan(open: Span, end: nat): Span {
    open.(end := end)
  }

  function ParseFlowSequence(g: Grammar, s: PState, items: seq<NodeId>, open: Span, end: nat): (r: Parsed)
    requires s.pos <= |g.tokens|
    ensures Yields(g, s, r)
    decreases |g.tokens| - s.pos, 6
  {
    if s.pos >= |g.tokens| then
      Ok(AddWithTrivia(s, NodeKind.Sequence(items), FlowSpan(open, end)))
    else
      var token := g.tokens[s.pos];
      if token.kind.RightBracket? then
        Ok(AddWithTrivia(Advance(s), NodeKind.Sequence(items), FlowSpan(open, token.span.end)))
      else if token.kind.Comma? then
        ParseFlowSequence(g, SkipTrivia(g, Advance(s)), items, open, end)
      else
        var (t, item) :- ParseValue(g, s);
        var end := SpanEnd(t.document.nodes, item, end);
        var t := SkipTrivia(g, t);
        if t.pos < |g.tokens| && !g.tokens[t.pos].kind.Comma? && !g.tokens[t.pos].kind.RightBracket? then
          Err(UnexpectedCharacter)
        else
          ParseFlowSequence(g, t, items + [item], open, end)
  }

  /** A flow key: a scalar under any number of anchors and tags. `seen` says an anchor came before. */
  function ParseFlowKey(g: Grammar, s: PState, seen: bool): (r: Parsed)
    requires s.pos <= |g.tokens|
    ensures Yields(g, s, r)
    ensures r.Ok? ==> s.pos < r.value.0.pos
    decreases |g.tokens| - s.pos, 5
  {
    var s := SkipTrivia(g, s);
    if s.pos >= |g.tokens| then Err(UnexpectedEof) else
    var token := g.tokens[s.pos];
    match token.kind
    case Scalar(raw, style, tag) =>
      var value :- ResolveScalarValue(g, s, raw, style, tag);
      Ok(AddNode(Advance(s), NodeKind.Scalar(ScalarData(value, style, raw, tag)), token.span, []))
    case Anchor(name) =>
      var (t, id) :- ParseFlowKey(g, SkipTrivia(g, Advance(s)), true);
      if seen && g.keyAnchors.FirstAnchor? then Ok((t, id)) else Declare(t, id, name)
    case Tag(name) =>
      var (t, id) :- ParseFlowKey(g, SkipTrivia(g, Advance(s)), seen);
      Ok(Retag(t, id, name))
    case _ => Err(UnexpectedCharacter)
  }

  /** The colon and the value of a flow mapping entry. */
  function ParseFlowEntryValue(g: Grammar, s: PState): (r: Parsed)
    requires s.pos <= |g.tokens|
    ensures Yields(g, s, r)
    decreases |g.tokens| - s.pos, 6
  {
    var s := SkipTrivia(g, s);
    if s.pos >= |g.tokens| then Err(UnexpectedEof)
    else if !g.tokens[s.pos].kind.Colon? then Err(UnexpectedCharacter)
    else
      var colon := g.tokens[s.pos].span;
      var s := SkipTrivia(g, Advance(s));
      if s.pos >= |g.tokens| || g.tokens[s.pos].kind.Comma? || g.tokens[s.pos].kind.RightBrace? then
        Ok(AddNull(s, colon))
      else
        ParseValue(g, s)
  }

  function ParseFlowMapping(g: Grammar, s: PState, entries: seq<(NodeId, NodeId)>, open: Span, end: nat): (r: Parsed)
    requires s.pos <= |g.tokens|
    ensures Yields(g, s, r)
    decreases |g.tokens| - s.pos, 6
  {
    if s.pos >= |g.tokens| then
      FinishMapping(g, s, entries, FlowSpan(open, end))
    else
      var token := g.tokens[s.pos];
      if token.kind.RightBrace? then
        FinishMapping(g, Advance(s), entries, FlowSpan(open, token.span.end))
      else if token.kind.Comma? then
        ParseFlowMapping(g, SkipTrivia(g, Advance(s)), entries, open, end)
      else
        var (t, key) :- ParseFlowKey(g, s, false);
        var (u, value) :- ParseFlowEntryValue(g, t);
        var end := SpanEnd(u.document.nodes, value, SpanEnd(u.document.nodes, key, end));
        var u := SkipTrivia(g, u);
        if u.pos < |g.tokens| && !g.tokens[u.pos].kind.Comma? && !g.tokens[u.pos].kind.RightBrace? then
          Err(UnexpectedCharacter)
        else
          ParseFlowMapping(g, u, entries + [(key, value)], open, end)
  }

  // ----- Documents

  function ApplyDirective(cfg: Config, s: PState, version: Option<YamlVersion>): PState {
    if version.Some? && cfg.options.yamlVersion.None? then
      s.(version := version.value, pinned := true, document := s.document.(version := version.value))
    else
      s
  }

  function ConsumeDirectives(g: Grammar, s: PState): (r: Result<PState, ErrorKind>)
    requires s.pos <= |g.tokens|
    ensures r.Ok? ==>
      && s.pos <= r.value.pos <= |g.tokens|
      && SkipPos(g.tokens, r.value.pos) == r.value.pos
      && r.value.document == s.document.(version := r.value.document.version)
      && r.value.anchors == s.anchors
    decreases |g.tokens| - s.pos
  {
    var s := SkipTrivia(g, s);
    if s.pos >= |g.tokens| || !g.tokens[s.pos].kind.Directive? then Ok(s)
    else
      var version :- DirectiveVersion(g.tokens[s.pos].kind.text);
      ConsumeDirectives(g, Advance(ApplyDirective(g.cfg, s, version)))
  }

  function ParseDocument(g: Grammar, s: PState, start: Option<Span>): (r: Parsed)
    requires s.pos <= |g.tokens|
    ensures Yields(g, s, r)
  {
    var s := SkipTrivia(g, s);
    if AtEof(g.tokens, s.pos) || g.tokens[s.pos].kind.DocumentEnd? then
      var span := if start.Some? then start.value else if s.pos < |g.tokens| then g.tokens[s.pos].span else ORIGIN;
      Ok(AddNull(s, span))
    else
      ParseValue(g, s)
  }

  /** Past an optional `...` and the directives of the next document. */
  function EndDocument(g: Grammar, s: PState): (r: Result<PState, ErrorKind>)
    requires s.pos <= |g.tokens|
    ensures r.Ok? ==> s.pos <= r.value.pos <= |g.tokens|
    ensures r.Ok? && SkipPos(g.tokens, s.pos) < |g.tokens| && g.tokens[SkipPos(g.tokens, s.pos)].kind.DocumentEnd?
            ==> s.pos < r.value.pos
    ensures r.Ok? ==>
      r.value.document == s.document.(version := r.value.document.version) && r.value.anchors == s.anchors
  {
    var s := SkipTrivia(g, s);
    var s := if s.pos < |g.tokens| && g.tokens[s.pos].kind.DocumentEnd? then Advance(s) else s;
    var s :- ConsumeDirectives(g, SkipTrivia(g, s));
    if !AtEof(g.tokens, s.pos) && !g.tokens[s.pos].kind.DocumentStart? then Err(TrailingContent) else Ok(s)
  }

  function PushRoot(s: PState, root: NodeId): PState {
    s.(document := s.document.(documents := s.document.documents + [root]))
  }

  /** Whole documents are appended; what was parsed before stays as it was. */
  ghost predicate Appends(g: Grammar, s: PState, t: PState) {
    && s.pos <= t.pos <= |g.tokens|
    && s.document.nodes <= t.document.nodes
    && s.document.documents <= t.document.documents
    && Extends(s.anchors, t.anchors)
  }

  function DocumentStartSpan(g: Grammar, s: PState): Option<Span> {
    if s.pos < |g.tokens| && g.tokens[s.pos].kind.DocumentStart? then Some(g.tokens[s.pos].span) else None
  }

  function DocumentContent(g: Grammar, s: PState): PState
    requires s.pos < |g.tokens|
  {
    SkipTrivia(g, if g.tokens[s.pos].kind.DocumentStart? then Advance(s) else s)
  }

  /** One document, from its optional `---` to past its end. */
  function ParseOneDocument(g: Grammar, s: PState): (r: Result<PState, ErrorKind>)
    requires s.pos < |g.tokens|
    ensures r.Ok? ==> Appends(g, s, r.value)
    ensures r.Ok? && !AtEof(g.tokens, s.pos) ==> s.pos < r.value.pos
  {
    var (t, root) :- ParseDocument(g, DocumentContent(g, s), DocumentStartSpan(g, s));
    EndDocument(g, PushRoot(t, root))
  }

  function ParseDocuments(g: Grammar, s: PState): (r: Result<PState, ErrorKind>)
    requires s.pos <= |g.tokens|
    ensures r.Ok? ==> Appends(g, s, r.value)
    decreases |g.tokens| - s.pos
  {
    if AtEof(g.tokens, s.pos) then Ok(s) else
    var u :- ParseOneDocument(g, s);
    ParseDocuments(g, u)
  }

  function InitialState(g: Grammar): PState {
    var version := InitialVersion(g.cfg.options);
    PState(0, Document(version, [], []), map[], version, g.cfg.options.yamlVersion.Some?, [])
  }

  /** A stream without any document still yields one null document. */
  function WithDefaultDocument(s: PState): PState {
    if s.document.documents == [] then
      var (t, root) := AddNull(s, ORIGIN);
      PushRoot(t, root)
    else
      s
  }

  function ParseStream(g: Grammar, s: PState): Result<PState, ErrorKind>
    requires s.pos <= |g.tokens|
  {
    var s :- ConsumeDirectives(g, SkipTrivia(g, s));
    var t :- ParseDocuments(g, s);
    Ok(WithDefaultDocument(t))
  }

  /** The whole parse. */
  function Parse(g: Grammar): Result<PState, ErrorKind> {
    ParseStream(g, InitialState(g))
  }
}
