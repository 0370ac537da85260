/** What holds of every arena the grammar builds: ids point backwards, spans nest, no `<<` key is left. */
module ArenaInvariant {
  import opened Prelude
  import opened Syntax
  import opened Arena
  import opened Grammar
  import MergeKeys
  import MergeProperties

  /** Tokens in source order, none overlapping the next. */
  ghost predicate Ordered(tokens: seq<Token>) {
    && (forall i | 0 <= i < |tokens| :: tokens[i].span.start <= tokens[i].span.end)
    && (forall i, j | 0 <= i < j < |tokens| :: tokens[i].span.end <= tokens[j].span.start)
  }

  /** Spans are only claimed to nest without merging, which shares entries between mappings. */
  ghost predicate Nests(g: Grammar) {
    !g.cfg.options.mergeKeys && Ordered(g.tokens)
  }

  predicate Encloses(outer: Option<Span>, inner: Option<Span>) {
    outer.Some? && inner.Some? && outer.value.start <= inner.value.start && inner.value.end <= outer.value.end
  }

  ghost predicate ChildOk(g: Grammar, nodes: seq<NodeData>, i: nat, child: NodeId)
    requires i < |nodes|
  {
    child < i && (Nests(g) ==> Encloses(nodes[i].span, nodes[child].span))
  }

  /** The scalar is spelled as the token is, and means what the token does under one of the versions. */
  predicate FromToken(g: Grammar, token: Token, scalar: ScalarData) {
    match token.kind
    case Scalar(raw, style, tag) =>
      && scalar.raw == raw && scalar.style == style && scalar.tag == tag
      && if tag == Some("!str") || style != Plain then scalar.value == String(raw)
         else scalar.value == g.cfg.resolve(raw, Version11) || scalar.value == g.cfg.resolve(raw, Version12)
    case BlockScalar(indicator, text) =>
      scalar == ScalarData(String(text), if indicator.Literal? then BlockLiteral else BlockChomped, text, None)
    case _ => false
  }

  /** A scalar node stands for a token, or for a value that was left out. */
  ghost predicate ScalarOk(g: Grammar, scalar: ScalarData) {
    scalar == NullScalar() || exists i | 0 <= i < |g.tokens| :: FromToken(g, g.tokens[i], scalar)
  }

  ghost predicate HasAlias(tokens: seq<Token>) {
    exists i | 0 <= i < |tokens| :: tokens[i].kind.Alias?
  }

  /**
   * Leaves come from tokens; the children of node `i` are older than it, lie inside it, and its keys are not merge
   * keys.
   */
  ghost predicate NodeOk(g: Grammar, nodes: seq<NodeData>, i: nat)
    requires i < |nodes|
  {
    match nodes[i].kind
    case Scalar(scalar) => ScalarOk(g, scalar)
    case Alias(target) => target < i && HasAlias(g.tokens)
    case Sequence(items) => forall c | c in items :: ChildOk(g, nodes, i, c)
    case Mapping(entries) =>
      && (forall e | e in entries :: ChildOk(g, nodes, i, e.0) && ChildOk(g, nodes, i, e.1))
      && (g.cfg.options.mergeKeys ==> forall e | e in entries :: !MergeKeys.IsMergeKey(nodes, e.0))
  }

  ghost predicate NodesOk(g: Grammar, nodes: seq<NodeData>) {
    forall i | 0 <= i < |nodes| :: NodeOk(g, nodes, i)
  }

  ghost predicate StateOk(g: Grammar, s: PState) {
    && NodesOk(g, s.document.nodes)
    && (forall name | name in s.anchors :: s.anchors[name] < |s.document.nodes|)
  }

  /** `offset` is at or before every token not read yet. */
  ghost predicate Before(tokens: seq<Token>, offset: nat, pos: nat) {
    forall j | pos <= j < |tokens| :: offset <= tokens[j].span.start
  }

  /** Node `id` lies between the start of token `from` and the tokens still unread at `pos`. */
  ghost predicate Placed(g: Grammar, nodes: seq<NodeData>, id: NodeId, from: nat, pos: nat) {
    Nests(g) ==>
      && id < |nodes| && nodes[id].span.Some? && Before(g.tokens, nodes[id].span.value.end, pos)
      && from < |g.tokens| && g.tokens[from].span.start <= nodes[id].span.value.start
  }

  /** A parsed node: a sound state in which it has its place. */
  ghost predicate NodeParsed(g: Grammar, from: nat, r: Parsed) {
    r.Ok? ==> StateOk(g, r.value.0) && Placed(g, r.value.0.document.nodes, r.value.1, from, r.value.0.pos)
  }

  // ----- Growing the arena keeps what is there

  lemma NodeFrame(g: Grammar, nodes: seq<NodeData>, nodes': seq<NodeData>, i: nat)
    requires i < |nodes| <= |nodes'| && NodeOk(g, nodes, i)
    requires forall j | 0 <= j <= i :: nodes'[j].kind == nodes[j].kind && nodes'[j].span == nodes[j].span
    ensures NodeOk(g, nodes', i)
  {
    hide Nests;
    match nodes[i].kind
    case Scalar(_) =>
    case Alias(_) =>
    case Sequence(items) =>
      forall c | c in items ensures ChildOk(g, nodes', i, c) {
        assert ChildOk(g, nodes, i, c);
      }
    case Mapping(entries) =>
      forall e | e in entries
        ensures ChildOk(g, nodes', i, e.0) && ChildOk(g, nodes', i, e.1)
        ensures g.cfg.options.mergeKeys ==> !MergeKeys.IsMergeKey(nodes', e.0)
      {
        assert ChildOk(g, nodes, i, e.0);
      }
  }

  lemma AddOk(g: Grammar, s: PState, kind: NodeKind, span: Span, trivia: seq<Trivia>)
    requires StateOk(g, s)
    requires var (t, id) := AddNode(s, kind, span, trivia); NodeOk(g, t.document.nodes, id)
    ensures StateOk(g, AddNode(s, kind, span, trivia).0)
  {
    hide NodeOk;
    var (t, id) := AddNode(s, kind, span, trivia);
    forall i | 0 <= i < |t.document.nodes| ensures NodeOk(g, t.document.nodes, i) {
      if i < id {
        NodeFrame(g, s.document.nodes, t.document.nodes, i);
      }
    }
  }

  /** Anchors and tags are written on a node without touching what the invariant speaks of. */
  lemma MarkOk(g: Grammar, s: PState, nodes: seq<NodeData>)
    requires StateOk(g, s) && |nodes| == |s.document.nodes|
    requires forall j | 0 <= j < |nodes| ::
      nodes[j].kind == s.document.nodes[j].kind && nodes[j].span == s.document.nodes[j].span
    ensures NodesOk(g, nodes)
  {
    hide NodeOk;
    forall i | 0 <= i < |nodes| ensures NodeOk(g, nodes, i) {
      NodeFrame(g, s.document.nodes, nodes, i);
    }
  }

  lemma DeclareOk(g: Grammar, t: PState, id: NodeId, name: string, from: nat)
    requires id < |t.document.nodes| && NodeParsed(g, from, Ok((t, id)))
    ensures NodeParsed(g, from, Declare(t, id, name)) && NodeParsed(g, from, Ok(Retag(t, id, name)))
  {
    hide NodesOk;
    MarkOk(g, t, SetAnchor(t.document.nodes, id, name));
    MarkOk(g, t, SetTag(t.document.nodes, id, name));
  }

  /** A single token became a node. */
  lemma LeafOk(g: Grammar, s: PState, t: PState, kind: NodeKind, from: nat, trivia: seq<Trivia>)
    requires StateOk(g, s) && s.pos < |g.tokens| && from <= s.pos
    requires t.document == s.document && t.anchors == s.anchors && t.pos > s.pos
    requires (kind.Scalar? && FromToken(g, g.tokens[s.pos], kind.scalar))
      || (kind.Alias? && g.tokens[s.pos].kind.Alias? && kind.target < |s.document.nodes|)
    ensures NodeParsed(g, from, Ok(AddNode(t, kind, g.tokens[s.pos].span, trivia)))
  {
    AddOk(g, t, kind, g.tokens[s.pos].span, trivia);
  }

  /** A placeholder on a token already read. */
  lemma NullOk(g: Grammar, s: PState, at: nat, from: nat)
    requires StateOk(g, s) && from <= at < s.pos && at < |g.tokens|
    ensures NodeParsed(g, from, Ok(AddNull(s, g.tokens[at].span)))
  {
    AddOk(g, s, NodeKind.Scalar(NullScalar()), g.tokens[at].span, []);
  }

  /** A later start is a start after an earlier token too. */
  lemma PlacedEarlier(g: Grammar, r: Parsed, from: nat, later: nat)
    requires NodeParsed(g, later, r) && from <= later
    ensures NodeParsed(g, from, r)
  {
    hide StateOk, Before;
    if r.Ok? && Nests(g) && from < later {
      assert g.tokens[from].span.end <= g.tokens[later].span.start;
    }
  }

  // ----- Collections under construction

  ghost predicate Inside(g: Grammar, nodes: seq<NodeData>, child: NodeId, start: nat, end: nat) {
    && child < |nodes|
    && (Nests(g) ==>
        nodes[child].span.Some? && start <= nodes[child].span.value.start && nodes[child].span.value.end <= end)
  }

  /** The part of a collection read so far opened at `first`, no earlier than token `from`, and ended at `lastEnd`. */
  ghost predicate Opened(g: Grammar, first: Span, lastEnd: nat, from: nat, pos: nat) {
    Nests(g) ==>
      && from < |g.tokens| && g.tokens[from].span.start <= first.start <= first.end
      && Before(g.tokens, first.end, pos) && Before(g.tokens, lastEnd, pos)
  }

  ghost predicate ItemsOk(g: Grammar, nodes: seq<NodeData>, items: seq<NodeId>, first: Span, lastEnd: nat) {
    forall c | c in items :: Inside(g, nodes, c, first.start, lastEnd)
  }

  ghost predicate EntriesOk(g: Grammar, nodes: seq<NodeData>, entries: seq<(NodeId, NodeId)>, first: Span,
                            lastEnd: nat) {
    forall e | e in entries ::
      Inside(g, nodes, e.0, first.start, lastEnd) && Inside(g, nodes, e.1, first.start, lastEnd)
  }

  lemma InsideFrame(g: Grammar, nodes: seq<NodeData>, nodes': seq<NodeData>, child: NodeId, start: nat, end: nat,
                    end': nat)
    requires Inside(g, nodes, child, start, end) && nodes <= nodes' && (Nests(g) ==> end <= end')
    ensures Inside(g, nodes', child, start, end')
  {
    hide Nests;
  }

  /** A node parsed inside an open collection extends it. */
  lemma InsideNew(g: Grammar, nodes: seq<NodeData>, id: NodeId, first: Span, lastEnd: nat, from: nat, at: nat, mid: nat,
                  pos: nat)
    requires id < |nodes| && Placed(g, nodes, id, at, pos) && Opened(g, first, lastEnd, from, mid) && mid <= pos
    requires at < |g.tokens| && (Nests(g) ==> first.start <= g.tokens[at].span.start)
    ensures Inside(g, nodes, id, first.start, SpanEnd(nodes, id, lastEnd))
    ensures Opened(g, first, SpanEnd(nodes, id, lastEnd), from, pos)
    ensures lastEnd <= SpanEnd(nodes, id, lastEnd)
  {
  }

  lemma ItemsGrow(g: Grammar, nodes: seq<NodeData>, nodes': seq<NodeData>, items: seq<NodeId>, id: NodeId, first: Span,
                  lastEnd: nat, lastEnd': nat)
    requires ItemsOk(g, nodes, items, first, lastEnd) && nodes <= nodes' && lastEnd <= lastEnd'
    requires Inside(g, nodes', id, first.start, lastEnd')
    ensures ItemsOk(g, nodes', items + [id], first, lastEnd')
  {
    forall c | c in items + [id] ensures Inside(g, nodes', c, first.start, lastEnd') {
      if c != id {
        InsideFrame(g, nodes, nodes', c, first.start, lastEnd, lastEnd');
      }
    }
  }

  lemma EntriesGrow(g: Grammar, nodes: seq<NodeData>, nodes': seq<NodeData>, entries: seq<(NodeId, NodeId)>,
                    e: (NodeId, NodeId),
                    first: Span, lastEnd: nat, lastEnd': nat)
    requires EntriesOk(g, nodes, entries, first, lastEnd) && nodes <= nodes' && lastEnd <= lastEnd'
    requires Inside(g, nodes', e.0, first.start, lastEnd') && Inside(g, nodes', e.1, first.start, lastEnd')
    ensures EntriesOk(g, nodes', entries + [e], first, lastEnd')
  {
    forall f | f in entries + [e]
      ensures Inside(g, nodes', f.0, first.start, lastEnd') && Inside(g, nodes', f.1, first.start, lastEnd') {
      if f != e {
        InsideFrame(g, nodes, nodes', f.0, first.start, lastEnd, lastEnd');
        InsideFrame(g, nodes, nodes', f.1, first.start, lastEnd, lastEnd');
      }
    }
  }

  /** The finished sequence, whose span ends at or after everything inside. */
  lemma CloseItems(g: Grammar, s: PState, items: seq<NodeId>, first: Span, lastEnd: nat, span: Span, from: nat,
                   pos: nat)
    requires StateOk(g, s) && ItemsOk(g, s.document.nodes, items, first, lastEnd)
      && Opened(g, first, lastEnd, from, pos)
    requires Nests(g) ==> span.start == first.start && lastEnd <= span.end && Before(g.tokens, span.end, s.pos)
    ensures NodeParsed(g, from, Ok(AddWithTrivia(s, NodeKind.Sequence(items), span)))
  {
    var u := s.(pending := []);
    var (t, id) := AddNode(u, NodeKind.Sequence(items), span, s.pending);
    forall c | c in items ensures ChildOk(g, t.document.nodes, id, c) {
      InsideFrame(g, s.document.nodes, t.document.nodes, c, first.start, lastEnd, span.end);
    }
    AddOk(g, u, NodeKind.Sequence(items), span, s.pending);
  }

  lemma CloseEntries(g: Grammar, s: PState, entries: seq<(NodeId, NodeId)>, first: Span, lastEnd: nat, span: Span,
                     from: nat, pos: nat)
    requires s.pos <= |g.tokens| && StateOk(g, s) && EntriesOk(g, s.document.nodes, entries, first, lastEnd)
    requires Opened(g, first, lastEnd, from, pos)
    requires Nests(g) ==> span.start == first.start && lastEnd <= span.end && Before(g.tokens, span.end, s.pos)
    ensures NodeParsed(g, from, FinishMapping(g, s, entries, span))
  {
    var merged := MergeKeys.ApplyMergeKeys(g.cfg.options.mergeKeys, s.document.nodes, entries);
    if merged.Ok? {
      MergedOk(g, s, entries, first, lastEnd);
      var u := s.(pending := []);
      var kind := NodeKind.Mapping(merged.value);
      var (t, id) := AddNode(u, kind, span, s.pending);
      forall e | e in merged.value
        ensures ChildOk(g, t.document.nodes, id, e.0) && ChildOk(g, t.document.nodes, id, e.1)
        ensures g.cfg.options.mergeKeys ==> !MergeKeys.IsMergeKey(t.document.nodes, e.0)
      {
        if !g.cfg.options.mergeKeys {
          InsideFrame(g, s.document.nodes, t.document.nodes, e.0, first.start, lastEnd, span.end);
          InsideFrame(g, s.document.nodes, t.document.nodes, e.1, first.start, lastEnd, span.end);
        }
      }
      AddOk(g, u, kind, span, s.pending);
    }
  }

  lemma MergedOk(g: Grammar, s: PState, entries: seq<(NodeId, NodeId)>, first: Span, lastEnd: nat)
    requires StateOk(g, s) && EntriesOk(g, s.document.nodes, entries, first, lastEnd)
    ensures var merged := MergeKeys.ApplyMergeKeys(g.cfg.options.mergeKeys, s.document.nodes, entries);
      merged.Ok? ==>
        && MergeProperties.Within(merged.value, |s.document.nodes|)
        && (g.cfg.options.mergeKeys ==> forall e | e in merged.value :: !MergeKeys.IsMergeKey(s.document.nodes, e.0))
        && (!g.cfg.options.mergeKeys ==> merged.value == entries)
  {
    var nodes := s.document.nodes;
    forall e | e in entries ensures e.0 < |nodes| && e.1 < |nodes| {
      assert Inside(g, nodes, e.0, first.start, lastEnd);
    }
    if g.cfg.options.mergeKeys {
      forall i | 0 <= i < |nodes| && nodes[i].kind.Mapping?
        ensures MergeProperties.Within(nodes[i].kind.entries, |nodes|)
        ensures forall e | e in nodes[i].kind.entries :: !MergeKeys.IsMergeKey(nodes, e.0)
      {
        assert NodeOk(g, nodes, i);
        forall e | e in nodes[i].kind.entries ensures e.0 < |nodes| && e.1 < |nodes| {
          assert ChildOk(g, nodes, i, e.0);
        }
      }
      MergeProperties.ExpansionClean(nodes, entries, |nodes|);
    }
  }

  // ----- Every value and every collection

  lemma ParseLeafOk(g: Grammar, s: PState)
    requires StateOk(g, s) && s.pos < |g.tokens|
    ensures NodeParsed(g, s.pos, ParseLeaf(g, s))
  {
    hide StateOk;
    var r := ParseLeaf(g, s);
    if r.Ok? {
      LeafKind(g, s);
      LeafOk(g, s, Advance(s).(pending := []), r.value.0.document.nodes[r.value.1].kind, s.pos, s.pending);
    }
  }

  lemma LeafKind(g: Grammar, s: PState)
    requires StateOk(g, s) && s.pos < |g.tokens| && ParseLeaf(g, s).Ok?
    ensures var kind := ParseLeaf(g, s).value.0.document.nodes[ParseLeaf(g, s).value.1].kind;
      && ((kind.Scalar? && FromToken(g, g.tokens[s.pos], kind.scalar))
          || (kind.Alias? && g.tokens[s.pos].kind.Alias? && kind.target < |s.document.nodes|))
      && ParseLeaf(g, s).value == AddNode(Advance(s).(pending := []), kind, g.tokens[s.pos].span, s.pending)
  {
  }

  lemma {:induction false} ParseValueOk(g: Grammar, s: PState)
    requires StateOk(g, s) && s.pos <= |g.tokens|
    ensures NodeParsed(g, SkipPos(g.tokens, s.pos), ParseValue(g, s))
    decreases |g.tokens| - s.pos, 5
  {
    hide NodesOk, NodeParsed, ParseBlockSequence, ParseBlockMapping, ParseFlowMapping, ParseFlowSequence, ParseLeaf,
      Declare;
    var u := SkipTrivia(g, s);
    var r := ParseValue(g, s);
    if u.pos < |g.tokens| {
      var token := g.tokens[u.pos];
      var next := SkipTrivia(g, Advance(u));
      if token.kind.Anchor? || token.kind.Tag? {
        ParseValueOk(g, next);
        var inner := ParseValue(g, next);
        PlacedEarlier(g, inner, u.pos, SkipPos(g.tokens, next.pos));
        if inner.Ok? {
          DeclareOk(g, inner.value.0, inner.value.1, token.kind.name, u.pos);
        }
      } else if token.kind.LeftBrace? {
        OpenAt(g, u.pos, next.pos);
        NothingInside(g, next.document.nodes, token.span, token.span.end);
        FlowMappingOk(g, next, [], token.span, token.span.end, u.pos);
      } else if token.kind.LeftBracket? {
        OpenAt(g, u.pos, next.pos);
        NothingInside(g, next.document.nodes, token.span, token.span.end);
        FlowSequenceOk(g, next, [], token.span, token.span.end, u.pos);
      } else if token.kind.SequenceEntry? {
        BlockSequenceOk(g, u, [], None, 0, None, u.pos);
      } else if token.kind.MappingKey? || (token.kind.Scalar? && PeekIsColon(g.tokens, u.pos)) {
        BlockMappingOk(g, u, [], None, 0, None, u.pos);
      } else {
        ParseLeafOk(g, u);
      }
    } else {
      ErrorOk(g, u.pos, UnexpectedEof);
    }
  }

  lemma ErrorOk(g: Grammar, from: nat, e: ErrorKind)
    ensures NodeParsed(g, from, Err(e))
  {
  }

  lemma OpenAt(g: Grammar, at: nat, pos: nat)
    requires at < |g.tokens| && at < pos
    ensures Opened(g, g.tokens[at].span, g.tokens[at].span.end, at, pos)
  {
  }

  lemma ParseItemOk(g: Grammar, s: PState, at: nat)
    requires StateOk(g, s) && s.pos <= |g.tokens| && at < s.pos && at < |g.tokens|
    ensures NodeParsed(g, at, ParseItem(g, s, g.tokens[at].span))
    decreases |g.tokens| - s.pos, 6
  {
    hide StateOk, NodeParsed, ParseValue, AddNull;
    var dash := g.tokens[at].span;
    if ValueFollowsDash(g.tokens, s.pos, dash.column, dash.line) {
      ParseValueOk(g, s);
      PlacedEarlier(g, ParseValue(g, s), at, SkipPos(g.tokens, s.pos));
    } else {
      NullOk(g, s, at, at);
    }
  }

  /** The loop of a block collection: either at its first entry, or past it. */
  ghost predicate LoopOk(g: Grammar, first: Option<Span>, lastEnd: nat, from: nat, pos: nat) {
    && pos <= |g.tokens| && from <= pos
    && if first.Some? then Opened(g, first.value, lastEnd, from, pos) else lastEnd == 0 && from == pos < |g.tokens|
  }

  lemma SkipOk(g: Grammar, s: PState)
    requires StateOk(g, s) && s.pos <= |g.tokens|
    ensures StateOk(g, SkipTrivia(g, s)) && StateOk(g, Advance(s)) && StateOk(g, SkipTrivia(g, SkipTrivia(g, s)))
  {
  }

  lemma OpenedLater(g: Grammar, first: Span, lastEnd: nat, from: nat, pos: nat, later: nat)
    requires Opened(g, first, lastEnd, from, pos) && pos <= later
    ensures Opened(g, first, lastEnd, from, later)
  {
  }

  /** The token of the next entry joins an open collection, or opens it. */
  lemma EntryOpens(g: Grammar, first: Option<Span>, lastEnd: nat, from: nat, pos: nat)
    requires LoopOk(g, first, lastEnd, from, pos) && pos < |g.tokens|
    ensures var token := g.tokens[pos].span;
      var first' := if first.None? then token else first.value;
      && Opened(g, first', lastEnd, from, pos + 1) && Opened(g, first', Max(lastEnd, token.end), from, pos + 1)
      && (Nests(g) ==> first'.start <= token.start)
  {
  }

  /** One more item: `t` is the state after the one whose dash was at `s.pos`. */
  lemma BlockItemOk(g: Grammar, s: PState, t: PState, id: NodeId, items: seq<NodeId>, first: Option<Span>, lastEnd: nat,
                    from: nat)
    requires s.pos < |g.tokens| && LoopOk(g, first, lastEnd, from, s.pos)
    requires if first.None? then items == [] else ItemsOk(g, s.document.nodes, items, first.value, lastEnd)
    requires Grows(g, Advance(s), t) && id < |t.document.nodes| && NodeParsed(g, s.pos, Ok((t, id)))
    ensures var dash := g.tokens[s.pos].span;
      var first' := if first.None? then dash else first.value;
      var lastEnd' := SpanEnd(t.document.nodes, id, Max(lastEnd, dash.end));
      && ItemsOk(g, t.document.nodes, items + [id], first', lastEnd')
      && LoopOk(g, Some(first'), lastEnd', from, SkipPos(g.tokens, t.pos))
  {
    hide NodesOk, Opened, Inside, Placed, SpanEnd, SkipPos;
    var dash := g.tokens[s.pos].span;
    var first' := if first.None? then dash else first.value;
    var end := Max(lastEnd, dash.end);
    var lastEnd' := SpanEnd(t.document.nodes, id, end);
    EntryOpens(g, first, lastEnd, from, s.pos);
    InsideNew(g, t.document.nodes, id, first', end, from, s.pos, s.pos + 1, t.pos);
    ItemsGrow(g, s.document.nodes, t.document.nodes, items, id, first', lastEnd, lastEnd');
    OpenedLater(g, first', lastEnd', from, t.pos, SkipPos(g.tokens, t.pos));
  }

  lemma {:induction false} BlockSequenceOk(g: Grammar, s: PState, items: seq<NodeId>, first: Option<Span>, lastEnd: nat,
                                           itemCol: Option<nat>, from: nat)
    requires StateOk(g, s) && s.pos <= |g.tokens| && LoopOk(g, first, lastEnd, from, SkipPos(g.tokens, s.pos))
    requires if first.None? then items == [] && DashAt(g, SkipPos(g.tokens, s.pos), itemCol)
      else ItemsOk(g, s.document.nodes, items, first.value, lastEnd)
    ensures NodeParsed(g, from, ParseBlockSequence(g, s, items, first, lastEnd, itemCol))
    decreases |g.tokens| - s.pos, 4
  {
    hide StateOk, NodesOk, Placed, ParseItem, ItemsOk, Opened, SpanEnd;
    var u := SkipTrivia(g, s);
    SkipOk(g, s);
    if DashAt(g, u.pos, itemCol) {
      SkipOk(g, u);
      var dash := g.tokens[u.pos].span;
      ParseItemOk(g, Advance(u), u.pos);
      var item := ParseItem(g, Advance(u), dash);
      if item.Ok? {
        var (t, id) := item.value;
        var first' := if first.None? then dash else first.value;
        BlockItemOk(g, u, t, id, items, first, lastEnd, from);
        BlockSequenceOk(g, t, items + [id], Some(first'), SpanEnd(t.document.nodes, id, Max(lastEnd, dash.end)),
                        Some(dash.column), from);
      }
    } else {
      BlockEnd(g, first.value, lastEnd, from, u.pos);
      CloseItems(g, u, items, first.value, lastEnd, BlockSpan(first, lastEnd), from, u.pos);
    }
  }

  lemma BlockKeyOk(g: Grammar, s: PState)
    requires StateOk(g, s) && KeyAt(g, s.pos, None)
    ensures NodeParsed(g, s.pos, ParseBlockKey(g, s))
    decreases |g.tokens| - s.pos, 3
  {
    hide StateOk, NodesOk, ParseValue;
    SkipOk(g, s);
    SkipOk(g, Advance(s));
    var r := ParseBlockKey(g, s);
    if g.tokens[s.pos].kind.MappingKey? {
      var next := SkipTrivia(g, Advance(s));
      ParseValueOk(g, next);
      PlacedEarlier(g, r, s.pos, SkipPos(g.tokens, next.pos));
    } else if r.Ok? {
      LeafOk(g, s, Advance(s), r.value.0.document.nodes[r.value.1].kind, s.pos, []);
    }
  }

  /** The value of an entry, or its placeholder, stands behind the entry's first token. */
  lemma BlockEntryValueOk(g: Grammar, s: PState, key: Span, from: nat)
    requires StateOk(g, s) && from < s.pos <= |g.tokens|
    ensures NodeParsed(g, from, ParseBlockEntryValue(g, s, key))
    decreases |g.tokens| - s.pos, 3
  {
    hide StateOk, NodesOk, ParseValue, Placed, AddNull;
    SkipOk(g, s);
    var u := SkipTrivia(g, s);
    if u.pos < |g.tokens| && g.tokens[u.pos].kind.Colon? {
      SkipOk(g, u);
      SkipOk(g, Advance(u));
      var next := SkipTrivia(g, Advance(u));
      if ValueFollowsKey(g.tokens, next.pos, key.column, key.line) {
        ParseValueOk(g, next);
        PlacedEarlier(g, ParseValue(g, next), from, SkipPos(g.tokens, next.pos));
      } else {
        NullOk(g, next, u.pos, from);
      }
    }
  }

  lemma FlowEntryValueOk(g: Grammar, s: PState, from: nat)
    requires StateOk(g, s) && from < s.pos <= |g.tokens|
    ensures NodeParsed(g, from, ParseFlowEntryValue(g, s))
    decreases |g.tokens| - s.pos, 6
  {
    hide StateOk, NodesOk, ParseValue, Placed, AddNull;
    SkipOk(g, s);
    var u := SkipTrivia(g, s);
    if u.pos < |g.tokens| && g.tokens[u.pos].kind.Colon? {
      SkipOk(g, u);
      SkipOk(g, Advance(u));
      var next := SkipTrivia(g, Advance(u));
      if next.pos >= |g.tokens| || g.tokens[next.pos].kind.Comma? || g.tokens[next.pos].kind.RightBrace? {
        NullOk(g, next, u.pos, from);
      } else {
        ParseValueOk(g, next);
        PlacedEarlier(g, ParseValue(g, next), from, SkipPos(g.tokens, next.pos));
      }
    }
  }

  /** One more entry: its key was read from `s`, its value from `t`. */
  lemma EntryOk(g: Grammar, s: PState, t: PState, u: PState, key: NodeId, value: NodeId, entries: seq<(NodeId, NodeId)>,
                first: Span, lastEnd: nat, from: nat)
    requires s.pos < t.pos <= u.pos <= |g.tokens| && s.document.nodes <= t.document.nodes <= u.document.nodes
    requires Opened(g, first, lastEnd, from, s.pos + 1) && (Nests(g) ==> first.start <= g.tokens[s.pos].span.start)
    requires EntriesOk(g, s.document.nodes, entries, first, lastEnd)
    requires key < |t.document.nodes| && NodeParsed(g, s.pos, Ok((t, key)))
    requires value < |u.document.nodes| && NodeParsed(g, s.pos, Ok((u, value)))
    ensures var lastEnd' := SpanEnd(u.document.nodes, value, SpanEnd(u.document.nodes, key, lastEnd));
      && EntriesOk(g, u.document.nodes, entries + [(key, value)], first, lastEnd')
      && Opened(g, first, lastEnd', from, u.pos)
  {
    hide NodesOk, Opened, Inside, SpanEnd;
    var nodes := u.document.nodes;
    var keyEnd := SpanEnd(nodes, key, lastEnd);
    var lastEnd' := SpanEnd(nodes, value, keyEnd);
    assert Placed(g, nodes, key, s.pos, t.pos);
    InsideNew(g, nodes, key, first, lastEnd, from, s.pos, s.pos + 1, t.pos);
    InsideNew(g, nodes, value, first, keyEnd, from, s.pos, t.pos, u.pos);
    InsideFrame(g, nodes, nodes, key, first.start, keyEnd, lastEnd');
    EntriesGrow(g, s.document.nodes, nodes, entries, (key, value), first, lastEnd, lastEnd');
  }

  lemma {:induction false} BlockMappingOk(g: Grammar, s: PState, entries: seq<(NodeId, NodeId)>, first: Option<Span>,
                                          lastEnd: nat, entryCol: Option<nat>, from: nat)
    requires StateOk(g, s) && s.pos <= |g.tokens| && LoopOk(g, first, lastEnd, from, SkipPos(g.tokens, s.pos))
    requires if first.None? then entries == [] && KeyAt(g, SkipPos(g.tokens, s.pos), entryCol)
      else EntriesOk(g, s.document.nodes, entries, first.value, lastEnd)
    ensures NodeParsed(g, from, ParseBlockMapping(g, s, entries, first, lastEnd, entryCol))
    decreases |g.tokens| - s.pos, 4
  {
    hide StateOk, NodesOk, Placed, ParseBlockKey, ParseBlockEntryValue, FinishMapping, EntriesOk, Opened, SpanEnd;
    var u := SkipTrivia(g, s);
    SkipOk(g, s);
    if KeyAt(g, u.pos, entryCol) {
      var token := g.tokens[u.pos].span;
      BlockKeyOk(g, u);
      var key := ParseBlockKey(g, u);
      if key.Ok? {
        var (t, keyId) := key.value;
        BlockEntryValueOk(g, t, token, u.pos);
        var value := ParseBlockEntryValue(g, t, token);
        if value.Ok? {
          var (v, valueId) := value.value;
          var first' := if first.None? then token else first.value;
          var lastEnd' := SpanEnd(v.document.nodes, valueId, SpanEnd(v.document.nodes, keyId, lastEnd));
          EntryOpens(g, first, lastEnd, from, u.pos);
          NothingInside(g, u.document.nodes, first', lastEnd);
          EntryOk(g, u, t, v, keyId, valueId, entries, first', lastEnd, from);
          OpenedLater(g, first', lastEnd', from, v.pos, SkipPos(g.tokens, v.pos));
          BlockMappingOk(g, v, entries + [(keyId, valueId)], Some(first'), lastEnd', Some(token.column), from);
        }
      }
    } else {
      BlockEnd(g, first.value, lastEnd, from, u.pos);
      CloseEntries(g, u, entries, first.value, lastEnd, BlockSpan(first, lastEnd), from, u.pos);
    }
  }

  lemma NothingInside(g: Grammar, nodes: seq<NodeData>, first: Span, lastEnd: nat)
    ensures EntriesOk(g, nodes, [], first, lastEnd) && ItemsOk(g, nodes, [], first, lastEnd)
  {
  }

  lemma BlockEnd(g: Grammar, first: Span, lastEnd: nat, from: nat, pos: nat)
    requires Opened(g, first, lastEnd, from, pos)
    ensures Nests(g) ==> Before(g.tokens, Max(lastEnd, first.end), pos)
  {
  }

  // ----- Flow collections

  lemma {:induction false} FlowSequenceOk(g: Grammar, s: PState, items: seq<NodeId>, open: Span, end: nat, from: nat)
    requires StateOk(g, s) && from < s.pos <= |g.tokens| && Opened(g, open, end, from, s.pos)
    requires ItemsOk(g, s.document.nodes, items, open, end)
    ensures NodeParsed(g, from, ParseFlowSequence(g, s, items, open, end))
    decreases |g.tokens| - s.pos, 6
  {
    hide StateOk, NodesOk, Placed, ParseValue, ItemsOk, Opened, SpanEnd;
    FlowEnd(g, open, end, from, s.pos);
    if s.pos >= |g.tokens| {
      CloseItems(g, s, items, open, end, FlowSpan(open, end), from, s.pos);
    } else {
      var token := g.tokens[s.pos];
      SkipOk(g, s);
      SkipOk(g, Advance(s));
      if token.kind.RightBracket? {
        CloseItems(g, Advance(s), items, open, end, FlowSpan(open, token.span.end), from, s.pos);
      } else if token.kind.Comma? {
        var next := SkipTrivia(g, Advance(s));
        OpenedLater(g, open, end, from, s.pos, next.pos);
        FlowSequenceOk(g, next, items, open, end, from);
      } else {
        var item := ParseValue(g, s);
        ParseValueOk(g, s);
        if item.Ok? {
          var (t, id) := item.value;
          PlacedEarlier(g, item, s.pos, SkipPos(g.tokens, s.pos));
          FlowItemOk(g, s, t, id, items, open, end, from);
          SkipOk(g, t);
          FlowSequenceOk(g, SkipTrivia(g, t), items + [id], open, SpanEnd(t.document.nodes, id, end), from);
        }
      }
    }
  }

  lemma FlowItemOk(g: Grammar, s: PState, t: PState, id: NodeId, items: seq<NodeId>, open: Span, end: nat, from: nat)
    requires from < s.pos < |g.tokens| && Opened(g, open, end, from, s.pos)
      && ItemsOk(g, s.document.nodes, items, open, end)
    requires Grows(g, s, t) && id < |t.document.nodes| && NodeParsed(g, s.pos, Ok((t, id)))
    ensures var end' := SpanEnd(t.document.nodes, id, end);
      ItemsOk(g, t.document.nodes, items + [id], open, end') && Opened(g, open, end', from, SkipPos(g.tokens, t.pos))
  {
    hide NodesOk, Inside, Placed, SpanEnd, SkipPos;
    var end' := SpanEnd(t.document.nodes, id, end);
    FlowEnd(g, open, end, from, s.pos);
    hide Opened;
    InsideNew(g, t.document.nodes, id, open, end, from, s.pos, s.pos, t.pos);
    ItemsGrow(g, s.document.nodes, t.document.nodes, items, id, open, end, end');
    OpenedLater(g, open, end', from, t.pos, SkipPos(g.tokens, t.pos));
  }

  /** Where an open flow collection may end: here, or with the token in front. */
  lemma FlowEnd(g: Grammar, open: Span, end: nat, from: nat, pos: nat)
    requires Opened(g, open, end, from, pos)
    ensures Nests(g) ==> Before(g.tokens, end, pos)
    ensures Nests(g) && pos < |g.tokens| ==>
      open.start <= g.tokens[pos].span.start && end <= g.tokens[pos].span.end
        && Before(g.tokens, g.tokens[pos].span.end, pos + 1)
  {
  }

  lemma {:induction false} FlowKeyOk(g: Grammar, s: PState, seen: bool)
    requires StateOk(g, s) && s.pos <= |g.tokens|
    ensures NodeParsed(g, SkipPos(g.tokens, s.pos), ParseFlowKey(g, s, seen))
    decreases |g.tokens| - s.pos, 5
  {
    hide StateOk, NodesOk, Placed, Declare;
    var u := SkipTrivia(g, s);
    SkipOk(g, s);
    var r := ParseFlowKey(g, s, seen);
    if u.pos < |g.tokens| {
      var token := g.tokens[u.pos];
      var next := SkipTrivia(g, Advance(u));
      SkipOk(g, u);
      SkipOk(g, Advance(u));
      if token.kind.Anchor? || token.kind.Tag? {
        var deeper := seen || token.kind.Anchor?;
        FlowKeyOk(g, next, deeper);
        var inner := ParseFlowKey(g, next, deeper);
        PlacedEarlier(g, inner, u.pos, SkipPos(g.tokens, next.pos));
        if inner.Ok? {
          DeclareOk(g, inner.value.0, inner.value.1, token.kind.name, u.pos);
        }
      } else if r.Ok? {
        LeafOk(g, u, Advance(u), r.value.0.document.nodes[r.value.1].kind, u.pos, []);
      }
    }
  }

  lemma {:induction false} FlowMappingOk(g: Grammar, s: PState, entries: seq<(NodeId, NodeId)>, open: Span, end: nat,
                                         from: nat)
    requires StateOk(g, s) && from < s.pos <= |g.tokens| && Opened(g, open, end, from, s.pos)
    requires EntriesOk(g, s.document.nodes, entries, open, end)
    ensures NodeParsed(g, from, ParseFlowMapping(g, s, entries, open, end))
    decreases |g.tokens| - s.pos, 6
  {
    hide StateOk, NodesOk, Placed, ParseFlowKey, ParseFlowEntryValue, FinishMapping, EntriesOk, Opened, SpanEnd;
    FlowEnd(g, open, end, from, s.pos);
    if s.pos >= |g.tokens| {
      CloseEntries(g, s, entries, open, end, FlowSpan(open, end), from, s.pos);
    } else {
      var token := g.tokens[s.pos];
      SkipOk(g, s);
      SkipOk(g, Advance(s));
      if token.kind.RightBrace? {
        CloseEntries(g, Advance(s), entries, open, end, FlowSpan(open, token.span.end), from, s.pos);
      } else if token.kind.Comma? {
        var next := SkipTrivia(g, Advance(s));
        OpenedLater(g, open, end, from, s.pos, next.pos);
        FlowMappingOk(g, next, entries, open, end, from);
      } else {
        FlowKeyOk(g, s, false);
        var key := ParseFlowKey(g, s, false);
        if key.Ok? {
          var (t, keyId) := key.value;
          PlacedEarlier(g, key, s.pos, SkipPos(g.tokens, s.pos));
          FlowEntryValueOk(g, t, s.pos);
          var value := ParseFlowEntryValue(g, t);
          if value.Ok? {
            var (u, valueId) := value.value;
            OpenedLater(g, open, end, from, s.pos, s.pos + 1);
            EntryOk(g, s, t, u, keyId, valueId, entries, open, end, from);
            var end' := SpanEnd(u.document.nodes, valueId, SpanEnd(u.document.nodes, keyId, end));
            OpenedLater(g, open, end', from, u.pos, SkipPos(g.tokens, u.pos));
            SkipOk(g, u);
            FlowMappingOk(g, SkipTrivia(g, u), entries + [(keyId, valueId)], open, end', from);
          }
        }
      }
    }
  }

  // ----- Documents and the whole stream

  /** Sound nodes, and document roots among them. */
  ghost predicate StreamOk(g: Grammar, s: PState) {
    StateOk(g, s) && forall root | root in s.document.documents :: root < |s.document.nodes|
  }

  lemma ParseDocumentOk(g: Grammar, s: PState, start: Option<Span>)
    requires StateOk(g, s) && s.pos <= |g.tokens|
    ensures var r := ParseDocument(g, s, start); r.Ok? ==> StateOk(g, r.value.0)
  {
    hide StateOk, NodesOk, ParseValue;
    SkipOk(g, s);
    var u := SkipTrivia(g, s);
    var span := if start.Some? then start.value else if u.pos < |g.tokens| then g.tokens[u.pos].span else ORIGIN;
    AddOk(g, u, NodeKind.Scalar(NullScalar()), span, []);
    ParseValueOk(g, u);
  }

  lemma {:induction false} ParseDocumentsOk(g: Grammar, s: PState)
    requires StreamOk(g, s) && s.pos <= |g.tokens|
    ensures var r := ParseDocuments(g, s); r.Ok? ==> StreamOk(g, r.value)
    decreases |g.tokens| - s.pos
  {
    if !AtEof(g.tokens, s.pos) {
      hide NodesOk, ParseDocument, EndDocument;
      var content := DocumentContent(g, s);
      assert StateOk(g, content);
      ParseDocumentOk(g, content, DocumentStartSpan(g, s));
      var one := ParseOneDocument(g, s);
      if one.Ok? {
        assert StreamOk(g, one.value);
        ParseDocumentsOk(g, one.value);
      }
    }
  }

  /**
   Every arena the grammar builds is sound: scalars and aliases stand for tokens, each entry, item and
   alias target is older than the node that holds it, no merge key is left where merging is on, and
   spans nest where it is off.
   */
  lemma ParsedArenaOk(g: Grammar)
    requires Parse(g).Ok?
    ensures StreamOk(g, Parse(g).value)
  {
    hide ConsumeDirectives, ParseDocuments;
    var s := InitialState(g);
    var read := ConsumeDirectives(g, SkipTrivia(g, s)).value;
    assert StreamOk(g, read);
    ParseDocumentsOk(g, read);
    var t := ParseDocuments(g, read).value;
    if t.document.documents == [] {
      AddOk(g, t, NodeKind.Scalar(NullScalar()), ORIGIN, []);
    }
  }

  // ----- What the invariant gives a reader of the arena

  ghost predicate Contains(nodes: seq<NodeData>, parent: NodeId, child: NodeId) {
    parent < |nodes| &&
    match nodes[parent].kind
    case Sequence(items) => child in items
    case Mapping(entries) => exists e | e in entries :: child == e.0 || child == e.1
    case _ => false
  }

  /** A chain of nodes, each containing the next. */
  ghost predicate Descends(nodes: seq<NodeData>, chain: seq<NodeId>) {
    forall i | 0 <= i < |chain| - 1 :: Contains(nodes, chain[i], chain[i + 1])
  }

  /** However deep, a descendant is older than its ancestor, and its span lies inside the ancestor's. */
  lemma {:induction false} SpansNest(g: Grammar, nodes: seq<NodeData>, chain: seq<NodeId>)
    requires NodesOk(g, nodes) && Descends(nodes, chain) && |chain| > 1 && chain[0] < |nodes|
    ensures chain[|chain| - 1] < chain[0]
    ensures Nests(g) ==> Encloses(nodes[chain[0]].span, nodes[chain[|chain| - 1]].span)
    decreases |chain|
  {
    hide Nests;
    assert Contains(nodes, chain[0], chain[1]) && NodeOk(g, nodes, chain[0]);
    assert ChildOk(g, nodes, chain[0], chain[1]);
    if |chain| > 2 {
      forall i | 0 <= i < |chain| - 2 ensures Contains(nodes, chain[1..][i], chain[1..][i + 1]) {
        assert Contains(nodes, chain[i + 1], chain[i + 2]);
      }
      SpansNest(g, nodes, chain[1..]);
    }
  }

  /** Following aliases always ends, at a node that is not an alias. */
  function Resolved(g: Grammar, nodes: seq<NodeData>, id: NodeId): (target: NodeId)
    requires NodesOk(g, nodes) && id < |nodes|
    ensures target <= id && !nodes[target].kind.Alias?
  {
    if nodes[id].kind.Alias? then
      assert NodeOk(g, nodes, id);
      Resolved(g, nodes, nodes[id].kind.target)
    else id
  }

  /** Dereferencing with its loop guard is the same walk: the guard never fires on a parsed arena. */
  lemma {:induction false} DerefResolves(g: Grammar, nodes: seq<NodeData>, id: NodeId, seen: set<NodeId>)
    requires NodesOk(g, nodes) && id < |nodes| && forall i | i in seen :: i > id
    ensures MergeKeys.DerefFrom(nodes, id, seen) == Resolved(g, nodes, id)
  {
    if nodes[id].kind.Alias? {
      assert NodeOk(g, nodes, id);
      DerefResolves(g, nodes, nodes[id].kind.target, seen + {id});
    }
  }

  /** Parsed arenas point backwards, whatever the options. */
  lemma ParsedBackward(g: Grammar)
    requires Parse(g).Ok?
    ensures var document := Parse(g).value.document;
      Backward(document.nodes) && forall root | root in document.documents :: root < |document.nodes|
  {
    ParsedArenaOk(g);
    hide Parse;
    var nodes := Parse(g).value.document.nodes;
    forall i | 0 <= i < |nodes|
      ensures nodes[i].kind.Sequence? ==> forall c | c in nodes[i].kind.items :: c < i
      ensures nodes[i].kind.Mapping? ==> forall e | e in nodes[i].kind.entries :: e.0 < i && e.1 < i
    {
      assert NodeOk(g, nodes, i);
      if nodes[i].kind.Sequence? {
        forall c | c in nodes[i].kind.items ensures c < i {
          assert ChildOk(g, nodes, i, c);
        }
      } else if nodes[i].kind.Mapping? {
        forall e | e in nodes[i].kind.entries ensures e.0 < i && e.1 < i {
          assert ChildOk(g, nodes, i, e.0);
        }
      }
    }
  }
}
