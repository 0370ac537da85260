/**
 Strict-version parsing. A universal run of the grammar leaves every plain scalar unresolved; the
 runs under either version, and the strict one, are all read off from it.
 */
module StrictVersion {
  import opened Prelude
  import opened Syntax
  import opened Arena
  import opened Grammar
  import opened GrammarParts
  import MK = MergeKeys

  /** The same grammar with plain scalars left unresolved, as timestamps of their own spelling. */
  function Universal(g: Grammar): Grammar {
    g.(cfg := g.cfg.(options := g.cfg.options.(yamlVersion := Some(Version12), strictVersion := false),
                     resolve := (raw, version) => Timestamp(raw)))
  }

  function ImageValue(cfg: Config, version: YamlVersion, value: ScalarValue): ScalarValue {
    if value.Timestamp? then cfg.resolve(value.s, version) else value
  }

  function ImageNode(cfg: Config, version: YamlVersion, node: NodeData): NodeData {
    if node.kind.Scalar?
    then node.(kind := NodeKind.Scalar(node.kind.scalar.(value := ImageValue(cfg, version, node.kind.scalar.value))))
    else node
  }

  /** An unresolved arena, resolved under `version`. */
  function ImageNodes(cfg: Config, version: YamlVersion, nodes: seq<NodeData>): (image: seq<NodeData>)
    ensures |image| == |nodes|
  {
    seq(|nodes|, i requires 0 <= i < |nodes| => ImageNode(cfg, version, nodes[i]))
  }

  function Image(cfg: Config, version: YamlVersion, pinned: bool, u: PState): PState {
    u.(version := version, pinned := pinned,
       document := u.document.(version := version, nodes := ImageNodes(cfg, version, u.document.nodes)))
  }

  predicate Strict(g: Grammar, s: PState) {
    g.cfg.options.strictVersion && !s.pinned
  }

  /** Every unresolved scalar means the same under both versions. */
  ghost predicate Clear(cfg: Config, nodes: seq<NodeData>) {
    forall i | 0 <= i < |nodes| ::
      nodes[i].kind.Scalar? && nodes[i].kind.scalar.value.Timestamp? ==> !Ambiguous(cfg, nodes[i].kind.scalar.value.s)
  }

  ghost predicate NoFloats(nodes: seq<NodeData>) {
    forall i | 0 <= i < |nodes| :: nodes[i].kind.Scalar? ==> !nodes[i].kind.scalar.value.Float?
  }

  /** `s` is what a run that resolves has where the universal run has `u`. */
  ghost predicate Reads(g: Grammar, s: PState, u: PState) {
    s == Image(g.cfg, s.version, s.pinned, u) && NoFloats(u.document.nodes)
  }

  /** A strict run gets as far as `u` only if nothing ambiguous came before. */
  ghost predicate Reached(g: Grammar, s: PState, u: PState) {
    Strict(g, s) ==> Clear(g.cfg, u.document.nodes)
  }

  /** What a resolving run does where the universal one does `ru`: the same, unless strict and faced with ambiguity. */
  ghost predicate Follows(g: Grammar, s: PState, r: Parsed, ru: Parsed) {
    match ru
    case Err(e) => r == Err(e) || (Strict(g, s) && r == Err(AmbiguousVersion))
    case Ok((t, id)) =>
      r == if Strict(g, s) && !Clear(g.cfg, t.document.nodes) then Err(AmbiguousVersion)
           else Ok((Image(g.cfg, s.version, s.pinned, t), id))
  }

  ghost predicate Outcome(g: Grammar, s: PState, u: PState, r: Parsed, ru: Parsed) {
    && (ru.Ok? ==> NoFloats(ru.value.0.document.nodes) && u.document.nodes <= ru.value.0.document.nodes)
    && (Reached(g, s, u) ==> Follows(g, s, r, ru))
  }

  // ----- The image of each state update

  lemma ReadsMoves(g: Grammar, s: PState, u: PState)
    requires Reads(g, s, u) && s.pos <= |g.tokens|
    ensures Reads(g, SkipTrivia(g, s), SkipTrivia(Universal(g), u)) && Reads(g, Advance(s), Advance(u))
    ensures s.pos == u.pos && s.anchors == u.anchors
  {
  }

  lemma ImageEnds(g: Grammar, s: PState, u: PState, id: NodeId, end: nat)
    requires Reads(g, s, u)
    ensures SpanEnd(s.document.nodes, id, end) == SpanEnd(u.document.nodes, id, end)
  {
  }

  lemma OutcomeAdd(g: Grammar, s: PState, u: PState, kind: NodeKind, span: Span, trivia: seq<Trivia>)
    requires Reads(g, s, u) && (kind.Scalar? ==> !kind.scalar.value.Float? && !kind.scalar.value.Timestamp?)
    ensures Outcome(g, s, u, Ok(AddNode(s, kind, span, trivia)), Ok(AddNode(u, kind, span, trivia)))
  {
    var t, tu := AddNode(s, kind, span, trivia).0, AddNode(u, kind, span, trivia).0;
    assert t.document.nodes == ImageNodes(g.cfg, s.version, tu.document.nodes);
  }

  /** A scalar at `s`, added to the state `at` reached past it. */
  lemma OutcomeScalar(g: Grammar, s: PState, u: PState, at: PState, atu: PState, raw: string, style: ScalarStyle,
                      tag: Option<string>, span: Span, trivia: seq<Trivia>)
    requires Reads(g, s, u) && Reads(g, at, atu) && at.version == s.version && at.pinned == s.pinned
      && atu.document == u.document
    ensures ResolveScalarValue(Universal(g), u, raw, style, tag).Ok?
    ensures var value, valueU :=
      ResolveScalarValue(g, s, raw, style, tag), ResolveScalarValue(Universal(g), u, raw, style, tag);
      Outcome(g, s, u,
        if value.Ok? then Ok(AddNode(at, NodeKind.Scalar(ScalarData(value.value, style, raw, tag)), span, trivia))
          else Err(value.error),
        Ok(AddNode(atu, NodeKind.Scalar(ScalarData(valueU.value, style, raw, tag)), span, trivia)))
  {
    var value, valueU :=
      ResolveScalarValue(g, s, raw, style, tag), ResolveScalarValue(Universal(g), u, raw, style, tag);
    var tu := AddNode(atu, NodeKind.Scalar(ScalarData(valueU.value, style, raw, tag)), span, trivia).0;
    assert tu.document.nodes[|atu.document.nodes|].kind.scalar.value == valueU.value;
    if value.Ok? {
      var t := AddNode(at, NodeKind.Scalar(ScalarData(value.value, style, raw, tag)), span, trivia).0;
      assert t.document.nodes == ImageNodes(g.cfg, s.version, tu.document.nodes);
    }
  }

  lemma OutcomeMark(g: Grammar, s: PState, u: PState, r: Parsed, ru: Parsed, name: string)
    requires Outcome(g, s, u, r, ru)
    requires ru.Ok? ==> |u.document.nodes| <= ru.value.1 < |ru.value.0.document.nodes|
    requires r.Ok? ==> r.value.1 < |r.value.0.document.nodes|
    ensures Outcome(g, s, u, if r.Ok? then Declare(r.value.0, r.value.1, name)
                    else r, if ru.Ok? then Declare(ru.value.0, ru.value.1, name) else ru)
    ensures Outcome(g, s, u, if r.Ok? then Ok(Retag(r.value.0, r.value.1, name))
                    else r, if ru.Ok? then Ok(Retag(ru.value.0, ru.value.1, name)) else ru)
  {
    if ru.Ok? {
      var (t, id) := ru.value;
      var nodes := t.document.nodes;
      var anchored, tagged := SetAnchor(nodes, id, name), SetTag(nodes, id, name);
      assert forall i | 0 <= i < |nodes| :: anchored[i].kind == nodes[i].kind && tagged[i].kind == nodes[i].kind;
      assert Clear(g.cfg, anchored) == Clear(g.cfg, nodes) == Clear(g.cfg, tagged);
      if r == Ok((Image(g.cfg, s.version, s.pinned, t), id)) {
        assert SetAnchor(r.value.0.document.nodes, id, name) == ImageNodes(g.cfg, s.version, anchored);
        assert SetTag(r.value.0.document.nodes, id, name) == ImageNodes(g.cfg, s.version, tagged);
      }
    }
  }

  /** A first part, and `r'` and `ru` what its image and the universal run make of the rest. */
  lemma OutcomeThen(g: Grammar, s: PState, u: PState, first: Parsed, firstU: Parsed, r: Parsed, r': Parsed, ru: Parsed)
    requires Outcome(g, s, u, first, firstU)
    requires firstU.Err? ==> ru == firstU
    requires first.Err? ==> r == first
    requires firstU.Ok? ==> Outcome(g, Image(g.cfg, s.version, s.pinned, firstU.value.0), firstU.value.0, r', ru)
    requires firstU.Ok? && first == Ok((Image(g.cfg, s.version, s.pinned, firstU.value.0), firstU.value.1)) ==> r == r'
    ensures Outcome(g, s, u, r, ru)
  {
    if first.Err? && firstU.Ok? && ru.Ok? && Reached(g, s, u) {
      var before, after := firstU.value.0.document.nodes, ru.value.0.document.nodes;
      var i :| 0 <= i < |before| && before[i].kind.Scalar? && before[i].kind.scalar.value.Timestamp?
        && Ambiguous(g.cfg, before[i].kind.scalar.value.s);
      assert after[i] == before[i];
    }
  }

  lemma OutcomeError(g: Grammar, s: PState, u: PState, e: ErrorKind)
    ensures Outcome(g, s, u, Err(e), Err(e))
  {
  }

  // ----- Merging looks at spellings only

  /** Two arenas that differ in scalar values at most. */
  ghost predicate Alike(a: seq<NodeData>, b: seq<NodeData>) {
    |a| == |b| && forall i | 0 <= i < |a| ::
      if a[i].kind.Scalar? then b[i].kind.Scalar? && a[i].kind.scalar.raw == b[i].kind.scalar.raw
        else a[i].kind == b[i].kind
  }

  lemma {:induction false} AlikeDeref(a: seq<NodeData>, b: seq<NodeData>, id: NodeId, seen: set<NodeId>)
    requires Alike(a, b)
    ensures MK.DerefFrom(a, id, seen) == MK.DerefFrom(b, id, seen)
    decreases MK.Indices(|a|) - seen
  {
    if id < |a| && a[id].kind.Alias? && id !in seen {
      assert id in MK.Indices(|a|);
      AlikeDeref(a, b, a[id].kind.target, seen + {id});
    }
  }

  lemma {:induction false} AlikeItems(a: seq<NodeData>, b: seq<NodeData>, items: seq<NodeId>)
    requires Alike(a, b)
    ensures MK.ItemSources(a, items) == MK.ItemSources(b, items)
  {
    if items != [] {
      AlikeDeref(a, b, items[0], {});
      AlikeItems(a, b, items[1..]);
    }
  }

  lemma {:induction false} AlikeEntries(a: seq<NodeData>, b: seq<NodeData>, entries: seq<MK.Entry>)
    requires Alike(a, b)
    ensures MK.ExplicitEntries(a, entries) == MK.ExplicitEntries(b, entries)
    ensures MK.MergeValues(a, entries) == MK.MergeValues(b, entries)
    ensures MK.KeyReprs(a, entries) == MK.KeyReprs(b, entries)
  {
    if entries != [] {
      AlikeEntries(a, b, entries[1..]);
    }
  }

  lemma {:induction false} AlikeUnseen(a: seq<NodeData>, b: seq<NodeData>, sources: seq<MK.Entry>, seen: set<string>)
    requires Alike(a, b)
    ensures MK.Unseen(a, sources, seen) == MK.Unseen(b, sources, seen)
  {
    if sources != [] {
      var repr := MK.KeyRepr(a, sources[0].0);
      AlikeUnseen(a, b, sources[1..], seen);
      AlikeUnseen(a, b, sources[1..], if repr.Some? then seen + {repr.value} else seen);
    }
  }

  lemma {:induction false} AlikeMerged(a: seq<NodeData>, b: seq<NodeData>, values: seq<NodeId>, seen: set<string>)
    requires Alike(a, b)
    ensures MK.MergedEntries(a, values, seen) == MK.MergedEntries(b, values, seen)
  {
    if values != [] {
      AlikeDeref(a, b, values[0], {});
      var id := MK.Deref(a, values[0]);
      if id < |a| && a[id].kind.Sequence? {
        AlikeItems(a, b, a[id].kind.items);
      }
      var sources := MK.MergeSources(a, values[0]);
      if sources.Ok? {
        AlikeUnseen(a, b, sources.value, seen);
        AlikeMerged(a, b, values[1..], MK.Unseen(a, sources.value, seen).1);
      }
    }
  }

  lemma OutcomeFinish(g: Grammar, s: PState, u: PState, entries: seq<(NodeId, NodeId)>, span: Span)
    requires Reads(g, s, u) && s.pos <= |g.tokens|
    ensures Outcome(g, s, u, FinishMapping(g, s, entries, span), FinishMapping(Universal(g), u, entries, span))
  {
    hide Reached, Follows, NoFloats;
    var a, b := s.document.nodes, u.document.nodes;
    AlikeEntries(a, b, entries);
    AlikeEntries(a, b, MK.ExplicitEntries(a, entries));
    AlikeMerged(a, b, MK.MergeValues(a, entries), MK.KeyReprs(a, MK.ExplicitEntries(a, entries)));
    var merged := MK.ApplyMergeKeys(g.cfg.options.mergeKeys, a, entries);
    if merged.Ok? {
      OutcomePending(g, s, u, NodeKind.Mapping(merged.value), span);
    } else {
      OutcomeError(g, s, u, merged.error);
    }
  }

  lemma OutcomePending(g: Grammar, s: PState, u: PState, kind: NodeKind, span: Span)
    requires Reads(g, s, u) && (kind.Scalar? ==> !kind.scalar.value.Float? && !kind.scalar.value.Timestamp?)
    ensures Outcome(g, s, u, Ok(AddWithTrivia(s, kind, span)), Ok(AddWithTrivia(u, kind, span)))
  {
    OutcomeAdd(g, s.(pending := []), u.(pending := []), kind, span, s.pending);
  }

  // ----- Every value and every collection

  lemma LeafFollows(g: Grammar, s: PState, u: PState)
    requires Reads(g, s, u) && s.pos < |g.tokens|
    ensures Outcome(g, s, u, ParseLeaf(g, s), ParseLeaf(Universal(g), u))
  {
    hide Outcome, Reads;
    ReadsMoves(g, s, u);
    var at, atu := Advance(s).(pending := []), Advance(u).(pending := []);
    assert Reads(g, at, atu) && s.pending == u.pending by { LeafReads(g, s, u); }
    match g.tokens[s.pos].kind
    case Scalar(raw, style, tag) => OutcomeScalar(g, s, u, at, atu, raw, style, tag, g.tokens[s.pos].span, s.pending);
    case BlockScalar(indicator, text) =>
      var style := if indicator.Literal? then BlockLiteral else BlockChomped;
      OutcomePending(g, Advance(s), Advance(u), NodeKind.Scalar(ScalarData(String(text), style, text, None)),
                     g.tokens[s.pos].span);
      OutcomeShift(g, s, u, Advance(s), Advance(u), ParseLeaf(g, s), ParseLeaf(Universal(g), u));
    case Alias(name) =>
      if name in s.anchors {
        OutcomePending(g, Advance(s), Advance(u), NodeKind.Alias(s.anchors[name]), g.tokens[s.pos].span);
        OutcomeShift(g, s, u, Advance(s), Advance(u), ParseLeaf(g, s), ParseLeaf(Universal(g), u));
      } else {
        OutcomeError(g, s, u, UnknownAnchor);
      }
    case _ => OutcomeError(g, s, u, UnexpectedCharacter);
  }

  lemma LeafReads(g: Grammar, s: PState, u: PState)
    requires Reads(g, s, u)
    ensures Reads(g, Advance(s).(pending := []), Advance(u).(pending := [])) && s.pending == u.pending
  {
  }

  /** Moving on without adding nodes starts from the same place. */
  lemma OutcomeShift(g: Grammar, s: PState, u: PState, at: PState, atu: PState, r: Parsed, ru: Parsed)
    requires Outcome(g, at, atu, r, ru) && at.version == s.version && at.pinned == s.pinned
      && atu.document.nodes == u.document.nodes
    ensures Outcome(g, s, u, r, ru)
  {
  }

  lemma {:induction false} ValueFollows(g: Grammar, s: PState, u: PState)
    requires Reads(g, s, u) && s.pos <= |g.tokens|
    ensures Outcome(g, s, u, ParseValue(g, s), ParseValue(Universal(g), u))
    decreases |g.tokens| - s.pos, 5
  {
    hide Outcome, Reads, ParseBlockSequence, ParseBlockMapping, ParseFlowMapping, ParseFlowSequence, ParseLeaf;
    var h := Universal(g);
    ReadsMoves(g, s, u);
    var v, vu := SkipTrivia(g, s), SkipTrivia(h, u);
    ReadsMoves(g, v, vu);
    var r, ru := ParseValue(g, s), ParseValue(h, u);
    if v.pos < |g.tokens| {
      var token := g.tokens[v.pos];
      ReadsMoves(g, Advance(v), Advance(vu));
      var next, nextU := SkipTrivia(g, Advance(v)), SkipTrivia(h, Advance(vu));
      if token.kind.Anchor? || token.kind.Tag? {
        ValueFollows(g, next, nextU);
        OutcomeMark(g, next, nextU, ParseValue(g, next), ParseValue(h, nextU), token.kind.name);
        OutcomeShift(g, s, u, next, nextU, r, ru);
      } else if token.kind.LeftBrace? {
        FlowMappingFollows(g, next, nextU, [], token.span, token.span.end);
        OutcomeShift(g, s, u, next, nextU, r, ru);
      } else if token.kind.LeftBracket? {
        FlowSequenceFollows(g, next, nextU, [], token.span, token.span.end);
        OutcomeShift(g, s, u, next, nextU, r, ru);
      } else {
        if token.kind.SequenceEntry? {
          BlockSequenceFollows(g, v, vu, [], None, 0, None);
        } else if token.kind.MappingKey? || (token.kind.Scalar? && PeekIsColon(g.tokens, v.pos)) {
          BlockMappingFollows(g, v, vu, [], None, 0, None);
        } else {
          LeafFollows(g, v, vu);
        }
        OutcomeShift(g, s, u, v, vu, r, ru);
      }
    } else {
      OutcomeError(g, s, u, UnexpectedEof);
    }
  }

  lemma {:induction false} ItemFollows(g: Grammar, s: PState, u: PState, dash: Span)
    requires Reads(g, s, u) && s.pos <= |g.tokens|
    ensures Outcome(g, s, u, ParseItem(g, s, dash), ParseItem(Universal(g), u, dash))
    decreases |g.tokens| - s.pos, 6
  {
    hide Outcome, Reads, ParseValue;
    ReadsMoves(g, s, u);
    if ValueFollowsDash(g.tokens, s.pos, dash.column, dash.line) {
      ValueFollows(g, s, u);
    } else {
      OutcomeAdd(g, s, u, NodeKind.Scalar(NullScalar()), dash, []);
    }
  }

  lemma {:induction false} BlockSequenceFollows(g: Grammar, s: PState, u: PState, items: seq<NodeId>,
                                                first: Option<Span>, lastEnd: nat, itemCol: Option<nat>)
    requires Reads(g, s, u) && s.pos <= |g.tokens|
    ensures Outcome(g, s, u, ParseBlockSequence(g, s, items, first, lastEnd, itemCol),
                    ParseBlockSequence(Universal(g), u, items, first, lastEnd, itemCol))
    decreases |g.tokens| - s.pos, 4
  {
    hide Outcome, Reads, ParseItem, SpanEnd;
    var h := Universal(g);
    ReadsMoves(g, s, u);
    var v, vu := SkipTrivia(g, s), SkipTrivia(h, u);
    var r, ru := ParseBlockSequence(g, s, items, first, lastEnd, itemCol),
      ParseBlockSequence(h, u, items, first, lastEnd, itemCol);
    if DashAt(g, v.pos, itemCol) {
      ReadsMoves(g, v, vu);
      var dash := g.tokens[v.pos].span;
      var at, atu := Advance(v), Advance(vu);
      ItemFollows(g, at, atu, dash);
      var item, itemU := ParseItem(g, at, dash), ParseItem(h, atu, dash);
      var r' := ru;
      if itemU.Ok? {
        var (tu, id) := itemU.value;
        var t := Image(g.cfg, s.version, s.pinned, tu);
        OutcomeReads(g, at, atu, item, itemU);
        ImageEnds(g, t, tu, id, Max(lastEnd, dash.end));
        var first' := if first.None? then Some(dash) else first;
        var end := SpanEnd(tu.document.nodes, id, Max(lastEnd, dash.end));
        BlockSequenceFollows(g, t, tu, items + [id], first', end, Some(dash.column));
        r' := ParseBlockSequence(g, t, items + [id], first', end, Some(dash.column));
      }
      OutcomeThen(g, at, atu, item, itemU, r, r', ru);
      OutcomeShift(g, s, u, at, atu, r, ru);
    } else {
      OutcomePending(g, v, vu, NodeKind.Sequence(items), BlockSpan(first, lastEnd));
      OutcomeShift(g, s, u, v, vu, r, ru);
    }
  }

  lemma OutcomeReads(g: Grammar, s: PState, u: PState, r: Parsed, ru: Parsed)
    requires Outcome(g, s, u, r, ru) && ru.Ok?
    ensures Reads(g, Image(g.cfg, s.version, s.pinned, ru.value.0), ru.value.0)
  {
  }

  lemma {:induction false} BlockKeyFollows(g: Grammar, s: PState, u: PState)
    requires Reads(g, s, u) && KeyAt(g, s.pos, None)
    ensures Outcome(g, s, u, ParseBlockKey(g, s), ParseBlockKey(Universal(g), u))
    decreases |g.tokens| - s.pos, 3
  {
    hide Outcome, Reads, ParseValue;
    ReadsMoves(g, s, u);
    ReadsMoves(g, Advance(s), Advance(u));
    var kind := g.tokens[s.pos].kind;
    if kind.Scalar? {
      OutcomeScalar(g, s, u, Advance(s), Advance(u), kind.raw, kind.style, kind.tag, g.tokens[s.pos].span, []);
    } else {
      var next, nextU := SkipTrivia(g, Advance(s)), SkipTrivia(Universal(g), Advance(u));
      ValueFollows(g, next, nextU);
      OutcomeShift(g, s, u, next, nextU, ParseBlockKey(g, s), ParseBlockKey(Universal(g), u));
    }
  }

  lemma {:induction false} BlockEntryValueFollows(g: Grammar, s: PState, u: PState, key: Span)
    requires Reads(g, s, u) && s.pos <= |g.tokens|
    ensures Outcome(g, s, u, ParseBlockEntryValue(g, s, key), ParseBlockEntryValue(Universal(g), u, key))
    decreases |g.tokens| - s.pos, 3
  {
    hide Outcome, Reads, ParseValue;
    var h := Universal(g);
    ReadsMoves(g, s, u);
    var v, vu := SkipTrivia(g, s), SkipTrivia(h, u);
    ReadsMoves(g, v, vu);
    if v.pos < |g.tokens| && g.tokens[v.pos].kind.Colon? {
      ReadsMoves(g, Advance(v), Advance(vu));
      var next, nextU := SkipTrivia(g, Advance(v)), SkipTrivia(h, Advance(vu));
      ReadsMoves(g, next, nextU);
      if ValueFollowsKey(g.tokens, next.pos, key.column, key.line) {
        ValueFollows(g, next, nextU);
      } else {
        OutcomeAdd(g, next, nextU, NodeKind.Scalar(NullScalar()), g.tokens[v.pos].span, []);
      }
      OutcomeShift(g, s, u, next, nextU, ParseBlockEntryValue(g, s, key), ParseBlockEntryValue(h, u, key));
    } else {
      OutcomeError(g, s, u, if v.pos < |g.tokens| then UnexpectedCharacter else UnexpectedEof);
    }
  }

  lemma {:induction false} FlowEntryValueFollows(g: Grammar, s: PState, u: PState)
    requires Reads(g, s, u) && s.pos <= |g.tokens|
    ensures Outcome(g, s, u, ParseFlowEntryValue(g, s), ParseFlowEntryValue(Universal(g), u))
    decreases |g.tokens| - s.pos, 6
  {
    hide Outcome, Reads, ParseValue;
    var h := Universal(g);
    ReadsMoves(g, s, u);
    var v, vu := SkipTrivia(g, s), SkipTrivia(h, u);
    ReadsMoves(g, v, vu);
    if v.pos < |g.tokens| && g.tokens[v.pos].kind.Colon? {
      ReadsMoves(g, Advance(v), Advance(vu));
      var next, nextU := SkipTrivia(g, Advance(v)), SkipTrivia(h, Advance(vu));
      ReadsMoves(g, next, nextU);
      if next.pos >= |g.tokens| || g.tokens[next.pos].kind.Comma? || g.tokens[next.pos].kind.RightBrace? {
        OutcomeAdd(g, next, nextU, NodeKind.Scalar(NullScalar()), g.tokens[v.pos].span, []);
      } else {
        ValueFollows(g, next, nextU);
      }
      OutcomeShift(g, s, u, next, nextU, ParseFlowEntryValue(g, s), ParseFlowEntryValue(h, u));
    } else {
      OutcomeError(g, s, u, if v.pos < |g.tokens| then UnexpectedCharacter else UnexpectedEof);
    }
  }

  lemma {:induction false} BlockMappingFollows(g: Grammar, s: PState, u: PState, entries: seq<(NodeId, NodeId)>,
                                               first: Option<Span>, lastEnd: nat, entryCol: Option<nat>)
    requires Reads(g, s, u) && s.pos <= |g.tokens|
    ensures Outcome(g, s, u, ParseBlockMapping(g, s, entries, first, lastEnd, entryCol),
                    ParseBlockMapping(Universal(g), u, entries, first, lastEnd, entryCol))
    decreases |g.tokens| - s.pos, 4
  {
    hide Outcome, Reads, ParseBlockKey, ParseBlockEntryValue, FinishMapping;
    var h := Universal(g);
    ReadsMoves(g, s, u);
    var v, vu := SkipTrivia(g, s), SkipTrivia(h, u);
    ReadsMoves(g, v, vu);
    var r, ru := ParseBlockMapping(g, s, entries, first, lastEnd, entryCol),
      ParseBlockMapping(h, u, entries, first, lastEnd, entryCol);
    if KeyAt(g, v.pos, entryCol) {
      var token := g.tokens[v.pos].span;
      var first' := if first.None? then Some(token) else first;
      BlockKeyFollows(g, v, vu);
      var key, keyU := ParseBlockKey(g, v), ParseBlockKey(h, vu);
      var r' := ru;
      if keyU.Ok? {
        var (tu, id) := keyU.value;
        var t := Image(g.cfg, s.version, s.pinned, tu);
        OutcomeReads(g, v, vu, key, keyU);
        BlockRestFollows(g, t, tu, id, entries, token, first', lastEnd);
        r' := BlockRest(g, t, id, entries, token, first', lastEnd);
      }
      OutcomeThen(g, v, vu, key, keyU, r, r', ru);
    } else {
      OutcomeFinish(g, v, vu, entries, BlockSpan(first, lastEnd));
    }
    OutcomeShift(g, s, u, v, vu, r, ru);
  }

  lemma {:induction false} BlockRestFollows(g: Grammar, s: PState, u: PState, key: NodeId,
                                            entries: seq<(NodeId, NodeId)>, token: Span, first: Option<Span>,
                                            lastEnd: nat)
    requires Reads(g, s, u) && s.pos <= |g.tokens|
    ensures Outcome(g, s, u, BlockRest(g, s, key, entries, token, first, lastEnd),
                    BlockRest(Universal(g), u, key, entries, token, first, lastEnd))
    decreases |g.tokens| - s.pos, 5
  {
    hide Outcome, Reads, ParseBlockEntryValue, ParseBlockMapping, SpanEnd;
    var h := Universal(g);
    ReadsMoves(g, s, u);
    var r, ru := BlockRest(g, s, key, entries, token, first, lastEnd),
      BlockRest(h, u, key, entries, token, first, lastEnd);
    BlockEntryValueFollows(g, s, u, token);
    var value, valueU := ParseBlockEntryValue(g, s, token), ParseBlockEntryValue(h, u, token);
    var r' := ru;
    if valueU.Ok? {
      var (tu, id) := valueU.value;
      var t := Image(g.cfg, s.version, s.pinned, tu);
      OutcomeReads(g, s, u, value, valueU);
      ImageEnds(g, t, tu, key, lastEnd);
      var end := SpanEnd(tu.document.nodes, id, SpanEnd(tu.document.nodes, key, lastEnd));
      ImageEnds(g, t, tu, id, SpanEnd(tu.document.nodes, key, lastEnd));
      BlockMappingFollows(g, t, tu, entries + [(key, id)], first, end, Some(token.column));
      r' := ParseBlockMapping(g, t, entries + [(key, id)], first, end, Some(token.column));
    }
    OutcomeThen(g, s, u, value, valueU, r, r', ru);
  }

  lemma {:induction false} FlowSequenceFollows(g: Grammar, s: PState, u: PState, items: seq<NodeId>, open: Span,
                                               end: nat)
    requires Reads(g, s, u) && s.pos <= |g.tokens|
    ensures Outcome(g, s, u, ParseFlowSequence(g, s, items, open, end),
                    ParseFlowSequence(Universal(g), u, items, open, end))
    decreases |g.tokens| - s.pos, 6
  {
    hide Outcome, Reads, ParseValue, SpanEnd;
    var h := Universal(g);
    ReadsMoves(g, s, u);
    var r, ru := ParseFlowSequence(g, s, items, open, end), ParseFlowSequence(h, u, items, open, end);
    if s.pos >= |g.tokens| {
      OutcomePending(g, s, u, NodeKind.Sequence(items), FlowSpan(open, end));
    } else {
      ReadsMoves(g, Advance(s), Advance(u));
      var token := g.tokens[s.pos];
      if token.kind.RightBracket? {
        OutcomePending(g, Advance(s), Advance(u), NodeKind.Sequence(items), FlowSpan(open, token.span.end));
        OutcomeShift(g, s, u, Advance(s), Advance(u), r, ru);
      } else if token.kind.Comma? {
        var next, nextU := SkipTrivia(g, Advance(s)), SkipTrivia(h, Advance(u));
        FlowSequenceFollows(g, next, nextU, items, open, end);
        OutcomeShift(g, s, u, next, nextU, r, ru);
      } else {
        ValueFollows(g, s, u);
        var item, itemU := ParseValue(g, s), ParseValue(h, u);
        var r' := ru;
        if itemU.Ok? {
          var (tu, id) := itemU.value;
          var t := Image(g.cfg, s.version, s.pinned, tu);
          OutcomeReads(g, s, u, item, itemU);
          ImageEnds(g, t, tu, id, end);
          ReadsMoves(g, t, tu);
          var v, vu := SkipTrivia(g, t), SkipTrivia(h, tu);
          if v.pos < |g.tokens| && !g.tokens[v.pos].kind.Comma? && !g.tokens[v.pos].kind.RightBracket? {
            OutcomeError(g, t, tu, UnexpectedCharacter);
          } else {
            var end := SpanEnd(tu.document.nodes, id, end);
            FlowSequenceFollows(g, v, vu, items + [id], open, end);
            r' := ParseFlowSequence(g, v, items + [id], open, end);
            OutcomeShift(g, t, tu, v, vu, r', ru);
          }
        }
        OutcomeThen(g, s, u, item, itemU, r, r', ru);
      }
    }
  }

  lemma {:induction false} FlowKeyFollows(g: Grammar, s: PState, u: PState, seen: bool)
    requires Reads(g, s, u) && s.pos <= |g.tokens|
    ensures Outcome(g, s, u, ParseFlowKey(g, s, seen), ParseFlowKey(Universal(g), u, seen))
    decreases |g.tokens| - s.pos, 5
  {
    hide Outcome, Reads, TriviaFrom;
    var h := Universal(g);
    ReadsMoves(g, s, u);
    var v, vu := SkipTrivia(g, s), SkipTrivia(h, u);
    ReadsMoves(g, v, vu);
    var r, ru := ParseFlowKey(g, s, seen), ParseFlowKey(h, u, seen);
    if v.pos < |g.tokens| {
      var token := g.tokens[v.pos];
      ReadsMoves(g, Advance(v), Advance(vu));
      if token.kind.Anchor? || token.kind.Tag? {
        var next, nextU := SkipTrivia(g, Advance(v)), SkipTrivia(h, Advance(vu));
        var deeper := seen || token.kind.Anchor?;
        FlowKeyFollows(g, next, nextU, deeper);
        OutcomeMark(g, next, nextU, ParseFlowKey(g, next, deeper), ParseFlowKey(h, nextU, deeper), token.kind.name);
        OutcomeShift(g, s, u, next, nextU, r, ru);
      } else if token.kind.Scalar? {
        OutcomeScalar(g, v, vu, Advance(v), Advance(vu), token.kind.raw, token.kind.style, token.kind.tag, token.span,
                      []);
        OutcomeShift(g, s, u, v, vu, r, ru);
      } else {
        OutcomeError(g, s, u, UnexpectedCharacter);
      }
    } else {
      OutcomeError(g, s, u, UnexpectedEof);
    }
  }

  lemma {:induction false} FlowMappingFollows(g: Grammar, s: PState, u: PState, entries: seq<(NodeId, NodeId)>,
                                              open: Span, end: nat)
    requires Reads(g, s, u) && s.pos <= |g.tokens|
    ensures Outcome(g, s, u, ParseFlowMapping(g, s, entries, open, end),
                    ParseFlowMapping(Universal(g), u, entries, open, end))
    decreases |g.tokens| - s.pos, 6
  {
    hide Outcome, Reads, ParseFlowKey, ParseFlowEntryValue, FinishMapping;
    var h := Universal(g);
    ReadsMoves(g, s, u);
    var r, ru := ParseFlowMapping(g, s, entries, open, end), ParseFlowMapping(h, u, entries, open, end);
    if s.pos >= |g.tokens| {
      OutcomeFinish(g, s, u, entries, FlowSpan(open, end));
    } else {
      ReadsMoves(g, Advance(s), Advance(u));
      var token := g.tokens[s.pos];
      if token.kind.RightBrace? {
        OutcomeFinish(g, Advance(s), Advance(u), entries, FlowSpan(open, token.span.end));
        OutcomeShift(g, s, u, Advance(s), Advance(u), r, ru);
      } else if token.kind.Comma? {
        var next, nextU := SkipTrivia(g, Advance(s)), SkipTrivia(h, Advance(u));
        FlowMappingFollows(g, next, nextU, entries, open, end);
        OutcomeShift(g, s, u, next, nextU, r, ru);
      } else {
        FlowKeyFollows(g, s, u, false);
        var key, keyU := ParseFlowKey(g, s, false), ParseFlowKey(h, u, false);
        var r' := ru;
        if keyU.Ok? {
          var (tu, id) := keyU.value;
          var t := Image(g.cfg, s.version, s.pinned, tu);
          OutcomeReads(g, s, u, key, keyU);
          FlowRestFollows(g, t, tu, id, entries, open, end);
          r' := FlowRest(g, t, id, entries, open, end);
        }
        OutcomeThen(g, s, u, key, keyU, r, r', ru);
      }
    }
  }

  lemma {:induction false} FlowRestFollows(g: Grammar, s: PState, u: PState, key: NodeId,
                                           entries: seq<(NodeId, NodeId)>, open: Span, end: nat)
    requires Reads(g, s, u) && s.pos <= |g.tokens|
    ensures Outcome(g, s, u, FlowRest(g, s, key, entries, open, end),
                    FlowRest(Universal(g), u, key, entries, open, end))
    decreases |g.tokens| - s.pos, 7
  {
    hide Outcome, Reads, ParseFlowEntryValue, ParseFlowMapping, SpanEnd;
    var h := Universal(g);
    ReadsMoves(g, s, u);
    var r, ru := FlowRest(g, s, key, entries, open, end), FlowRest(h, u, key, entries, open, end);
    FlowEntryValueFollows(g, s, u);
    var value, valueU := ParseFlowEntryValue(g, s), ParseFlowEntryValue(h, u);
    var r' := ru;
    if valueU.Ok? {
      var (tu, id) := valueU.value;
      var t := Image(g.cfg, s.version, s.pinned, tu);
      OutcomeReads(g, s, u, value, valueU);
      ImageEnds(g, t, tu, key, end);
      ImageEnds(g, t, tu, id, SpanEnd(tu.document.nodes, key, end));
      ReadsMoves(g, t, tu);
      var v, vu := SkipTrivia(g, t), SkipTrivia(h, tu);
      if v.pos < |g.tokens| && !g.tokens[v.pos].kind.Comma? && !g.tokens[v.pos].kind.RightBrace? {
        OutcomeError(g, t, tu, UnexpectedCharacter);
      } else {
        var end := SpanEnd(tu.document.nodes, id, SpanEnd(tu.document.nodes, key, end));
        FlowMappingFollows(g, v, vu, entries + [(key, id)], open, end);
        r' := ParseFlowMapping(g, v, entries + [(key, id)], open, end);
        OutcomeShift(g, t, tu, v, vu, r', ru);
      }
    }
    OutcomeThen(g, s, u, value, valueU, r, r', ru);
  }

  // ----- Documents and the whole stream

  ghost predicate DirectiveFree(tokens: seq<Token>) {
    forall i | 0 <= i < |tokens| :: !tokens[i].kind.Directive?
  }

  lemma NothingConsumed(g: Grammar, s: PState)
    requires DirectiveFree(g.tokens) && s.pos <= |g.tokens|
    ensures ConsumeDirectives(g, s) == Ok(SkipTrivia(g, s))
  {
  }

  /** An outcome without a node of its own. */
  function Rootless(r: Result<PState, ErrorKind>): Parsed {
    var s :- r;
    Ok((s, 0))
  }

  lemma EndFollows(g: Grammar, s: PState, u: PState)
    requires DirectiveFree(g.tokens) && Reads(g, s, u) && s.pos <= |g.tokens|
    ensures Outcome(g, s, u, Rootless(EndDocument(g, s)), Rootless(EndDocument(Universal(g), u)))
  {
    var v := SkipTrivia(g, s);
    var w := SkipTrivia(g, if v.pos < |g.tokens| && g.tokens[v.pos].kind.DocumentEnd? then Advance(v) else v);
    NothingConsumed(g, w);
    hide TriviaFrom;
    var vu := SkipTrivia(g, u);
    NothingConsumed(Universal(g),
                    SkipTrivia(g, if v.pos < |g.tokens| && g.tokens[v.pos].kind.DocumentEnd? then Advance(vu) else vu));
    hide ConsumeDirectives;
    assert EndDocument(g, s).Ok? <==> EndDocument(Universal(g), u).Ok?;
  }

  lemma RootFollows(g: Grammar, s: PState, u: PState, start: Option<Span>)
    requires Reads(g, s, u) && s.pos <= |g.tokens|
    ensures Outcome(g, s, u, ParseDocument(g, s, start), ParseDocument(Universal(g), u, start))
  {
    hide Outcome, Reads, ParseValue;
    ReadsMoves(g, s, u);
    var v, vu := SkipTrivia(g, s), SkipTrivia(Universal(g), u);
    ReadsMoves(g, v, vu);
    if AtEof(g.tokens, v.pos) || g.tokens[v.pos].kind.DocumentEnd? {
      OutcomeAdd(g, v, vu, NodeKind.Scalar(NullScalar()),
                 if start.Some? then start.value else if v.pos < |g.tokens| then g.tokens[v.pos].span else ORIGIN, []);
    } else {
      ValueFollows(g, v, vu);
    }
    OutcomeShift(g, s, u, v, vu, ParseDocument(g, s, start), ParseDocument(Universal(g), u, start));
  }

  lemma RootReads(g: Grammar, s: PState, u: PState, root: NodeId)
    requires Reads(g, s, u)
    ensures Reads(g, PushRoot(s, root), PushRoot(u, root))
  {
  }

  lemma OneDocumentFollows(g: Grammar, s: PState, u: PState)
    requires DirectiveFree(g.tokens) && Reads(g, s, u) && s.pos < |g.tokens|
    ensures Outcome(g, s, u, Rootless(ParseOneDocument(g, s)), Rootless(ParseOneDocument(Universal(g), u)))
  {
    hide Outcome, Reads, ParseDocument, EndDocument;
    var h := Universal(g);
    ReadsMoves(g, s, u);
    ReadsMoves(g, Advance(s), Advance(u));
    var content, contentU := DocumentContent(g, s), DocumentContent(h, u);
    var start := DocumentStartSpan(g, s);
    RootFollows(g, content, contentU, start);
    var parsed, parsedU := ParseDocument(g, content, start), ParseDocument(h, contentU, start);
    var r, ru := Rootless(ParseOneDocument(g, s)), Rootless(ParseOneDocument(h, u));
    var r' := ru;
    if parsedU.Ok? {
      var (tu, root) := parsedU.value;
      var t := Image(g.cfg, s.version, s.pinned, tu);
      OutcomeReads(g, content, contentU, parsed, parsedU);
      RootReads(g, t, tu, root);
      EndFollows(g, PushRoot(t, root), PushRoot(tu, root));
      r' := Rootless(EndDocument(g, PushRoot(t, root)));
      OutcomeShift(g, t, tu, PushRoot(t, root), PushRoot(tu, root), r', ru);
    }
    OutcomeThen(g, content, contentU, parsed, parsedU, r, r', ru);
    OutcomeShift(g, s, u, content, contentU, r, ru);
  }

  lemma {:induction false} DocumentsFollow(g: Grammar, s: PState, u: PState)
    requires DirectiveFree(g.tokens) && Reads(g, s, u) && s.pos <= |g.tokens|
    ensures Outcome(g, s, u, Rootless(ParseDocuments(g, s)), Rootless(ParseDocuments(Universal(g), u)))
    decreases |g.tokens| - s.pos
  {
    hide ParseOneDocument;
    var h := Universal(g);
    ReadsMoves(g, s, u);
    if !AtEof(g.tokens, s.pos) {
      hide Outcome, Reads;
      OneDocumentFollows(g, s, u);
      var one, oneU := ParseOneDocument(g, s), ParseOneDocument(h, u);
      var r, ru := Rootless(ParseDocuments(g, s)), Rootless(ParseDocuments(h, u));
      var r' := ru;
      if oneU.Ok? {
        var tu := oneU.value;
        var t := Image(g.cfg, s.version, s.pinned, tu);
        OutcomeReads(g, s, u, Rootless(one), Rootless(oneU));
        DocumentsFollow(g, t, tu);
        r' := Rootless(ParseDocuments(g, t));
      }
      OutcomeThen(g, s, u, Rootless(one), Rootless(oneU), r, r', ru);
    }
  }

  function Pinned(g: Grammar, version: YamlVersion): Grammar {
    g.(cfg := g.cfg.(options := g.cfg.options.(yamlVersion := Some(version))))
  }

  /** The default document of an empty stream is the same in every run. */
  lemma DefaultFollows(g: Grammar, s: PState, u: PState)
    requires Reads(g, s, u)
    ensures Reads(g, WithDefaultDocument(s), WithDefaultDocument(u))
    ensures Clear(g.cfg, WithDefaultDocument(u).document.nodes) <==> Clear(g.cfg, u.document.nodes)
  {
    var t, tu := WithDefaultDocument(s), WithDefaultDocument(u);
    assert t.document.nodes == ImageNodes(g.cfg, s.version, tu.document.nodes);
    assert forall i | 0 <= i < |u.document.nodes| :: tu.document.nodes[i] == u.document.nodes[i];
  }

  function Start(g: Grammar): PState {
    SkipTrivia(g, SkipTrivia(g, InitialState(g)))
  }

  /** Without directives the documents begin behind the first trivia. */
  lemma ParsesFromStart(g: Grammar)
    requires DirectiveFree(g.tokens)
    ensures Start(g).pos <= |g.tokens|
    ensures var parsed := ParseDocuments(g, Start(g));
      Parse(g) == if parsed.Err? then Err(parsed.error) else Ok(WithDefaultDocument(parsed.value))
  {
    NothingConsumed(g, SkipTrivia(g, InitialState(g)));
    hide ConsumeDirectives, ParseDocuments, WithDefaultDocument;
  }

  lemma StartReads(g: Grammar)
    ensures Reads(g, Start(g), Start(Universal(g)))
    ensures Start(g).version == InitialVersion(g.cfg.options) && Start(g).pinned == g.cfg.options.yamlVersion.Some?
  {
    assert ImageNodes(g.cfg, Start(g).version, []) == [];
  }

  /** Every run is the image of the universal one; a strict run stops at the first ambiguous scalar. */
  lemma ParseFollows(g: Grammar)
    requires DirectiveFree(g.tokens)
    ensures var strict := g.cfg.options.strictVersion && g.cfg.options.yamlVersion.None?;
      match Parse(Universal(g))
      case Err(e) => Parse(g) == Err(e) || (strict && Parse(g) == Err(AmbiguousVersion))
      case Ok(t) =>
        && NoFloats(t.document.nodes)
        && Parse(g) == if strict && !Clear(g.cfg, t.document.nodes) then Err(AmbiguousVersion)
                       else Ok(Image(g.cfg, InitialVersion(g.cfg.options), g.cfg.options.yamlVersion.Some?, t))
  {
    var h := Universal(g);
    var s, u := Start(g), Start(h);
    ParsesFromStart(g);
    ParsesFromStart(h);
    StartReads(g);
    hide ParseDocuments, WithDefaultDocument, Parse, Start;
    DocumentsFollow(g, s, u);
    var parsed := ParseDocuments(h, u);
    if parsed.Ok? {
      OutcomeReads(g, s, u, Rootless(ParseDocuments(g, s)), Rootless(parsed));
      DefaultFollows(g, Image(g.cfg, s.version, s.pinned, parsed.value), parsed.value);
    }
  }

  /** Equal arenas, with floats compared as floats. */
  ghost predicate SameArena(cfg: Config, a: seq<NodeData>, b: seq<NodeData>) {
    |a| == |b| && forall i | 0 <= i < |a| :: SameNode(cfg, a[i], b[i])
  }

  predicate SameNode(cfg: Config, a: NodeData, b: NodeData) {
    if a.kind.Scalar? && b.kind.Scalar? then
      && SameValue(cfg, a.kind.scalar.value, b.kind.scalar.value)
      && a.(kind := NodeKind.Scalar(a.kind.scalar.(value := Null)))
        == b.(kind := NodeKind.Scalar(b.kind.scalar.(value := Null)))
    else
      a == b
  }

  lemma ClearIsSameArena(cfg: Config, nodes: seq<NodeData>)
    requires NoFloats(nodes)
    ensures Clear(cfg, nodes) <==> SameArena(cfg, ImageNodes(cfg, Version11, nodes), ImageNodes(cfg, Version12, nodes))
  {
    var a, b := ImageNodes(cfg, Version11, nodes), ImageNodes(cfg, Version12, nodes);
    forall i | 0 <= i < |nodes|
      ensures SameNode(cfg, a[i], b[i]) <==>
        (nodes[i].kind.Scalar? && nodes[i].kind.scalar.value.Timestamp? ==>
         !Ambiguous(cfg, nodes[i].kind.scalar.value.s))
    {
    }
  }

  /**
   On a stream without directives the version never steers the parser: pinned to either, it accepts
   the same streams and fails alike. A strict run without a pin accepts exactly the streams for which
   both pinned runs build the same arena, and then builds that one.
   */
  lemma StrictIsBothVersions(g: Grammar)
    requires DirectiveFree(g.tokens) && g.cfg.options.strictVersion && g.cfg.options.yamlVersion.None?
    ensures var old11, new12 := Parse(Pinned(g, Version11)), Parse(Pinned(g, Version12));
      && (old11.Ok? <==> new12.Ok?) && (old11.Err? ==> old11 == new12)
      && (Parse(g).Ok? <==> old11.Ok? && SameArena(g.cfg, old11.value.document.nodes, new12.value.document.nodes))
      && (Parse(g).Ok? ==> Parse(g).value.document == new12.value.document)
      && (Parse(g).Err? ==> Parse(g).error == AmbiguousVersion || new12 == Parse(g))
  {
    hide Parse, Clear, ImageNodes;
    var g1, g2 := Pinned(g, Version11), Pinned(g, Version12);
    ParseFollows(g);
    ParseFollows(g1);
    ParseFollows(g2);
    assert Universal(g1) == Universal(g) == Universal(g2);
    if Parse(Universal(g)).Ok? {
      ClearIsSameArena(g.cfg, Parse(Universal(g)).value.document.nodes);
      SameImage(g.cfg, g1.cfg, Version11, Parse(Universal(g)).value.document.nodes);
      SameImage(g.cfg, g2.cfg, Version12, Parse(Universal(g)).value.document.nodes);
    }
  }

  lemma SameImage(a: Config, b: Config, version: YamlVersion, nodes: seq<NodeData>)
    requires a.resolve == b.resolve
    ensures ImageNodes(a, version, nodes) == ImageNodes(b, version, nodes)
  {
  }
}
