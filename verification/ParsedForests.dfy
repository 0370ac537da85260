/** A parsed document in which nothing was merged is a tree: every node is built over ids of its own. */
module ParsedForests {
  import opened Prelude
  import opened Syntax
  import opened Arena
  import opened Grammar
  import opened EditTree
  import opened EditShape
  import opened ParsedTrees
  import ArenaInvariant
  import MergeKeys
  import MergeProperties

  /** Merging is off, or no token spells `<<`. */
  ghost predicate Unmerged(g: Grammar) {
    g.cfg.options.mergeKeys ==>
      forall i | 0 <= i < |g.tokens| ::
        && (g.tokens[i].kind.Scalar? ==> g.tokens[i].kind.raw != "<<")
        && (g.tokens[i].kind.BlockScalar? ==> g.tokens[i].kind.text != "<<")
  }

  /** Node `id` shows `t`, a tree over ids from `low` on, and does not act as a merge key. */
  ghost predicate Planted(g: Grammar, nodes: seq<NodeData>, id: NodeId, t: Tree, low: nat) {
    && id < |nodes| && Shows(nodes, id, t) && Unshared(t) && Between(Ids(t), low, |nodes|)
    && (g.cfg.options.mergeKeys ==> !MergeKeys.IsMergeKey(nodes, id))
  }

  ghost predicate Grown(g: Grammar, low: nat, r: Parsed, t: Tree) {
    r.Ok? ==> Planted(g, r.value.0.document.nodes, r.value.1, t, low)
  }

  /** Items side by side, over ids from `low` on. */
  ghost predicate Row(nodes: seq<NodeData>, items: seq<NodeId>, trees: seq<Tree>, low: nat) {
    && |items| == |trees| && (forall i | 0 <= i < |items| :: Shows(nodes, items[i], trees[i]))
    && ItemsUnshared(trees) && Between(ItemIds(trees), low, |nodes|)
  }

  /** Entries side by side, over ids from `low` on, none of whose keys acts as a merge key. */
  ghost predicate Table(g: Grammar, nodes: seq<NodeData>, entries: seq<(NodeId, NodeId)>, trees: seq<(Tree, Tree)>,
                        low: nat) {
    && |entries| == |trees| && (forall i | 0 <= i < |entries| :: ShowsEntry(nodes, entries[i], trees[i]))
    && EntriesUnshared(trees) && Between(EntryIds(trees), low, |nodes|)
    && (g.cfg.options.mergeKeys ==> forall e | e in entries :: e.0 < |nodes| && !MergeKeys.IsMergeKey(nodes, e.0))
  }

  // ----- Single nodes

  lemma LeafPlanted(g: Grammar, s: PState, kind: NodeKind, span: Span, trivia: seq<Trivia>) returns (t: Tree)
    requires kind.Alias? || (kind.Scalar? && (g.cfg.options.mergeKeys ==> kind.scalar.raw != "<<"))
    ensures Grown(g, |s.document.nodes|, Ok(AddNode(s, kind, span, trivia)), t)
  {
    var nodes := AddNode(s, kind, span, trivia).0.document.nodes;
    t := Leaf(|s.document.nodes|, HeaderOf(nodes[|s.document.nodes|]), kind);
  }

  lemma NullPlanted(g: Grammar, s: PState, span: Span) returns (t: Tree)
    ensures Grown(g, |s.document.nodes|, Ok(AddNull(s, span)), t)
  {
    t := LeafPlanted(g, s, NodeKind.Scalar(NullScalar()), span, []);
  }

  /** Writing an anchor or a tag on a node changes its own header and nothing else. */
  lemma MarkPlanted(g: Grammar, nodes: seq<NodeData>, nodes': seq<NodeData>, id: NodeId, t: Tree, low: nat)
    returns (t': Tree)
    requires Planted(g, nodes, id, t, low) && |nodes'| == |nodes|
    requires nodes'[id].kind == nodes[id].kind && forall i | 0 <= i < |nodes| && i != id :: nodes'[i] == nodes[i]
    ensures Planted(g, nodes', id, t', low)
  {
    t' := t.(header := HeaderOf(nodes'[id]));
    ShownIds(nodes, id, t);
    match t
    case Leaf(_, _, _) =>
    case Items(_, _, items) =>
      forall i | 0 <= i < |items| ensures Shows(nodes', nodes'[id].kind.items[i], items[i]) {
        ItemIdsAt(items, i);
        ShowsFrame(nodes, nodes', nodes[id].kind.items[i], items[i]);
      }
    case Entries(_, _, entries) =>
      forall i | 0 <= i < |entries| ensures ShowsEntry(nodes', nodes'[id].kind.entries[i], entries[i]) {
        EntryIdsAt(entries, i);
        EntryShown(nodes, nodes[id].kind.entries[i], entries[i]);
        ShowsFrame(nodes, nodes', nodes[id].kind.entries[i].0, entries[i].0);
        ShowsFrame(nodes, nodes', nodes[id].kind.entries[i].1, entries[i].1);
        EntryShown(nodes', nodes'[id].kind.entries[i], entries[i]);
      }
  }

  lemma DeclarePlanted(g: Grammar, s: PState, id: NodeId, name: string, t: Tree, low: nat) returns (t': Tree)
    requires Planted(g, s.document.nodes, id, t, low)
    ensures Grown(g, low, Declare(s, id, name), t')
  {
    t' := MarkPlanted(g, s.document.nodes, SetAnchor(s.document.nodes, id, name), id, t, low);
  }

  lemma RetagPlanted(g: Grammar, s: PState, id: NodeId, name: string, t: Tree, low: nat) returns (t': Tree)
    requires Planted(g, s.document.nodes, id, t, low)
    ensures Grown(g, low, Ok(Retag(s, id, name)), t')
  {
    t' := MarkPlanted(g, s.document.nodes, SetTag(s.document.nodes, id, name), id, t, low);
  }

  // ----- Collections

  lemma RowSnoc(g: Grammar, nodes: seq<NodeData>, nodes': seq<NodeData>, items: seq<NodeId>, trees: seq<Tree>, low: nat,
                id: NodeId, t: Tree)
    requires Row(nodes, items, trees, low) && low <= |nodes| && nodes <= nodes' && Planted(g, nodes', id, t, |nodes|)
    ensures Row(nodes', items + [id], trees + [t], low)
  {
    ShownStay(nodes, nodes', items, trees);
    ItemsSnoc(trees, t, low, |nodes|, |nodes'|);
  }

  lemma RowCloses(g: Grammar, s: PState, items: seq<NodeId>, trees: seq<Tree>, low: nat, span: Span) returns (t: Tree)
    requires Row(s.document.nodes, items, trees, low) && low <= |s.document.nodes|
    ensures Grown(g, low, Ok(AddWithTrivia(s, NodeKind.Sequence(items), span)), t)
  {
    var nodes, id := AddWithTrivia(s, NodeKind.Sequence(items), span).0.document.nodes, |s.document.nodes|;
    ShownStay(s.document.nodes, nodes, items, trees);
    t := Items(id, HeaderOf(nodes[id]), trees);
  }

  lemma TableSnoc(g: Grammar, nodes: seq<NodeData>, mid: seq<NodeData>, nodes': seq<NodeData>,
                  entries: seq<(NodeId, NodeId)>,
                  trees: seq<(Tree, Tree)>, low: nat, key: NodeId, k: Tree, value: NodeId, v: Tree)
    requires Table(g, nodes, entries, trees, low) && low <= |nodes| && nodes <= mid <= nodes'
    requires Planted(g, mid, key, k, |nodes|) && Planted(g, nodes', value, v, |mid|)
    ensures Table(g, nodes', entries + [(key, value)], trees + [(k, v)], low)
  {
    ShownEntriesStay(nodes, nodes', entries, trees);
    ShownStay(mid, nodes', [key], [k]);
    assert Shows(nodes', [key][0], [k][0]);
    EntryShown(nodes', (key, value), (k, v));
    EntriesSnoc(trees, (k, v), low, |nodes|, |nodes'|);
  }

  lemma TableCloses(g: Grammar, s: PState, entries: seq<(NodeId, NodeId)>, trees: seq<(Tree, Tree)>, low: nat,
                    span: Span) returns (t: Tree)
    requires s.pos <= |g.tokens| && Table(g, s.document.nodes, entries, trees, low) && low <= |s.document.nodes|
    ensures Grown(g, low, FinishMapping(g, s, entries, span), t)
  {
    MergeProperties.NothingToMerge(g.cfg.options.mergeKeys, s.document.nodes, entries);
    var nodes, id := AddWithTrivia(s, NodeKind.Mapping(entries), span).0.document.nodes, |s.document.nodes|;
    ShownEntriesStay(s.document.nodes, nodes, entries, trees);
    t := Entries(id, HeaderOf(nodes[id]), trees);
  }

  // ----- Every value

  /** A tree to return where nothing was parsed. */
  const NO_TREE := Leaf(0, Header(None, [], None, None), NodeKind.Scalar(NullScalar()))

  lemma LeafGrows(g: Grammar, s: PState) returns (t: Tree)
    requires Unmerged(g) && s.pos < |g.tokens|
    ensures Grown(g, |s.document.nodes|, ParseLeaf(g, s), t)
  {
    t := NO_TREE;
    var r := ParseLeaf(g, s);
    if r.Ok? {
      var kind := r.value.0.document.nodes[r.value.1].kind;
      t := LeafPlanted(g, Advance(s).(pending := []), kind, g.tokens[s.pos].span, s.pending);
    }
  }

  lemma {:induction false} ValueGrows(g: Grammar, s: PState) returns (t: Tree)
    requires Unmerged(g) && s.pos <= |g.tokens|
    ensures Grown(g, |s.document.nodes|, ParseValue(g, s), t)
    decreases |g.tokens| - s.pos, 5
  {
    hide Planted, Unmerged, TriviaFrom, ParseLeaf, ParseBlockSequence, ParseBlockMapping, ParseFlowMapping,
      ParseFlowSequence;
    t := NO_TREE;
    var u := SkipTrivia(g, s);
    if u.pos < |g.tokens| {
      var token := g.tokens[u.pos];
      var next := SkipTrivia(g, Advance(u));
      var low := |s.document.nodes|;
      if token.kind.Anchor? || token.kind.Tag? {
        t := ValueGrows(g, next);
        t := MarkGrows(g, low, ParseValue(g, next), token.kind, t);
      } else if token.kind.LeftBrace? {
        NoEntries(g, s.document.nodes);
        t := FlowMappingGrows(g, next, [], [], low, token.span, token.span.end);
      } else if token.kind.LeftBracket? {
        NoItems(s.document.nodes);
        t := FlowSequenceGrows(g, next, [], [], low, token.span, token.span.end);
      } else if token.kind.SequenceEntry? {
        NoItems(s.document.nodes);
        t := BlockSequenceGrows(g, u, [], [], low, None, 0, None);
      } else if token.kind.MappingKey? || (token.kind.Scalar? && PeekIsColon(g.tokens, u.pos)) {
        NoEntries(g, s.document.nodes);
        t := BlockMappingGrows(g, u, [], [], low, None, 0, None);
      } else {
        t := LeafGrows(g, u);
      }
    }
  }

  lemma NoItems(nodes: seq<NodeData>)
    ensures Row(nodes, [], [], |nodes|)
  {
  }

  lemma NoEntries(g: Grammar, nodes: seq<NodeData>)
    ensures Table(g, nodes, [], [], |nodes|)
  {
  }

  /** An anchor or a tag in front of a value. */
  lemma MarkGrows(g: Grammar, low: nat, r: Parsed, mark: TokenKind, t: Tree) returns (t': Tree)
    requires Grown(g, low, r, t) && (mark.Anchor? || mark.Tag?)
    ensures r.Ok? ==> r.value.1 < |r.value.0.document.nodes|
    ensures r.Ok? && mark.Anchor? ==> Grown(g, low, Declare(r.value.0, r.value.1, mark.name), t')
    ensures r.Ok? && mark.Tag? ==> Grown(g, low, Ok(Retag(r.value.0, r.value.1, mark.name)), t')
  {
    t' := t;
    if r.Ok? {
      if mark.Anchor? {
        t' := DeclarePlanted(g, r.value.0, r.value.1, mark.name, t, low);
      } else {
        t' := RetagPlanted(g, r.value.0, r.value.1, mark.name, t, low);
      }
    }
  }

  lemma {:induction false} ItemGrows(g: Grammar, s: PState, dash: Span) returns (t: Tree)
    requires Unmerged(g) && s.pos <= |g.tokens|
    ensures Grown(g, |s.document.nodes|, ParseItem(g, s, dash), t)
    decreases |g.tokens| - s.pos, 6
  {
    hide ParseValue, Grown;
    if ValueFollowsDash(g.tokens, s.pos, dash.column, dash.line) {
      t := ValueGrows(g, s);
    } else {
      t := NullPlanted(g, s, dash);
    }
  }

  lemma {:induction false} BlockSequenceGrows(g: Grammar, s: PState, items: seq<NodeId>, trees: seq<Tree>, low: nat,
                                              first: Option<Span>, lastEnd: nat, itemCol: Option<nat>)
    returns (t: Tree)
    requires Unmerged(g) && s.pos <= |g.tokens| && low <= |s.document.nodes| && Row(s.document.nodes, items, trees, low)
    ensures Grown(g, low, ParseBlockSequence(g, s, items, first, lastEnd, itemCol), t)
    decreases |g.tokens| - s.pos, 4
  {
    hide Planted, Row, Unmerged, TriviaFrom, ParseItem, SpanEnd;
    t := NO_TREE;
    var u := SkipTrivia(g, s);
    if DashAt(g, u.pos, itemCol) {
      var dash := g.tokens[u.pos].span;
      var item := ParseItem(g, Advance(u), dash);
      var tree := ItemGrows(g, Advance(u), dash);
      if item.Ok? {
        var (v, id) := item.value;
        RowSnoc(g, s.document.nodes, v.document.nodes, items, trees, low, id, tree);
        t := BlockSequenceGrows(g, v, items + [id], trees + [tree], low, if first.None? then Some(dash) else first,
                                SpanEnd(v.document.nodes, id, Max(lastEnd, dash.end)), Some(dash.column));
      }
    } else {
      t := RowCloses(g, u, items, trees, low, BlockSpan(first, lastEnd));
    }
  }

  lemma {:induction false} BlockKeyGrows(g: Grammar, s: PState) returns (t: Tree)
    requires Unmerged(g) && KeyAt(g, s.pos, None)
    ensures Grown(g, |s.document.nodes|, ParseBlockKey(g, s), t)
    decreases |g.tokens| - s.pos, 3
  {
    t := NO_TREE;
    if g.tokens[s.pos].kind.MappingKey? {
      hide ParseValue, Planted;
      t := ValueGrows(g, SkipTrivia(g, Advance(s)));
    } else {
      hide ParseValue;
      t := KeyScalarGrows(g, s, ParseBlockKey(g, s));
    }
  }

  /** A bare scalar key. */
  lemma KeyScalarGrows(g: Grammar, s: PState, r: Parsed) returns (t: Tree)
    requires Unmerged(g) && s.pos < |g.tokens| && g.tokens[s.pos].kind.Scalar?
    requires var token := g.tokens[s.pos];
      var value := ResolveScalarValue(g, s, token.kind.raw, token.kind.style, token.kind.tag);
      r == if value.Err? then Err(value.error)
           else Ok(AddNode(Advance(s),
                           NodeKind.Scalar(ScalarData(value.value, token.kind.style, token.kind.raw, token.kind.tag)),
                           token.span, []))
    ensures Grown(g, |s.document.nodes|, r, t)
  {
    t := NO_TREE;
    if r.Ok? {
      var kind := r.value.0.document.nodes[r.value.1].kind;
      t := LeafPlanted(g, Advance(s), kind, g.tokens[s.pos].span, []);
    }
  }

  lemma {:induction false} EntryValueGrows(g: Grammar, s: PState, key: Span) returns (block: Tree, flow: Tree)
    requires Unmerged(g) && s.pos <= |g.tokens|
    ensures Grown(g, |s.document.nodes|, ParseBlockEntryValue(g, s, key), block)
    ensures Grown(g, |s.document.nodes|, ParseFlowEntryValue(g, s), flow)
    decreases |g.tokens| - s.pos, 3
  {
    hide Planted, TriviaFrom, ParseValue;
    block, flow := NO_TREE, NO_TREE;
    var u := SkipTrivia(g, s);
    if u.pos < |g.tokens| && g.tokens[u.pos].kind.Colon? {
      var v := SkipTrivia(g, Advance(u));
      var value := ValueGrows(g, v);
      var blank := NullPlanted(g, v, g.tokens[u.pos].span);
      block := if ValueFollowsKey(g.tokens, v.pos, key.column, key.line) then value else blank;
      flow := if v.pos >= |g.tokens| || g.tokens[v.pos].kind.Comma? || g.tokens[v.pos].kind.RightBrace? then blank
        else value;
    }
  }

  lemma {:induction false} BlockMappingGrows(g: Grammar, s: PState, entries: seq<(NodeId, NodeId)>,
                                             trees: seq<(Tree, Tree)>, low: nat,
                                             first: Option<Span>, lastEnd: nat, entryCol: Option<nat>)
    returns (t: Tree)
    requires Unmerged(g) && s.pos <= |g.tokens| && low <= |s.document.nodes|
      && Table(g, s.document.nodes, entries, trees, low)
    ensures Grown(g, low, ParseBlockMapping(g, s, entries, first, lastEnd, entryCol), t)
    decreases |g.tokens| - s.pos, 4
  {
    hide Planted, Table, Unmerged, TriviaFrom, ParseBlockKey, ParseBlockEntryValue, FinishMapping, SpanEnd;
    t := NO_TREE;
    var u := SkipTrivia(g, s);
    if KeyAt(g, u.pos, entryCol) {
      var token := g.tokens[u.pos].span;
      var k := BlockKeyGrows(g, u);
      var key := ParseBlockKey(g, u);
      if key.Ok? {
        var (v, keyId) := key.value;
        var value := ParseBlockEntryValue(g, v, token);
        var tree, _ := EntryValueGrows(g, v, token);
        if value.Ok? {
          var (w, valueId) := value.value;
          TableSnoc(g, s.document.nodes, v.document.nodes, w.document.nodes, entries, trees, low, keyId, k, valueId,
                    tree);
          t := BlockMappingGrows(g, w, entries + [(keyId, valueId)], trees + [(k, tree)], low,
                                 if first.None? then Some(token) else first,
                                 SpanEnd(w.document.nodes, valueId, SpanEnd(w.document.nodes, keyId, lastEnd)),
                                 Some(token.column));
        }
      }
    } else {
      t := TableCloses(g, u, entries, trees, low, BlockSpan(first, lastEnd));
    }
  }

  lemma {:induction false} FlowSequenceGrows(g: Grammar, s: PState, items: seq<NodeId>, trees: seq<Tree>, low: nat,
                                             open: Span, end: nat)
    returns (t: Tree)
    requires Unmerged(g) && s.pos <= |g.tokens| && low <= |s.document.nodes| && Row(s.document.nodes, items, trees, low)
    ensures Grown(g, low, ParseFlowSequence(g, s, items, open, end), t)
    decreases |g.tokens| - s.pos, 6
  {
    hide Planted, Row, Unmerged, TriviaFrom, ParseValue, SpanEnd;
    t := NO_TREE;
    if s.pos >= |g.tokens| {
      t := RowCloses(g, s, items, trees, low, FlowSpan(open, end));
    } else if g.tokens[s.pos].kind.RightBracket? {
      t := RowCloses(g, Advance(s), items, trees, low, FlowSpan(open, g.tokens[s.pos].span.end));
    } else if g.tokens[s.pos].kind.Comma? {
      t := FlowSequenceGrows(g, SkipTrivia(g, Advance(s)), items, trees, low, open, end);
    } else {
      var item := ParseValue(g, s);
      var tree := ValueGrows(g, s);
      if item.Ok? {
        var (v, id) := item.value;
        RowSnoc(g, s.document.nodes, v.document.nodes, items, trees, low, id, tree);
        t := FlowSequenceGrows(g, SkipTrivia(g, v), items + [id], trees + [tree], low, open,
                               SpanEnd(v.document.nodes, id, end));
      }
    }
  }

  lemma {:induction false} FlowKeyGrows(g: Grammar, s: PState, seen: bool) returns (t: Tree)
    requires Unmerged(g) && s.pos <= |g.tokens|
    ensures Grown(g, |s.document.nodes|, ParseFlowKey(g, s, seen), t)
    decreases |g.tokens| - s.pos
  {
    hide Planted, TriviaFrom;
    t := NO_TREE;
    var u := SkipTrivia(g, s);
    if u.pos < |g.tokens| {
      var kind := g.tokens[u.pos].kind;
      if kind.Scalar? {
        t := KeyScalarGrows(g, u, ParseFlowKey(g, s, seen));
      } else if kind.Anchor? || kind.Tag? {
        var next := SkipTrivia(g, Advance(u));
        var inner := seen || kind.Anchor?;
        var tree := FlowKeyGrows(g, next, inner);
        t := MarkGrows(g, |s.document.nodes|, ParseFlowKey(g, next, inner), kind, tree);
        if kind.Anchor? && seen && g.keyAnchors.FirstAnchor? {
          t := tree;
        }
      }
    }
  }

  lemma {:induction false} FlowMappingGrows(g: Grammar, s: PState, entries: seq<(NodeId, NodeId)>,
                                            trees: seq<(Tree, Tree)>, low: nat,
                                            open: Span, end: nat)
    returns (t: Tree)
    requires Unmerged(g) && s.pos <= |g.tokens| && low <= |s.document.nodes|
      && Table(g, s.document.nodes, entries, trees, low)
    ensures Grown(g, low, ParseFlowMapping(g, s, entries, open, end), t)
    decreases |g.tokens| - s.pos, 6
  {
    hide Planted, Table, Unmerged, TriviaFrom, ParseFlowKey, ParseFlowEntryValue, FinishMapping, SpanEnd;
    t := NO_TREE;
    if s.pos >= |g.tokens| {
      t := TableCloses(g, s, entries, trees, low, FlowSpan(open, end));
    } else if g.tokens[s.pos].kind.RightBrace? {
      t := TableCloses(g, Advance(s), entries, trees, low, FlowSpan(open, g.tokens[s.pos].span.end));
    } else if g.tokens[s.pos].kind.Comma? {
      t := FlowMappingGrows(g, SkipTrivia(g, Advance(s)), entries, trees, low, open, end);
    } else {
      var k := FlowKeyGrows(g, s, false);
      var key := ParseFlowKey(g, s, false);
      if key.Ok? {
        var (v, keyId) := key.value;
        var value := ParseFlowEntryValue(g, v);
        var _, tree := EntryValueGrows(g, v, ORIGIN);
        if value.Ok? {
          var (w, valueId) := value.value;
          TableSnoc(g, s.document.nodes, v.document.nodes, w.document.nodes, entries, trees, low, keyId, k, valueId,
                    tree);
          t := FlowMappingGrows(g, SkipTrivia(g, w), entries + [(keyId, valueId)], trees + [(k, tree)], low, open,
                                SpanEnd(w.document.nodes, valueId, SpanEnd(w.document.nodes, keyId, end)));
        }
      }
    }
  }

  // ----- Whole documents

  /** Every document so far is shown by a tree. */
  ghost predicate Forest(document: Document) {
    forall root | root in document.documents :: root < |document.nodes| && IsTree(document.nodes, root)
  }

  ghost predicate IsTree(nodes: seq<NodeData>, root: NodeId) {
    exists t :: Shows(nodes, root, t) && Unshared(t)
  }

  lemma TreeStays(nodes: seq<NodeData>, nodes': seq<NodeData>, root: NodeId)
    requires nodes <= nodes' && IsTree(nodes, root)
    ensures IsTree(nodes', root)
  {
    var t :| Shows(nodes, root, t) && Unshared(t);
    ShownIds(nodes, root, t);
    ShowsFrame(nodes, nodes', root, t);
  }

  lemma {:induction false} DocumentsGrow(g: Grammar, s: PState)
    requires Unmerged(g) && s.pos <= |g.tokens| && Forest(s.document)
    ensures ParseDocuments(g, s).Ok? ==> Forest(ParseDocuments(g, s).value.document)
    decreases |g.tokens| - s.pos
  {
    hide Unmerged, EndDocument, ParseValue, IsTree, TriviaFrom;
    if !AtEof(g.tokens, s.pos) && ParseOneDocument(g, s).Ok? {
      var content, start := DocumentContent(g, s), DocumentStartSpan(g, s);
      ContentGrows(g, content, start);
      var (t, root) := ParseDocument(g, content, start).value;
      hide ParseDocument;
      forall other | other in s.document.documents ensures IsTree(t.document.nodes, other) {
        TreeStays(s.document.nodes, t.document.nodes, other);
      }
      DocumentsGrow(g, ParseOneDocument(g, s).value);
    }
  }

  lemma ContentGrows(g: Grammar, s: PState, start: Option<Span>)
    requires Unmerged(g) && s.pos <= |g.tokens|
    ensures var r := ParseDocument(g, s, start); r.Ok? ==> IsTree(r.value.0.document.nodes, r.value.1)
  {
    hide ParseValue, TriviaFrom, Unmerged;
    var u := SkipTrivia(g, s);
    if AtEof(g.tokens, u.pos) || g.tokens[u.pos].kind.DocumentEnd? {
      var t := NullPlanted(g, u, if start.Some? then start.value else if u.pos < |g.tokens| then g.tokens[u.pos].span
                           else ORIGIN);
    } else {
      var t := ValueGrows(g, u);
    }
  }

  /**
   In a stream that merges nothing, every document is a tree: from its root no node is reached twice.
   So what the editor asks of a document holds of each one it parses, unless a `<<` key is expanded.
   */
  lemma ParsedUnshared(g: Grammar, root: NodeId)
    requires Unmerged(g) && Parse(g).Ok? && root in Parse(g).value.document.documents
    ensures var nodes := Parse(g).value.document.nodes;
      ArenaInvariant.NodesOk(g, nodes) && root < |nodes| && Unshared(Unfold(g, nodes, root))
  {
    ArenaInvariant.ParsedArenaOk(g);
    hide Unmerged, ParseDocuments, ConsumeDirectives, Unfold;
    var s := SkipTrivia(g, InitialState(g));
    var read := ConsumeDirectives(g, s).value;
    DocumentsGrow(g, read);
    var parsed := ParseDocuments(g, read).value;
    var document := Parse(g).value.document;
    if parsed.document.documents == [] {
      var t := NullPlanted(g, parsed, ORIGIN);
    }
    assert IsTree(document.nodes, root);
    var t :| Shows(document.nodes, root, t) && Unshared(t);
    OneTree(document.nodes, root, t, Unfold(g, document.nodes, root));
  }
}
