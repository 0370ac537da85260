/** Parsing the tokens of a printed value builds nodes that read back as that value. */
module ParsedText {
  import opened Prelude
  import opened Syntax
  import opened Arena
  import opened Grammar
  import opened GrammarParts
  import opened Numbers
  import opened Resolve
  import opened Values
  import opened ValueText
  import opened QuotedScalars
  import opened LexedText
  import opened LexedSource
  import L = Lexing
  import MK = MergeKeys
  import MergeProperties

  // ----- What the parser is given

  function LeafValue(v: Value): ScalarValue
    requires IsLeaf(v)
  {
    match v
    case VNull => Null
    case VBool(b) => Bool(b)
    case VInt(i) => Int(i)
    case VString(s) => String(s)
  }

  /** Plain leaves resolve to what they were printed from, under either version. */
  ghost predicate LeavesResolve(cfg: Config) {
    forall v: Value, version | IsLeaf(v) && Printable(v) && !v.VString? ::
      cfg.resolve(LeafText(v), version) == LeafValue(v)
  }

  /** With merging on, a key spelled `<<` would be taken for a merge key, quoted or not. */
  predicate KeysOk(mergeKeys: bool, v: Value) {
    match v
    case VSequence(items) => forall i | 0 <= i < |items| :: KeysOk(mergeKeys, items[i])
    case VMapping(entries) => forall i | 0 <= i < |entries| :: EntryKeysOk(mergeKeys, entries[i])
    case _ => true
  }

  predicate EntryKeysOk(mergeKeys: bool, e: (Value, Value)) {
    assert e.1 < e;
    !(mergeKeys && e.0 == VString("<<")) && KeysOk(mergeKeys, e.1)
  }

  ghost predicate Ready(g: Grammar, s: PState) {
    LeavesResolve(g.cfg) && s.pos <= |g.tokens| && s.pending == []
  }

  /** The tokens from `pos` look like `shapes`. */
  ghost predicate Facing(g: Grammar, pos: nat, shapes: seq<Shape>) {
    pos + |shapes| <= |g.tokens| && forall k | 0 <= k < |shapes| :: ShapeOf(g.tokens[pos + k]) == shapes[k]
  }

  lemma FacingSplit(g: Grammar, pos: nat, a: seq<Shape>, b: seq<Shape>)
    requires Facing(g, pos, a + b)
    ensures Facing(g, pos, a) && Facing(g, pos + |a|, b)
  {
    forall k | 0 <= k < |a| ensures ShapeOf(g.tokens[pos + k]) == a[k] {
      assert (a + b)[k] == a[k];
    }
    forall k | 0 <= k < |b| ensures ShapeOf(g.tokens[pos + |a| + k]) == b[k] {
      assert ShapeOf(g.tokens[pos + (|a| + k)]) == (a + b)[|a| + k];
    }
  }

  /** The token at `pos` starts something new, on line `n` or later and no deeper than `indent`. */
  ghost predicate Outdented(g: Grammar, pos: nat, indent: nat, n: nat) {
    && pos < |g.tokens|
    && (g.tokens[pos].kind.Eof? || ((g.tokens[pos].kind.SequenceEntry? || g.tokens[pos].kind.Scalar?)
                                    && g.tokens[pos].span.line >= n && g.tokens[pos].span.column <= indent))
  }

  // ----- What it builds

  /** From `s`, the tokens up to `end` became a node that reads as `v`. */
  ghost predicate Built(s: PState, r: Parsed, v: Value, end: nat) {
    && r.Ok?
    && r.value.0.pos == end && r.value.0.anchors == s.anchors && r.value.0.pending == []
    && r.value.1 < |r.value.0.document.nodes| && FromNode(r.value.0.document.nodes, r.value.1) == v
  }

  ghost predicate ItemsBuilt(s: PState, r: Parsed, done: seq<NodeId>, values: seq<Value>, end: nat) {
    && r.Ok?
    && r.value.0.pos == end && r.value.0.anchors == s.anchors && r.value.0.pending == []
    && r.value.1 < |r.value.0.document.nodes| &&
    var (t, id) := r.value;
    var node := t.document.nodes[id];
    node.kind.Sequence? && node.tag.None? && done <= node.kind.items
      && FromItems(t.document.nodes, node.kind.items[|done|..], id) == values
  }

  ghost predicate EntriesBuilt(s: PState, r: Parsed, done: seq<(NodeId, NodeId)>, values: seq<(Value, Value)>,
                               end: nat) {
    && r.Ok?
    && r.value.0.pos == end && r.value.0.anchors == s.anchors && r.value.0.pending == []
    && r.value.1 < |r.value.0.document.nodes| &&
    var (t, id) := r.value;
    var node := t.document.nodes[id];
    node.kind.Mapping? && node.tag.None? && done <= node.kind.entries
      && FromEntries(t.document.nodes, node.kind.entries[|done|..], id) == values
  }

  // ----- Values on one line

  lemma LeafResolves(g: Grammar, s: PState, v: Value)
    requires LeavesResolve(g.cfg) && IsLeaf(v) && Printable(v)
    ensures var token := LeafToken(v);
      ResolveScalarValue(g, s, token.raw, token.style, token.tag) == Ok(LeafValue(v))
  {
  }

  lemma LeafParses(g: Grammar, s: PState, v: Value)
    requires Ready(g, s) && IsLeaf(v) && Printable(v) && s.pos < |g.tokens| && g.tokens[s.pos].kind == LeafToken(v)
    requires !PeekIsColon(g.tokens, s.pos)
    ensures Built(s, ParseValue(g, s), v, s.pos + 1)
  {
    LeafResolves(g, s, v);
    assert SkipTrivia(g, s) == s;
  }

  lemma EmptyParses(g: Grammar, s: PState, v: Value)
    requires Ready(g, s) && (v == VSequence([]) || v == VMapping([])) && s.pos + 1 < |g.tokens|
    requires g.tokens[s.pos].kind == (if v.VSequence? then LeftBracket else LeftBrace)
    requires g.tokens[s.pos + 1].kind == (if v.VSequence? then RightBracket else RightBrace)
    ensures Built(s, ParseValue(g, s), v, s.pos + 2)
  {
    assert SkipTrivia(g, s) == s;
    var next := Advance(s);
    assert SkipTrivia(g, next) == next;
    var span := g.tokens[s.pos].span;
    if v.VSequence? {
      assert ParseValue(g, s) == ParseFlowSequence(g, next, [], span, span.end);
    } else {
      assert ParseValue(g, s) == ParseFlowMapping(g, next, [], span, span.end);
      MergeProperties.NothingToMerge(g.cfg.options.mergeKeys, s.document.nodes, []);
    }
  }

  lemma InlineParses(g: Grammar, s: PState, v: Value, col: nat, n: nat)
    requires Ready(g, s) && Printable(v) && !IsBlock(v)
    requires Facing(g, s.pos, PieceShapes(InlinePieces(v, col), n))
    requires var end := s.pos + |InlinePieces(v, col)|; end < |g.tokens| && !g.tokens[end].kind.Colon?
    ensures Built(s, ParseValue(g, s), v, s.pos + |InlinePieces(v, col)|)
  {
    var shapes := PieceShapes(InlinePieces(v, col), n);
    assert ShapeOf(g.tokens[s.pos + 0]) == shapes[0];
    if IsLeaf(v) {
      LeafParses(g, s, v);
    } else {
      assert ShapeOf(g.tokens[s.pos + 1]) == shapes[1];
      EmptyParses(g, s, v);
    }
  }

  // ----- Shapes of blocks

  lemma {:induction false} LinesConcat(a: seq<seq<L.Piece>>, b: seq<seq<L.Piece>>, n: nat)
    ensures LinesShapes(a + b, n) == LinesShapes(a, n) + LinesShapes(b, n + |a|)
    decreases |a|
  {
    if a == [] {
      assert a + b == b;
    } else {
      assert (a + b)[1..] == a[1..] + b;
      LinesConcat(a[1..], b, n + 1);
    }
  }

  lemma OneLine(pieces: seq<L.Piece>, rest: seq<seq<L.Piece>>, n: nat)
    ensures LinesShapes([pieces] + rest, n) == PieceShapes(pieces, n) + LinesShapes(rest, n + 1)
    ensures LinesShapes([pieces], n) == PieceShapes(pieces, n)
  {
    assert ([pieces] + rest)[1..] == rest;
    assert [pieces][1..] == [];
  }

  lemma TwoParts(a: seq<L.Piece>, b: seq<L.Piece>, n: nat)
    ensures PieceShapes(a + b, n) == PieceShapes(a, n) + PieceShapes(b, n)
  {
  }

  /** A block starts with a dash or a key at its own column. */
  lemma FirstShape(v: Value, indent: nat, n: nat)
    requires Printable(v) && IsBlock(v)
    ensures var shapes := LinesShapes(ValuePieces(v, indent), n);
      && shapes != [] && shapes[0].line == n && shapes[0].column == indent + 1
      && (shapes[0].kind.SequenceEntry? || shapes[0].kind.Scalar?)
  {
    if v.VSequence? {
      HeadShape(DashPieces(indent), indent + 1, v.items[0], indent, n, ItemPieces(v.items[1..], indent));
    } else {
      var e := v.entries[0];
      assert e.0 < e && e.1 < e && EntryPrintable(e);
      HeadShape(KeyPieces(e.0, indent), indent + |LeafText(e.0)| + 1, e.1, indent, n,
                EntryPieces(v.entries[1..], indent));
    }
  }

  lemma HeadShape(head: seq<L.Piece>, at: nat, v: Value, indent: nat, n: nat, rest: seq<seq<L.Piece>>)
    requires Printable(v) && head != []
    ensures var shapes := LinesShapes(TailPieces(head, at, v, indent) + rest, n);
      shapes != [] && shapes[0] == Shape(head[0].kind, n, head[0].start + 1)
  {
    var lines := TailPieces(head, at, v, indent) + rest;
    assert lines != [] && lines[0] != [] && lines[0][0] == head[0];
  }

  // ----- Blocks

  lemma {:induction false} ValueParses(g: Grammar, s: PState, v: Value, indent: nat, n: nat)
    requires Ready(g, s) && Printable(v) && KeysOk(g.cfg.options.mergeKeys, v)
    requires Facing(g, s.pos, LinesShapes(ValuePieces(v, indent), n))
    requires Outdented(g, s.pos + |LinesShapes(ValuePieces(v, indent), n)|, indent, n + |ValuePieces(v, indent)|)
    ensures Built(s, ParseValue(g, s), v, s.pos + |LinesShapes(ValuePieces(v, indent), n)|)
    decreases v, 1
  {
    hide LeavesResolve, ParseBlockSequence, ParseBlockMapping, FromNode, FromItems, FromEntries, ItemPieces,
      EntryPieces, LinesShapes, PieceShapes;
    if !IsBlock(v) {
      OneLine(InlinePieces(v, indent), [], n);
      InlineParses(g, s, v, indent, n);
    } else {
      hide Outdented;
      var shapes := LinesShapes(ValuePieces(v, indent), n);
      FirstShape(v, indent, n);
      assert ShapeOf(g.tokens[s.pos + 0]) == shapes[0];
      assert SkipTrivia(g, s) == s;
      if v.VSequence? {
        SequenceStarts(v, indent, n);
        ItemsParse(g, s, v.items, [], None, 0, None, indent, n);
        assert ParseValue(g, s) == ParseBlockSequence(g, s, [], None, 0, None);
        AllItems(s, ParseValue(g, s), v.items, s.pos + |shapes|);
      } else {
        MappingStarts(v, indent, n);
        assert ShapeOf(g.tokens[s.pos + 1]) == shapes[1];
        EntriesParse(g, s, v.entries, [], None, 0, None, indent, n);
        assert ParseValue(g, s) == ParseBlockMapping(g, s, [], None, 0, None);
        AllEntries(s, ParseValue(g, s), v.entries, s.pos + |shapes|);
      }
    }
  }

  lemma AllItems(s: PState, r: Parsed, items: seq<Value>, end: nat)
    requires ItemsBuilt(s, r, [], items, end)
    ensures Built(s, r, VSequence(items), end)
  {
    var all := r.value.0.document.nodes[r.value.1].kind.items;
    assert all[0..] == all;
  }

  lemma AllEntries(s: PState, r: Parsed, entries: seq<(Value, Value)>, end: nat)
    requires EntriesBuilt(s, r, [], entries, end)
    ensures Built(s, r, VMapping(entries), end)
  {
    var all := r.value.0.document.nodes[r.value.1].kind.entries;
    assert all[0..] == all;
  }

  lemma SequenceStarts(v: Value, indent: nat, n: nat)
    requires Printable(v) && v.VSequence? && v.items != []
    ensures var shapes := LinesShapes(ItemPieces(v.items, indent), n); shapes != [] && shapes[0].kind.SequenceEntry?
  {
    HeadShape(DashPieces(indent), indent + 1, v.items[0], indent, n, ItemPieces(v.items[1..], indent));
  }

  lemma MappingStarts(v: Value, indent: nat, n: nat)
    requires Printable(v) && v.VMapping? && v.entries != []
    ensures var shapes := LinesShapes(EntryPieces(v.entries, indent), n);
      |shapes| > 1 && shapes[0].kind.Scalar? && shapes[1].kind.Colon?
  {
    var e := v.entries[0];
    assert e.0 < e && e.1 < e && EntryPrintable(e);
    var head := KeyPieces(e.0, indent);
    HeadShape(head, indent + |LeafText(e.0)| + 1, e.1, indent, n, EntryPieces(v.entries[1..], indent));
    var lines := TailPieces(head, indent + |LeafText(e.0)| + 1, e.1, indent) + EntryPieces(v.entries[1..], indent);
    assert |lines[0]| > 1 && lines[0][1] == head[1];
  }

  /** The shapes of a value behind the head of line `n`, on the same line or below it. */
  function TailFace(v: Value, at: nat, indent: nat, n: nat): seq<Shape>
    requires Printable(v)
  {
    if IsBlock(v) then LinesShapes(ValuePieces(v, indent + 2), n + 1) else PieceShapes(InlinePieces(v, at + 1), n)
  }

  function TailCount(v: Value, indent: nat): nat
    requires Printable(v)
  {
    if IsBlock(v) then 1 + |ValuePieces(v, indent + 2)| else 1
  }

  /** The shapes of an item or entry: its head, then its value. */
  lemma TailShapes(head: seq<L.Piece>, at: nat, v: Value, indent: nat, n: nat)
    requires Printable(v)
    ensures LinesShapes(TailPieces(head, at, v, indent), n) == PieceShapes(head, n) + TailFace(v, at, indent, n)
    ensures |TailPieces(head, at, v, indent)| == TailCount(v, indent)
  {
    if IsBlock(v) {
      OneLine(head, ValuePieces(v, indent + 2), n);
    } else {
      TwoParts(head, InlinePieces(v, at + 1), n);
      OneLine(head + InlinePieces(v, at + 1), [], n);
    }
  }

  /** The value behind a head that ends in front of `s`, inline on line `n` or as a block below it. */
  lemma {:induction false} TailParses(g: Grammar, s: PState, v: Value, at: nat, indent: nat, n: nat)
    requires Ready(g, s) && Printable(v) && KeysOk(g.cfg.options.mergeKeys, v)
    requires Facing(g, s.pos, TailFace(v, at, indent, n))
    requires Outdented(g, s.pos + |TailFace(v, at, indent, n)|, indent + 1, n + TailCount(v, indent))
    ensures Built(s, ParseValue(g, s), v, s.pos + |TailFace(v, at, indent, n)|)
    ensures s.pos < |g.tokens| && !IsTrivia(g.tokens[s.pos].kind)
    ensures ValueFollowsDash(g.tokens, s.pos, indent + 1, n) && ValueFollowsKey(g.tokens, s.pos, indent + 1, n)
    decreases v, 2
  {
    hide ParseValue, LeavesResolve, KeysOk, ValuePieces, LinesShapes, PieceShapes, FromNode;
    if IsBlock(v) {
      BlockFaced(g, s.pos, v, indent + 2, n + 1);
      hide IsBlock, Printable;
      ValueParses(g, s, v, indent + 2, n + 1);
    } else {
      InlineFaced(g, s.pos, v, at + 1, n);
      InlineParses(g, s, v, at + 1, n);
    }
  }

  lemma BlockFaced(g: Grammar, pos: nat, v: Value, indent: nat, n: nat)
    requires Printable(v) && IsBlock(v) && Facing(g, pos, LinesShapes(ValuePieces(v, indent), n))
    ensures pos < |g.tokens| && (g.tokens[pos].kind.SequenceEntry? || g.tokens[pos].kind.Scalar?)
    ensures g.tokens[pos].span.line == n && g.tokens[pos].span.column == indent + 1
  {
    FirstShape(v, indent, n);
    hide LinesShapes, ValuePieces;
    assert ShapeOf(g.tokens[pos + 0]) == LinesShapes(ValuePieces(v, indent), n)[0];
  }

  lemma InlineFaced(g: Grammar, pos: nat, v: Value, col: nat, n: nat)
    requires Printable(v) && !IsBlock(v) && Facing(g, pos, PieceShapes(InlinePieces(v, col), n))
    ensures pos < |g.tokens| && g.tokens[pos].span.line == n
    ensures g.tokens[pos].kind.Scalar? || g.tokens[pos].kind.LeftBracket? || g.tokens[pos].kind.LeftBrace?
  {
    assert ShapeOf(g.tokens[pos + 0]) == PieceShapes(InlinePieces(v, col), n)[0];
  }

  lemma {:induction false} ItemParses(g: Grammar, s: PState, v: Value, indent: nat, n: nat)
    requires Ready(g, s) && Printable(v) && KeysOk(g.cfg.options.mergeKeys, v)
    requires var lines := TailPieces(DashPieces(indent), indent + 1, v, indent);
      Facing(g, s.pos, LinesShapes(lines, n)) && Outdented(g, s.pos + |LinesShapes(lines, n)|, indent + 1, n + |lines|)
    ensures s.pos < |g.tokens| && ShapeOf(g.tokens[s.pos]) == Shape(SequenceEntry, n, indent + 1)
    ensures Built(Advance(s), ParseItem(g, Advance(s), g.tokens[s.pos].span), v,
                  s.pos + |LinesShapes(TailPieces(DashPieces(indent), indent + 1, v, indent), n)|)
    decreases v, 3
  {
    hide ParseValue, LeavesResolve, Printable, KeysOk, LinesShapes, TailPieces, TailFace, TailCount, Built, Outdented;
    var head := PieceShapes(DashPieces(indent), n);
    TailShapes(DashPieces(indent), indent + 1, v, indent, n);
    FacingSplit(g, s.pos, head, TailFace(v, indent + 1, indent, n));
    assert ShapeOf(g.tokens[s.pos + 0]) == head[0];
    TailParses(g, Advance(s), v, indent + 1, indent, n);
  }

  lemma {:induction false} ItemsParse(g: Grammar, s: PState, items: seq<Value>, done: seq<NodeId>, first: Option<Span>,
                                      lastEnd: nat,
                                      itemCol: Option<nat>, indent: nat, n: nat)
    requires Ready(g, s)
      && (forall i | 0 <= i < |items| :: Printable(items[i]) && KeysOk(g.cfg.options.mergeKeys, items[i]))
    requires Facing(g, s.pos, LinesShapes(ItemPieces(items, indent), n))
    requires Outdented(g, s.pos + |LinesShapes(ItemPieces(items, indent), n)|, indent, n + |ItemPieces(items, indent)|)
    requires itemCol == Some(indent + 1) || (itemCol.None? && items != [])
    requires forall id | id in done :: id < |s.document.nodes|
    ensures ItemsBuilt(s, ParseBlockSequence(g, s, done, first, lastEnd, itemCol), done, items,
                       s.pos + |LinesShapes(ItemPieces(items, indent), n)|)
    decreases items, 0
  {
    hide LeavesResolve, Printable, KeysOk, LinesShapes, TailPieces, FromNode, FromItems, Outdented, ItemPieces,
      ParseBlockSequence, ParseItem;
    var r := ParseBlockSequence(g, s, done, first, lastEnd, itemCol);
    var end := s.pos + |LinesShapes(ItemPieces(items, indent), n)|;
    if items == [] {
      hide ItemsBuilt;
      NoItems(indent);
      NoLines(n);
      ItemsEnd(g, s, done, first, lastEnd, indent, n);
    } else {
      var lines, rest := TailPieces(DashPieces(indent), indent + 1, items[0], indent), ItemPieces(items[1..], indent);
      ItemThenRest(items, indent);
      LinesConcat(lines, rest, n);
      FacingSplit(g, s.pos, LinesShapes(lines, n), LinesShapes(rest, n + |lines|));
      var mid := s.pos + |LinesShapes(lines, n)|;
      NextItemOutdented(g, mid, items[1..], indent, n + |lines|);
      ItemParses(g, s, items[0], indent, n);
      NextItem(g, s, done, first, lastEnd, itemCol);
      var dash := g.tokens[s.pos].span;
      var (t, id) := ParseItem(g, Advance(s), dash).value;
      var first' := if first.None? then Some(dash) else first;
      var lastEnd' := SpanEnd(t.document.nodes, id, Max(lastEnd, dash.end));
      ItemsParse(g, t, items[1..], done + [id], first', lastEnd', Some(indent + 1), indent, n + |lines|);
      ItemsJoin(t, r, done, id, items, end);
    }
  }

  /** No further item: the sequence ends where it stands. */
  lemma ItemsEnd(g: Grammar, s: PState, done: seq<NodeId>, first: Option<Span>, lastEnd: nat, indent: nat, n: nat)
    requires Ready(g, s) && Outdented(g, s.pos, indent, n)
    requires forall id | id in done :: id < |s.document.nodes|
    ensures ItemsBuilt(s, ParseBlockSequence(g, s, done, first, lastEnd, Some(indent + 1)), done, [], s.pos)
  {
    hide LeavesResolve;
    assert SkipTrivia(g, s) == s;
    assert done[|done|..] == [];
  }

  lemma NextItem(g: Grammar, s: PState, done: seq<NodeId>, first: Option<Span>, lastEnd: nat, itemCol: Option<nat>)
    requires Ready(g, s) && DashAt(g, s.pos, itemCol) && ParseItem(g, Advance(s), g.tokens[s.pos].span).Ok?
    ensures var dash := g.tokens[s.pos].span;
      var (t, id) := ParseItem(g, Advance(s), dash).value;
      ParseBlockSequence(g, s, done, first, lastEnd, itemCol)
      == ParseBlockSequence(g, t, done + [id], if first.None? then Some(dash) else first,
                            SpanEnd(t.document.nodes, id, Max(lastEnd, dash.end)), Some(dash.column))
  {
    hide ParseItem, LeavesResolve;
    assert SkipTrivia(g, s) == s;
  }

  lemma NoItems(indent: nat)
    ensures ItemPieces([], indent) == []
  {
  }

  lemma ItemThenRest(items: seq<Value>, indent: nat)
    requires items != [] && forall i | 0 <= i < |items| :: Printable(items[i])
    ensures ItemPieces(items, indent)
      == TailPieces(DashPieces(indent), indent + 1, items[0], indent) + ItemPieces(items[1..], indent)
  {
  }

  lemma NoLines(n: nat)
    ensures LinesShapes([], n) == []
  {
  }

  /** Behind an item comes the next one, or whatever follows the sequence. */
  lemma NextItemOutdented(g: Grammar, pos: nat, items: seq<Value>, indent: nat, n: nat)
    requires forall i | 0 <= i < |items| :: Printable(items[i])
    requires Facing(g, pos, LinesShapes(ItemPieces(items, indent), n))
    requires Outdented(g, pos + |LinesShapes(ItemPieces(items, indent), n)|, indent, n + |ItemPieces(items, indent)|)
    ensures Outdented(g, pos, indent + 1, n)
  {
    if items != [] {
      HeadShape(DashPieces(indent), indent + 1, items[0], indent, n, ItemPieces(items[1..], indent));
      assert ShapeOf(g.tokens[pos + 0]) == LinesShapes(ItemPieces(items, indent), n)[0];
    }
  }

  lemma ItemsJoin(t: PState, r: Parsed, done: seq<NodeId>, id: NodeId, items: seq<Value>, end: nat)
    requires items != [] && id < |t.document.nodes| && FromNode(t.document.nodes, id) == items[0]
    requires ItemsBuilt(t, r, done + [id], items[1..], end)
    requires t.document.nodes <= r.value.0.document.nodes && |t.document.nodes| <= r.value.1
    ensures ItemsBuilt(t, r, done, items, end)
  {
    var nodes := r.value.0.document.nodes;
    var all := nodes[r.value.1].kind.items;
    assert all[|done|..] == [id] + all[|done| + 1..];
    assert all[|done|] == (done + [id])[|done|] == id;
    FromNodeFrame(t.document.nodes, nodes, id);
    assert ([id] + all[|done| + 1..])[1..] == all[|done| + 1..];
    assert [items[0]] + items[1..] == items;
  }

  // ----- Mappings

  /** No leaf but the string `<<` is spelled like a merge key. */
  lemma SpelledApart(v: Value)
    requires IsLeaf(v) && v != VString("<<")
    ensures LeafToken(v).raw != "<<"
  {
    if !v.VString? {
      PlainLeaf(v);
      assert !PlainChar("<<"[0]);
    }
  }

  lemma KeyParses(g: Grammar, s: PState, key: Value, mergeKeys: bool)
    requires Ready(g, s) && IsLeaf(key) && Printable(key) && !(mergeKeys && key == VString("<<"))
    requires KeyAt(g, s.pos, None) && g.tokens[s.pos].kind == LeafToken(key)
    ensures Built(s, ParseBlockKey(g, s), key, s.pos + 1)
    ensures var (t, id) := ParseBlockKey(g, s).value; mergeKeys ==> !MK.IsMergeKey(t.document.nodes, id)
  {
    LeafResolves(g, s, key);
    if mergeKeys {
      SpelledApart(key);
    }
  }

  /** The value behind the key that ends in front of `t`, on line `n` and at the mapping's column. */
  lemma EntryValueParses(g: Grammar, t: PState, key: Span, v: Value, at: nat, indent: nat, n: nat)
    requires Ready(g, t) && Printable(v) && KeysOk(g.cfg.options.mergeKeys, v) && key.line == n
      && key.column == indent + 1
    requires t.pos < |g.tokens| && g.tokens[t.pos].kind.Colon?
    requires Facing(g, t.pos + 1, TailFace(v, at, indent, n))
    requires Outdented(g, t.pos + 1 + |TailFace(v, at, indent, n)|, indent + 1, n + TailCount(v, indent))
    ensures Built(t, ParseBlockEntryValue(g, t, key), v, t.pos + 1 + |TailFace(v, at, indent, n)|)
    decreases v, 3
  {
    hide ParseValue, LeavesResolve, Printable, KeysOk, TailFace, TailCount, Outdented, FromNode, Facing;
    assert SkipTrivia(g, t) == t;
    TailParses(g, Advance(t), v, at, indent, n);
    assert SkipTrivia(g, Advance(t)) == Advance(t);
  }

  /** The lines of one entry. */
  function OneEntry(e: (Value, Value), indent: nat): seq<seq<L.Piece>>
    requires EntryPrintable(e)
  {
    TailPieces(KeyPieces(e.0, indent), indent + |LeafText(e.0)| + 1, e.1, indent)
  }

  /** From `s`, the tokens up to `end` became a key and a value that read as the entry. */
  ghost predicate EntryBuilt(g: Grammar, s: PState, e: (Value, Value), end: nat) {
    && KeyAt(g, s.pos, None) && Built(s, ParseBlockKey(g, s), e.0, s.pos + 1) &&
    var (t, id) := ParseBlockKey(g, s).value;
    && (g.cfg.options.mergeKeys ==> !MK.IsMergeKey(t.document.nodes, id))
    && Built(t, ParseBlockEntryValue(g, t, g.tokens[s.pos].span), e.1, end)
  }

  /** The key at `s.pos`, its colon, and the value behind them. */
  lemma {:induction false} EntryParses(g: Grammar, s: PState, e: (Value, Value), indent: nat, n: nat)
    requires Ready(g, s) && EntryPrintable(e) && EntryKeysOk(g.cfg.options.mergeKeys, e)
    requires Facing(g, s.pos, LinesShapes(OneEntry(e, indent), n))
    requires Outdented(g, s.pos + |LinesShapes(OneEntry(e, indent), n)|, indent + 1, n + |OneEntry(e, indent)|)
    ensures s.pos < |g.tokens| && ShapeOf(g.tokens[s.pos]) == Shape(LeafToken(e.0), n, indent + 1)
    ensures EntryBuilt(g, s, e, s.pos + |LinesShapes(OneEntry(e, indent), n)|)
    decreases e.1, 4
  {
    hide LeavesResolve, Printable, KeysOk, LinesShapes, TailFace, TailCount, Outdented, LeafToken, FromNode;
    hide ParseBlockEntryValue, ParseBlockKey, OneEntry, Facing, LeafText, MK.IsMergeKey, EntryPrintable, EntryKeysOk;
    EntryParts(g.cfg.options.mergeKeys, e);
    var at := indent + |LeafText(e.0)| + 1;
    EntryKeyParses(g, s, e, at, indent, n);
    EntryValueParses(g, ParseBlockKey(g, s).value.0, g.tokens[s.pos].span, e.1, at, indent, n);
  }

  lemma EntryParts(mergeKeys: bool, e: (Value, Value))
    requires EntryPrintable(e) && EntryKeysOk(mergeKeys, e)
    ensures IsLeaf(e.0) && Printable(e.1) && KeysOk(mergeKeys, e.1)
  {
    hide Printable, KeysOk;
  }

  /** The key of an entry, with the colon and the value still ahead. */
  lemma EntryKeyParses(g: Grammar, s: PState, e: (Value, Value), at: nat, indent: nat, n: nat)
    requires Ready(g, s) && EntryPrintable(e) && EntryKeysOk(g.cfg.options.mergeKeys, e)
      && at == indent + |LeafText(e.0)| + 1
    requires Facing(g, s.pos, LinesShapes(OneEntry(e, indent), n))
    ensures s.pos + 1 < |g.tokens| && ShapeOf(g.tokens[s.pos]) == Shape(LeafToken(e.0), n, indent + 1)
      && KeyAt(g, s.pos, None)
    ensures g.tokens[s.pos + 1].kind.Colon? && Facing(g, s.pos + 2, TailFace(e.1, at, indent, n))
    ensures |LinesShapes(OneEntry(e, indent), n)| == 2 + |TailFace(e.1, at, indent, n)|
      && |OneEntry(e, indent)| == TailCount(e.1, indent)
    ensures Built(s, ParseBlockKey(g, s), e.0, s.pos + 1) && Ready(g, ParseBlockKey(g, s).value.0)
    ensures g.cfg.options.mergeKeys ==>
      !MK.IsMergeKey(ParseBlockKey(g, s).value.0.document.nodes, ParseBlockKey(g, s).value.1)
  {
    hide LeavesResolve, Printable, KeysOk, LinesShapes, TailFace, TailCount, LeafToken, FromNode;
    hide ParseBlockKey, OneEntry, Facing, LeafText, MK.IsMergeKey;
    EntryFaced(g, s.pos, e, at, indent, n);
    TokenOfLeaf(e.0);
    KeyParses(g, s, e.0, g.cfg.options.mergeKeys);
  }

  /** The tokens of an entry: its key, the colon, and the value on the same line or below. */
  lemma EntryFaced(g: Grammar, pos: nat, e: (Value, Value), at: nat, indent: nat, n: nat)
    requires EntryPrintable(e) && at == indent + |LeafText(e.0)| + 1
      && Facing(g, pos, LinesShapes(OneEntry(e, indent), n))
    ensures pos + 1 < |g.tokens| && ShapeOf(g.tokens[pos]) == Shape(LeafToken(e.0), n, indent + 1)
      && g.tokens[pos + 1].kind.Colon?
    ensures Facing(g, pos + 2, TailFace(e.1, at, indent, n))
      && |LinesShapes(OneEntry(e, indent), n)| == 2 + |TailFace(e.1, at, indent, n)|
    ensures |OneEntry(e, indent)| == TailCount(e.1, indent)
  {
    hide Printable, LinesShapes, TailFace, TailCount, LeafToken;
    var head := PieceShapes(KeyPieces(e.0, indent), n);
    TailShapes(KeyPieces(e.0, indent), at, e.1, indent, n);
    hide PieceShapes;
    FacingSplit(g, pos, head, TailFace(e.1, at, indent, n));
    assert ShapeOf(g.tokens[pos + 0]) == head[0] && ShapeOf(g.tokens[pos + 1]) == head[1];
  }

  lemma TokenOfLeaf(v: Value)
    requires IsLeaf(v)
    ensures LeafToken(v).Scalar?
  {
  }

  lemma {:induction false} EntriesParse(g: Grammar, s: PState, entries: seq<(Value, Value)>,
                                        done: seq<(NodeId, NodeId)>, first: Option<Span>,
                                        lastEnd: nat, entryCol: Option<nat>, indent: nat, n: nat)
    requires Ready(g, s)
      && (forall i | 0 <= i < |entries| ::
          EntryPrintable(entries[i]) && EntryKeysOk(g.cfg.options.mergeKeys, entries[i]))
    requires Facing(g, s.pos, LinesShapes(EntryPieces(entries, indent), n))
    requires Outdented(g, s.pos + |LinesShapes(EntryPieces(entries, indent), n)|, indent,
                       n + |EntryPieces(entries, indent)|)
    requires entryCol == Some(indent + 1) || (entryCol.None? && entries != [])
    requires NoMergeKeys(g, s, done)
    ensures EntriesBuilt(s, ParseBlockMapping(g, s, done, first, lastEnd, entryCol), done, entries,
                         s.pos + |LinesShapes(EntryPieces(entries, indent), n)|)
    decreases entries, 0
  {
    hide LeavesResolve, Printable, KeysOk, LinesShapes, TailPieces, LeafToken, ParseBlockMapping, ParseBlockKey,
      ParseBlockEntryValue;
    hide FromNode, FromEntries, OneEntry, EntryPieces;
    var r := ParseBlockMapping(g, s, done, first, lastEnd, entryCol);
    var end := s.pos + |LinesShapes(EntryPieces(entries, indent), n)|;
    if entries == [] {
      assert EntryPieces([], indent) == [] by { NoEntries(indent); }
      NoLines(n);
      EntriesEnd(g, s, done, first, lastEnd, entryCol);
    } else {
      var e := entries[0];
      assert e.0 < e && e.1 < e && EntryPrintable(e) && EntryKeysOk(g.cfg.options.mergeKeys, e);
      var lines, rest := OneEntry(e, indent), EntryPieces(entries[1..], indent);
      EntryThenRest(entries, indent);
      LinesConcat(lines, rest, n);
      FacingSplit(g, s.pos, LinesShapes(lines, n), LinesShapes(rest, n + |lines|));
      NextEntryOutdented(g, s.pos + |LinesShapes(lines, n)|, entries[1..], indent, n + |lines|);
      EntryParses(g, s, e, indent, n);
      TokenOfLeaf(e.0);
      var token := g.tokens[s.pos].span;
      var (t, key) := ParseBlockKey(g, s).value;
      var (u, value) := ParseBlockEntryValue(g, t, token).value;
      var first' := if first.None? then Some(token) else first;
      var lastEnd' := SpanEnd(u.document.nodes, value, SpanEnd(u.document.nodes, key, lastEnd));
      EntryUnfolds(g, s, done, first, lastEnd, entryCol);
      MoreKeys(g, s, done, t, key, u, value);
      hide NoMergeKeys, Facing, Outdented, EntryPrintable, EntryKeysOk;
      EntriesParse(g, u, entries[1..], done + [(key, value)], first', lastEnd', Some(indent + 1), indent, n + |lines|);
      EntriesJoin(t, u, r, done, key, value, entries, end);
      EntriesFrom(s, u, r, done, entries, end);
    }
  }

  lemma NoEntries(indent: nat)
    ensures EntryPieces([], indent) == []
  {
  }

  lemma EntryThenRest(entries: seq<(Value, Value)>, indent: nat)
    requires entries != [] && forall i | 0 <= i < |entries| :: EntryPrintable(entries[i])
    ensures EntryPieces(entries, indent) == OneEntry(entries[0], indent) + EntryPieces(entries[1..], indent)
  {
    assert EntryPrintable(entries[0]);
  }

  lemma EntriesEnd(g: Grammar, s: PState, done: seq<(NodeId, NodeId)>, first: Option<Span>, lastEnd: nat,
                   entryCol: Option<nat>)
    requires Ready(g, s) && NoMergeKeys(g, s, done) && !KeyAt(g, s.pos, entryCol)
    requires s.pos < |g.tokens| ==> !IsTrivia(g.tokens[s.pos].kind)
    ensures EntriesBuilt(s, ParseBlockMapping(g, s, done, first, lastEnd, entryCol), done, [], s.pos)
  {
    assert SkipTrivia(g, s) == s;
    MergeProperties.NothingToMerge(g.cfg.options.mergeKeys, s.document.nodes, done);
    assert done[|done|..] == [];
  }

  lemma EntryUnfolds(g: Grammar, s: PState, done: seq<(NodeId, NodeId)>, first: Option<Span>, lastEnd: nat,
                     entryCol: Option<nat>)
    requires Ready(g, s) && KeyAt(g, s.pos, entryCol) && ParseBlockKey(g, s).Ok?
    requires ParseBlockEntryValue(g, ParseBlockKey(g, s).value.0, g.tokens[s.pos].span).Ok?
    ensures var token := g.tokens[s.pos].span;
      var (t, key) := ParseBlockKey(g, s).value;
      var (u, value) := ParseBlockEntryValue(g, t, token).value;
      ParseBlockMapping(g, s, done, first, lastEnd, entryCol) ==
        ParseBlockMapping(g, u, done + [(key, value)], if first.None? then Some(token) else first,
                          SpanEnd(u.document.nodes, value, SpanEnd(u.document.nodes, key, lastEnd)), Some(token.column))
  {
    hide ParseBlockKey, ParseBlockEntryValue, FinishMapping;
    assert SkipTrivia(g, s) == s;
  }

  ghost predicate NoMergeKeys(g: Grammar, s: PState, entries: seq<(NodeId, NodeId)>) {
    forall e | e in entries ::
      e.0 < |s.document.nodes| && (g.cfg.options.mergeKeys ==> !MK.IsMergeKey(s.document.nodes, e.0))
  }

  lemma MoreKeys(g: Grammar, s: PState, done: seq<(NodeId, NodeId)>, t: PState, key: NodeId, u: PState, value: NodeId)
    requires NoMergeKeys(g, s, done) && s.document.nodes <= t.document.nodes <= u.document.nodes
    requires key < |t.document.nodes| && (g.cfg.options.mergeKeys ==> !MK.IsMergeKey(t.document.nodes, key))
    ensures NoMergeKeys(g, u, done + [(key, value)])
  {
  }

  /** Behind an entry comes the next key, or whatever follows the mapping. */
  lemma NextEntryOutdented(g: Grammar, pos: nat, entries: seq<(Value, Value)>, indent: nat, n: nat)
    requires forall i | 0 <= i < |entries| :: EntryPrintable(entries[i])
    requires Facing(g, pos, LinesShapes(EntryPieces(entries, indent), n))
    requires Outdented(g, pos + |LinesShapes(EntryPieces(entries, indent), n)|, indent,
                       n + |EntryPieces(entries, indent)|)
    ensures Outdented(g, pos, indent + 1, n)
  {
    if entries != [] {
      var e := entries[0];
      assert e.0 < e && e.1 < e && EntryPrintable(e);
      TokenOfLeaf(e.0);
      HeadShape(KeyPieces(e.0, indent), indent + |LeafText(e.0)| + 1, e.1, indent, n,
                EntryPieces(entries[1..], indent));
      assert ShapeOf(g.tokens[pos + 0]) == LinesShapes(EntryPieces(entries, indent), n)[0];
    }
  }

  lemma EntriesJoin(t: PState, u: PState, r: Parsed, done: seq<(NodeId, NodeId)>, key: NodeId, value: NodeId,
                    entries: seq<(Value, Value)>, end: nat)
    requires entries != [] && key < |t.document.nodes| && FromNode(t.document.nodes, key) == entries[0].0
    requires t.document.nodes <= u.document.nodes && value < |u.document.nodes|
      && FromNode(u.document.nodes, value) == entries[0].1
    requires EntriesBuilt(u, r, done + [(key, value)], entries[1..], end)
    requires u.document.nodes <= r.value.0.document.nodes && |u.document.nodes| <= r.value.1
    ensures EntriesBuilt(u, r, done, entries, end)
  {
    var nodes := r.value.0.document.nodes;
    var all := nodes[r.value.1].kind.entries;
    assert all[|done|] == (done + [(key, value)])[|done|] == (key, value);
    assert all[|done|..] == [(key, value)] + all[|done| + 1..];
    FromNodeFrame(t.document.nodes, nodes, key);
    FromNodeFrame(u.document.nodes, nodes, value);
    assert ([(key, value)] + all[|done| + 1..])[1..] == all[|done| + 1..];
    assert [entries[0]] + entries[1..] == entries;
    assert entries[0] == (entries[0].0, entries[0].1);
  }

  lemma EntriesFrom(s: PState, u: PState, r: Parsed, done: seq<(NodeId, NodeId)>, entries: seq<(Value, Value)>,
                    end: nat)
    requires EntriesBuilt(u, r, done, entries, end) && u.anchors == s.anchors
    ensures EntriesBuilt(s, r, done, entries, end)
  {
  }
}
