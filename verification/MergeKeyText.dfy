/** With merging on, a value with a `<<` key never reads back as itself, however deep the key is. */
module MergeKeyText {
  import opened Prelude
  import opened Syntax
  import opened Arena
  import opened Grammar
  import opened Resolve
  import opened Values
  import opened ValueText
  import opened QuotedScalars
  import opened LexedText
  import opened LexedSource
  import opened ParsedText
  import opened RoundTrip
  import opened ArenaInvariant
  import L = Lexing
  import MK = MergeKeys

  // ----- Printed text holds only the scalars of the value

  ghost predicate PrintedKind(kind: TokenKind) {
    && !kind.Alias? && !kind.BlockScalar?
    && (kind.Scalar? ==> exists leaf | IsLeaf(leaf) && Printable(leaf) :: kind == LeafToken(leaf))
  }

  ghost predicate PrintedPieces(lines: seq<seq<L.Piece>>) {
    forall i, j | 0 <= i < |lines| && 0 <= j < |lines[i]| :: PrintedKind(lines[i][j].kind)
  }

  lemma InlinePrinted(v: Value, col: nat)
    requires Printable(v) && !IsBlock(v)
    ensures forall j | 0 <= j < |InlinePieces(v, col)| :: PrintedKind(InlinePieces(v, col)[j].kind)
  {
  }

  lemma {:induction false} ValuePrinted(v: Value, indent: nat)
    requires Printable(v)
    ensures PrintedPieces(ValuePieces(v, indent))
    decreases v, 1
  {
    hide PrintedKind;
    if !IsBlock(v) {
      InlinePrinted(v, indent);
    } else if v.VSequence? {
      ItemsPrinted(v.items, indent);
    } else {
      EntriesPrinted(v.entries, indent);
    }
  }

  lemma {:induction false} TailPrinted(head: seq<L.Piece>, at: nat, v: Value, indent: nat)
    requires Printable(v) && forall j | 0 <= j < |head| :: PrintedKind(head[j].kind)
    ensures PrintedPieces(TailPieces(head, at, v, indent))
    decreases v, 2
  {
    hide PrintedKind;
    if IsBlock(v) {
      ValuePrinted(v, indent + 2);
    } else {
      InlinePrinted(v, at + 1);
    }
  }

  lemma {:induction false} ItemsPrinted(items: seq<Value>, indent: nat)
    requires forall i | 0 <= i < |items| :: Printable(items[i])
    ensures PrintedPieces(ItemPieces(items, indent))
    decreases items, 0
  {
    if items != [] {
      assert PrintedKind(DashPieces(indent)[0].kind);
      TailPrinted(DashPieces(indent), indent + 1, items[0], indent);
      ItemsPrinted(items[1..], indent);
      hide PrintedKind, TailPieces;
    }
  }

  lemma {:induction false} EntriesPrinted(entries: seq<(Value, Value)>, indent: nat)
    requires forall i | 0 <= i < |entries| :: EntryPrintable(entries[i])
    ensures PrintedPieces(EntryPieces(entries, indent))
    decreases entries, 0
  {
    if entries != [] {
      var e := entries[0];
      assert e.0 < e && e.1 < e && EntryPrintable(e);
      var head := KeyPieces(e.0, indent);
      assert PrintedKind(head[0].kind) && PrintedKind(head[1].kind);
      TailPrinted(head, indent + |LeafText(e.0)| + 1, e.1, indent);
      EntriesPrinted(entries[1..], indent);
      hide PrintedKind, TailPieces, KeyPieces;
    }
  }

  lemma {:induction false} ShapesPrinted(lines: seq<seq<L.Piece>>, n: nat)
    requires PrintedPieces(lines)
    ensures forall k | 0 <= k < |LinesShapes(lines, n)| :: PrintedKind(LinesShapes(lines, n)[k].kind)
    decreases |lines|
  {
    hide PrintedKind;
    if lines != [] {
      ShapesPrinted(lines[1..], n + 1);
    }
  }

  // ----- No such arena

  ghost predicate PrintedTokens(tokens: seq<Token>) {
    forall i | 0 <= i < |tokens| :: PrintedKind(tokens[i].kind)
  }

  /** Among printed tokens, only the quoted `<<` reads as that string. */
  lemma OnlyMergeKeysReadSo(g: Grammar, nodes: seq<NodeData>, id: NodeId)
    requires LeavesResolve(g.cfg) && PrintedTokens(g.tokens) && NodesOk(g, nodes) && id < |nodes|
    requires FromNode(nodes, id) == VString("<<")
    ensures MK.IsMergeKey(nodes, id)
  {
    assert NodeOk(g, nodes, id);
    if nodes[id].kind.Alias? {
      assert false;
    } else {
      var scalar := nodes[id].kind.scalar;
      assert scalar.value == String("<<") || scalar.value == Timestamp("<<");
      var i :| 0 <= i < |g.tokens| && FromToken(g, g.tokens[i], scalar);
      assert PrintedKind(g.tokens[i].kind);
      var leaf :| IsLeaf(leaf) && Printable(leaf) && g.tokens[i].kind == LeafToken(leaf);
    }
  }

  lemma {:induction false} KeysReadApart(g: Grammar, nodes: seq<NodeData>, id: NodeId, v: Value)
    requires g.cfg.options.mergeKeys && LeavesResolve(g.cfg) && PrintedTokens(g.tokens) && NodesOk(g, nodes)
    requires id < |nodes| && FromNode(nodes, id) == v && Printable(v)
    ensures KeysOk(true, v)
    decreases v
  {
    hide LeavesResolve, PrintedTokens, Printable, KeysOk;
    assert NodeOk(g, nodes, id);
    assert !nodes[id].kind.Alias? by {
      if nodes[id].kind.Alias? {
        NoAliases(g.tokens);
      }
    }
    PartsPrintable(v);
    if nodes[id].kind.Sequence? {
      var items := nodes[id].kind.items;
      assert v == VSequence(FromItems(nodes, items, id));
      forall k | 0 <= k < |items| ensures KeysOk(true, v.items[k]) {
        assert ChildOk(g, nodes, id, items[k]);
        ItemAt(nodes, items, id, k);
        KeysReadApart(g, nodes, items[k], v.items[k]);
      }
    } else if nodes[id].kind.Mapping? {
      var entries := nodes[id].kind.entries;
      assert v == VMapping(FromEntries(nodes, entries, id));
      forall k | 0 <= k < |entries| ensures EntryKeysOk(true, v.entries[k]) {
        var e := v.entries[k];
        assert e.0 < e && e.1 < e;
        assert ChildOk(g, nodes, id, entries[k].0) && ChildOk(g, nodes, id, entries[k].1);
        EntryAt(nodes, entries, id, k);
        KeysReadApart(g, nodes, entries[k].1, e.1);
        if e.0 == VString("<<") {
          OnlyMergeKeysReadSo(g, nodes, entries[k].0);
        }
      }
    }
    KeysFromParts(v);
  }

  lemma NoAliases(tokens: seq<Token>)
    requires PrintedTokens(tokens)
    ensures !HasAlias(tokens)
  {
  }

  lemma PartsPrintable(v: Value)
    requires Printable(v)
    ensures !v.VTagged?
    ensures v.VSequence? ==> forall k | 0 <= k < |v.items| :: Printable(v.items[k])
    ensures v.VMapping? ==> forall k | 0 <= k < |v.entries| :: Printable(v.entries[k].1)
  {
    if v.VMapping? {
      forall k | 0 <= k < |v.entries| ensures Printable(v.entries[k].1) {
        assert EntryPrintable(v.entries[k]);
      }
    }
  }

  lemma KeysFromParts(v: Value)
    requires v.VSequence? ==> forall k | 0 <= k < |v.items| :: KeysOk(true, v.items[k])
    requires v.VMapping? ==> forall k | 0 <= k < |v.entries| :: EntryKeysOk(true, v.entries[k])
    ensures KeysOk(true, v)
  {
  }

  lemma {:induction false} ItemAt(nodes: seq<NodeData>, items: seq<NodeId>, bound: nat, k: nat)
    requires k < |items| && items[k] < bound
    ensures FromItems(nodes, items, bound)[k] == FromNode(nodes, items[k])
  {
    if k > 0 {
      ItemAt(nodes, items[1..], bound, k - 1);
    }
  }

  lemma {:induction false} EntryAt(nodes: seq<NodeData>, entries: seq<(NodeId, NodeId)>, bound: nat, k: nat)
    requires k < |entries| && entries[k].0 < bound && entries[k].1 < bound
    ensures FromEntries(nodes, entries, bound)[k] == (FromNode(nodes, entries[k].0), FromNode(nodes, entries[k].1))
  {
    if k > 0 {
      EntryAt(nodes, entries[1..], bound, k - 1);
    }
  }

  /** Exactly which values survive: those without a `<<` key, wherever merging is on. */
  lemma RoundTripExactly(options: Options, floats: Floats, floatEq: (nat, nat) -> bool, keyAnchors: KeyAnchors,
                         alphabet: L.Alphabet, v: Value)
    requires Printable(v)
    ensures ReadBack(ConfigOf(options, floats, floatEq), keyAnchors, alphabet, Written(floats, v)) == Some(v)
            <==> KeysOk(options.mergeKeys, v)
  {
    hide L.Lex, Written, Parse, LeavesResolve, Printable, KeysOk, FromNode, ShapesOf, LinesShapes;
    var cfg := ConfigOf(options, floats, floatEq);
    if KeysOk(options.mergeKeys, v) {
      WriteThenRead(options, floats, floatEq, keyAnchors, alphabet, v);
    } else if ReadBack(cfg, keyAnchors, alphabet, Written(floats, v)) == Some(v) {
      UnmergedKeysOk(v);
      TableResolves(options, floats, floatEq);
      WrittenLexes(floats, alphabet, v);
      var g := Grammar(cfg, keyAnchors, L.Lex(alphabet, Written(floats, v)).value);
      ValuePrinted(v, 0);
      ShapesPrinted(ValuePieces(v, 0), 1);
      TokensPrinted(g.tokens, LinesShapes(ValuePieces(v, 0), 1), Shape(Eof, 1 + |ValueLines(v, 0)|, 1));
      ParsedArenaOk(g);
      var document := Parse(g).value.document;
      assert document.documents[0] in document.documents;
      KeysReadApart(g, document.nodes, document.documents[0], v);
    }
  }

  lemma {:induction false} UnmergedKeysOk(v: Value)
    ensures KeysOk(false, v)
    decreases v
  {
    if v.VSequence? {
      forall k | 0 <= k < |v.items| ensures KeysOk(false, v.items[k]) {
        UnmergedKeysOk(v.items[k]);
      }
    } else if v.VMapping? {
      forall k | 0 <= k < |v.entries| ensures EntryKeysOk(false, v.entries[k]) {
        var e := v.entries[k];
        assert e.1 < e;
        UnmergedKeysOk(e.1);
      }
    }
  }

  lemma TokensPrinted(tokens: seq<Token>, shapes: seq<Shape>, last: Shape)
    requires ShapesOf(tokens) == shapes + [last] && last.kind.Eof?
    requires forall k | 0 <= k < |shapes| :: PrintedKind(shapes[k].kind)
    ensures PrintedTokens(tokens)
  {
    forall i | 0 <= i < |tokens| ensures PrintedKind(tokens[i].kind) {
      assert ShapesOf(tokens)[i] == ShapeOf(tokens[i]);
    }
  }
}
