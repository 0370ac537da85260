/** Printing and parsing as inverses: serialize, pretty-print, tokenize, parse and read back. */
module RoundTrip {
  import opened Prelude
  import opened Syntax
  import opened Arena
  import opened Grammar
  import opened Numbers
  import opened Resolve
  import opened Values
  import opened Serializer
  import opened Printer
  import opened ValueText
  import opened QuotedScalars
  import opened LexedText
  import opened LexedSource
  import opened ParsedText
  import opened Decoding
  import L = Lexing

  /** The parser's configuration with its own resolution table. */
  function ConfigOf(options: Options, floats: Floats, floatEq: (nat, nat) -> bool): Config {
    Config(options, (raw, version) => ResolveScalar(floats, raw, version), floatEq)
  }

  lemma LeafResolves(floats: Floats, v: Value, version: YamlVersion)
    requires IsLeaf(v) && Printable(v) && !v.VString?
    ensures ResolveScalar(floats, LeafText(v), version) == LeafValue(v)
  {
    hide ResolveScalar;
    WordsRoundTrip(floats, version);
    if v.VInt? {
      IntRoundTrip(floats, v.i, version);
    }
  }

  lemma TableResolves(options: Options, floats: Floats, floatEq: (nat, nat) -> bool)
    ensures LeavesResolve(ConfigOf(options, floats, floatEq))
  {
    hide ResolveScalar, LeafText, LeafValue, Printable, IsLeaf;
    var cfg := ConfigOf(options, floats, floatEq);
    forall v: Value, version | IsLeaf(v) && Printable(v) && !v.VString?
      ensures cfg.resolve(LeafText(v), version) == LeafValue(v)
    {
      LeafResolves(floats, v, version);
    }
  }

  /** The text a value is written as. */
  function Written(floats: Floats, v: Value): string {
    PrettyPrint(floats, Store(floats, [], v).0, Store(floats, [], v).1)
  }

  /** The value of the only document of a text, or none if it is not one document. */
  function ReadBack(cfg: Config, keyAnchors: KeyAnchors, alphabet: L.Alphabet, text: string): Option<Value> {
    var tokens := L.Lex(alphabet, text);
    if tokens.Err? then None else
    var parsed := Parse(Grammar(cfg, keyAnchors, tokens.value));
    if parsed.Ok? && |parsed.value.document.documents| == 1
    then Some(FromNode(parsed.value.document.nodes, parsed.value.document.documents[0]))
    else None
  }

  /** A printed value lexes to the shapes of its lines and a final `Eof`. */
  lemma WrittenLexes(floats: Floats, alphabet: L.Alphabet, v: Value)
    requires Printable(v)
    ensures var tokens := L.Lex(alphabet, Written(floats, v));
      tokens.Ok? && ShapesOf(tokens.value)
        == LinesShapes(ValuePieces(v, 0), 1) + [Shape(Eof, 1 + |ValueLines(v, 0)|, 1)]
  {
    hide L.LexFrom, ValueLines, ValuePieces, PrettyPrint, Store, ShapesOf, Unlines;
    PrintedText(floats, v);
    ValueScans(alphabet, v, 0);
    AllLex(alphabet, ValueLines(v, 0), ValuePieces(v, 0));
  }

  /** Whatever the value, its text starts with a scalar, a bracket, a dash or a key. */
  lemma StartsWithContent(v: Value, n: nat)
    requires Printable(v)
    ensures var shapes := LinesShapes(ValuePieces(v, 0), n);
      shapes != [] && var kind := shapes[0].kind;
        (kind.Scalar? || kind.SequenceEntry? || kind.LeftBracket? || kind.LeftBrace?)
  {
    if IsBlock(v) {
      FirstShape(v, 0, n);
    } else {
      OneLine(InlinePieces(v, 0), [], n);
    }
  }

  /** Tokens that look like a printed value parse to one document, which reads as that value. */
  lemma ShapesParse(g: Grammar, v: Value)
    requires LeavesResolve(g.cfg) && Printable(v) && KeysOk(g.cfg.options.mergeKeys, v)
    requires ShapesOf(g.tokens) == LinesShapes(ValuePieces(v, 0), 1) + [Shape(Eof, 1 + |ValuePieces(v, 0)|, 1)]
    ensures Parse(g).Ok?
    ensures var document := Parse(g).value.document;
      |document.documents| == 1 && FromNode(document.nodes, document.documents[0]) == v
  {
    hide LeavesResolve, Printable, KeysOk, LinesShapes, ValuePieces;
    var shapes := LinesShapes(ValuePieces(v, 0), 1);
    var s := InitialState(g);
    assert forall k | 0 <= k < |shapes| :: ShapeOf(g.tokens[0 + k]) == ShapesOf(g.tokens)[k] == shapes[k];
    assert ShapeOf(g.tokens[|shapes|]) == ShapesOf(g.tokens)[|shapes|];
    StartsWithContent(v, 1);
    assert ShapeOf(g.tokens[0 + 0]) == shapes[0];
    hide ShapesOf;
    ValueParses(g, s, v, 0, 1);
    RootParses(g, v, |shapes|);
  }

  lemma RootParses(g: Grammar, v: Value, end: nat)
    requires Built(InitialState(g), ParseValue(g, InitialState(g)), v, end)
    requires |g.tokens| == end + 1 && g.tokens[end].kind.Eof? && end > 0
    requires var kind := g.tokens[0].kind; kind.Scalar? || kind.SequenceEntry? || kind.LeftBracket? || kind.LeftBrace?
    ensures Parse(g).Ok?
    ensures var document := Parse(g).value.document;
      |document.documents| == 1 && FromNode(document.nodes, document.documents[0]) == v
  {
    hide ParseValue, FromNode;
    var s := InitialState(g);
    assert SkipTrivia(g, s) == s;
    assert ConsumeDirectives(g, s) == Ok(s);
    var (t, root) := ParseValue(g, s).value;
    assert ParseDocument(g, s, None) == Ok((t, root));
    var u := PushRoot(t, root);
    assert SkipTrivia(g, u) == u;
    assert ConsumeDirectives(g, u) == Ok(u);
    assert EndDocument(g, u) == Ok(u);
    assert ParseOneDocument(g, s) == Ok(u);
    assert ParseDocuments(g, u) == Ok(u);
  }

  /**
   Printing then parsing is the identity: for every value without floats and tags whose mapping keys
   are scalars, under all options, provided no key is the string `<<` when merging is on.
   */
  lemma WriteThenRead(options: Options, floats: Floats, floatEq: (nat, nat) -> bool, keyAnchors: KeyAnchors,
                      alphabet: L.Alphabet, v: Value)
    requires Printable(v) && KeysOk(options.mergeKeys, v)
    ensures ReadBack(ConfigOf(options, floats, floatEq), keyAnchors, alphabet, Written(floats, v)) == Some(v)
  {
    hide L.Lex, Written, Parse, ShapesOf, LeavesResolve, Printable, KeysOk, LinesShapes, FromNode;
    TableResolves(options, floats, floatEq);
    WrittenLexes(floats, alphabet, v);
    var tokens := L.Lex(alphabet, Written(floats, v)).value;
    ValueScans(alphabet, v, 0);
    ShapesParse(Grammar(ConfigOf(options, floats, floatEq), keyAnchors, tokens), v);
  }

  // ----- What the exclusions are about

  /** A float printed as an integer reads back as that integer: `5.0` is written `5`. */
  lemma FloatReadsAsInt(options: Options, floats: Floats, floatEq: (nat, nat) -> bool, keyAnchors: KeyAnchors,
                        alphabet: L.Alphabet, bits: nat, i: int)
    requires floats.text(bits) == IntText(i) && FitsI64(i)
    ensures ReadBack(ConfigOf(options, floats, floatEq), keyAnchors, alphabet, Written(floats, VFloat(bits)))
      == Some(VInt(i))
  {
    hide ReadBack;
    assert Written(floats, VFloat(bits)) == Written(floats, VInt(i));
    WriteThenRead(options, floats, floatEq, keyAnchors, alphabet, VInt(i));
  }

  lemma {:induction false} StoredUntagged(floats: Floats, nodes: seq<NodeData>, v: Value)
    ensures Store(floats, nodes, v) == Store(floats, nodes, Untag(v))
    decreases v
  {
    match v
    case VTagged(_, inner) => StoredUntagged(floats, nodes, inner);
    case VSequence(items) => StoredItemsUntagged(floats, nodes, items);
    case VMapping(entries) => StoredEntriesUntagged(floats, nodes, entries);
    case _ =>
  }

  lemma {:induction false} StoredItemsUntagged(floats: Floats, nodes: seq<NodeData>, items: seq<Value>)
    ensures StoreItems(floats, nodes, items) == StoreItems(floats, nodes, UntagItems(items))
    decreases items
  {
    if items != [] {
      StoredUntagged(floats, nodes, items[0]);
      StoredItemsUntagged(floats, Store(floats, nodes, items[0]).0, items[1..]);
    }
  }

  lemma {:induction false} StoredEntriesUntagged(floats: Floats, nodes: seq<NodeData>, entries: seq<(Value, Value)>)
    ensures StoreEntries(floats, nodes, entries) == StoreEntries(floats, nodes, UntagEntries(entries))
    decreases entries
  {
    if entries != [] {
      var e := entries[0];
      assert e.0 < e && e.1 < e;
      StoredUntagged(floats, nodes, e.0);
      var mid := Store(floats, nodes, e.0).0;
      StoredUntagged(floats, mid, e.1);
      StoredEntriesUntagged(floats, Store(floats, mid, e.1).0, entries[1..]);
    }
  }

  /** Tags are not written: a value reads back without them, so it survives exactly when it has none. */
  lemma TagsAreDropped(options: Options, floats: Floats, floatEq: (nat, nat) -> bool, keyAnchors: KeyAnchors,
                       alphabet: L.Alphabet, v: Value)
    requires Printable(Untag(v)) && KeysOk(options.mergeKeys, Untag(v))
    ensures var read := ReadBack(ConfigOf(options, floats, floatEq), keyAnchors, alphabet, Written(floats, v));
      read == Some(Untag(v)) && (read == Some(v) <==> Tagless(v))
  {
    hide ReadBack;
    StoredUntagged(floats, [], v);
    assert Written(floats, v) == Written(floats, Untag(v));
    WriteThenRead(options, floats, floatEq, keyAnchors, alphabet, Untag(v));
    UntagKeeps(v);
  }

  // ----- A collection as a key

  /** A mapping whose first key is a collection is written without that key: its text starts with a colon. */
  lemma CollectionKeyText(floats: Floats, entries: seq<(Value, Value)>)
    requires entries != [] && (entries[0].0.VSequence? || entries[0].0.VMapping?)
    ensures var text := Written(floats, VMapping(entries));
      |text| > 1 && text[0] == ':' && (text[1] == ' ' || text[1] == '\n')
  {
    var (nodes, root) := Store(floats, [], VMapping(entries));
    var (stored, ids) := StoreEntries(floats, [], entries);
    var (key, value) := ids[0];
    FirstKeyStored(floats, entries);
    assert nodes[root].kind == NodeKind.Mapping(ids) && nodes[root].trivia == [] && nodes[key] == stored[key];
    hide Store, StoreEntries;
    EmptyKeyPrinted(floats, nodes, root);
  }

  /** A mapping whose first key has no text is printed from its colon on. */
  lemma EmptyKeyPrinted(floats: Floats, nodes: seq<NodeData>, root: NodeId)
    requires root < |nodes| && nodes[root].trivia == [] && nodes[root].kind.Mapping? && nodes[root].kind.entries != []
    requires var (key, value) := nodes[root].kind.entries[0];
      TriviaOf(nodes, key) == [] && TriviaOf(nodes, value) == [] && KeyText(floats, nodes, key) == ""
    ensures var text := PrettyPrint(floats, nodes, root);
      |text| > 1 && text[0] == ':' && (text[1] == ' ' || text[1] == '\n')
  {
    hide EntryHead, TailText, KeyText;
    var entries := nodes[root].kind.entries;
    var (key, value) := entries[0];
    EmptyKeyLine(floats, nodes, key, value, root);
    var head, tail := EntryHead(floats, nodes, key, value, 0), TailText(floats, nodes, value, root, 0);
    var rest := EntriesText(floats, nodes, entries[1..], root, 0);
    assert EntriesText(floats, nodes, entries, root, 0) == head + (tail + rest);
    hide EntriesText;
    assert NodeText(floats, nodes, root, 0) == head + (tail + rest);
    hide NodeText;
    assert TriviaText([], 0) + (head + (tail + rest)) == head + (tail + rest);
  }

  /** A key without a text of its own leaves only its colon, and its value begins with a blank or on a new line. */
  lemma EmptyKeyLine(floats: Floats, nodes: seq<NodeData>, key: NodeId, value: NodeId, bound: nat)
    requires TriviaOf(nodes, key) == [] && TriviaOf(nodes, value) == [] && KeyText(floats, nodes, key) == ""
    ensures EntryHead(floats, nodes, key, value, 0) == ":"
    ensures var tail := TailText(floats, nodes, value, bound, 0); |tail| > 0 && (tail[0] == ' ' || tail[0] == '\n')
  {
    hide NodeText, KeyText;
    assert Pad(0) == "";
  }

  /** The first key of a stored mapping is a collection if the value's is; nothing stored has trivia. */
  lemma FirstKeyStored(floats: Floats, entries: seq<(Value, Value)>)
    requires entries != [] && (entries[0].0.VSequence? || entries[0].0.VMapping?)
    ensures var (nodes, ids) := StoreEntries(floats, [], entries);
      ids != [] && !nodes[ids[0].0].kind.Scalar? && nodes[ids[0].0].trivia == [] && nodes[ids[0].1].trivia == []
  {
    var e := entries[0];
    assert e.0 < e && e.1 < e;
    var (first, key) := Store(floats, [], e.0);
    var (second, value) := Store(floats, first, e.1);
    StoredBare(floats, [], e.0);
    StoredBare(floats, first, e.1);
    var nodes := StoreEntries(floats, [], entries).0;
    assert first <= second <= nodes && nodes[key] == first[key] && nodes[value] == second[value];
  }

  lemma {:induction false} StoredBare(floats: Floats, nodes: seq<NodeData>, v: Value)
    ensures var (all, id) := Store(floats, nodes, v);
      all[id].trivia == [] && (v.VSequence? || v.VMapping? ==> !all[id].kind.Scalar?)
    decreases v
  {
    if v.VTagged? {
      StoredBare(floats, nodes, v.inner);
    }
  }

  /** Such a mapping never reads back, whatever else it holds. */
  lemma CollectionKeyIsLost(cfg: Config, floats: Floats, keyAnchors: KeyAnchors, alphabet: L.Alphabet,
                            entries: seq<(Value, Value)>)
    requires entries != [] && (entries[0].0.VSequence? || entries[0].0.VMapping?)
    ensures ReadBack(cfg, keyAnchors, alphabet, Written(floats, VMapping(entries))) == None
  {
    CollectionKeyText(floats, entries);
    var text := Written(floats, VMapping(entries));
    hide Written;
    StartsWithColon(alphabet, text);
    var tokens := L.Lex(alphabet, text);
    if tokens.Ok? {
      ColonFirst(Grammar(cfg, keyAnchors, tokens.value));
    }
  }

  lemma StartsWithColon(alphabet: L.Alphabet, text: string)
    requires |text| > 1 && text[0] == ':' && (text[1] == ' ' || text[1] == '\n')
    ensures var tokens := L.Lex(alphabet, text); tokens.Ok? ==> tokens.value != [] && tokens.value[0].kind.Colon?
  {
    var line := L.LineAt(text, 0);
    assert line != "" && line[0] == ':' && L.SpaceOrEnd(line, 1);
    assert L.PieceAt(alphabet, line, 0) == Ok(L.Inner(L.Piece(Colon, 0, 1)));
    hide L.PieceAt;
    var scan := L.ScanFrom(alphabet, line, 0);
    assert scan.Ok? ==> scan.value.pieces != [] && scan.value.pieces[0].kind.Colon?;
    hide L.ScanFrom;
    assert L.SpacesEnd(line, 0) == 0;
    L.ScanFits(alphabet, line, 0);
    var first := L.ScanLine(alphabet, text, 0);
    assert first.Ok? ==> first.value.0 != [] && first.value.0[0].kind.Colon?;
  }

  lemma ColonFirst(g: Grammar)
    requires g.tokens != [] && g.tokens[0].kind.Colon?
    ensures Parse(g).Err?
  {
    var s := InitialState(g);
    assert SkipPos(g.tokens, 0) == 0;
    var u := SkipTrivia(g, s);
    assert ConsumeDirectives(g, u).Ok? && ConsumeDirectives(g, u).value.pos == 0;
    var t := ConsumeDirectives(g, u).value;
    hide ConsumeDirectives;
    assert ParseValue(g, SkipTrivia(g, DocumentContent(g, t))).Err?;
    assert ParseDocument(g, DocumentContent(g, t), DocumentStartSpan(g, t)).Err?;
    assert ParseOneDocument(g, t).Err?;
  }
}
