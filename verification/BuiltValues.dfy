/** The values an edit brings in: the nodes built for them, what those read as, and how they are printed. */
module BuiltValues {
  import opened Prelude
  import opened Syntax
  import opened Arena
  import opened EditTree
  import opened EditKept
  import opened Values
  import R = Resolve
  import Numbers
  import Printer
  import Serializer
  import RoundTrip
  import G = Grammar
  import L = Lexing

  datatype EditValue =
    | EScalar(value: ScalarValue)
    | ESequence(items: seq<EditValue>)
    | EMapping(entries: seq<(string, EditValue)>)

  const BARE := Header(None, [], None, None)

  function KeyScalar(name: string): ScalarData {
    ScalarData(String(name), Plain, name, None)
  }

  function BuiltScalar(floats: R.Floats, value: ScalarValue): ScalarData {
    match value
    case String(s) => ScalarData(value, DoubleQuoted, s, None)
    case Null => ScalarData(value, Plain, "", None)
    case Bool(b) => ScalarData(value, Plain, if b then "true" else "false", None)
    case Int(i) => ScalarData(value, Plain, Numbers.IntText(i), None)
    case Float(bits) => ScalarData(value, Plain, floats.text(bits), None)
    case Timestamp(s) => ScalarData(value, Plain, s, None)
  }

  /** The tree is what building the value gives, children first and without any layout of its own. */
  ghost predicate Spells(floats: R.Floats, t: Tree, value: EditValue)
    decreases value
  {
    t.header == BARE &&
    match value
    case EScalar(v) => t.Leaf? && t.kind == NodeKind.Scalar(BuiltScalar(floats, v))
    case ESequence(items) => t.Items? && |t.items| == |items| && forall i | 0 <= i < |items| ::
      t.items[i].id < t.id && Spells(floats, t.items[i], items[i])
    case EMapping(entries) => t.Entries? && |t.entries| == |entries| && forall i | 0 <= i < |entries| ::
      t.entries[i].0.id < t.id && t.entries[i].1.id < t.id && SpellsEntry(floats, t.entries[i], entries[i])
  }

  ghost predicate SpellsEntry(floats: R.Floats, e: (Tree, Tree), entry: (string, EditValue))
    decreases entry
  {
    assert entry.1 < entry;
    e.0.Leaf? && e.0.header == BARE && e.0.kind == NodeKind.Scalar(KeyScalar(entry.0)) && Spells(floats, e.1, entry.1)
  }

  /** What was built has no spans, so it can never pass for source text. */
  lemma {:induction false} BuiltKept(floats: R.Floats, t: Tree, value: EditValue, dirty: set<NodeId>, original: Tree)
    requires Spells(floats, t, value)
    ensures Kept(t, dirty, original)
    decreases value
  {
    match value
    case EScalar(_) =>
    case ESequence(items) =>
      forall i | 0 <= i < |items| ensures Kept(t.items[i], dirty, original) {
        BuiltKept(floats, t.items[i], items[i], dirty, original);
      }
    case EMapping(entries) =>
      forall i | 0 <= i < |entries| ensures KeptEntry(t.entries[i], dirty, original) {
        var entry := entries[i];
        assert entry.1 < entry && SpellsEntry(floats, t.entries[i], entry);
        BuiltKept(floats, t.entries[i].1, entry.1, dirty, original);
        EntryKept(t.entries[i], dirty, original);
      }
  }

  // ----- What was built reads as the value it was built for

  /** The value an edit value stands for. */
  function Meant(value: EditValue): Value
    decreases value
  {
    match value
    case EScalar(Null) => VNull
    case EScalar(Bool(b)) => VBool(b)
    case EScalar(Int(i)) => VInt(i)
    case EScalar(Float(bits)) => VFloat(bits)
    case EScalar(String(s)) => VString(s)
    case EScalar(Timestamp(s)) => VString(s)
    case ESequence(items) => VSequence(MeantItems(items))
    case EMapping(entries) => VMapping(MeantEntries(entries))
  }

  function MeantItems(items: seq<EditValue>): seq<Value>
    decreases items
  {
    if items == [] then [] else [Meant(items[0])] + MeantItems(items[1..])
  }

  function MeantEntries(entries: seq<(string, EditValue)>): seq<(Value, Value)>
    decreases entries
  {
    if entries == [] then [] else
    var entry := entries[0];
    assert entry.1 < entry;
    [(VString(entry.0), Meant(entry.1))] + MeantEntries(entries[1..])
  }

  /** A node that shows what building a value gives reads as that value, wherever it stands in the arena. */
  lemma {:induction false} BuiltReads(floats: R.Floats, nodes: seq<NodeData>, t: Tree, value: EditValue)
    requires Shows(nodes, t.id, t) && Spells(floats, t, value)
    ensures t.id < |nodes| && FromNode(nodes, t.id) == Meant(value)
    decreases value
  {
    match value
    case EScalar(_) =>
    case ESequence(items) => BuiltItemsRead(floats, nodes, nodes[t.id].kind.items, t.items, items, t.id);
    case EMapping(entries) => BuiltEntriesRead(floats, nodes, nodes[t.id].kind.entries, t.entries, entries, t.id);
  }

  lemma {:induction false} BuiltItemsRead(floats: R.Floats, nodes: seq<NodeData>, ids: seq<NodeId>, trees: seq<Tree>,
                                          items: seq<EditValue>, bound: nat)
    requires |ids| == |trees| == |items|
    requires forall i | 0 <= i < |items| ::
      trees[i].id < bound && Shows(nodes, ids[i], trees[i]) && Spells(floats, trees[i], items[i])
    ensures FromItems(nodes, ids, bound) == MeantItems(items)
    decreases items
  {
    hide Shows, Spells, FromNode;
    if items != [] {
      ShownId(nodes, ids[0], trees[0]);
      BuiltReads(floats, nodes, trees[0], items[0]);
      BuiltItemsRead(floats, nodes, ids[1..], trees[1..], items[1..], bound);
    }
  }

  lemma ShownId(nodes: seq<NodeData>, id: NodeId, t: Tree)
    requires Shows(nodes, id, t)
    ensures t.id == id < |nodes|
  {
  }

  lemma {:induction false} BuiltEntriesRead(floats: R.Floats, nodes: seq<NodeData>, ids: seq<(NodeId, NodeId)>,
                                            trees: seq<(Tree, Tree)>, entries: seq<(string, EditValue)>, bound: nat)
    requires |ids| == |trees| == |entries|
    requires forall i | 0 <= i < |entries| ::
      && trees[i].0.id < bound && trees[i].1.id < bound
      && ShowsEntry(nodes, ids[i], trees[i]) && SpellsEntry(floats, trees[i], entries[i])
    ensures FromEntries(nodes, ids, bound) == MeantEntries(entries)
    decreases entries
  {
    if entries != [] {
      hide Shows, Spells, FromNode;
      var e, entry := trees[0], entries[0];
      assert entry.1 < entry && ShowsEntry(nodes, ids[0], e) && SpellsEntry(floats, e, entry);
      ShownId(nodes, ids[0].1, e.1);
      KeyReads(nodes, ids[0].0, e.0, entry.0);
      BuiltReads(floats, nodes, e.1, entry.1);
      assert forall i | 0 <= i < |entries| - 1 :: ids[1..][i] == ids[i + 1] && trees[1..][i] == trees[i + 1];
      BuiltEntriesRead(floats, nodes, ids[1..], trees[1..], entries[1..], bound);
    }
  }

  lemma KeyReads(nodes: seq<NodeData>, id: NodeId, t: Tree, name: string)
    requires Shows(nodes, id, t) && t.Leaf? && t.header == BARE && t.kind == NodeKind.Scalar(KeyScalar(name))
    ensures t.id == id < |nodes| && FromNode(nodes, id) == VString(name)
  {
  }

  // ----- What was built prints as the value it was built for

  /**
   A built scalar holds its value, and its spelling means that value: texts are spelled by themselves,
   strings in quotes, floats by their text, and anything else resolves to the scalar under both
   versions. Printed on a line of its own it reads back as the value under all options, but for
   floats and timestamps.
   */
  lemma ScalarPrints(options: Options, floats: R.Floats, floatEq: (nat, nat) -> bool, keyAnchors: G.KeyAnchors,
                     alphabet: L.Alphabet, t: Tree, v: ScalarValue, version: YamlVersion)
    requires Spells(floats, t, EScalar(v)) && (v.Int? ==> Numbers.FitsI64(v.i))
    ensures t.kind.Scalar? && t.kind.scalar.value == v
    ensures var s := t.kind.scalar;
      && (s.style == if v.String? then DoubleQuoted else Plain)
      && match v
         case String(text) => s.raw == text
         case Timestamp(text) => s.raw == text
         case Float(bits) => s.raw == floats.text(bits)
         case _ => R.ResolveScalar(floats, s.raw, version) == v
    ensures !v.Float? && !v.Timestamp? ==>
      var text := Printer.ScalarText(floats, t.kind.scalar) + "\n";
      RoundTrip.ReadBack(RoundTrip.ConfigOf(options, floats, floatEq), keyAnchors, alphabet, text)
        == Some(Meant(EScalar(v)))
  {
    hide RoundTrip.ReadBack, R.ResolveNumber;
    R.WordsRoundTrip(floats, version);
    if v.Int? {
      R.IntRoundTrip(floats, v.i, version);
    }
    if !v.Float? && !v.Timestamp? {
      RoundTrip.WriteThenRead(options, floats, floatEq, keyAnchors, alphabet, Meant(EScalar(v)));
      PrintedAlone(floats, t.kind.scalar, Meant(EScalar(v)));
    }
  }

  lemma PrintedAlone(floats: R.Floats, s: ScalarData, v: Value)
    requires v.VNull? || v.VBool? || v.VInt? || v.VString?
    requires s == Serializer.StoredScalar(floats, v)
    ensures RoundTrip.Written(floats, v) == Printer.ScalarText(floats, s) + "\n"
  {
    hide Printer.ScalarText;
    assert Printer.TriviaText([], 0) == "" && Printer.Pad(0) == "";
    var nodes := Serializer.Store(floats, [], v).0;
    assert nodes == [Serializer.PlainNode(NodeKind.Scalar(s))];
    assert Printer.NodeText(floats, nodes, 0, 0) == Printer.ScalarText(floats, s) + "\n";
  }
}
