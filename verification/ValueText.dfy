/** What printing a freshly stored value gives, line by line and straight from the value. */
module ValueText {
  import opened Prelude
  import opened Syntax
  import opened Arena
  import opened Numbers
  import opened Resolve
  import opened Values
  import opened Serializer
  import opened Printer

  predicate IsLeaf(v: Value) {
    v.VNull? || v.VBool? || v.VInt? || v.VString?
  }

  /** Values whose text reads back: no floats, no tags, `i64` integers, and scalar mapping keys. */
  predicate Printable(v: Value) {
    match v
    case VSequence(items) => forall i | 0 <= i < |items| :: Printable(items[i])
    case VMapping(entries) => forall i | 0 <= i < |entries| :: EntryPrintable(entries[i])
    case VInt(i) => FitsI64(i)
    case _ => IsLeaf(v)
  }

  predicate EntryPrintable(e: (Value, Value)) {
    assert e.0 < e && e.1 < e;
    IsLeaf(e.0) && Printable(e.0) && Printable(e.1)
  }

  predicate IsBlock(v: Value) {
    (v.VSequence? && v.items != []) || (v.VMapping? && v.entries != [])
  }

  function LeafText(v: Value): string
    requires IsLeaf(v)
  {
    match v
    case VNull => "null"
    case VBool(b) => BoolText(b)
    case VInt(i) => IntText(i)
    case VString(s) => "\"" + Escaped(s) + "\""
  }

  function Inline(v: Value): string
    requires Printable(v) && !IsBlock(v)
  {
    match v
    case VSequence(_) => "[]"
    case VMapping(_) => "{}"
    case _ => LeafText(v)
  }

  // ----- Lines

  function Unlines(lines: seq<string>): string {
    if lines == [] then "" else lines[0] + "\n" + Unlines(lines[1..])
  }

  lemma {:induction false} UnlinesConcat(a: seq<string>, b: seq<string>)
    ensures Unlines(a + b) == Unlines(a) + Unlines(b)
  {
    if a == [] {
      assert a + b == b;
    } else {
      assert (a + b)[1..] == a[1..] + b;
      UnlinesConcat(a[1..], b);
    }
  }

  function ValueLines(v: Value, indent: nat): (lines: seq<string>)
    requires Printable(v)
    ensures lines != []
    decreases v, 1
  {
    if !IsBlock(v) then [Pad(indent) + Inline(v)]
    else if v.VSequence? then ItemLines(v.items, indent)
    else EntryLines(v.entries, indent)
  }

  /** The head of an item or entry, with its value on the same line or on the lines below. */
  function TailLines(head: string, v: Value, indent: nat): (lines: seq<string>)
    requires Printable(v)
    ensures lines != []
    decreases v, 2
  {
    if IsBlock(v) then [head] + ValueLines(v, indent + 2) else [head + " " + Inline(v)]
  }

  function ItemLines(items: seq<Value>, indent: nat): (lines: seq<string>)
    requires forall i | 0 <= i < |items| :: Printable(items[i])
    ensures items != [] ==> lines != []
    decreases items, 0
  {
    if items == [] then [] else TailLines(Pad(indent) + "-", items[0], indent) + ItemLines(items[1..], indent)
  }

  function EntryLines(entries: seq<(Value, Value)>, indent: nat): (lines: seq<string>)
    requires forall i | 0 <= i < |entries| :: EntryPrintable(entries[i])
    ensures entries != [] ==> lines != []
    decreases entries, 0
  {
    if entries == [] then [] else
    var e := entries[0];
    assert e.0 < e && e.1 < e && EntryPrintable(e);
    TailLines(Pad(indent) + LeafText(e.0) + ":", e.1, indent) + EntryLines(entries[1..], indent)
  }

  // ----- Printing what was stored

  /** The node a value is stored in, seen in any larger arena. */
  lemma StoredNode(floats: Floats, nodes: seq<NodeData>, v: Value, all: seq<NodeData>)
    requires Printable(v) && Store(floats, nodes, v).0 <= all
    ensures var id := Store(floats, nodes, v).1;
      && all[id].trivia == [] && IsNonemptyCollection(all[id]) == IsBlock(v)
      && (!IsBlock(v) ==> InlineText(floats, all, all[id]) == Inline(v))
      && (IsLeaf(v) ==> KeyText(floats, all, id) == LeafText(v))
  {
  }

  lemma {:induction false} StoredText(floats: Floats, nodes: seq<NodeData>, v: Value, all: seq<NodeData>, indent: nat)
    requires Printable(v) && Store(floats, nodes, v).0 <= all
    ensures NodeText(floats, all, Store(floats, nodes, v).1, indent) == Unlines(ValueLines(v, indent))
    decreases v, 1
  {
    var (nodes', id) := Store(floats, nodes, v);
    StoredNode(floats, nodes, v, all);
    assert all[id] == nodes'[id];
    if !IsBlock(v) {
      var line := Pad(indent) + Inline(v);
      assert Unlines([line]) == line + "\n" + Unlines([]);
      assert NodeText(floats, all, id, indent) == line + "\n";
    } else {
      assert TriviaText([], indent) == "";
      if v.VSequence? {
        StoredItemsText(floats, nodes, v.items, all, id, indent);
      } else {
        StoredEntriesText(floats, nodes, v.entries, all, id, indent);
      }
    }
  }

  lemma Below(head: string, lines: seq<string>)
    ensures Unlines([head] + lines) == head + ("\n" + Unlines(lines))
    ensures [head] + [] == [head]
  {
    assert ([head] + lines)[1..] == lines;
  }

  lemma {:induction false} StoredTail(floats: Floats, nodes: seq<NodeData>, v: Value, all: seq<NodeData>, bound: nat,
                                      head: string, indent: nat)
    requires Printable(v) && Store(floats, nodes, v).0 <= all && Store(floats, nodes, v).1 < bound
    ensures head + TailText(floats, all, Store(floats, nodes, v).1, bound, indent)
      == Unlines(TailLines(head, v, indent))
    decreases v, 2
  {
    StoredNode(floats, nodes, v, all);
    hide InlineText, IsNonemptyCollection, Store, Printable, IsBlock, NodeText, ValueLines, Inline;
    if IsBlock(v) {
      StoredText(floats, nodes, v, all, indent + 2);
      Below(head, ValueLines(v, indent + 2));
    } else {
      Below(head + " " + Inline(v), []);
    }
  }

  lemma {:induction false} StoredItemsText(floats: Floats, nodes: seq<NodeData>, items: seq<Value>, all: seq<NodeData>,
                                           bound: nat, indent: nat)
    requires forall i | 0 <= i < |items| :: Printable(items[i])
    requires StoreItems(floats, nodes, items).0 <= all && |StoreItems(floats, nodes, items).0| <= bound
    ensures ItemsText(floats, all, StoreItems(floats, nodes, items).1, bound, indent)
      == Unlines(ItemLines(items, indent))
    decreases items, 0
  {
    if items != [] {
      var (nodes', id) := Store(floats, nodes, items[0]);
      StoredNode(floats, nodes, items[0], all);
      var head := Pad(indent) + "-";
      assert ItemHead(all, id, indent) == head by {
        assert TriviaText([], indent) == "";
      }
      StoredTail(floats, nodes, items[0], all, bound, head, indent);
      StoredItemsText(floats, nodes', items[1..], all, bound, indent);
      UnlinesConcat(TailLines(head, items[0], indent), ItemLines(items[1..], indent));
      hide TailText, TailLines, ItemHead, Pad;
      var ids := StoreItems(floats, nodes, items).1;
      assert ids[0] == id && ids[1..] == StoreItems(floats, nodes', items[1..]).1;
    }
  }

  lemma {:induction false} StoredEntriesText(floats: Floats, nodes: seq<NodeData>, entries: seq<(Value, Value)>,
                                             all: seq<NodeData>, bound: nat, indent: nat)
    requires forall i | 0 <= i < |entries| :: EntryPrintable(entries[i])
    requires StoreEntries(floats, nodes, entries).0 <= all && |StoreEntries(floats, nodes, entries).0| <= bound
    ensures EntriesText(floats, all, StoreEntries(floats, nodes, entries).1, bound, indent)
      == Unlines(EntryLines(entries, indent))
    decreases entries, 0
  {
    if entries != [] {
      var e := entries[0];
      assert e.0 < e && e.1 < e && EntryPrintable(e);
      var (nodes', key) := Store(floats, nodes, e.0);
      var (nodes'', value) := Store(floats, nodes', e.1);
      StoredNode(floats, nodes, e.0, all);
      StoredNode(floats, nodes', e.1, all);
      var head := Pad(indent) + LeafText(e.0) + ":";
      EntryHeadText(floats, all, key, value, indent, LeafText(e.0));
      StoredTail(floats, nodes', e.1, all, bound, head, indent);
      StoredEntriesText(floats, nodes'', entries[1..], all, bound, indent);
      UnlinesConcat(TailLines(head, e.1, indent), EntryLines(entries[1..], indent));
      hide TailText, TailLines, EntryHead, Pad, KeyText;
      var ids := StoreEntries(floats, nodes, entries).1;
      assert ids[0] == (key, value) && ids[1..] == StoreEntries(floats, nodes'', entries[1..]).1;
    }
  }

  lemma EntryHeadText(floats: Floats, all: seq<NodeData>, key: NodeId, value: NodeId, indent: nat, text: string)
    requires key < |all| && value < |all| && all[key].trivia == all[value].trivia == []
      && KeyText(floats, all, key) == text
    ensures EntryHead(floats, all, key, value, indent) == Pad(indent) + text + ":"
  {
    assert TriviaText([], indent) == "";
  }

  lemma {:induction false} UnlinesEnds(lines: seq<string>)
    requires lines != []
    ensures Unlines(lines) != "" && Unlines(lines)[|Unlines(lines)| - 1] == '\n'
  {
    if |lines| > 1 {
      UnlinesEnds(lines[1..]);
    }
  }

  /** Serializing and pretty-printing a value writes exactly its lines. */
  lemma PrintedText(floats: Floats, v: Value)
    requires Printable(v)
    ensures PrettyPrint(floats, Store(floats, [], v).0, Store(floats, [], v).1) == Unlines(ValueLines(v, 0))
  {
    var (nodes, root) := Store(floats, [], v);
    StoredNode(floats, [], v, nodes);
    StoredText(floats, [], v, nodes, 0);
    hide NodeText, ValueLines;
    assert TriviaText([], 0) == "";
    UnlinesEnds(ValueLines(v, 0));
  }
}
