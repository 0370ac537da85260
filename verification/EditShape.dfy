/** Changing one node of an arena in place is editing the tree, as long as no node is shared. */
module EditShape {
  import opened Prelude
  import opened Syntax
  import opened Arena
  import opened EditTree

  // ----- Ids, by position

  lemma {:induction false} ItemIdsAt(items: seq<Tree>, i: nat)
    requires i < |items|
    ensures Ids(items[i]) <= ItemIds(items)
    ensures ItemsUnshared(items) ==> Unshared(items[i])
    decreases i
  {
    if i > 0 {
      ItemIdsAt(items[1..], i - 1);
    }
  }

  lemma {:induction false} EntryIdsAt(entries: seq<(Tree, Tree)>, i: nat)
    requires i < |entries|
    ensures Ids(entries[i].0) <= EntryIds(entries) && Ids(entries[i].1) <= EntryIds(entries)
    ensures EntriesUnshared(entries) ==>
      Unshared(entries[i].0) && Unshared(entries[i].1) && Ids(entries[i].0) !! Ids(entries[i].1)
    decreases i
  {
    if i > 0 {
      EntryIdsAt(entries[1..], i - 1);
    }
  }

  lemma {:induction false} ItemsApart(items: seq<Tree>, i: nat, j: nat)
    requires ItemsUnshared(items) && i < |items| && j < |items| && i != j
    ensures Ids(items[i]) !! Ids(items[j])
    decreases i + j
  {
    if i == 0 {
      ItemIdsAt(items[1..], j - 1);
    } else if j == 0 {
      ItemIdsAt(items[1..], i - 1);
    } else {
      ItemsApart(items[1..], i - 1, j - 1);
    }
  }

  lemma {:induction false} EntriesApart(entries: seq<(Tree, Tree)>, i: nat, j: nat)
    requires EntriesUnshared(entries) && i < |entries| && j < |entries| && i != j
    ensures (Ids(entries[i].0) + Ids(entries[i].1)) !! (Ids(entries[j].0) + Ids(entries[j].1))
    decreases i + j
  {
    if i == 0 {
      EntryIdsAt(entries[1..], j - 1);
    } else if j == 0 {
      EntryIdsAt(entries[1..], i - 1);
    } else {
      EntriesApart(entries[1..], i - 1, j - 1);
    }
  }

  lemma EntryShown(nodes: seq<NodeData>, ids: (NodeId, NodeId), e: (Tree, Tree))
    ensures ShowsEntry(nodes, ids, e) <==> Shows(nodes, ids.0, e.0) && Shows(nodes, ids.1, e.1)
    ensures ShowsEntry(nodes, ids, e) ==> e.0.id == ids.0 && e.1.id == ids.1
  {
  }

  // ----- Only a tree's own nodes matter to it

  lemma {:induction false} ShowsFrame(nodes: seq<NodeData>, nodes': seq<NodeData>, id: NodeId, t: Tree)
    requires Shows(nodes, id, t)
    requires forall i | i in Ids(t) :: i < |nodes| && i < |nodes'| && nodes'[i] == nodes[i]
    ensures Shows(nodes', id, t)
    decreases t
  {
    match t
    case Leaf(_, _, _) => assert id in Ids(t);
    case Items(_, _, items) =>
      assert id in Ids(t);
      forall i | 0 <= i < |items| ensures Shows(nodes', nodes'[id].kind.items[i], items[i]) {
        ItemIdsAt(items, i);
        ShowsFrame(nodes, nodes', nodes[id].kind.items[i], items[i]);
      }
    case Entries(_, _, entries) =>
      assert id in Ids(t);
      forall i | 0 <= i < |entries| ensures ShowsEntry(nodes', nodes'[id].kind.entries[i], entries[i]) {
        EntryIdsAt(entries, i);
        var e := entries[i];
        assert e.0 < e && e.1 < e;
        EntryShown(nodes, nodes[id].kind.entries[i], e);
        ShowsFrame(nodes, nodes', nodes[id].kind.entries[i].0, e.0);
        ShowsFrame(nodes, nodes', nodes[id].kind.entries[i].1, e.1);
        EntryShown(nodes', nodes[id].kind.entries[i], e);
      }
  }

  lemma {:induction false} ShownIds(nodes: seq<NodeData>, id: NodeId, t: Tree)
    requires Shows(nodes, id, t)
    ensures forall i | i in Ids(t) :: i < |nodes|
    decreases t
  {
    match t
    case Leaf(_, _, _) =>
    case Items(_, _, items) => ShownItemIds(nodes, nodes[id].kind.items, items);
    case Entries(_, _, entries) => ShownEntryIds(nodes, nodes[id].kind.entries, entries);
  }

  lemma {:induction false} ShownItemIds(nodes: seq<NodeData>, ids: seq<NodeId>, items: seq<Tree>)
    requires |ids| == |items| && forall i | 0 <= i < |items| :: Shows(nodes, ids[i], items[i])
    ensures forall i | i in ItemIds(items) :: i < |nodes|
    decreases items
  {
    if items != [] {
      ShownIds(nodes, ids[0], items[0]);
      forall i | 0 <= i < |items| - 1 ensures Shows(nodes, ids[1..][i], items[1..][i]) {
        assert Shows(nodes, ids[i + 1], items[i + 1]);
      }
      ShownItemIds(nodes, ids[1..], items[1..]);
    }
  }

  lemma {:induction false} ShownEntryIds(nodes: seq<NodeData>, ids: seq<(NodeId, NodeId)>, entries: seq<(Tree, Tree)>)
    requires |ids| == |entries| && forall i | 0 <= i < |entries| :: ShowsEntry(nodes, ids[i], entries[i])
    ensures forall i | i in EntryIds(entries) :: i < |nodes|
    decreases entries
  {
    if entries != [] {
      var e := entries[0];
      assert e.0 < e && e.1 < e;
      EntryShown(nodes, ids[0], e);
      ShownIds(nodes, ids[0].0, e.0);
      ShownIds(nodes, ids[0].1, e.1);
      forall i | 0 <= i < |entries| - 1 ensures ShowsEntry(nodes, ids[1..][i], entries[1..][i]) {
        assert ShowsEntry(nodes, ids[i + 1], entries[i + 1]);
      }
      ShownEntryIds(nodes, ids[1..], entries[1..]);
    }
  }

  // ----- Walking down

  /** The node a step leads to is shown under the id the parent holds. */
  lemma StepShown(nodes: seq<NodeData>, id: NodeId, t: Tree, key: Key)
    requires Shows(nodes, id, t) && Step(t, key).Ok?
    ensures Shows(nodes, Step(t, key).value.id, Step(t, key).value)
    ensures Ids(Step(t, key).value) <= Ids(t)
    ensures Unshared(t) ==> Unshared(Step(t, key).value) && t.id !in Ids(Step(t, key).value)
  {
    var i := ChildAt(t, key).value.value;
    if t.Items? {
      ItemIdsAt(t.items, i);
    } else {
      EntryIdsAt(t.entries, i);
      EntryShown(nodes, nodes[id].kind.entries[i], t.entries[i]);
    }
  }

  lemma {:induction false} ResolveShown(nodes: seq<NodeData>, id: NodeId, t: Tree, path: Path)
    requires Shows(nodes, id, t) && Resolve(t, path).Ok?
    ensures Shows(nodes, Resolve(t, path).value.id, Resolve(t, path).value)
    ensures Ids(Resolve(t, path).value) <= Ids(t)
    ensures Unshared(t) ==> Unshared(Resolve(t, path).value)
    decreases |path|
  {
    if path != [] {
      StepShown(nodes, id, t, path[0]);
      var child := Step(t, path[0]).value;
      ResolveShown(nodes, child.id, child, path[1..]);
    }
  }

  // ----- Replacing a child

  /** The arena changed below one child only. */
  lemma ReplaceShown(nodes: seq<NodeData>, nodes': seq<NodeData>, id: NodeId, t: Tree, key: Key, child': Tree)
    requires Shows(nodes, id, t) && Unshared(t) && Step(t, key).Ok?
    requires var child := Step(t, key).value;
      && Shows(nodes', child.id, child')
      && forall i | i in Ids(t) && i !in Ids(child) :: i < |nodes| && i < |nodes'| && nodes'[i] == nodes[i]
    ensures Shows(nodes', id, Replace(t, key, child'))
  {
    var child := Step(t, key).value;
    var k := ChildAt(t, key).value.value;
    StepShown(nodes, id, t, key);
    assert id in Ids(t);
    if t.Items? {
      var items := t.items[k := child'];
      forall i | 0 <= i < |items| ensures Shows(nodes', nodes'[id].kind.items[i], items[i]) {
        if i != k {
          ItemIdsAt(t.items, i);
          ItemsApart(t.items, i, k);
          ShowsFrame(nodes, nodes', nodes[id].kind.items[i], t.items[i]);
        }
      }
    } else {
      var entries := t.entries[k := (t.entries[k].0, child')];
      forall i | 0 <= i < |entries| ensures ShowsEntry(nodes', nodes'[id].kind.entries[i], entries[i]) {
        EntryIdsAt(t.entries, i);
        EntryIdsAt(t.entries, k);
        var e := t.entries[i];
        EntryShown(nodes, nodes[id].kind.entries[i], e);
        if i != k {
          EntriesApart(t.entries, i, k);
          ShowsFrame(nodes, nodes', nodes[id].kind.entries[i].1, e.1);
        }
        ShowsFrame(nodes, nodes', nodes[id].kind.entries[i].0, e.0);
        EntryShown(nodes', nodes[id].kind.entries[i], entries[i]);
      }
    }
  }

  /** Editing the node at the end of a path in place is editing the tree at that path. */
  lemma {:induction false} AtShown(nodes: seq<NodeData>, nodes': seq<NodeData>, id: NodeId, t: Tree, path: Path,
                                   edit: Edit)
    requires Shows(nodes, id, t) && Unshared(t) && At(t, path, edit).Ok?
    requires Resolve(t, path).Ok? && Here(Resolve(t, path).value, edit).Ok?
    requires var target := Resolve(t, path).value;
      && Shows(nodes', target.id, Here(target, edit).value)
      && forall i | i in Ids(t) && i != target.id :: i < |nodes| && i < |nodes'| && nodes'[i] == nodes[i]
    ensures Shows(nodes', id, At(t, path, edit).value)
    decreases |path|
  {
    if path != [] {
      var child := Step(t, path[0]).value;
      StepShown(nodes, id, t, path[0]);
      ResolveShown(nodes, child.id, child, path[1..]);
      assert Resolve(child, path[1..]).value.id in Ids(Resolve(child, path[1..]).value);
      AtShown(nodes, nodes', child.id, child, path[1..], edit);
      ReplaceShown(nodes, nodes', id, t, path[0], At(child, path[1..], edit).value);
    }
  }

  // ----- Edited trees stay unshared

  lemma {:induction false} ItemWith(items: seq<Tree>, x: NodeId) returns (i: nat)
    requires x in ItemIds(items)
    ensures i < |items| && x in Ids(items[i])
    decreases |items|
  {
    if x in Ids(items[0]) {
      i := 0;
    } else {
      i := ItemWith(items[1..], x);
      i := i + 1;
    }
  }

  lemma {:induction false} ItemsUnsharedFrom(items: seq<Tree>)
    requires forall i | 0 <= i < |items| :: Unshared(items[i])
    requires forall i, j | 0 <= i < j < |items| :: Ids(items[i]) !! Ids(items[j])
    ensures ItemsUnshared(items)
    decreases |items|
  {
    if items != [] {
      ItemsUnsharedFrom(items[1..]);
      forall x | x in ItemIds(items[1..]) ensures x !in Ids(items[0]) {
        var j := ItemWith(items[1..], x);
        assert Ids(items[0]) !! Ids(items[j + 1]);
      }
    }
  }

  function PairIds(e: (Tree, Tree)): set<NodeId> {
    Ids(e.0) + Ids(e.1)
  }

  predicate PairUnshared(e: (Tree, Tree)) {
    Unshared(e.0) && Unshared(e.1) && Ids(e.0) !! Ids(e.1)
  }

  lemma {:induction false} EntryWith(entries: seq<(Tree, Tree)>, x: NodeId) returns (i: nat)
    requires x in EntryIds(entries)
    ensures i < |entries| && x in PairIds(entries[i])
    decreases |entries|
  {
    if x in PairIds(entries[0]) {
      i := 0;
    } else {
      i := EntryWith(entries[1..], x);
      i := i + 1;
    }
  }

  lemma {:induction false} EntriesUnsharedFrom(entries: seq<(Tree, Tree)>)
    requires forall i | 0 <= i < |entries| :: PairUnshared(entries[i])
    requires forall i, j | 0 <= i < j < |entries| :: PairIds(entries[i]) !! PairIds(entries[j])
    ensures EntriesUnshared(entries)
    decreases |entries|
  {
    if entries != [] {
      assert PairUnshared(entries[0]);
      EntriesUnsharedFrom(entries[1..]);
      forall x | x in EntryIds(entries[1..]) ensures x !in PairIds(entries[0]) {
        var j := EntryWith(entries[1..], x);
        assert PairIds(entries[0]) !! PairIds(entries[j + 1]);
      }
    }
  }

  /** One position of a rearranged container: an old member, perhaps edited, or a new one. */
  ghost predicate ItemFrom(t: Tree, item: Tree, from: int, novel: set<NodeId>)
    requires t.Items?
  {
    Unshared(item) && if 0 <= from < |t.items| then Ids(item) <= Ids(t.items[from]) + novel else Ids(item) <= novel
  }

  /** Sets drawn from separate old parts and separate new ones are separate. */
  lemma Apart(a: set<NodeId>, oldA: set<NodeId>, b: set<NodeId>, oldB: set<NodeId>, novel: set<NodeId>,
              all: set<NodeId>)
    requires a <= oldA + novel && b <= oldB + novel && oldA !! oldB && oldA <= all && oldB <= all && novel !! all
    requires (a * novel) !! (b * novel)
    ensures a !! b
  {
    forall x | x in a ensures x !in b {
      if x in novel {
        assert x in a * novel;
      }
    }
  }

  /** Members that come from different places, or are new and apart, share nothing. */
  lemma ItemsRearranged(t: Tree, items: seq<Tree>, from: seq<int>, novel: set<NodeId>)
    requires t.Items? && Unshared(t) && |from| == |items| && novel !! Ids(t)
    requires forall i | 0 <= i < |items| :: ItemFrom(t, items[i], from[i], novel)
    requires forall i, j | 0 <= i < j < |items| ::
      from[i] != from[j] && (Ids(items[i]) * novel) !! (Ids(items[j]) * novel)
    ensures Unshared(t.(items := items)) && Ids(t.(items := items)) <= Ids(t) + novel
  {
    forall i | 0 <= i < |items| ensures Unshared(items[i]) && Ids(items[i]) <= ItemIds(t.items) + novel {
      assert ItemFrom(t, items[i], from[i], novel);
      if 0 <= from[i] < |t.items| {
        ItemIdsAt(t.items, from[i]);
      }
    }
    forall i, j | 0 <= i < j < |items| ensures Ids(items[i]) !! Ids(items[j]) {
      assert ItemFrom(t, items[i], from[i], novel) && ItemFrom(t, items[j], from[j], novel);
      if 0 <= from[i] < |t.items| {
        ItemIdsAt(t.items, from[i]);
      }
      if 0 <= from[j] < |t.items| {
        ItemIdsAt(t.items, from[j]);
      }
      assert from[i] != from[j] && (Ids(items[i]) * novel) !! (Ids(items[j]) * novel);
      if 0 <= from[i] < |t.items| && 0 <= from[j] < |t.items| {
        ItemsApart(t.items, from[i], from[j]);
        Apart(Ids(items[i]), Ids(t.items[from[i]]), Ids(items[j]), Ids(t.items[from[j]]), novel, ItemIds(t.items));
      } else {
        Apart(Ids(items[i]), if 0 <= from[i] < |t.items| then Ids(t.items[from[i]]) else {}, Ids(items[j]),
              if 0 <= from[j] < |t.items| then Ids(t.items[from[j]]) else {}, novel, ItemIds(t.items));
      }
    }
    ItemsUnsharedFrom(items);
    forall x | x in ItemIds(items) ensures x in ItemIds(t.items) + novel && x != t.id {
      var i := ItemWith(items, x);
    }
  }

  ghost predicate EntryFrom(t: Tree, e: (Tree, Tree), from: int, novel: set<NodeId>)
    requires t.Entries?
  {
    PairUnshared(e) && if 0 <= from < |t.entries| then PairIds(e) <= PairIds(t.entries[from]) + novel
      else PairIds(e) <= novel
  }

  lemma EntriesRearranged(t: Tree, entries: seq<(Tree, Tree)>, from: seq<int>, novel: set<NodeId>)
    requires t.Entries? && Unshared(t) && |from| == |entries| && novel !! Ids(t)
    requires forall i | 0 <= i < |entries| :: EntryFrom(t, entries[i], from[i], novel)
    requires forall i, j | 0 <= i < j < |entries| ::
      from[i] != from[j] && (PairIds(entries[i]) * novel) !! (PairIds(entries[j]) * novel)
    ensures Unshared(t.(entries := entries)) && Ids(t.(entries := entries)) <= Ids(t) + novel
  {
    forall i | 0 <= i < |entries|
      ensures PairUnshared(entries[i]) && PairIds(entries[i]) <= EntryIds(t.entries) + novel {
      assert EntryFrom(t, entries[i], from[i], novel);
      if 0 <= from[i] < |t.entries| {
        EntryIdsAt(t.entries, from[i]);
      }
    }
    forall i, j | 0 <= i < j < |entries| ensures PairIds(entries[i]) !! PairIds(entries[j]) {
      assert EntryFrom(t, entries[i], from[i], novel) && EntryFrom(t, entries[j], from[j], novel);
      if 0 <= from[i] < |t.entries| {
        EntryIdsAt(t.entries, from[i]);
      }
      if 0 <= from[j] < |t.entries| {
        EntryIdsAt(t.entries, from[j]);
      }
      assert from[i] != from[j] && (PairIds(entries[i]) * novel) !! (PairIds(entries[j]) * novel);
      if 0 <= from[i] < |t.entries| && 0 <= from[j] < |t.entries| {
        EntriesApart(t.entries, from[i], from[j]);
        Apart(PairIds(entries[i]), PairIds(t.entries[from[i]]), PairIds(entries[j]), PairIds(t.entries[from[j]]), novel,
              EntryIds(t.entries));
      } else {
        Apart(PairIds(entries[i]), if 0 <= from[i] < |t.entries| then PairIds(t.entries[from[i]]) else {},
              PairIds(entries[j]),
              if 0 <= from[j] < |t.entries| then PairIds(t.entries[from[j]]) else {}, novel, EntryIds(t.entries));
      }
    }
    EntriesUnsharedFrom(entries);
    forall x | x in EntryIds(entries) ensures x in EntryIds(t.entries) + novel && x != t.id {
      var i := EntryWith(entries, x);
    }
  }

  /** What an edit brings in is itself unshared and uses only new ids. */
  ghost predicate BringsNew(edit: Edit, novel: set<NodeId>) {
    match edit
    case Put(_, child, newKey) =>
      && Unshared(child) && Unshared(newKey) && Ids(child) !! Ids(newKey) && Ids(child) <= novel && Ids(newKey) <= novel
    case Drop(_) => true
    case Append(child) => Unshared(child) && Ids(child) <= novel
  }

  /** Where the members of a container come from when the one at `at` is removed. */
  function SourcesWithout(n: nat, at: nat): seq<int> {
    seq(n, k => if k < at then k else k + 1)
  }

  lemma HereUnshared(t: Tree, edit: Edit, novel: set<NodeId>)
    requires Unshared(t) && Here(t, edit).Ok? && BringsNew(edit, novel) && novel !! Ids(t)
    ensures var t' := Here(t, edit).value; Unshared(t') && t'.id == t.id && Ids(t') <= Ids(t) + novel
  {
    var t' := Here(t, edit).value;
    if t.Items? {
      ItemsHere(t, t', edit, novel);
    } else {
      EntriesHere(t, t', edit, novel);
    }
  }

  lemma ItemsHere(t: Tree, t': Tree, edit: Edit, novel: set<NodeId>)
    requires t.Items? && Unshared(t) && Here(t, edit) == Ok(t') && BringsNew(edit, novel) && novel !! Ids(t)
    ensures Unshared(t') && Ids(t') <= Ids(t) + novel
  {
    var n := |t'.items|;
    var at := if edit.Append? then n - 1 else edit.key.i;
    var from := if edit.Drop? then SourcesWithout(n, at) else seq(n, k => k);
    forall i | 0 <= i < n
      ensures ItemFrom(t, t'.items[i], from[i], novel)
      ensures edit.Drop? || i != at ==> Ids(t'.items[i]) <= ItemIds(t.items)
    {
      if from[i] < |t.items| {
        ItemIdsAt(t.items, from[i]);
      }
    }
    ItemPairs(t, t', edit, at, from, novel);
    hide Unshared, Here, BringsNew, ItemFrom;
    ItemsRearranged(t, t'.items, from, novel);
  }

  lemma ItemPairs(t: Tree, t': Tree, edit: Edit, at: nat, from: seq<int>, novel: set<NodeId>)
    requires t.Items? && t'.Items? && |from| == |t'.items| && novel !! Ids(t)
    requires from == (if edit.Drop? then SourcesWithout(|t'.items|, at) else seq(|t'.items|, k => k))
    requires forall i | 0 <= i < |t'.items| && (edit.Drop? || i != at) :: Ids(t'.items[i]) <= ItemIds(t.items)
    ensures forall i, j | 0 <= i < j < |t'.items| ::
      from[i] != from[j] && (Ids(t'.items[i]) * novel) !! (Ids(t'.items[j]) * novel)
  {
    forall i, j | 0 <= i < j < |t'.items|
      ensures from[i] != from[j] && (Ids(t'.items[i]) * novel) !! (Ids(t'.items[j]) * novel)
    {
      assert edit.Drop? || i != at || j != at;
    }
  }

  /** Where an entry of the edited mapping comes from; a set child is at the index of its key. */
  lemma EntryHere(t: Tree, t': Tree, edit: Edit, novel: set<NodeId>, i: nat)
    requires t.Entries? && Unshared(t) && Here(t, edit) == Ok(t') && BringsNew(edit, novel) && novel !! Ids(t)
    requires i < |t'.entries|
    ensures var at := EntryIndex(t.entries, edit.key.name);
      && EntryFrom(t, t'.entries[i], if edit.Drop? && i >= at then i + 1 else i, novel)
      && (edit.Drop? || i != at ==> PairIds(t'.entries[i]) <= EntryIds(t.entries))
  {
    hide EntryIds, EntriesUnshared;
    var at := EntryIndex(t.entries, edit.key.name);
    var from := if edit.Drop? && i >= at then i + 1 else i;
    if from < |t.entries| {
      EntryIdsAt(t.entries, from);
    }
  }

  lemma EntriesHere(t: Tree, t': Tree, edit: Edit, novel: set<NodeId>)
    requires t.Entries? && Unshared(t) && Here(t, edit) == Ok(t') && BringsNew(edit, novel) && novel !! Ids(t)
    ensures Unshared(t') && Ids(t') <= Ids(t) + novel
  {
    var n := |t'.entries|;
    var at := EntryIndex(t.entries, edit.key.name);
    var from := if edit.Drop? then SourcesWithout(n, at) else seq(n, k => k);
    forall i | 0 <= i < n
      ensures EntryFrom(t, t'.entries[i], from[i], novel)
      ensures edit.Drop? || i != at ==> PairIds(t'.entries[i]) <= EntryIds(t.entries)
    {
      EntryHere(t, t', edit, novel, i);
    }
    EntryPairs(t, t', edit, at, from, novel);
    EntriesRearranged(t, t'.entries, from, novel);
  }

  lemma EntryPairs(t: Tree, t': Tree, edit: Edit, at: nat, from: seq<int>, novel: set<NodeId>)
    requires t.Entries? && t'.Entries? && |from| == |t'.entries| && novel !! Ids(t)
    requires from == (if edit.Drop? then SourcesWithout(|t'.entries|, at) else seq(|t'.entries|, k => k))
    requires forall i | 0 <= i < |t'.entries| && (edit.Drop? || i != at) ::
      PairIds(t'.entries[i]) <= EntryIds(t.entries)
    ensures forall i, j | 0 <= i < j < |t'.entries| ::
      from[i] != from[j] && (PairIds(t'.entries[i]) * novel) !! (PairIds(t'.entries[j]) * novel)
  {
    forall i, j | 0 <= i < j < |t'.entries|
      ensures from[i] != from[j] && (PairIds(t'.entries[i]) * novel) !! (PairIds(t'.entries[j]) * novel)
    {
      assert edit.Drop? || i != at || j != at;
    }
  }

  lemma ReplaceUnshared(t: Tree, key: Key, child': Tree, novel: set<NodeId>)
    requires Unshared(t) && Step(t, key).Ok? && novel !! Ids(t)
    requires Unshared(child') && Ids(child') <= Ids(Step(t, key).value) + novel
    ensures var t' := Replace(t, key, child'); Unshared(t') && t'.id == t.id && Ids(t') <= Ids(t) + novel
  {
    var k := ChildAt(t, key).value.value;
    if t.Items? {
      var items := t.items[k := child'];
      var from := seq(|items|, i => i);
      forall i | 0 <= i < |items|
        ensures ItemFrom(t, items[i], from[i], novel) && (i != k ==> Ids(items[i]) <= ItemIds(t.items)) {
        ItemIdsAt(t.items, i);
      }
      forall i, j | 0 <= i < j < |items|
        ensures from[i] != from[j] && (Ids(items[i]) * novel) !! (Ids(items[j]) * novel) {
        assert i != k || j != k;
      }
      ItemsRearranged(t, items, from, novel);
    } else {
      var entries := t.entries[k := (t.entries[k].0, child')];
      var from := seq(|entries|, i => i);
      forall i | 0 <= i < |entries|
        ensures EntryFrom(t, entries[i], from[i], novel) && (i != k ==> PairIds(entries[i]) <= EntryIds(t.entries)) {
        EntryIdsAt(t.entries, i);
      }
      forall i, j | 0 <= i < j < |entries|
        ensures from[i] != from[j] && (PairIds(entries[i]) * novel) !! (PairIds(entries[j]) * novel) {
        assert i != k || j != k;
      }
      EntriesRearranged(t, entries, from, novel);
    }
  }

  /** Edits that bring in new ids keep the tree a tree. */
  lemma {:induction false} AtUnshared(nodes: seq<NodeData>, t: Tree, path: Path, edit: Edit, novel: set<NodeId>)
    requires Shows(nodes, t.id, t) && Unshared(t) && At(t, path, edit).Ok? && BringsNew(edit, novel) && novel !! Ids(t)
    ensures var t' := At(t, path, edit).value; Unshared(t') && t'.id == t.id && Ids(t') <= Ids(t) + novel
    decreases |path|
  {
    if path == [] {
      HereUnshared(t, edit, novel);
    } else {
      StepShown(nodes, t.id, t, path[0]);
      var child := Step(t, path[0]).value;
      AtUnshared(nodes, child, path[1..], edit, novel);
      ReplaceUnshared(t, path[0], At(child, path[1..], edit).value, novel);
    }
  }

  // ----- Lists of trees over separate ranges of ids

  /** The ids from `low` up to `high`. */
  ghost predicate Between(ids: set<NodeId>, low: nat, high: nat) {
    forall i | i in ids :: low <= i < high
  }

  lemma ShownStay(nodes: seq<NodeData>, nodes': seq<NodeData>, ids: seq<NodeId>, trees: seq<Tree>)
    requires nodes <= nodes' && |ids| == |trees| && forall i | 0 <= i < |ids| :: Shows(nodes, ids[i], trees[i])
    ensures forall i | 0 <= i < |ids| :: Shows(nodes', ids[i], trees[i])
  {
    forall i | 0 <= i < |ids| ensures Shows(nodes', ids[i], trees[i]) {
      ShownIds(nodes, ids[i], trees[i]);
      ShowsFrame(nodes, nodes', ids[i], trees[i]);
    }
  }

  lemma ShownEntriesStay(nodes: seq<NodeData>, nodes': seq<NodeData>, ids: seq<(NodeId, NodeId)>,
                         trees: seq<(Tree, Tree)>)
    requires nodes <= nodes' && |ids| == |trees| && forall i | 0 <= i < |ids| :: ShowsEntry(nodes, ids[i], trees[i])
    ensures forall i | 0 <= i < |ids| :: ShowsEntry(nodes', ids[i], trees[i])
  {
    forall i | 0 <= i < |ids| ensures ShowsEntry(nodes', ids[i], trees[i]) {
      EntryShown(nodes, ids[i], trees[i]);
      ShownIds(nodes, ids[i].0, trees[i].0);
      ShownIds(nodes, ids[i].1, trees[i].1);
      ShowsFrame(nodes, nodes', ids[i].0, trees[i].0);
      ShowsFrame(nodes, nodes', ids[i].1, trees[i].1);
      EntryShown(nodes', ids[i], trees[i]);
    }
  }

  lemma ItemsSnoc(trees: seq<Tree>, last: Tree, low: nat, mid: nat, high: nat)
    requires ItemsUnshared(trees) && Between(ItemIds(trees), low, mid) && low <= mid <= high
    requires Unshared(last) && Between(Ids(last), mid, high)
    ensures ItemsUnshared(trees + [last]) && Between(ItemIds(trees + [last]), low, high)
  {
    var all := trees + [last];
    forall i | 0 <= i < |all| ensures Unshared(all[i]) && (i < |trees| ==> Ids(all[i]) <= ItemIds(trees)) {
      if i < |trees| {
        ItemIdsAt(trees, i);
      }
    }
    forall i, j | 0 <= i < j < |all| ensures Ids(all[i]) !! Ids(all[j]) {
      if j < |trees| {
        ItemsApart(trees, i, j);
      }
    }
    ItemsUnsharedFrom(all);
    forall x | x in ItemIds(all) ensures low <= x < high {
      var i := ItemWith(all, x);
    }
  }

  lemma NoEntriesUnshared(at: nat)
    ensures EntriesUnshared([]) && Between(EntryIds([]), at, at)
  {
  }

  /** A new key in front of a new value. */
  lemma PairOf(key: Tree, value: Tree, low: nat, high: nat)
    requires key.Leaf? && key.id == low && Unshared(value) && Between(Ids(value), low + 1, high) && low < high
    ensures PairUnshared((key, value)) && Between(PairIds((key, value)), low, high)
  {
  }

  /** New entries and a newer mapping around them. */
  lemma NoItemsUnshared(low: nat)
    ensures ItemsUnshared([]) && Between(ItemIds([]), low, low)
  {
  }

  lemma ItemsWhole(id: NodeId, header: Header, trees: seq<Tree>, low: nat)
    requires ItemsUnshared(trees) && Between(ItemIds(trees), low, id) && low <= id
    ensures Unshared(Items(id, header, trees)) && Between(Ids(Items(id, header, trees)), low, id + 1)
  {
    hide ItemsUnshared, ItemIds;
  }

  lemma EntriesWhole(id: NodeId, header: Header, trees: seq<(Tree, Tree)>, low: nat)
    requires EntriesUnshared(trees) && Between(EntryIds(trees), low, id) && low <= id
    ensures Unshared(Entries(id, header, trees)) && Between(Ids(Entries(id, header, trees)), low, id + 1)
  {
    hide EntriesUnshared, EntryIds;
  }

  lemma EntriesSnoc(trees: seq<(Tree, Tree)>, last: (Tree, Tree), low: nat, mid: nat, high: nat)
    requires EntriesUnshared(trees) && Between(EntryIds(trees), low, mid) && low <= mid <= high
    requires PairUnshared(last) && Between(PairIds(last), mid, high)
    ensures EntriesUnshared(trees + [last]) && Between(EntryIds(trees + [last]), low, high)
  {
    var all := trees + [last];
    forall i | 0 <= i < |all| ensures PairUnshared(all[i]) && (i < |trees| ==> PairIds(all[i]) <= EntryIds(trees)) {
      if i < |trees| {
        EntryIdsAt(trees, i);
      }
    }
    forall i, j | 0 <= i < j < |all| ensures PairIds(all[i]) !! PairIds(all[j]) {
      if j < |trees| {
        EntriesApart(trees, i, j);
      }
    }
    EntriesUnsharedFrom(all);
    forall x | x in EntryIds(all) ensures low <= x < high {
      var i := EntryWith(all, x);
    }
  }
}
