/** The editable document: an arena changed in place, and the set of nodes whose source text is stale. */
module Editor {
  import opened Prelude
  import opened Syntax
  import opened Arena
  import R = Resolve
  import opened EditTree
  import opened EditLaws
  import opened EditShape
  import opened EditKept
  import opened BuiltValues
  import V = Values

  function NewNode(kind: NodeKind): NodeData {
    NodeData(kind, None, [], None, None)
  }

  function KeyMatches(nodes: seq<NodeData>, key: NodeId, name: string): bool {
    key < |nodes| && nodes[key].kind.Scalar? && nodes[key].kind.scalar.raw == name
  }

  /** The position of the entry whose key matches `name`, or the number of entries. */
  function Position(nodes: seq<NodeData>, entries: seq<(NodeId, NodeId)>, name: string): (i: nat)
    ensures i <= |entries|
  {
    if entries == [] || KeyMatches(nodes, entries[0].0, name) then 0 else 1 + Position(nodes, entries[1..], name)
  }

  function ChildIndex(nodes: seq<NodeData>, parent: NodeId, key: Key): Result<Option<nat>, EditError> {
    if parent < |nodes| && nodes[parent].kind.Mapping? && key.Field? then
      var i := Position(nodes, nodes[parent].kind.entries, key.name);
      Ok(if i < |nodes[parent].kind.entries| then Some(i) else None)
    else if parent < |nodes| && nodes[parent].kind.Sequence? && key.Index? then
      Ok(if key.i < |nodes[parent].kind.items| then Some(key.i) else None)
    else Err(TypeMismatch)
  }

  function StepNode(nodes: seq<NodeData>, current: NodeId, key: Key): Result<NodeId, EditError> {
    var index :- ChildIndex(nodes, current, key);
    if index.None? then Err(Missing(key))
    else if nodes[current].kind.Mapping? then Ok(nodes[current].kind.entries[index.value].1)
    else Ok(nodes[current].kind.items[index.value])
  }

  // ----- What the arena functions see is what the tree shows

  lemma {:induction false} PositionShown(nodes: seq<NodeData>, ids: seq<(NodeId, NodeId)>, entries: seq<(Tree, Tree)>,
                                         name: string)
    requires |ids| == |entries| && forall i | 0 <= i < |entries| :: ShowsEntry(nodes, ids[i], entries[i])
    ensures Position(nodes, ids, name) == EntryIndex(entries, name)
    decreases |ids|
  {
    if ids != [] {
      EntryShown(nodes, ids[0], entries[0]);
      forall i | 0 <= i < |entries| - 1 ensures ShowsEntry(nodes, ids[1..][i], entries[1..][i]) {
        assert ShowsEntry(nodes, ids[i + 1], entries[i + 1]);
      }
      PositionShown(nodes, ids[1..], entries[1..], name);
    }
  }

  lemma ChildIndexShown(nodes: seq<NodeData>, id: NodeId, t: Tree, key: Key)
    requires Shows(nodes, id, t)
    ensures ChildIndex(nodes, id, key) == ChildAt(t, key)
  {
    if t.Entries? && key.Field? {
      PositionShown(nodes, nodes[id].kind.entries, t.entries, key.name);
    }
  }

  lemma StepNodeShown(nodes: seq<NodeData>, id: NodeId, t: Tree, key: Key)
    requires Shows(nodes, id, t)
    ensures match Step(t, key)
      case Ok(child) => StepNode(nodes, id, key) == Ok(child.id) && Shows(nodes, child.id, child)
      && Ids(child) <= Ids(t)
                               case Err(e) => StepNode(nodes, id, key) == Err(e)
  {
    ChildIndexShown(nodes, id, t, key);
    if Step(t, key).Ok? {
      StepShown(nodes, id, t, key);
      if t.Entries? {
        EntryShown(nodes, nodes[id].kind.entries[ChildAt(t, key).value.value], t.entries[ChildAt(t, key).value.value]);
      }
    }
  }

  // ----- Changing one node

  /** The ids an edited container lists. */
  function KindHere(kind: NodeKind, t: Tree, edit: Edit): NodeKind
    requires Here(t, edit).Ok?
      && (if t.Items? then kind.Sequence? && |kind.items| == |t.items|
          else kind.Mapping? && |kind.entries| == |t.entries|)
  {
    match edit
    case Put(key, child, newKey) =>
      var index := ChildAt(t, key).value;
      if t.Items? then Sequence(kind.items[index.value := child.id])
      else if index.None? then Mapping(kind.entries + [(newKey.id, child.id)])
      else Mapping(kind.entries[index.value := (kind.entries[index.value].0, child.id)])
    case Drop(key) =>
      var index := ChildAt(t, key).value.value;
      if t.Items? then Sequence(kind.items[..index] + kind.items[index + 1..])
      else Mapping(kind.entries[..index] + kind.entries[index + 1..])
    case Append(child) => Sequence(kind.items + [child.id])
  }

  /** Whether an edit adds an entry under a new key. */
  predicate Appends(t: Tree, edit: Edit)
    requires Here(t, edit).Ok?
  {
    edit.Put? && ChildAt(t, edit.key).value.None?
  }

  /** What an edit brings in is in the arena. */
  ghost predicate EditShown(nodes: seq<NodeData>, edit: Edit, appends: bool) {
    match edit
    case Put(_, child, newKey) => Shows(nodes, child.id, child) && (appends ==> Shows(nodes, newKey.id, newKey))
    case Drop(_) => true
    case Append(child) => Shows(nodes, child.id, child)
  }

  /** Giving a node its edited list of children makes it show the edited subtree. */
  lemma HereShown(nodes: seq<NodeData>, nodes': seq<NodeData>, id: NodeId, t: Tree, edit: Edit)
    requires Shows(nodes, id, t) && Unshared(t) && Here(t, edit).Ok?
    requires id < |nodes'| && nodes'[id] == nodes[id].(kind := KindHere(nodes[id].kind, t, edit))
    requires forall i | i in Ids(t) && i != id :: i < |nodes| && i < |nodes'| && nodes'[i] == nodes[i]
    requires EditShown(nodes', edit, Appends(t, edit))
    ensures Shows(nodes', id, Here(t, edit).value)
  {
    hide Here, KindHere, EditShown, Unshared, Shows, Ids;
    LeafUntouched(t, edit);
    if t.Items? {
      ItemsStay(nodes, nodes', id, t);
      ItemsShownHere(nodes, nodes', id, t, edit);
    } else {
      EntriesStay(nodes, nodes', id, t);
      EntriesShownHere(nodes, nodes', id, t, edit);
    }
  }

  /** The children of a node are shown as before when only the node itself has changed. */
  lemma ItemsStay(nodes: seq<NodeData>, nodes': seq<NodeData>, id: NodeId, t: Tree)
    requires Shows(nodes, id, t) && Unshared(t) && t.Items?
    requires forall i | i in Ids(t) && i != id :: i < |nodes| && i < |nodes'| && nodes'[i] == nodes[i]
    ensures forall i | 0 <= i < |t.items| :: Shows(nodes', nodes[id].kind.items[i], t.items[i])
  {
    forall i | 0 <= i < |t.items| ensures Shows(nodes', nodes[id].kind.items[i], t.items[i]) {
      ItemIdsAt(t.items, i);
      ShowsFrame(nodes, nodes', nodes[id].kind.items[i], t.items[i]);
    }
  }

  lemma EntriesStay(nodes: seq<NodeData>, nodes': seq<NodeData>, id: NodeId, t: Tree)
    requires Shows(nodes, id, t) && Unshared(t) && t.Entries?
    requires forall i | i in Ids(t) && i != id :: i < |nodes| && i < |nodes'| && nodes'[i] == nodes[i]
    ensures forall i | 0 <= i < |t.entries| :: ShowsEntry(nodes', nodes[id].kind.entries[i], t.entries[i])
  {
    assert t.id !in EntryIds(t.entries);
    forall i | 0 <= i < |t.entries| ensures ShowsEntry(nodes', nodes[id].kind.entries[i], t.entries[i]) {
      EntryIdsAt(t.entries, i);
      EntryStays(nodes, nodes', nodes[id].kind.entries[i], t.entries[i]);
    }
  }

  lemma EntryStays(nodes: seq<NodeData>, nodes': seq<NodeData>, ids: (NodeId, NodeId), e: (Tree, Tree))
    requires ShowsEntry(nodes, ids, e)
    requires forall i | i in Ids(e.0) || i in Ids(e.1) :: i < |nodes| && i < |nodes'| && nodes'[i] == nodes[i]
    ensures ShowsEntry(nodes', ids, e)
  {
    EntryShown(nodes, ids, e);
    ShowsFrame(nodes, nodes', ids.0, e.0);
    ShowsFrame(nodes, nodes', ids.1, e.1);
    EntryShown(nodes', ids, e);
  }

  lemma LeafUntouched(t: Tree, edit: Edit)
    requires Here(t, edit).Ok?
    ensures t.Items? || t.Entries?
  {
  }

  lemma ItemsShownHere(nodes: seq<NodeData>, nodes': seq<NodeData>, id: NodeId, t: Tree, edit: Edit)
    requires Shows(nodes, id, t) && t.Items? && Here(t, edit).Ok?
    requires id < |nodes'| && nodes'[id] == nodes[id].(kind := KindHere(nodes[id].kind, t, edit))
    requires forall i | 0 <= i < |t.items| :: Shows(nodes', nodes[id].kind.items[i], t.items[i])
    requires EditShown(nodes', edit, Appends(t, edit))
    ensures Shows(nodes', id, Here(t, edit).value)
  {
    var t' := Here(t, edit).value;
    var ids, ids' := nodes[id].kind.items, nodes'[id].kind.items;
    forall i | 0 <= i < |t'.items| ensures Shows(nodes', ids'[i], t'.items[i]) {
    }
  }

  lemma EntriesShownHere(nodes: seq<NodeData>, nodes': seq<NodeData>, id: NodeId, t: Tree, edit: Edit)
    requires Shows(nodes, id, t) && t.Entries? && Here(t, edit).Ok?
    requires id < |nodes'| && nodes'[id] == nodes[id].(kind := KindHere(nodes[id].kind, t, edit))
    requires forall i | 0 <= i < |t.entries| :: ShowsEntry(nodes', nodes[id].kind.entries[i], t.entries[i])
    requires EditShown(nodes', edit, Appends(t, edit))
    ensures Shows(nodes', id, Here(t, edit).value)
  {
    var t' := Here(t, edit).value;
    var ids, ids' := nodes[id].kind.entries, nodes'[id].kind.entries;
    forall i | 0 <= i < |t'.entries| ensures ShowsEntry(nodes', ids'[i], t'.entries[i]) {
      EntryShown(nodes', ids'[i], t'.entries[i]);
      if i < |ids| {
        EntryShown(nodes', ids[i], t.entries[i]);
      }
    }
  }

  class EditableDocument {
    const floats: R.Floats
    var documents: seq<NodeId>
    var nodes: seq<NodeData>
    var dirty: set<NodeId>
    /** What the arena looks like from the root now, and what it looked like right after parsing. */
    ghost var tree: Tree
    ghost const original: Tree

    ghost predicate Valid()
      reads this
    {
      && documents != [] && Shows(nodes, documents[0], tree)
      && Unshared(tree) && Unshared(original) && Kept(tree, dirty, original)
    }

    constructor (floats: R.Floats, document: Document, ghost t: Tree)
      requires document.documents != [] && Shows(document.nodes, document.documents[0], t) && Unshared(t)
      ensures Valid() && this.floats == floats && tree == t && original == t && dirty == {}
      ensures nodes == document.nodes && documents == document.documents
    {
      this.floats := floats;
      documents, nodes, dirty := document.documents, document.nodes, {};
      tree, original := t, t;
      new;
      KeptAtFirst(t, t);
    }

    // ----- Building

    method AddNode(kind: NodeKind) returns (id: NodeId)
      modifies this`nodes
      ensures nodes == old(nodes) + [NewNode(kind)] && id == |old(nodes)|
    {
      id := |nodes|;
      nodes := nodes + [NewNode(kind)];
    }

    method BuildKey(name: string) returns (id: NodeId, ghost t: Tree)
      modifies this`nodes
      ensures nodes == old(nodes) + [NewNode(NodeKind.Scalar(KeyScalar(name)))] && id == |old(nodes)|
      ensures t == Leaf(id, BARE, NodeKind.Scalar(KeyScalar(name))) && Shows(nodes, id, t) && Unshared(t)
        && KeySpelled(t, name)
    {
      id := AddNode(NodeKind.Scalar(KeyScalar(name)));
      t := Leaf(id, BARE, NodeKind.Scalar(KeyScalar(name)));
    }

    /** New nodes for a value, children first, which read as it; nothing that was there changes. */
    method Build(value: EditValue) returns (id: NodeId, ghost t: Tree)
      modifies this`nodes
      ensures old(nodes) <= nodes && id < |nodes| && Shows(nodes, id, t) && Spells(floats, t, value)
      ensures V.FromNode(nodes, id) == Meant(value)
      ensures Unshared(t) && Between(Ids(t), |old(nodes)|, |nodes|)
      decreases value
    {
      match value {
        case EScalar(v) =>
          id := AddNode(NodeKind.Scalar(BuiltScalar(floats, v)));
          t := Leaf(id, BARE, NodeKind.Scalar(BuiltScalar(floats, v)));
        case ESequence(items) => id, t := BuildSequence(items);
        case EMapping(entries) => id, t := BuildMapping(entries);
      }
      BuiltReads(floats, nodes, t, value);
    }

    method BuildSequence(items: seq<EditValue>) returns (id: NodeId, ghost t: Tree)
      modifies this`nodes
      ensures old(nodes) <= nodes && id < |nodes| && Shows(nodes, id, t) && Spells(floats, t, ESequence(items))
      ensures Unshared(t) && Between(Ids(t), |old(nodes)|, |nodes|)
      decreases items
    {
      hide ItemsUnshared, ItemIds, Between;
      var ids: seq<NodeId> := [];
      ghost var trees: seq<Tree> := [];
      NoItemsUnshared(|nodes|);
      for k := 0 to |items|
        invariant old(nodes) <= nodes && |ids| == |trees| == k
        invariant forall i | 0 <= i < k :: Shows(nodes, ids[i], trees[i]) && Spells(floats, trees[i], items[i])
        invariant ItemsUnshared(trees) && Between(ItemIds(trees), |old(nodes)|, |nodes|)
      {
        ghost var before := nodes;
        var item, built := Build(items[k]);
        ShownStay(before, nodes, ids, trees);
        ItemsSnoc(trees, built, |old(nodes)|, |before|, |nodes|);
        ids, trees := ids + [item], trees + [built];
      }
      ghost var before := nodes;
      id := AddNode(Sequence(ids));
      t := Items(id, BARE, trees);
      ShownStay(before, nodes, ids, trees);
      ItemsWhole(id, BARE, trees, |old(nodes)|);
    }

    method BuildMapping(entries: seq<(string, EditValue)>) returns (id: NodeId, ghost t: Tree)
      modifies this`nodes
      ensures old(nodes) <= nodes && id < |nodes| && Shows(nodes, id, t) && Spells(floats, t, EMapping(entries))
      ensures Unshared(t) && Between(Ids(t), |old(nodes)|, |nodes|)
      decreases entries
    {
      hide EntriesUnshared, EntryIds, Between;
      var ids: seq<(NodeId, NodeId)> := [];
      ghost var trees: seq<(Tree, Tree)> := [];
      NoEntriesUnshared(|nodes|);
      for k := 0 to |entries|
        invariant old(nodes) <= nodes && |ids| == |trees| == k
        invariant forall i | 0 <= i < k ::
          ShowsEntry(nodes, ids[i], trees[i]) && SpellsEntry(floats, trees[i], entries[i])
        invariant EntriesUnshared(trees) && Between(EntryIds(trees), |old(nodes)|, |nodes|)
      {
        ghost var before, entry := nodes, entries[k];
        assert entry.1 < entry;
        var key, keyTree := BuildKey(entries[k].0);
        ghost var middle := nodes;
        var value, built := Build(entries[k].1);
        ShownEntriesStay(before, nodes, ids, trees);
        ShowsFrame(middle, nodes, key, keyTree);
        EntryShown(nodes, (key, value), (keyTree, built));
        PairOf(keyTree, built, |before|, |nodes|);
        EntriesSnoc(trees, (keyTree, built), |old(nodes)|, |before|, |nodes|);
        ids, trees := ids + [(key, value)], trees + [(keyTree, built)];
      }
      ghost var before := nodes;
      id := AddNode(Mapping(ids));
      t := Entries(id, BARE, trees);
      ShownEntriesStay(before, nodes, ids, trees);
      EntriesWhole(id, BARE, trees, |old(nodes)|);
    }

    // ----- Editing

    /** Every node from the root to the one `path` names. */
    method ResolveTrail(path: Path) returns (r: Result<seq<NodeId>, EditError>)
      requires Valid()
      ensures r == Trail(tree, path)
    {
      var current := documents[0];
      var trail := [current];
      ghost var at := tree;
      ghost var front: seq<NodeId> := [];
      assert path[0..] == path;
      AheadNothing(Trail(tree, path));
      for k := 0 to |path|
        invariant Shows(nodes, current, at) && trail == front + [current]
        invariant Trail(tree, path) == Ahead(front, Trail(at, path[k..]))
      {
        assert path[k..][1..] == path[k + 1..];
        StepNodeShown(nodes, current, at, path[k]);
        var next :- StepNode(nodes, current, path[k]);
        at := Step(at, path[k]).value;
        AheadTwice(front, current, Trail(at, path[k + 1..]));
        front := trail;
        trail := trail + [next];
        current := next;
      }
      return Ok(trail);
    }

    /** Rewrites the node at the end of a resolved path, and with it the whole tree. */
    method Rewrite(path: Path, trail: seq<NodeId>, kind: NodeKind, ghost before: seq<NodeData>, ghost edit: Edit)
      requires Valid() && Trail(tree, path) == Ok(trail) && At(tree, path, edit).Ok? && trail[|trail| - 1] < |nodes|
      requires before <= nodes && Shows(before, documents[0], tree) && Here(Resolve(tree, path).value, edit).Ok?
      requires Shows(nodes, trail[|trail| - 1], Resolve(tree, path).value)
      requires kind == KindHere(nodes[trail[|trail| - 1]].kind, Resolve(tree, path).value, edit)
      requires EditShown(nodes, edit, Appends(Resolve(tree, path).value, edit))
      requires BringsNew(edit, EditIds(edit)) && Between(EditIds(edit), |before|, |nodes| + 1)
      requires BringsKept(edit, dirty, original)
      modifies this`nodes, this`dirty, this`tree
      ensures Valid() && At(old(tree), path, edit) == Ok(tree)
      ensures dirty == old(dirty) + (set id | id in trail)
    {
      ghost var target := Resolve(tree, path).value;
      ghost var whole := nodes;
      var id := trail[|trail| - 1];
      ShownIds(before, documents[0], tree);
      ResolveShown(before, documents[0], tree, path);
      nodes := nodes[id := nodes[id].(kind := kind)];
      EditStaysShown(whole, nodes, id, edit, Appends(target, edit));
      HereShown(whole, nodes, id, target, edit);
      AtShown(whole, nodes, documents[0], tree, path, edit);
      AtUnshared(before, tree, path, edit, EditIds(edit));
      dirty := dirty + (set i | i in trail);
      KeptMore(tree, old(dirty), dirty, original);
      EditKeptMore(edit, old(dirty), dirty, original);
      AtKept(tree, path, edit, dirty, original);
      tree := At(tree, path, edit).value;
    }

    /** Rewriting is the edit, or there is nothing to rewrite and the edit fails alike. */
    twostate predicate Edited(new path: Path, new edit: Edit, new r: Result<(), EditError>)
      reads this
    {
      match At(old(tree), path, edit)
      case Ok(t) =>
        && r == Ok(()) && tree == t
        && Trail(old(tree), path).Ok? && dirty == old(dirty) + (set id | id in Trail(old(tree), path).value)
      case Err(e) => r == Err(e) && Untouched()
    }

    /** Nothing a reader of the document could see has changed. */
    twostate predicate Untouched()
      reads this
    {
      tree == old(tree) && dirty == old(dirty) && documents == old(documents) && old(nodes) <= nodes
    }

    /** Replaces the value at `path`, or adds a missing field; the root path replaces the document. */
    method Set(path: Path, value: EditValue) returns (r: Result<(), EditError>, ghost edit: Edit)
      requires Valid()
      modifies this`nodes, this`dirty, this`tree, this`documents
      ensures Valid()
      ensures r.Err? ==> Untouched()
      ensures path == [] ==> r.Ok? && Spells(floats, tree, value) && dirty == old(dirty) + {documents[0]}
      ensures path != [] ==>
        && edit.Put? && edit.key == path[|path| - 1] && EditOk(edit) && Spells(floats, edit.child, value)
        && Edited(path[..|path| - 1], edit, r)
      ensures r.Ok? ==> Resolves(floats, tree, path, value) && ReadsAs(nodes, tree, path, value)
      ensures r.Ok? ==>
        forall other | Diverge(path, other) :: EditTree.Resolve(tree, other) == EditTree.Resolve(old(tree), other)
    {
      ghost var before := nodes;
      var id, child := Build(value);
      TreeStays(before, nodes, documents[0], tree);
      ghost var nowhere := Leaf(|nodes|, BARE, NodeKind.Scalar(KeyScalar("")));
      edit := Put(Index(0), child, nowhere);
      if path == [] {
        documents := documents[0 := id];
        dirty := dirty + {id};
        tree := child;
        BuiltKept(floats, child, value, dirty, original);
        ResolvedReads(floats, nodes, tree, path, value);
        return Ok(()), edit;
      }
      var parent, key := path[..|path| - 1], path[|path| - 1];
      edit := Put(key, child,
                  if key.Field? then Leaf(|nodes|, BARE, NodeKind.Scalar(KeyScalar(key.name))) else nowhere);
      AtErrors(tree, parent, edit);
      var found := ResolveTrail(parent);
      if found.Err? {
        return Err(found.error), edit;
      }
      r := SpliceChild(before, parent, found.value, key, id, value, edit);
      if r.Ok? {
        SetLaws(old(tree), path, edit);
        ResolvedReads(floats, nodes, tree, path, value);
      }
    }

    /** Puts a built child under `key` of the last node of the trail. */
    method SpliceChild(ghost before: seq<NodeData>, path: Path, trail: seq<NodeId>, key: Key, id: NodeId,
                       ghost value: EditValue, ghost edit: Edit)
      returns (r: Result<(), EditError>)
      requires Valid() && Trail(tree, path) == Ok(trail)
      requires before <= nodes && Shows(before, documents[0], tree)
      requires edit.Put? && edit.key == key && EditOk(edit) && edit.child.id == id && Shows(nodes, id, edit.child)
      requires edit.newKey.Leaf? && edit.newKey == Leaf(|nodes|, BARE, edit.newKey.kind)
        && (key.Field? ==> edit.newKey.kind == NodeKind.Scalar(KeyScalar(key.name)))
      requires Unshared(edit.child) && Between(Ids(edit.child), |before|, |nodes|) && Spells(floats, edit.child, value)
      modifies this`nodes, this`dirty, this`tree
      ensures Valid() && Edited(path, edit, r)
    {
      ghost var target := Resolve(tree, path).value;
      var parent := trail[|trail| - 1];
      AtErrors(tree, path, edit);
      ResolveShown(nodes, documents[0], tree, path);
      ChildIndexShown(nodes, parent, target, key);
      var index :- ChildIndex(nodes, parent, key);
      if index.None? && key.Index? {
        return Err(IndexOutOfBounds);
      }
      var kind := nodes[parent].kind;
      ghost var whole := nodes;
      if index.None? {
        var keyId, keyTree := BuildKey(key.name);
        kind := Mapping(kind.entries + [(keyId, id)]);
        TreeStays(whole, nodes, documents[0], tree);
        TreeStays(whole, nodes, id, edit.child);
        TreeStays(whole, nodes, parent, target);
      } else if key.Field? {
        kind := Mapping(kind.entries[index.value := (kind.entries[index.value].0, id)]);
      } else {
        kind := Sequence(kind.items[index.value := id]);
      }
      BuiltKept(floats, edit.child, value, dirty, original);
      Rewrite(path, trail, kind, before, edit);
      return Ok(());
    }

    /** Removes the entry or item at `path` from its parent. */
    method Remove(path: Path) returns (r: Result<(), EditError>)
      requires Valid()
      modifies this`nodes, this`dirty, this`tree
      ensures Valid()
      ensures r.Err? ==> Untouched()
      ensures if path == [] then r == Err(EmptyPath) else Edited(path[..|path| - 1], Drop(path[|path| - 1]), r)
    {
      if path == [] {
        return Err(EmptyPath);
      }
      var parentPath, key := path[..|path| - 1], path[|path| - 1];
      AtErrors(tree, parentPath, Drop(key));
      var trail :- ResolveTrail(parentPath);
      var parent := trail[|trail| - 1];
      ghost var target := Resolve(tree, parentPath).value;
      ResolveShown(nodes, documents[0], tree, parentPath);
      ChildIndexShown(nodes, parent, target, key);
      var index :- ChildIndex(nodes, parent, key);
      if index.None? {
        return Err(KeyNotFound);
      }
      var kind := nodes[parent].kind;
      if kind.Mapping? {
        kind := Mapping(kind.entries[..index.value] + kind.entries[index.value + 1..]);
      } else {
        kind := Sequence(kind.items[..index.value] + kind.items[index.value + 1..]);
      }
      Rewrite(parentPath, trail, kind, nodes, Drop(key));
      return Ok(());
    }

    /** Appends a value to the sequence at `path`. */
    method PushValue(path: Path, value: EditValue) returns (r: Result<(), EditError>, ghost child: Tree)
      requires Valid()
      modifies this`nodes, this`dirty, this`tree
      ensures Valid() && Spells(floats, child, value) && Edited(path, Append(child), r)
      ensures r.Err? ==> Untouched()
      ensures r.Ok? ==>
        var target := EditTree.Resolve(old(tree), path);
        target.Ok? && target.value.Items? && ReadsAs(nodes, tree, path + [Index(|target.value.items|)], value)
    {
      ghost var before := nodes;
      var id;
      id, child := Build(value);
      TreeStays(before, nodes, documents[0], tree);
      AtErrors(tree, path, Append(child));
      var found := ResolveTrail(path);
      if found.Err? {
        return Err(found.error), child;
      }
      var trail := found.value;
      var parent := trail[|trail| - 1];
      ResolveShown(nodes, documents[0], tree, path);
      if !nodes[parent].kind.Sequence? {
        return Err(TypeMismatch), child;
      }
      var kind := Sequence(nodes[parent].kind.items + [id]);
      BuiltKept(floats, child, value, dirty, original);
      Rewrite(path, trail, kind, before, Append(child));
      PushedReads(floats, nodes, old(tree), path, child, value);
      r := Ok(());
    }
  }

  /** The path names a node that is the value. */
  ghost predicate Resolves(floats: R.Floats, t: Tree, path: Path, value: EditValue) {
    EditTree.Resolve(t, path).Ok? && Spells(floats, EditTree.Resolve(t, path).value, value)
  }

  /** The path names a node that reads as the value. */
  ghost predicate ReadsAs(nodes: seq<NodeData>, t: Tree, path: Path, value: EditValue) {
    EditTree.Resolve(t, path).Ok? && V.FromNode(nodes, EditTree.Resolve(t, path).value.id) == Meant(value)
  }

  lemma ResolvedReads(floats: R.Floats, nodes: seq<NodeData>, t: Tree, path: Path, value: EditValue)
    requires Shows(nodes, t.id, t) && Resolves(floats, t, path, value)
    ensures ReadsAs(nodes, t, path, value)
  {
    ResolveShown(nodes, t.id, t, path);
    BuiltReads(floats, nodes, EditTree.Resolve(t, path).value, value);
  }

  /** An appended value is read behind the last item. */
  lemma PushedReads(floats: R.Floats, nodes: seq<NodeData>, t: Tree, path: Path, child: Tree, value: EditValue)
    requires At(t, path, Append(child)).Ok? && Spells(floats, child, value)
    requires var t' := At(t, path, Append(child)).value; Shows(nodes, t'.id, t')
    ensures EditTree.Resolve(t, path).Ok? && EditTree.Resolve(t, path).value.Items?
    ensures ReadsAs(nodes, At(t, path, Append(child)).value,
                    path + [Index(|EditTree.Resolve(t, path).value.items|)], value)
  {
    hide Shows, Spells, V.FromNode, At, EditTree.Resolve;
    AtErrors(t, path, Append(child));
    var c := EditTree.Resolve(t, path).value;
    PushThenGet(t, path, c, child, |c.items|);
    ResolvedReads(floats, nodes, At(t, path, Append(child)).value, path + [Index(|c.items|)], value);
  }

  lemma SetLaws(t: Tree, path: Path, edit: Edit)
    requires path != [] && edit.Put? && EditOk(edit) && edit.key == path[|path| - 1]
      && At(t, path[..|path| - 1], edit).Ok?
    ensures var t' := At(t, path[..|path| - 1], edit).value;
      && EditTree.Resolve(t', path) == Ok(edit.child)
      && forall other | Diverge(path, other) :: EditTree.Resolve(t', other) == EditTree.Resolve(t, other)
  {
    var parent := path[..|path| - 1];
    assert parent + [edit.key] == path;
    SetThenGet(t, parent, edit);
    forall other | Diverge(path, other)
      ensures EditTree.Resolve(At(t, parent, edit).value, other) == EditTree.Resolve(t, other)
    {
      SetKeepsOthers(t, parent, edit, other);
    }
  }

  /**
   Whatever was done to a document since it was parsed: a node that has a span and is not marked dirty
   is, with everything below it, the one node of the original that has its id.
   */
  lemma CleanMeansParsed(document: EditableDocument, s: Tree, o: Tree)
    requires document.Valid() && Within(s, document.tree) && s.header.span.Some? && s.id !in document.dirty
    ensures Within(s, document.original)
    ensures Within(o, document.original) && o.id == s.id ==> o == s
  {
    KeptMeans(document.tree, document.dirty, document.original, s);
    if Within(o, document.original) && o.id == s.id {
      IdNamesSubtree(o, s, document.original);
    }
  }

  lemma TreeStays(nodes: seq<NodeData>, nodes': seq<NodeData>, id: NodeId, t: Tree)
    requires nodes <= nodes' && Shows(nodes, id, t)
    ensures Shows(nodes', id, t)
  {
    ShownIds(nodes, id, t);
    ShowsFrame(nodes, nodes', id, t);
  }

  /** An edit fails where its path fails, and otherwise where the container refuses it. */
  lemma {:induction false} AtErrors(t: Tree, path: Path, edit: Edit)
    ensures Resolve(t, path).Err? ==> At(t, path, edit) == Err(Resolve(t, path).error)
    ensures Resolve(t, path).Ok? ==>
      var here := Here(Resolve(t, path).value, edit);
      if here.Err? then At(t, path, edit) == Err(here.error) else At(t, path, edit).Ok?
    decreases |path|
  {
    if path != [] && Step(t, path[0]).Ok? {
      AtErrors(Step(t, path[0]).value, path[1..], edit);
    }
  }

  /** The ids an edit brings in. */
  ghost function EditIds(edit: Edit): set<NodeId> {
    match edit
    case Put(_, child, newKey) => Ids(child) + Ids(newKey)
    case Drop(_) => {}
    case Append(child) => Ids(child)
  }

  function Ahead(front: seq<NodeId>, rest: Result<seq<NodeId>, EditError>): Result<seq<NodeId>, EditError> {
    var ids :- rest;
    Ok(front + ids)
  }

  lemma AheadNothing(rest: Result<seq<NodeId>, EditError>)
    ensures Ahead([], rest) == rest
  {
    assert rest.Ok? ==> [] + rest.value == rest.value;
  }

  lemma AheadTwice(front: seq<NodeId>, id: NodeId, rest: Result<seq<NodeId>, EditError>)
    ensures Ahead(front, Ahead([id], rest)) == Ahead(front + [id], rest)
  {
    assert rest.Ok? ==> front + ([id] + rest.value) == front + [id] + rest.value;
  }

  lemma EditStaysShown(nodes: seq<NodeData>, nodes': seq<NodeData>, id: NodeId, edit: Edit, appends: bool)
    requires EditShown(nodes, edit, appends) && id < |nodes| == |nodes'| && id !in EditIds(edit)
    requires forall i | 0 <= i < |nodes| && i != id :: nodes'[i] == nodes[i]
    ensures EditShown(nodes', edit, appends)
  {
    if !edit.Drop? {
      ShownIds(nodes, edit.child.id, edit.child);
      ShowsFrame(nodes, nodes', edit.child.id, edit.child);
    }
    if edit.Put? && appends {
      ShownIds(nodes, edit.newKey.id, edit.newKey);
      ShowsFrame(nodes, nodes', edit.newKey.id, edit.newKey);
    }
  }

  lemma EditKeptMore(edit: Edit, dirty: set<NodeId>, dirty': set<NodeId>, original: Tree)
    requires BringsKept(edit, dirty, original) && dirty <= dirty'
    ensures BringsKept(edit, dirty', original)
  {
    match edit
    case Put(_, child, newKey) =>
      KeptMore(child, dirty, dirty', original);
      KeptMore(newKey, dirty, dirty', original);
    case Drop(_) =>
    case Append(child) => KeptMore(child, dirty, dirty', original);
  }
}
