/**
 A document as a tree, and editing as a function of it. The tree keeps the arena id and the layout
 data of every node, so that two trees are equal only if they would render from the same source text.
 */
module EditTree {
  import opened Prelude
  import opened Syntax
  import opened Arena

  datatype EditError = EmptyDocument | EmptyPath | KeyNotFound | IndexOutOfBounds | TypeMismatch | DanglingNode

  datatype Key = Field(name: string) | Index(i: nat)

  type Path = seq<Key>

  datatype Header = Header(span: Option<Span>, trivia: seq<Trivia>, anchor: Option<string>, tag: Option<string>)

  datatype Tree =
    | Leaf(id: NodeId, header: Header, kind: NodeKind)
    | Items(id: NodeId, header: Header, items: seq<Tree>)
    | Entries(id: NodeId, header: Header, entries: seq<(Tree, Tree)>)

  function HeaderOf(node: NodeData): Header {
    Header(node.span, node.trivia, node.anchor, node.tag)
  }

  // ----- Trees and arenas

  /** Node `id` of the arena unfolds to the tree. */
  ghost predicate Shows(nodes: seq<NodeData>, id: NodeId, t: Tree)
    decreases t
  {
    && id < |nodes| && t.id == id && t.header == HeaderOf(nodes[id]) &&
    match t
    case Leaf(_, _, kind) => nodes[id].kind == kind && (kind.Scalar? || kind.Alias?)
    case Items(_, _, items) =>
      nodes[id].kind.Sequence? && |nodes[id].kind.items| == |items| &&
      forall i | 0 <= i < |items| :: Shows(nodes, nodes[id].kind.items[i], items[i])
    case Entries(_, _, entries) =>
      nodes[id].kind.Mapping? && |nodes[id].kind.entries| == |entries| &&
      forall i | 0 <= i < |entries| :: ShowsEntry(nodes, nodes[id].kind.entries[i], entries[i])
  }

  ghost predicate ShowsEntry(nodes: seq<NodeData>, ids: (NodeId, NodeId), e: (Tree, Tree))
    decreases e
  {
    assert e.0 < e && e.1 < e;
    Shows(nodes, ids.0, e.0) && Shows(nodes, ids.1, e.1)
  }

  /** Every id the tree uses. */
  function Ids(t: Tree): set<NodeId>
    decreases t
  {
    match t
    case Leaf(id, _, _) => {id}
    case Items(id, _, items) => {id} + ItemIds(items)
    case Entries(id, _, entries) => {id} + EntryIds(entries)
  }

  function ItemIds(items: seq<Tree>): set<NodeId>
    decreases items
  {
    if items == [] then {} else Ids(items[0]) + ItemIds(items[1..])
  }

  function EntryIds(entries: seq<(Tree, Tree)>): set<NodeId>
    decreases entries
  {
    if entries == [] then {} else
    var e := entries[0];
    assert e.0 < e && e.1 < e;
    Ids(e.0) + Ids(e.1) + EntryIds(entries[1..])
  }

  /** No id is used twice: the containment edges below the root form a tree. */
  predicate Unshared(t: Tree)
    decreases t
  {
    match t
    case Leaf(_, _, _) => true
    case Items(id, _, items) => id !in ItemIds(items) && ItemsUnshared(items)
    case Entries(id, _, entries) => id !in EntryIds(entries) && EntriesUnshared(entries)
  }

  predicate ItemsUnshared(items: seq<Tree>)
    decreases items
  {
    items == [] || (Unshared(items[0]) && Ids(items[0]) !! ItemIds(items[1..]) && ItemsUnshared(items[1..]))
  }

  predicate EntriesUnshared(entries: seq<(Tree, Tree)>)
    decreases entries
  {
    entries == [] ||
    var e := entries[0];
    assert e.0 < e && e.1 < e;
    && Unshared(e.0) && Unshared(e.1) && Ids(e.0) !! Ids(e.1)
    && (Ids(e.0) + Ids(e.1)) !! EntryIds(entries[1..]) && EntriesUnshared(entries[1..])
  }

  // ----- Looking up

  predicate KeySpelled(key: Tree, name: string) {
    key.Leaf? && key.kind.Scalar? && key.kind.scalar.raw == name
  }

  /** The first entry whose key is spelled `name`, or the number of entries if there is none. */
  function EntryIndex(entries: seq<(Tree, Tree)>, name: string): (i: nat)
    ensures i <= |entries|
  {
    if entries == [] || KeySpelled(entries[0].0, name) then 0 else 1 + EntryIndex(entries[1..], name)
  }

  function ChildAt(t: Tree, key: Key): Result<Option<nat>, EditError> {
    if t.Entries? && key.Field? then
      var i := EntryIndex(t.entries, key.name);
      Ok(if i < |t.entries| then Some(i) else None)
    else if t.Items? && key.Index? then Ok(if key.i < |t.items| then Some(key.i) else None)
    else Err(TypeMismatch)
  }

  function Missing(key: Key): EditError {
    if key.Field? then KeyNotFound else IndexOutOfBounds
  }

  function Step(t: Tree, key: Key): (r: Result<Tree, EditError>)
    ensures r.Ok? ==> r.value < t
  {
    var index :- ChildAt(t, key);
    if index.None? then Err(Missing(key))
    else if t.Items? then Ok(t.items[index.value])
    else
      var e := t.entries[index.value];
      assert e.1 < e;
      Ok(e.1)
  }

  /** The subtree a path names. */
  function Resolve(t: Tree, path: Path): Result<Tree, EditError> {
    if path == [] then Ok(t) else
    var child :- Step(t, path[0]);
    Resolve(child, path[1..])
  }

  /** The ids from the root to the node a path names. */
  function Trail(t: Tree, path: Path): (r: Result<seq<NodeId>, EditError>)
    ensures r.Ok? ==> |r.value| == |path| + 1
    ensures r.Ok? <==> Resolve(t, path).Ok?
    ensures r.Err? ==> r.error == Resolve(t, path).error
    ensures r.Ok? ==> r.value[|path|] == Resolve(t, path).value.id
  {
    if path == [] then Ok([t.id]) else
    var child :- Step(t, path[0]);
    var rest :- Trail(child, path[1..]);
    Ok([t.id] + rest)
  }

  // ----- Editing

  /** What is done to one container. Setting a missing field appends an entry under the given key. */
  datatype Edit = Put(key: Key, child: Tree, newKey: Tree) | Drop(key: Key) | Append(child: Tree)

  function Here(t: Tree, edit: Edit): Result<Tree, EditError> {
    match edit
    case Put(key, child, newKey) =>
      var index :- ChildAt(t, key);
      if t.Items? then
        if index.None? then Err(IndexOutOfBounds) else Ok(t.(items := t.items[index.value := child]))
      else if index.None? then Ok(t.(entries := t.entries + [(newKey, child)]))
      else Ok(t.(entries := t.entries[index.value := (t.entries[index.value].0, child)]))
    case Drop(key) =>
      var index :- ChildAt(t, key);
      if index.None? then Err(KeyNotFound)
      else if t.Items? then Ok(t.(items := t.items[..index.value] + t.items[index.value + 1..]))
      else Ok(t.(entries := t.entries[..index.value] + t.entries[index.value + 1..]))
    case Append(child) =>
      if t.Items? then Ok(t.(items := t.items + [child])) else Err(TypeMismatch)
  }

  /** The tree with the child that `key` names replaced. */
  function Replace(t: Tree, key: Key, child: Tree): Tree
    requires Step(t, key).Ok?
  {
    var index := ChildAt(t, key).value.value;
    if t.Items? then t.(items := t.items[index := child])
    else t.(entries := t.entries[index := (t.entries[index].0, child)])
  }

  /** The tree with the container that `path` names edited. */
  function At(t: Tree, path: Path, edit: Edit): Result<Tree, EditError> {
    if path == [] then Here(t, edit) else
    var child :- Step(t, path[0]);
    var child' :- At(child, path[1..], edit);
    Ok(Replace(t, path[0], child'))
  }
}
