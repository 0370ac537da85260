/** Which parts of an edited tree are still exactly what was parsed. */
module EditKept {
  import opened Prelude
  import opened Syntax
  import opened Arena
  import opened EditTree
  import opened EditShape

  /** `s` occurs in `t`. */
  ghost predicate Within(s: Tree, t: Tree)
    decreases t
  {
    || s == t
    || (t.Items? && exists i | 0 <= i < |t.items| :: Within(s, t.items[i]))
    || (t.Entries? && exists i | 0 <= i < |t.entries| :: WithinEntry(s, t.entries[i]))
  }

  ghost predicate WithinEntry(s: Tree, e: (Tree, Tree))
    decreases e
  {
    assert e.0 < e && e.1 < e;
    Within(s, e.0) || Within(s, e.1)
  }

  /** Every clean node with a source span is a subtree of the original. */
  ghost predicate Kept(t: Tree, dirty: set<NodeId>, original: Tree)
    decreases t
  {
    && (t.header.span.Some? && t.id !in dirty ==> Within(t, original))
    && (t.Items? ==> forall i | 0 <= i < |t.items| :: Kept(t.items[i], dirty, original))
    && (t.Entries? ==> forall i | 0 <= i < |t.entries| :: KeptEntry(t.entries[i], dirty, original))
  }

  ghost predicate KeptEntry(e: (Tree, Tree), dirty: set<NodeId>, original: Tree)
    decreases e
  {
    assert e.0 < e && e.1 < e;
    Kept(e.0, dirty, original) && Kept(e.1, dirty, original)
  }

  lemma EntryKept(e: (Tree, Tree), dirty: set<NodeId>, original: Tree)
    ensures KeptEntry(e, dirty, original) <==> Kept(e.0, dirty, original) && Kept(e.1, dirty, original)
  {
  }

  // ----- Subtrees

  lemma {:induction false} WithinTrans(a: Tree, b: Tree, c: Tree)
    requires Within(a, b) && Within(b, c)
    ensures Within(a, c)
    decreases c
  {
    if b != c {
      if c.Items? {
        var i :| 0 <= i < |c.items| && Within(b, c.items[i]);
        WithinTrans(a, b, c.items[i]);
      } else {
        var i :| 0 <= i < |c.entries| && WithinEntry(b, c.entries[i]);
        var e := c.entries[i];
        assert e.0 < e && e.1 < e;
        if Within(b, e.0) {
          WithinTrans(a, b, e.0);
        } else {
          WithinTrans(a, b, e.1);
        }
        assert WithinEntry(a, e);
      }
    }
  }

  lemma {:induction false} WithinIds(s: Tree, t: Tree)
    requires Within(s, t)
    ensures s.id in Ids(t)
    decreases t
  {
    if s != t {
      if t.Items? {
        var i :| 0 <= i < |t.items| && Within(s, t.items[i]);
        WithinIds(s, t.items[i]);
        ItemIdsAt(t.items, i);
      } else {
        var i :| 0 <= i < |t.entries| && WithinEntry(s, t.entries[i]);
        var e := t.entries[i];
        assert e.0 < e && e.1 < e;
        EntryIdsAt(t.entries, i);
        if Within(s, e.0) {
          WithinIds(s, e.0);
        } else {
          WithinIds(s, e.1);
        }
      }
    }
  }

  lemma ChildNotParent(s: Tree, t: Tree)
    requires Within(s, t) && s != t && Unshared(t)
    ensures s.id != t.id
  {
    if t.Items? {
      var i :| 0 <= i < |t.items| && Within(s, t.items[i]);
      WithinIds(s, t.items[i]);
      ItemIdsAt(t.items, i);
    } else {
      var i :| 0 <= i < |t.entries| && WithinEntry(s, t.entries[i]);
      EntryIdsAt(t.entries, i);
      if Within(s, t.entries[i].0) {
        WithinIds(s, t.entries[i].0);
      } else {
        WithinIds(s, t.entries[i].1);
      }
    }
  }

  /** In an unshared tree an id stands for one subtree. */
  lemma {:induction false} IdNamesSubtree(a: Tree, b: Tree, t: Tree)
    requires Within(a, t) && Within(b, t) && Unshared(t) && a.id == b.id
    ensures a == b
    decreases t
  {
    if a == t || b == t {
      if a != t {
        ChildNotParent(a, t);
      }
      if b != t {
        ChildNotParent(b, t);
      }
    } else if t.Items? {
      var i :| 0 <= i < |t.items| && Within(a, t.items[i]);
      var j :| 0 <= j < |t.items| && Within(b, t.items[j]);
      WithinIds(a, t.items[i]);
      WithinIds(b, t.items[j]);
      ItemIdsAt(t.items, i);
      if i != j {
        ItemsApart(t.items, i, j);
      } else {
        IdNamesSubtree(a, b, t.items[i]);
      }
    } else {
      var i :| 0 <= i < |t.entries| && WithinEntry(a, t.entries[i]);
      var j :| 0 <= j < |t.entries| && WithinEntry(b, t.entries[j]);
      var x, y := EntrySide(a, t.entries[i]), EntrySide(b, t.entries[j]);
      WithinIds(a, x);
      WithinIds(b, y);
      EntryIdsAt(t.entries, i);
      if i != j {
        EntriesApart(t.entries, i, j);
      } else {
        IdNamesSubtree(a, b, x);
      }
    }
  }

  /** The half of an entry a subtree occurs in. */
  ghost function EntrySide(s: Tree, e: (Tree, Tree)): (half: Tree)
    requires WithinEntry(s, e)
    ensures Within(s, half) && (half == e.0 || half == e.1) && half < e
  {
    assert e.0 < e && e.1 < e;
    if Within(s, e.0) then e.0 else e.1
  }

  /** The invariant read at any node: clean, with a span, means unchanged since parsing. */
  lemma {:induction false} KeptMeans(t: Tree, dirty: set<NodeId>, original: Tree, s: Tree)
    requires Kept(t, dirty, original) && Within(s, t) && s.header.span.Some? && s.id !in dirty
    ensures Within(s, original)
    decreases t
  {
    if s != t {
      if t.Items? {
        var i :| 0 <= i < |t.items| && Within(s, t.items[i]);
        KeptMeans(t.items[i], dirty, original, s);
      } else {
        var i :| 0 <= i < |t.entries| && WithinEntry(s, t.entries[i]);
        EntryKept(t.entries[i], dirty, original);
        KeptMeans(EntrySide(s, t.entries[i]), dirty, original, s);
      }
    }
  }

  lemma {:induction false} KeptAtFirst(t: Tree, original: Tree)
    requires Within(t, original)
    ensures Kept(t, {}, original)
    decreases t
  {
    match t
    case Leaf(_, _, _) =>
    case Items(_, _, items) =>
      forall i | 0 <= i < |items| ensures Kept(items[i], {}, original) {
        assert Within(items[i], t);
        WithinTrans(items[i], t, original);
        KeptAtFirst(items[i], original);
      }
    case Entries(_, _, entries) =>
      forall i | 0 <= i < |entries| ensures KeptEntry(entries[i], {}, original) {
        var e := entries[i];
        assert e.0 < e && e.1 < e;
        assert WithinEntry(e.0, e) && WithinEntry(e.1, e);
        assert Within(e.0, t) && Within(e.1, t);
        WithinTrans(e.0, t, original);
        WithinTrans(e.1, t, original);
        KeptAtFirst(e.0, original);
        KeptAtFirst(e.1, original);
      }
  }

  lemma {:induction false} KeptMore(t: Tree, dirty: set<NodeId>, dirty': set<NodeId>, original: Tree)
    requires Kept(t, dirty, original) && dirty <= dirty'
    ensures Kept(t, dirty', original)
    decreases t
  {
    match t
    case Leaf(_, _, _) =>
    case Items(_, _, items) =>
      forall i | 0 <= i < |items| ensures Kept(items[i], dirty', original) {
        KeptMore(items[i], dirty, dirty', original);
      }
    case Entries(_, _, entries) =>
      forall i | 0 <= i < |entries| ensures KeptEntry(entries[i], dirty', original) {
        var e := entries[i];
        assert e.0 < e && e.1 < e;
        EntryKept(e, dirty, original);
        KeptMore(e.0, dirty, dirty', original);
        KeptMore(e.1, dirty, dirty', original);
        EntryKept(e, dirty', original);
      }
  }

  // ----- Edits keep the invariant

  ghost predicate BringsKept(edit: Edit, dirty: set<NodeId>, original: Tree) {
    match edit
    case Put(_, child, newKey) => Kept(child, dirty, original) && Kept(newKey, dirty, original)
    case Drop(_) => true
    case Append(child) => Kept(child, dirty, original)
  }

  lemma HereKept(t: Tree, edit: Edit, dirty: set<NodeId>, original: Tree)
    requires Kept(t, dirty, original) && BringsKept(edit, dirty, original) && Here(t, edit).Ok? && t.id in dirty
    ensures Kept(Here(t, edit).value, dirty, original)
  {
    var t' := Here(t, edit).value;
    if t.Entries? {
      forall i | 0 <= i < |t'.entries| ensures KeptEntry(t'.entries[i], dirty, original) {
        EntryKept(t'.entries[i], dirty, original);
        if i < |t.entries| {
          EntryKept(t.entries[i], dirty, original);
        }
      }
    }
  }

  lemma ReplaceKept(t: Tree, key: Key, child': Tree, dirty: set<NodeId>, original: Tree)
    requires Kept(t, dirty, original) && Step(t, key).Ok? && Kept(child', dirty, original) && t.id in dirty
    ensures Kept(Replace(t, key, child'), dirty, original)
  {
    var k := ChildAt(t, key).value.value;
    var t' := Replace(t, key, child');
    if t.Entries? {
      forall i | 0 <= i < |t'.entries| ensures KeptEntry(t'.entries[i], dirty, original) {
        EntryKept(t'.entries[i], dirty, original);
        EntryKept(t.entries[i], dirty, original);
      }
    }
  }

  lemma StepKept(t: Tree, key: Key, dirty: set<NodeId>, original: Tree)
    requires Kept(t, dirty, original) && Step(t, key).Ok?
    ensures Kept(Step(t, key).value, dirty, original)
  {
    if t.Entries? {
      EntryKept(t.entries[ChildAt(t, key).value.value], dirty, original);
    }
  }

  /** With the whole trail marked dirty, an edit keeps every other clean subtree as parsed. */
  lemma {:induction false} AtKept(t: Tree, path: Path, edit: Edit, dirty: set<NodeId>, original: Tree)
    requires Kept(t, dirty, original) && BringsKept(edit, dirty, original) && At(t, path, edit).Ok?
    requires Trail(t, path).Ok? ==> forall id | id in Trail(t, path).value :: id in dirty
    requires Trail(t, path).Ok?
    ensures Kept(At(t, path, edit).value, dirty, original)
    decreases |path|
  {
    assert Trail(t, path).value[0] == t.id;
    assert t.id in Trail(t, path).value;
    if path == [] {
      HereKept(t, edit, dirty, original);
    } else {
      var child := Step(t, path[0]).value;
      StepKept(t, path[0], dirty, original);
      forall id | id in Trail(child, path[1..]).value ensures id in dirty {
        assert id in Trail(t, path).value;
      }
      AtKept(child, path[1..], edit, dirty, original);
      ReplaceKept(t, path[0], At(child, path[1..], edit).value, dirty, original);
    }
  }
}
