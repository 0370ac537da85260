/** What edits do to paths: the edited place changes as asked, and every other place stays as it was. */
module EditLaws {
  import opened Prelude
  import opened Syntax
  import opened Arena
  import opened EditTree

  /** Two paths that part ways before either ends. */
  predicate Diverge(p: Path, q: Path) {
    p != [] && q != [] && (p[0] != q[0] || Diverge(p[1..], q[1..]))
  }

  /** The key of an entry to be appended is spelled as the field it is for. */
  predicate EditOk(edit: Edit) {
    edit.Put? && edit.key.Field? ==> KeySpelled(edit.newKey, edit.key.name)
  }

  // ----- Positions of entries

  lemma {:induction false} EntryFound(entries: seq<(Tree, Tree)>, name: string)
    ensures var i := EntryIndex(entries, name);
      && (i < |entries| ==> KeySpelled(entries[i].0, name))
      && (forall j | 0 <= j < i :: !KeySpelled(entries[j].0, name))
  {
    if entries != [] && !KeySpelled(entries[0].0, name) {
      EntryFound(entries[1..], name);
    }
  }

  lemma {:induction false} EntryIndexIs(entries: seq<(Tree, Tree)>, name: string, i: nat)
    requires i <= |entries| && (forall j | 0 <= j < i :: !KeySpelled(entries[j].0, name))
    requires i < |entries| ==> KeySpelled(entries[i].0, name)
    ensures EntryIndex(entries, name) == i
    decreases i
  {
    if i > 0 {
      EntryIndexIs(entries[1..], name, i - 1);
    }
  }

  // ----- Setting

  lemma PutHere(t: Tree, edit: Edit)
    requires edit.Put? && EditOk(edit) && Here(t, edit).Ok?
    ensures Step(Here(t, edit).value, edit.key) == Ok(edit.child)
  {
    if t.Entries? {
      var t' := Here(t, edit).value;
      EntryFound(t.entries, edit.key.name);
      EntryIndexIs(t'.entries, edit.key.name, EntryIndex(t.entries, edit.key.name));
    }
  }

  lemma PutBeside(t: Tree, edit: Edit, key: Key)
    requires edit.Put? && EditOk(edit) && Here(t, edit).Ok? && key != edit.key
    ensures Step(Here(t, edit).value, key) == Step(t, key)
  {
    if t.Entries? && key.Field? {
      var t' := Here(t, edit).value;
      EntryFound(t.entries, edit.key.name);
      EntryFound(t.entries, key.name);
      var index := EntryIndex(t.entries, key.name);
      EntryIndexIs(t'.entries, key.name, if index < |t.entries| then index else |t'.entries|);
    }
  }

  lemma ReplaceHere(t: Tree, key: Key, child: Tree)
    requires Step(t, key).Ok?
    ensures Step(Replace(t, key, child), key) == Ok(child)
  {
    if t.Entries? {
      EntryFound(t.entries, key.name);
      EntryIndexIs(Replace(t, key, child).entries, key.name, EntryIndex(t.entries, key.name));
    }
  }

  lemma ReplaceBeside(t: Tree, key: Key, child: Tree, other: Key)
    requires Step(t, key).Ok? && other != key
    ensures Step(Replace(t, key, child), other) == Step(t, other)
  {
    if t.Entries? && other.Field? {
      EntryFound(t.entries, other.name);
      EntryFound(t.entries, key.name);
      EntryIndexIs(Replace(t, key, child).entries, other.name, EntryIndex(t.entries, other.name));
    }
  }

  /** Descending along the edited path leads to the edited container. */
  lemma {:induction false} AtPath(t: Tree, path: Path, edit: Edit)
    requires At(t, path, edit).Ok?
    ensures Resolve(t, path).Ok? && Here(Resolve(t, path).value, edit).Ok?
    ensures Resolve(At(t, path, edit).value, path) == Ok(Here(Resolve(t, path).value, edit).value)
    decreases |path|
  {
    if path != [] {
      var child := Step(t, path[0]).value;
      AtPath(child, path[1..], edit);
      ReplaceHere(t, path[0], At(child, path[1..], edit).value);
    }
  }

  lemma {:induction false} ResolveLast(t: Tree, path: Path, key: Key)
    ensures Resolve(t, path + [key]) == (var c := Resolve(t, path); if c.Ok? then Step(c.value, key) else c)
    decreases |path|
  {
    var longer := path + [key];
    if path == [] {
      assert longer[1..] == [];
    } else {
      assert longer[1..] == path[1..] + [key];
      var child := Step(t, path[0]);
      if child.Ok? {
        ResolveLast(child.value, path[1..], key);
      }
    }
  }

  /** After setting a value at a path, that path names the value. */
  lemma SetThenGet(t: Tree, path: Path, edit: Edit)
    requires edit.Put? && EditOk(edit) && At(t, path, edit).Ok?
    ensures Resolve(At(t, path, edit).value, path + [edit.key]) == Ok(edit.child)
  {
    AtPath(t, path, edit);
    ResolveLast(At(t, path, edit).value, path, edit.key);
    PutHere(Resolve(t, path).value, edit);
  }

  /** Editing below one path leaves every path that parts from it as it was, its errors included. */
  lemma {:induction false} OtherPathsKept(t: Tree, path: Path, edit: Edit, other: Path)
    requires At(t, path, edit).Ok? && Diverge(path, other)
    ensures Resolve(At(t, path, edit).value, other) == Resolve(t, other)
    decreases |path|
  {
    var child := Step(t, path[0]).value;
    var child' := At(child, path[1..], edit).value;
    if path[0] != other[0] {
      ReplaceBeside(t, path[0], child', other[0]);
    } else {
      ReplaceHere(t, path[0], child');
      OtherPathsKept(child, path[1..], edit, other[1..]);
    }
  }

  /** Setting a value leaves alone every path that parts from the one that was set, siblings included. */
  lemma {:induction false} SetKeepsOthers(t: Tree, path: Path, edit: Edit, other: Path)
    requires edit.Put? && EditOk(edit) && At(t, path, edit).Ok? && Diverge(path + [edit.key], other)
    ensures Resolve(At(t, path, edit).value, other) == Resolve(t, other)
    decreases |path|
  {
    var whole := path + [edit.key];
    if path == [] {
      assert whole[1..] == [];
      PutBeside(t, edit, other[0]);
    } else {
      assert whole[0] == path[0] && whole[1..] == path[1..] + [edit.key];
      var child := Step(t, path[0]).value;
      var child' := At(child, path[1..], edit).value;
      if path[0] != other[0] {
        ReplaceBeside(t, path[0], child', other[0]);
      } else {
        ReplaceHere(t, path[0], child');
        SetKeepsOthers(child, path[1..], edit, other[1..]);
      }
    }
  }

  // ----- Removing and appending

  /** Removing an item closes the gap: items before it keep their index, those behind it move up by one. */
  lemma RemoveShiftsItems(t: Tree, path: Path, i: nat, j: nat)
    requires At(t, path, Drop(Index(i))).Ok?
    ensures Resolve(At(t, path, Drop(Index(i))).value, path + [Index(j)]) ==
      Resolve(t, path + [Index(if j < i then j else j + 1)])
  {
    var edit := Drop(Index(i));
    AtPath(t, path, edit);
    ResolveLast(At(t, path, edit).value, path, Index(j));
    ResolveLast(t, path, Index(if j < i then j else j + 1));
  }

  /** The entry `name` finds, or none. */
  function Found(entries: seq<(Tree, Tree)>, name: string): Option<(Tree, Tree)> {
    var i := EntryIndex(entries, name);
    if i < |entries| then Some(entries[i]) else None
  }

  lemma {:induction false} DropHere(entries: seq<(Tree, Tree)>, name: string, other: string)
    requires EntryIndex(entries, name) < |entries|
    ensures var i := EntryIndex(entries, name);
      && Found(entries[..i] + entries[i + 1..], name) == Found(entries[i + 1..], name)
      && (other != name ==> Found(entries[..i] + entries[i + 1..], other) == Found(entries, other))
  {
    var i := EntryIndex(entries, name);
    var left := entries[..i] + entries[i + 1..];
    var rest := entries[1..];
    FoundLater(entries, other);
    if i == 0 {
      assert left == rest;
    } else {
      DropHere(rest, name, other);
      assert left[1..] == rest[..i - 1] + rest[i..];
      assert entries[i + 1..] == rest[i..];
      FoundLater(left, name);
      FoundLater(left, other);
    }
  }

  lemma FoundLater(entries: seq<(Tree, Tree)>, name: string)
    requires entries != []
    ensures Found(entries, name) == if KeySpelled(entries[0].0, name) then Some(entries[0])
      else Found(entries[1..], name)
  {
  }

  lemma StepFound(c: Tree, name: string)
    requires c.Entries?
    ensures Step(c, Field(name)) == if Found(c.entries, name).Some? then Ok(Found(c.entries, name).value.1)
      else Err(KeyNotFound)
  {
  }

  lemma DropFieldHere(c: Tree, name: string, other: string)
    requires c.Entries? && EntryIndex(c.entries, name) < |c.entries|
    ensures Here(c, Drop(Field(name))).Ok?
    ensures var c' := Here(c, Drop(Field(name))).value;
      var later := Found(c.entries[EntryIndex(c.entries, name) + 1..], name);
      && (other != name ==> Step(c', Field(other)) == Step(c, Field(other)))
      && Step(c', Field(name)) == if later.Some? then Ok(later.value.1) else Err(KeyNotFound)
  {
    hide Step, Found;
    DropHere(c.entries, name, other);
    var c' := Here(c, Drop(Field(name))).value;
    StepFound(c', name);
    StepFound(c', other);
    StepFound(c, other);
  }

  /** Removing a field leaves the other fields alone; its own name is then gone, or names a later duplicate. */
  lemma RemoveField(t: Tree, path: Path, c: Tree, name: string, other: string)
    requires At(t, path, Drop(Field(name))).Ok? && Resolve(t, path) == Ok(c) && c.Entries?
    requires EntryIndex(c.entries, name) < |c.entries|
    ensures var t' := At(t, path, Drop(Field(name))).value;
      var later := Found(c.entries[EntryIndex(c.entries, name) + 1..], name);
      && (other != name ==> Resolve(t', path + [Field(other)]) == Resolve(t, path + [Field(other)]))
      && Resolve(t', path + [Field(name)]) == if later.Some? then Ok(later.value.1) else Err(KeyNotFound)
  {
    hide At, Resolve, Step, Here;
    var edit := Drop(Field(name));
    AtPath(t, path, edit);
    var t' := At(t, path, edit).value;
    ResolveLast(t', path, Field(other));
    ResolveLast(t', path, Field(name));
    ResolveLast(t, path, Field(other));
    DropFieldHere(c, name, other);
  }

  /** Appending puts the value behind the last item and moves nothing. */
  lemma PushThenGet(t: Tree, path: Path, c: Tree, child: Tree, j: nat)
    requires At(t, path, Append(child)).Ok? && Resolve(t, path) == Ok(c) && c.Items?
    ensures Resolve(At(t, path, Append(child)).value, path + [Index(j)]) ==
      if j == |c.items| then Ok(child) else Resolve(t, path + [Index(j)])
  {
    var edit := Append(child);
    AtPath(t, path, edit);
    ResolveLast(At(t, path, edit).value, path, Index(j));
    ResolveLast(t, path, Index(j));
  }
}
