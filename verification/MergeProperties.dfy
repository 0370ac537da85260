/** What expanding `<<` keys guarantees about the entries of the finished mapping. */
module MergeProperties {
  import opened Prelude
  import opened Syntax
  import opened Arena
  import opened MergeKeys

  /** The first entry spelled `key`: what looking `key` up in the mapping finds. */
  function Lookup(nodes: seq<NodeData>, entries: seq<Entry>, key: string): Option<Entry> {
    if entries == [] then None
    else if KeyRepr(nodes, entries[0].0) == Some(key) then Some(entries[0])
    else Lookup(nodes, entries[1..], key)
  }

  /** Everything the merge values offer, earliest source first. */
  function Offered(nodes: seq<NodeData>, values: seq<NodeId>): Result<seq<Entry>, ErrorKind> {
    if values == [] then Ok([]) else
    var first :- MergeSources(nodes, values[0]);
    var rest :- Offered(nodes, values[1..]);
    Ok(first + rest)
  }

  /** No two entries are spelled alike, and none is spelled like a name in `taken`. */
  predicate Distinct(nodes: seq<NodeData>, entries: seq<Entry>, taken: set<string>) {
    entries == [] ||
    var repr := KeyRepr(nodes, entries[0].0);
    && (repr.Some? ==> repr.value !in taken)
    && Distinct(nodes, entries[1..], if repr.Some? then taken + {repr.value} else taken)
  }

  lemma {:induction false} LookupConcat(nodes: seq<NodeData>, a: seq<Entry>, b: seq<Entry>, key: string)
    ensures Lookup(nodes, a + b, key) == if Lookup(nodes, a, key).Some? then Lookup(nodes, a, key)
      else Lookup(nodes, b, key)
  {
    if a == [] {
      assert a + b == b;
    } else {
      assert (a + b)[1..] == a[1..] + b;
      LookupConcat(nodes, a[1..], b, key);
    }
  }

  lemma {:induction false} KeyReprsLookup(nodes: seq<NodeData>, entries: seq<Entry>, key: string)
    ensures key in KeyReprs(nodes, entries) <==> Lookup(nodes, entries, key).Some?
  {
    if entries != [] {
      KeyReprsLookup(nodes, entries[1..], key);
    }
  }

  /** Filtering one batch of sources is filtering the concatenation of all of them. */
  lemma {:induction false} UnseenConcat(nodes: seq<NodeData>, a: seq<Entry>, b: seq<Entry>, seen: set<string>)
    ensures var first := Unseen(nodes, a, seen);
      var rest := Unseen(nodes, b, first.1);
      Unseen(nodes, a + b, seen) == (first.0 + rest.0, rest.1)
  {
    if a == [] {
      assert a + b == b;
      assert [] + Unseen(nodes, b, seen).0 == Unseen(nodes, b, seen).0;
    } else {
      assert (a + b)[1..] == a[1..] + b;
      var repr := KeyRepr(nodes, a[0].0);
      if repr.Some? && repr.value in seen {
        UnseenConcat(nodes, a[1..], b, seen);
      } else {
        var seen' := if repr.Some? then seen + {repr.value} else seen;
        UnseenConcat(nodes, a[1..], b, seen');
        var rest := Unseen(nodes, b, Unseen(nodes, a[1..], seen').1).0;
        assert [a[0]] + (Unseen(nodes, a[1..], seen').0 + rest) == [a[0]] + Unseen(nodes, a[1..], seen').0 + rest;
      }
    }
  }

  lemma {:induction false} MergedIsFiltered(nodes: seq<NodeData>, values: seq<NodeId>, seen: set<string>)
    ensures Offered(nodes, values).Err? ==> MergedEntries(nodes, values, seen) == Err(InvalidMergeKey)
    ensures Offered(nodes, values).Ok? ==>
      MergedEntries(nodes, values, seen) == Ok(Unseen(nodes, Offered(nodes, values).value, seen).0)
  {
    if values != [] {
      SourcesError(nodes, values[0]);
      if MergeSources(nodes, values[0]).Ok? {
        var sources := MergeSources(nodes, values[0]).value;
        MergedIsFiltered(nodes, values[1..], Unseen(nodes, sources, seen).1);
        if Offered(nodes, values[1..]).Ok? {
          UnseenConcat(nodes, sources, Offered(nodes, values[1..]).value, seen);
        }
      }
    }
  }

  lemma {:induction false} ItemSourcesError(nodes: seq<NodeData>, items: seq<NodeId>)
    ensures ItemSources(nodes, items).Err? ==> ItemSources(nodes, items).error == InvalidMergeKey
  {
    if items != [] {
      ItemSourcesError(nodes, items[1..]);
    }
  }

  lemma SourcesError(nodes: seq<NodeData>, value: NodeId)
    ensures MergeSources(nodes, value).Err? ==> MergeSources(nodes, value).error == InvalidMergeKey
  {
    var id := Deref(nodes, value);
    if id < |nodes| && nodes[id].kind.Sequence? {
      ItemSourcesError(nodes, nodes[id].kind.items);
    }
  }

  /** Filtering changes what a key finds only where the key was taken, and leaves no key twice. */
  lemma {:induction false} UnseenLookup(nodes: seq<NodeData>, sources: seq<Entry>, seen: set<string>, key: string)
    ensures var kept := Unseen(nodes, sources, seen).0;
      && Lookup(nodes, kept, key) == (if key in seen then None else Lookup(nodes, sources, key))
      && Distinct(nodes, kept, seen)
      && (forall e | e in kept :: e in sources)
  {
    if sources != [] {
      var repr := KeyRepr(nodes, sources[0].0);
      UnseenLookup(nodes, sources[1..], seen, key);
      UnseenLookup(nodes, sources[1..], if repr.Some? then seen + {repr.value} else seen, key);
    }
  }

  /** A collection or an alias used as a key is never taken for a repetition. */
  lemma {:induction false} UnseenKeepsUnspelled(nodes: seq<NodeData>, sources: seq<Entry>, seen: set<string>,
                                                entry: Entry)
    requires entry in sources && KeyRepr(nodes, entry.0).None?
    ensures entry in Unseen(nodes, sources, seen).0
  {
    var repr := KeyRepr(nodes, sources[0].0);
    if entry != sources[0] {
      assert entry in sources[1..];
      if repr.Some? && repr.value in seen {
        UnseenKeepsUnspelled(nodes, sources[1..], seen, entry);
      } else {
        UnseenKeepsUnspelled(nodes, sources[1..], if repr.Some? then seen + {repr.value} else seen, entry);
      }
    }
  }

  /** `result` is `explicit` followed by what it leaves of `offered`, as seen by `key`. */
  ghost predicate Overrides(nodes: seq<NodeData>, explicit: seq<Entry>, offered: seq<Entry>, result: seq<Entry>,
                            key: string) {
    && explicit <= result
    && Lookup(nodes, result, key) ==
         (if Lookup(nodes, explicit, key).Some? then Lookup(nodes, explicit, key) else Lookup(nodes, offered, key))
    && Distinct(nodes, result[|explicit|..], KeyReprs(nodes, explicit))
    && (forall e | e in result[|explicit|..] :: e in offered)
    && (forall e | e in offered && KeyRepr(nodes, e.0).None? :: e in result)
  }

  /**
   Expansion fails exactly when some `<<` value is not a mapping or a sequence of mappings. Otherwise
   the explicit entries stand first and unchanged, looking a key up finds its explicit entry, or else
   the entry of the earliest source that has it, and no merged key repeats a key before it.
   */
  lemma MergedLookup(nodes: seq<NodeData>, entries: seq<Entry>, key: string)
    ensures Offered(nodes, MergeValues(nodes, entries)).Err? ==>
      ApplyMergeKeys(true, nodes, entries) == Err(InvalidMergeKey)
    ensures Offered(nodes, MergeValues(nodes, entries)).Ok? ==>
      && ApplyMergeKeys(true, nodes, entries).Ok?
      && Overrides(nodes, ExplicitEntries(nodes, entries), Offered(nodes, MergeValues(nodes, entries)).value,
                   ApplyMergeKeys(true, nodes, entries).value, key)
  {
    var explicit := ExplicitEntries(nodes, entries);
    var values := MergeValues(nodes, entries);
    var taken := KeyReprs(nodes, explicit);
    MergedIsFiltered(nodes, values, taken);
    if Offered(nodes, values).Ok? {
      var offered := Offered(nodes, values).value;
      var kept := Unseen(nodes, offered, taken).0;
      assert (explicit + kept)[|explicit|..] == kept;
      UnseenLookup(nodes, offered, taken, key);
      KeyReprsLookup(nodes, explicit, key);
      LookupConcat(nodes, explicit, kept, key);
      forall e | e in offered && KeyRepr(nodes, e.0).None? ensures e in kept {
        UnseenKeepsUnspelled(nodes, offered, taken, e);
      }
    }
  }

  // ----- Where merged entries come from

  ghost predicate Within(entries: seq<Entry>, bound: nat) {
    forall e | e in entries :: e.0 < bound && e.1 < bound
  }

  /** Every mapping points to entries below `bound`, none of them spelled `<<`. */
  ghost predicate Expanded(nodes: seq<NodeData>, bound: nat) {
    forall i | 0 <= i < |nodes| && nodes[i].kind.Mapping? ::
      Within(nodes[i].kind.entries, bound) && forall e | e in nodes[i].kind.entries :: !IsMergeKey(nodes, e.0)
  }

  lemma {:induction false} ItemSourcesClean(nodes: seq<NodeData>, items: seq<NodeId>, bound: nat)
    requires Expanded(nodes, bound)
    ensures var r := ItemSources(nodes, items);
      r.Ok? ==> Within(r.value, bound) && forall e | e in r.value :: !IsMergeKey(nodes, e.0)
  {
    if items != [] {
      ItemSourcesClean(nodes, items[1..], bound);
    }
  }

  lemma {:induction false} OfferedClean(nodes: seq<NodeData>, values: seq<NodeId>, bound: nat)
    requires Expanded(nodes, bound)
    ensures var r := Offered(nodes, values);
      r.Ok? ==> Within(r.value, bound) && forall e | e in r.value :: !IsMergeKey(nodes, e.0)
  {
    if values != [] {
      OfferedClean(nodes, values[1..], bound);
      var id := Deref(nodes, values[0]);
      if id < |nodes| && nodes[id].kind.Sequence? {
        ItemSourcesClean(nodes, nodes[id].kind.items, bound);
      }
    }
  }

  lemma {:induction false} ExplicitClean(nodes: seq<NodeData>, entries: seq<Entry>)
    ensures forall e | e in ExplicitEntries(nodes, entries) :: e in entries && !IsMergeKey(nodes, e.0)
  {
    if entries != [] {
      ExplicitClean(nodes, entries[1..]);
    }
  }

  /** Over an arena without `<<` keys, a mapping that is expanded keeps none either. */
  lemma ExpansionClean(nodes: seq<NodeData>, entries: seq<Entry>, bound: nat)
    requires Expanded(nodes, bound) && Within(entries, bound)
    ensures var r := ApplyMergeKeys(true, nodes, entries);
      r.Ok? ==> Within(r.value, bound) && forall e | e in r.value :: !IsMergeKey(nodes, e.0)
  {
    var explicit := ExplicitEntries(nodes, entries);
    ExplicitClean(nodes, entries);
    OfferedClean(nodes, MergeValues(nodes, entries), bound);
    MergedLookup(nodes, entries, "");
    var r := ApplyMergeKeys(true, nodes, entries);
    if r.Ok? {
      assert r.value == explicit + r.value[|explicit|..];
    }
  }

  lemma {:induction false} NoMergeValues(nodes: seq<NodeData>, entries: seq<Entry>)
    requires forall e | e in entries :: !IsMergeKey(nodes, e.0)
    ensures ExplicitEntries(nodes, entries) == entries && MergeValues(nodes, entries) == []
    decreases |entries|
  {
    if entries != [] {
      assert entries[0] in entries && forall e | e in entries[1..] :: e in entries;
      NoMergeValues(nodes, entries[1..]);
      assert [entries[0]] + entries[1..] == entries;
    }
  }

  /** A mapping none of whose keys is `<<` is left as it was written. */
  lemma NothingToMerge(enabled: bool, nodes: seq<NodeData>, entries: seq<Entry>)
    requires enabled ==> forall e | e in entries :: !IsMergeKey(nodes, e.0)
    ensures ApplyMergeKeys(enabled, nodes, entries) == Ok(entries)
  {
    if enabled {
      NoMergeValues(nodes, entries);
      assert entries + [] == entries;
    }
  }

  /**
   * Over an arena without `<<` keys, expansion leaves a mapping as written exactly if it is off or there is no such
   * key.
   */
  lemma NothingMerged(enabled: bool, nodes: seq<NodeData>, entries: seq<Entry>, bound: nat)
    requires Expanded(nodes, bound) && Within(entries, bound)
    ensures ApplyMergeKeys(enabled, nodes, entries) == Ok(entries) <==>
      !enabled || forall e | e in entries :: !IsMergeKey(nodes, e.0)
  {
    if !enabled || forall e | e in entries :: !IsMergeKey(nodes, e.0) {
      NothingToMerge(enabled, nodes, entries);
    } else {
      ExpansionClean(nodes, entries, bound);
    }
  }
}
