/**
 The depth limit of validation: when it does not matter, which schemas never need it, and how it shows when they do.
 */
module SchemaDepth {
  import opened Prelude
  import opened Syntax
  import opened Arena
  import opened Schemas
  import opened Validation

  // ----- A verdict reached within the limit does not depend on the limit

  /** Once nothing lies out of reach, entering more levels changes nothing. */
  lemma {:induction false} VerdictIsStable(scene: Scene, schema: Schema, node: NodeId, k: nat, more: nat)
    requires !Hits(scene, schema, node, k) && k <= more
    ensures !Hits(scene, schema, node, more)
    ensures Accepts(scene, schema, node, more) == Accepts(scene, schema, node, k)
    decreases k
  {
    forall inner: Schema, child: NodeId | Enters(scene, schema, node, inner, child)
      ensures !Hits(scene, inner, child, k - 1) && !Hits(scene, inner, child, more - 1)
      ensures Accepts(scene, inner, child, more - 1) == Accepts(scene, inner, child, k - 1)
    {
      VerdictIsStable(scene, inner, child, k - 1, more - 1);
    }
    SameInner(scene, scene, schema, node, k - 1, more - 1);
  }

  /** What rests on other schemas only depends on which of those accept. */
  lemma SameInner(scene: Scene, other: Scene, schema: Schema, node: NodeId, k: nat, more: nat)
    requires other.settings.combinators == scene.settings.combinators
    requires forall inner: Schema, child: NodeId | Enters(scene, schema, node, inner, child) ::
      Accepts(other, inner, child, more) == Accepts(scene, inner, child, k)
    requires forall inner: Schema, child: NodeId ::
      Enters(other, schema, node, inner, child) == Enters(scene, schema, node, inner, child)
    ensures InnerHolds(other, schema, node, more) == InnerHolds(scene, schema, node, k)
  {
    hide Accepts, Hits;
    if (schema.OneOf? || schema.AnyOf?) && scene.settings.combinators {
      assert forall i | 0 <= i < |schema.schemas| :: Enters(scene, schema, node, schema.schemas[i], node);
    } else if schema.Not? && scene.settings.combinators {
      assert Enters(scene, schema, node, schema.inner, node);
    }
  }

  ghost function WithLimit(scene: Scene, limit: nat): Scene {
    scene.(settings := scene.settings.(maxDepth := limit))
  }

  lemma {:induction false} LimitIsNotMeant(scene: Scene, schema: Schema, node: NodeId, limit: nat, k: nat)
    ensures Accepts(WithLimit(scene, limit), schema, node, k) == Accepts(scene, schema, node, k)
    decreases k
  {
    var other := WithLimit(scene, limit);
    assert Holds(other, schema, node) == Holds(scene, schema, node);
    if k > 0 {
      forall inner: Schema, child: NodeId
        ensures Enters(other, schema, node, inner, child) == Enters(scene, schema, node, inner, child)
        ensures Accepts(other, inner, child, k - 1) == Accepts(scene, inner, child, k - 1)
      {
        LimitIsNotMeant(scene, inner, child, limit, k - 1);
      }
      SameInner(scene, other, schema, node, k - 1, k - 1);
    }
  }

  /** Validation whose verdict did not rest on the limit gives the same verdict under any larger one. */
  lemma LargerLimitAgrees(scene: Scene, schema: Schema, node: NodeId, limit: nat, path: string)
    requires !Hits(scene, schema, node, scene.settings.maxDepth + 1) && scene.settings.maxDepth <= limit
    ensures Findings(scene, schema, node, 0, path) == [] <==>
      Findings(WithLimit(scene, limit), schema, node, 0, path) == []
  {
    CleanMeansAccepted(scene, schema, node, 0, path);
    CleanMeansAccepted(WithLimit(scene, limit), schema, node, 0, path);
    VerdictIsStable(scene, schema, node, scene.settings.maxDepth + 1, limit + 1);
    LimitIsNotMeant(scene, schema, node, limit, limit + 1);
  }

  // ----- Which schemas stay within some limit

  /** Whether, for this node, some limit is large enough. */
  ghost predicate Settles(scene: Scene, schema: Schema, node: NodeId) {
    exists k: nat :: !Hits(scene, schema, node, k)
  }

  /** The definitions a schema refers to without moving on to a child node. */
  function Referred(schema: Schema): set<string> {
    match schema
    case Not(inner) => Referred(inner)
    case OneOf(schemas) => set s, name | s in schemas && name in Referred(s) :: name
    case AnyOf(schemas) => set s, name | s in schemas && name in Referred(s) :: name
    case AllOf(schemas) => set s, name | s in schemas && name in Referred(s) :: name
    case Ref(name) => {RefKey(name)}
    case _ => {}
  }

  /** A ranking under which every definition only refers, in place, to definitions of lower rank. */
  ghost predicate Ranks(defs: map<string, Schema>, rank: map<string, nat>) {
    && defs.Keys <= rank.Keys
    && forall name, other | name in defs && other in Referred(defs[name]) && other in defs :: rank[other] < rank[name]
  }

  /** No chain of references comes back to a definition without having moved on to a child node in between. */
  ghost predicate Guarded(defs: map<string, Schema>) {
    exists rank: map<string, nat> :: Ranks(defs, rank)
  }

  ghost predicate BelowRank(scene: Scene, schema: Schema, rank: map<string, nat>, bound: nat) {
    forall name | name in Referred(schema) && name in scene.defs && name in rank :: rank[name] < bound
  }

  /** A bound on the ranks of finitely many definitions. */
  lemma {:induction false} RanksBounded(rank: map<string, nat>, names: set<string>) returns (bound: nat)
    requires names <= rank.Keys
    ensures forall name | name in names :: rank[name] < bound
    decreases |names|
  {
    if names == {} {
      bound := 0;
    } else {
      var name :| name in names;
      var rest := RanksBounded(rank, names - {name});
      bound := if rest > rank[name] then rest else rank[name] + 1;
    }
  }

  /** One limit that is large enough for each of finitely many schemas. */
  lemma {:induction false} OneLimitForAll(scene: Scene, schemas: seq<Schema>, nodes: seq<NodeId>) returns (k: nat)
    requires |schemas| == |nodes| && forall i | 0 <= i < |schemas| :: Settles(scene, schemas[i], nodes[i])
    ensures forall i | 0 <= i < |schemas| :: !Hits(scene, schemas[i], nodes[i], k)
    decreases |schemas|
  {
    k := 0;
    if schemas != [] {
      var n := |schemas| - 1;
      var j: nat :| !Hits(scene, schemas[n], nodes[n], j);
      var rest := OneLimitForAll(scene, schemas[..n], nodes[..n]);
      k := Max(j, rest);
      forall i | 0 <= i < |schemas| ensures !Hits(scene, schemas[i], nodes[i], k) {
        if i < n {
          assert !Hits(scene, schemas[..n][i], nodes[..n][i], rest);
          VerdictIsStable(scene, schemas[i], nodes[i], rest, k);
        } else {
          VerdictIsStable(scene, schemas[n], nodes[n], j, k);
        }
      }
    }
  }

  /** What a schema enters in its turn, as a list. */
  ghost function Entered(scene: Scene, schema: Schema, node: NodeId): seq<(Schema, NodeId)> {
    match schema
    case Array(items, _, _, _) =>
      if scene.settings.arrays && items.Some? && ItemsOf(scene.nodes, node).Some? then
        var elements := ItemsOf(scene.nodes, node).value;
        seq(|elements|, i requires 0 <= i < |elements| => (items.value, elements[i]))
      else []
    case Object(properties, _, additional, _, _) =>
      if scene.settings.objects && EntriesOf(scene.nodes, node).Some? then
        EnteredEntries(scene, properties, additional, EntriesOf(scene.nodes, node).value)
      else []
    case Not(inner) => [(inner, node)]
    case OneOf(schemas) => seq(|schemas|, i requires 0 <= i < |schemas| => (schemas[i], node))
    case AnyOf(schemas) => seq(|schemas|, i requires 0 <= i < |schemas| => (schemas[i], node))
    case AllOf(schemas) => seq(|schemas|, i requires 0 <= i < |schemas| => (schemas[i], node))
    case Ref(name) => if RefKey(name) in scene.defs then [(scene.defs[RefKey(name)], node)] else []
    case _ => []
  }

  ghost function EnteredEntries(scene: Scene, properties: seq<(string, Schema)>, additional: Additional,
                                entries: seq<(NodeId, NodeId)>): (list: seq<(Schema, NodeId)>)
    ensures forall e | e in entries && TextOf(scene.nodes, e.0).Some? ::
      var inner := SchemaFor(properties, additional, TextOf(scene.nodes, e.0).value);
      inner.Some? ==> (inner.value, e.1) in list
    ensures forall p | p in list :: exists e | e in entries :: e.1 == p.1
  {
    if entries == [] then []
    else
      var rest := EnteredEntries(scene, properties, additional, entries[1..]);
      var text := TextOf(scene.nodes, entries[0].0);
      assert forall e | e in entries :: e == entries[0] || e in entries[1..];
      assert entries[0] in entries && forall e | e in entries[1..] :: e in entries;
      if text.Some? && SchemaFor(properties, additional, text.value).Some? then
        [(SchemaFor(properties, additional, text.value).value, entries[0].1)] + rest
      else rest
  }

  lemma EnteredIsComplete(scene: Scene, schema: Schema, node: NodeId)
    ensures forall inner: Schema, child: NodeId | Enters(scene, schema, node, inner, child) ::
      (inner, child) in Entered(scene, schema, node)
  {
    forall inner: Schema, child: NodeId | Enters(scene, schema, node, inner, child)
      ensures (inner, child) in Entered(scene, schema, node) {
      if schema.Array? {
        var elements := ItemsOf(scene.nodes, node).value;
        var i :| 0 <= i < |elements| && elements[i] == child;
        assert Entered(scene, schema, node)[i] == (inner, child);
      } else if schema.OneOf? || schema.AnyOf? || schema.AllOf? {
        var i :| 0 <= i < |schema.schemas| && schema.schemas[i] == inner;
        assert Entered(scene, schema, node)[i] == (inner, child);
      }
    }
  }

  /** A schema settles once everything it enters does. */
  lemma SettlesFromInner(scene: Scene, schema: Schema, node: NodeId)
    requires forall p | p in Entered(scene, schema, node) :: Settles(scene, p.0, p.1)
    ensures Settles(scene, schema, node)
  {
    hide Entered;
    var list := Entered(scene, schema, node);
    var schemas := seq(|list|, i requires 0 <= i < |list| => list[i].0);
    var nodes := seq(|list|, i requires 0 <= i < |list| => list[i].1);
    assert forall i | 0 <= i < |list| :: list[i] in list;
    var k := OneLimitForAll(scene, schemas, nodes);
    forall inner: Schema, child: NodeId | Enters(scene, schema, node, inner, child)
      ensures !Hits(scene, inner, child, k) {
      EnteredIsComplete(scene, schema, node);
      var i :| 0 <= i < |list| && list[i] == (inner, child);
      assert schemas[i] == inner && nodes[i] == child;
    }
    assert !Hits(scene, schema, node, k + 1);
  }

  /** Every schema settles on every node: each step goes to an older node, to a lower rank, or to a smaller schema. */
  lemma {:induction false} GuardedSettles(scene: Scene, schema: Schema, node: NodeId, rank: map<string, nat>,
                                          bound: nat)
    requires Backward(scene.nodes) && Ranks(scene.defs, rank) && BelowRank(scene, schema, rank, bound)
    ensures Settles(scene, schema, node)
    decreases node, bound, schema
  {
    forall p | p in Entered(scene, schema, node) ensures Settles(scene, p.0, p.1) {
      if schema.Array? || schema.Object? {
        var top := RanksBounded(rank, scene.defs.Keys);
        EnteredIsOlder(scene, schema, node, p);
        GuardedSettles(scene, p.0, p.1, rank, top);
      } else if schema.Ref? {
        var key := RefKey(schema.name);
        assert key in Referred(schema);
        GuardedSettles(scene, p.0, node, rank, rank[key]);
      } else {
        EnteredIsSmaller(scene, schema, node, p);
        GuardedSettles(scene, p.0, node, rank, bound);
      }
    }
    SettlesFromInner(scene, schema, node);
  }

  lemma EnteredIsOlder(scene: Scene, schema: Schema, node: NodeId, p: (Schema, NodeId))
    requires Backward(scene.nodes) && (schema.Array? || schema.Object?) && p in Entered(scene, schema, node)
    ensures p.1 < node
  {
    if schema.Object? {
      var entries := EntriesOf(scene.nodes, node).value;
      assert p in EnteredEntries(scene, schema.properties, schema.additional, entries);
      var e :| e in entries && e.1 == p.1;
    } else {
      var elements := ItemsOf(scene.nodes, node).value;
      var i :| 0 <= i < |elements| && p.1 == elements[i];
      assert elements[i] in scene.nodes[node].kind.items;
    }
  }

  lemma EnteredIsSmaller(scene: Scene, schema: Schema, node: NodeId, p: (Schema, NodeId))
    requires !schema.Array? && !schema.Object? && !schema.Ref? && p in Entered(scene, schema, node)
    ensures p.0 < schema && p.1 == node && Referred(p.0) <= Referred(schema)
  {
    if schema.OneOf? || schema.AnyOf? || schema.AllOf? {
      var i :| 0 <= i < |schema.schemas| && p == (schema.schemas[i], node);
      assert schema.schemas[i] in schema.schemas;
    }
  }

  // ----- And only those

  /** The least limit under which nothing is out of reach. */
  ghost function LeastLimit(scene: Scene, schema: Schema, node: NodeId, k: nat): (least: nat)
    requires !Hits(scene, schema, node, k)
    ensures least <= k && !Hits(scene, schema, node, least)
    ensures forall j: nat | j < least :: Hits(scene, schema, node, j)
  {
    if k > 0 && !Hits(scene, schema, node, k - 1) then LeastLimit(scene, schema, node, k - 1)
    else
      assert forall j: nat | j < k :: Hits(scene, schema, node, j) by {
        forall j: nat | j < k ensures Hits(scene, schema, node, j) {
          if !Hits(scene, schema, node, j) {
            VerdictIsStable(scene, schema, node, j, k - 1);
          }
        }
      }
      k
  }

  /** What is within reach of a schema is within reach, in fewer levels, of what it refers to in place. */
  lemma {:induction false} ReferredInReach(scene: Scene, schema: Schema, node: NodeId, name: string, k: nat)
    requires scene.settings.combinators && scene.settings.refs
    requires name in Referred(schema) && name in scene.defs && !Hits(scene, schema, node, k)
    ensures k > 0 && !Hits(scene, scene.defs[name], node, k - 1)
    decreases schema
  {
    if schema.Ref? {
      assert Enters(scene, schema, node, scene.defs[name], node);
    } else {
      var inner: Schema;
      if schema.Not? {
        inner := schema.inner;
      } else {
        var s :| s in schema.schemas && name in Referred(s);
        inner := s;
      }
      assert Enters(scene, schema, node, inner, node);
      ReferredInReach(scene, inner, node, name, k - 1);
      VerdictIsStable(scene, scene.defs[name], node, k - 2, k - 1);
    }
  }

  /**
   * With combinators and references checked, the definitions are guarded exactly when for each of them, on every node
   * of every document, some limit is large enough; a single node on which they all settle is enough to tell.
   */
  lemma GuardedExactly(scene: Scene, node: NodeId)
    requires scene.settings.combinators && scene.settings.refs && Backward(scene.nodes)
    ensures Guarded(scene.defs) <==> forall name | name in scene.defs :: Settles(scene, scene.defs[name], node)
    ensures Guarded(scene.defs) ==> forall schema, any :: Settles(scene, schema, any)
  {
    if rank: map<string, nat> :| Ranks(scene.defs, rank) {
      var top := RanksBounded(rank, scene.defs.Keys);
      forall schema, any ensures Settles(scene, schema, any) {
        GuardedSettles(scene, schema, any, rank, top);
      }
    }
    if forall name | name in scene.defs :: Settles(scene, scene.defs[name], node) {
      RankByLimit(scene, node);
    }
  }

  ghost function LimitOf(scene: Scene, schema: Schema, node: NodeId): nat
    requires Settles(scene, schema, node)
  {
    var k: nat :| !Hits(scene, schema, node, k);
    LeastLimit(scene, schema, node, k)
  }

  lemma RankByLimit(scene: Scene, node: NodeId)
    requires scene.settings.combinators && scene.settings.refs
    requires forall name | name in scene.defs :: Settles(scene, scene.defs[name], node)
    ensures Guarded(scene.defs)
  {
    var rank := map name | name in scene.defs :: LimitOf(scene, scene.defs[name], node);
    forall name, other | name in scene.defs && other in Referred(scene.defs[name]) && other in scene.defs
      ensures rank[other] < rank[name]
    {
      ReferredInReach(scene, scene.defs[name], node, other, rank[name]);
      assert !Hits(scene, scene.defs[other], node, rank[name] - 1);
      if rank[other] >= rank[name] {
        assert Hits(scene, scene.defs[other], node, rank[name] - 1);
      }
    }
    assert Ranks(scene.defs, rank);
  }

  // ----- A verdict that rests on the limit

  /** `a: {not: {$ref: "#/$defs/a"}}`: its own verdict turns over with every second level, for ever. */
  lemma {:induction false} VerdictKeepsTurning(scene: Scene, node: NodeId, k: nat)
    requires scene.settings.combinators && scene.settings.refs
    requires "a" in scene.defs && scene.defs["a"] == Not(Ref("#/$defs/a"))
    ensures Accepts(scene, Ref("#/$defs/a"), node, k) <==> k % 4 >= 2
    ensures Hits(scene, Ref("#/$defs/a"), node, k)
    decreases k
  {
    var ref := Ref("#/$defs/a");
    assert RefKey("#/$defs/a") == "a";
    if k > 0 {
      assert Enters(scene, ref, node, Not(ref), node);
      assert Enters(scene, Not(ref), node, ref, node);
      assert Accepts(scene, ref, node, k) <==> Accepts(scene, Not(ref), node, k - 1);
      if k > 1 {
        VerdictKeepsTurning(scene, node, k - 2);
        assert Hits(scene, Not(ref), node, k - 1);
        assert Accepts(scene, Not(ref), node, k - 1) <==> !Accepts(scene, ref, node, k - 2);
      }
    }
  }
}
