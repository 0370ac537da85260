/** What validation finds, issue by issue, and what it means for a node to satisfy a schema. */
module Validation {
  import opened Prelude
  import opened Syntax
  import opened Arena
  import opened Numbers
  import opened Schemas

  // ----- The findings

  /** How many more levels of schema may be entered from `depth`. */
  function Left(scene: Scene, depth: nat): nat {
    if depth > scene.settings.maxDepth then 0 else scene.settings.maxDepth + 1 - depth
  }

  function Raise(scene: Scene, node: NodeId, path: string, kinds: seq<IssueKind>): (issues: seq<Issue>)
    ensures |issues| == |kinds|
  {
    seq(|kinds|, i requires 0 <= i < |kinds| => Issue(path, kinds[i], node, SpanOf(scene, node)))
  }

  /** Issues found below, reported against `node` instead. */
  function Restated(scene: Scene, node: NodeId, path: string, issues: seq<Issue>): (restated: seq<Issue>)
    ensures |restated| == |issues|
  {
    seq(|issues|, i requires 0 <= i < |issues| => Issue(path, issues[i].kind, node, SpanOf(scene, node)))
  }

  /** The issues of holding `node` against `schema`, in the order they are reported. */
  function Findings(scene: Scene, schema: Schema, node: NodeId, depth: nat, path: string): seq<Issue>
    decreases Left(scene, depth), 2, 0
  {
    if depth > scene.settings.maxDepth then Raise(scene, node, path, [DepthExceeded])
    else Raise(scene, node, path, OwnIssues(scene, schema, node)) + InnerFindings(scene, schema, node, depth, path)
  }

  /** The issues that come from holding this node or its children against other schemas. */
  function InnerFindings(scene: Scene, schema: Schema, node: NodeId, depth: nat, path: string): seq<Issue>
    requires depth <= scene.settings.maxDepth
    decreases Left(scene, depth), 1, 0
  {
    var settings := scene.settings;
    match schema
    case Array(items, _, _, _) =>
      if settings.arrays && ItemsOf(scene.nodes, node).Some? && items.Some? then
        var elements := ItemsOf(scene.nodes, node).value;
        ItemFindings(scene, items.value, elements, |elements|, depth, path)
      else []
    case Object(_, _, _, _, _) =>
      if settings.objects && EntriesOf(scene.nodes, node).Some? then
        var entries := EntriesOf(scene.nodes, node).value;
        EntryFindings(scene, schema, node, entries, |entries|, depth, path)
      else []
    case Not(inner) =>
      if settings.combinators && Findings(scene, inner, node, depth + 1, path) == [] then
        Raise(scene, node, path, [NotMatched])
      else []
    case OneOf(schemas) =>
      if !settings.combinators then [] else
      var matches := CountMatching(scene, schemas, |schemas|, node, depth, path);
      if matches == 0 then Raise(scene, node, path, [OneOfMismatch])
      else if matches > 1 then Raise(scene, node, path, [OneOfAmbiguous])
      else []
    case AnyOf(schemas) =>
      if settings.combinators && CountMatching(scene, schemas, |schemas|, node, depth, path) == 0 then
        Raise(scene, node, path, [AnyOfMismatch])
      else []
    case AllOf(schemas) =>
      if settings.combinators then AllFindings(scene, schemas, |schemas|, node, depth, path) else []
    case Ref(name) =>
      if !settings.refs then []
      else if RefKey(name) !in scene.defs then Raise(scene, node, path, [RefUnresolved])
      else Findings(scene, scene.defs[RefKey(name)], node, depth + 1, path)
    case _ => []
  }

  /** The findings for the first `n` elements. */
  function ItemFindings(scene: Scene, schema: Schema, items: seq<NodeId>, n: nat, depth: nat, path: string): seq<Issue>
    requires n <= |items| && depth <= scene.settings.maxDepth
    decreases Left(scene, depth), 0, n
  {
    if n == 0 then []
    else
      ItemFindings(scene, schema, items, n - 1, depth, path)
      + Findings(scene, schema, items[n - 1], depth + 1, Join(path, Decimal(n - 1)))
  }

  /** The findings for one entry: a key that is not text is passed over. */
  function EntryFinding(scene: Scene, schema: Schema, node: NodeId, entry: (NodeId, NodeId), depth: nat, path: string)
    : seq<Issue>
    requires schema.Object? && depth <= scene.settings.maxDepth
    decreases Left(scene, depth), 0, 0
  {
    match TextOf(scene.nodes, entry.0)
    case None => []
    case Some(name) =>
      match SchemaFor(schema.properties, schema.additional, name)
      case Some(inner) => Findings(scene, inner, entry.1, depth + 1, Join(path, name))
      case None => Raise(scene, node, path,
                         Unless(!Forbidden(schema.properties, schema.additional, name), AdditionalProperty))
  }

  function EntryFindings(scene: Scene, schema: Schema, node: NodeId, entries: seq<(NodeId, NodeId)>, n: nat, depth: nat,
                         path: string): seq<Issue>
    requires schema.Object? && n <= |entries| && depth <= scene.settings.maxDepth
    decreases Left(scene, depth), 0, n
  {
    if n == 0 then []
    else
      EntryFindings(scene, schema, node, entries, n - 1, depth, path)
      + EntryFinding(scene, schema, node, entries[n - 1], depth, path)
  }

  /** How many of the first `n` schemas the node has no issue with. */
  function CountMatching(scene: Scene, schemas: seq<Schema>, n: nat, node: NodeId, depth: nat, path: string)
    : (count: nat)
    requires n <= |schemas| && depth <= scene.settings.maxDepth
    ensures count <= n
    decreases Left(scene, depth), 0, n
  {
    if n == 0 then 0
    else
      CountMatching(scene, schemas, n - 1, node, depth, path)
      + (if Findings(scene, schemas[n - 1], node, depth + 1, path) == [] then 1 else 0)
  }

  function AllFindings(scene: Scene, schemas: seq<Schema>, n: nat, node: NodeId, depth: nat, path: string): seq<Issue>
    requires n <= |schemas| && depth <= scene.settings.maxDepth
    decreases Left(scene, depth), 0, n
  {
    if n == 0 then []
    else
      AllFindings(scene, schemas, n - 1, node, depth, path)
      + Restated(scene, node, path, Findings(scene, schemas[n - 1], node, depth + 1, path))
  }

  // ----- The meaning of a schema

  /** The part of a schema's meaning that concerns the node alone. */
  predicate Holds(scene: Scene, schema: Schema, node: NodeId) {
    match schema
    case Constant(ok) => ok
    case OfType(jsonType) => scene.settings.types ==> TypeOf(scene.nodes, node) == Some(jsonType)
    case Enum(values) => scene.settings.enums ==> exists v | v in values :: Matches(scene.nodes, scene.rules, v, node)
    case Const(value) => scene.settings.enums ==> Matches(scene.nodes, scene.rules, value, node)
    case Text(low, high, pattern, format) =>
      scene.settings.strings ==>
        && TypeOf(scene.nodes, node) == Some(JString)
        && (TextOf(scene.nodes, node).Some? ==>
          var text := TextOf(scene.nodes, node).value;
          && Bounded(low, |text|) && Capped(high, |text|)
          && (pattern.Some? ==> scene.rules.hasPattern(pattern.value, text))
          && (format.Some? && scene.settings.formats ==> scene.rules.hasFormat(format.value, text)))
    case Number(low, high, above, below, step) =>
      scene.settings.numbers ==>
        && NumberOf(scene.nodes, scene.rules, node).Some?
        && var value := NumberOf(scene.nodes, scene.rules, node).value;
        && (low.Some? ==> !scene.rules.less(value, low.value))
        && (high.Some? ==> !scene.rules.less(high.value, value))
        && (above.Some? ==> !scene.rules.atMost(value, above.value))
        && (below.Some? ==> !scene.rules.atMost(below.value, value))
        && (step.Some? ==> !scene.rules.offStep(value, step.value))
    case Array(_, low, high, unique) =>
      scene.settings.arrays ==>
        && ItemsOf(scene.nodes, node).Some?
        && var items := ItemsOf(scene.nodes, node).value;
        && Bounded(low, |items|) && Capped(high, |items|)
        && (unique ==> forall i, j | 0 <= i < j < |items| :: !NodesEqual(scene.nodes, scene.rules, items[i], items[j]))
    case Object(properties, required, additional, low, high) =>
      scene.settings.objects ==>
        && EntriesOf(scene.nodes, node).Some?
        && var entries := EntriesOf(scene.nodes, node).value;
        && Bounded(low, |entries|) && Capped(high, |entries|)
        && (forall name | name in required :: Names(scene.nodes, entries, name))
        && (forall e | e in entries && TextOf(scene.nodes, e.0).Some? ::
              !Forbidden(properties, additional, TextOf(scene.nodes, e.0).value))
    case Ref(name) => scene.settings.refs ==> RefKey(name) in scene.defs
    case _ => true
  }

  /** Whether entering `schema` at `node` enters `inner` at `child` in its turn, one level deeper. */
  ghost predicate Enters(scene: Scene, schema: Schema, node: NodeId, inner: Schema, child: NodeId) {
    match schema
    case Array(items, _, _, _) =>
      && scene.settings.arrays && items == Some(inner)
      && ItemsOf(scene.nodes, node).Some? && child in ItemsOf(scene.nodes, node).value
    case Object(properties, _, additional, _, _) =>
      && scene.settings.objects && EntriesOf(scene.nodes, node).Some?
      && exists e | e in EntriesOf(scene.nodes, node).value ::
           && e.1 == child && TextOf(scene.nodes, e.0).Some?
           && SchemaFor(properties, additional, TextOf(scene.nodes, e.0).value) == Some(inner)
    case Not(s) => scene.settings.combinators && child == node && inner == s
    case OneOf(schemas) => scene.settings.combinators && child == node && inner in schemas
    case AnyOf(schemas) => scene.settings.combinators && child == node && inner in schemas
    case AllOf(schemas) => scene.settings.combinators && child == node && inner in schemas
    case Ref(name) =>
      && scene.settings.refs && child == node
      && RefKey(name) in scene.defs && inner == scene.defs[RefKey(name)]
    case _ => false
  }

  /**
   * The meaning of a schema when at most `budget` levels of it may be entered: what lies deeper is refused. Under `not`
   * a refusal is a reason to accept, so a larger budget does not always accept more.
   */
  ghost predicate Accepts(scene: Scene, schema: Schema, node: NodeId, budget: nat)
    decreases budget, 1
  {
    budget > 0 && Holds(scene, schema, node) && InnerHolds(scene, schema, node, budget - 1)
  }

  ghost predicate SomeAccepts(scene: Scene, schemas: seq<Schema>, node: NodeId, budget: nat)
    decreases budget, 2
  {
    exists i | 0 <= i < |schemas| :: Accepts(scene, schemas[i], node, budget)
  }

  ghost predicate OneAccepts(scene: Scene, schemas: seq<Schema>, node: NodeId, budget: nat)
    decreases budget, 2
  {
    exists i | 0 <= i < |schemas| ::
      && Accepts(scene, schemas[i], node, budget)
      && forall j | 0 <= j < |schemas| && j != i :: !Accepts(scene, schemas[j], node, budget)
  }

  /** The part of a schema's meaning that rests on other schemas. */
  ghost predicate InnerHolds(scene: Scene, schema: Schema, node: NodeId, budget: nat)
    decreases budget + 1, 0
  {
    if schema.Not? then scene.settings.combinators ==> !Accepts(scene, schema.inner, node, budget)
    else if schema.OneOf? then
      scene.settings.combinators ==> OneAccepts(scene, schema.schemas, node, budget)
    else if schema.AnyOf? then
      scene.settings.combinators ==> SomeAccepts(scene, schema.schemas, node, budget)
    else
      forall inner, child | Enters(scene, schema, node, inner, child) :: Accepts(scene, inner, child, budget)
  }

  /** Whether the verdict of `Accepts` rests on some level that was out of reach. */
  ghost predicate Hits(scene: Scene, schema: Schema, node: NodeId, budget: nat)
    decreases budget
  {
    budget == 0 || exists inner, child ::
      Enters(scene, schema, node, inner, child) && Hits(scene, inner, child, budget - 1)
  }

  // ----- No issue is found exactly when the schema is satisfied

  lemma {:induction false} ItemsClean(scene: Scene, schema: Schema, items: seq<NodeId>, n: nat, depth: nat,
                                      path: string)
    requires n <= |items| && depth <= scene.settings.maxDepth
    ensures ItemFindings(scene, schema, items, n, depth, path) == [] <==>
      forall i | 0 <= i < n :: Accepts(scene, schema, items[i], Left(scene, depth + 1))
    decreases Left(scene, depth), 0, n
  {
    hide Findings, Accepts;
    if n > 0 {
      ItemsClean(scene, schema, items, n - 1, depth, path);
      CleanMeansAccepted(scene, schema, items[n - 1], depth + 1, Join(path, Decimal(n - 1)));
    }
  }

  /** What an entry has to meet: its schema, or not being forbidden. */
  ghost predicate EntryAccepted(scene: Scene, schema: Schema, entry: (NodeId, NodeId), budget: nat)
    requires schema.Object?
  {
    TextOf(scene.nodes, entry.0).Some? ==>
      var name := TextOf(scene.nodes, entry.0).value;
      && !Forbidden(schema.properties, schema.additional, name)
      && var inner := SchemaFor(schema.properties, schema.additional, name);
         inner.Some? ==> Accepts(scene, inner.value, entry.1, budget)
  }

  lemma {:induction false} EntriesClean(scene: Scene, schema: Schema, node: NodeId, entries: seq<(NodeId, NodeId)>,
                                        n: nat,
                                        depth: nat, path: string)
    requires schema.Object? && n <= |entries| && depth <= scene.settings.maxDepth
    ensures EntryFindings(scene, schema, node, entries, n, depth, path) == [] <==>
      forall i | 0 <= i < n :: EntryAccepted(scene, schema, entries[i], Left(scene, depth + 1))
    decreases Left(scene, depth), 0, n
  {
    hide Findings, Accepts;
    if n > 0 {
      EntriesClean(scene, schema, node, entries, n - 1, depth, path);
      var entry := entries[n - 1];
      var text := TextOf(scene.nodes, entry.0);
      if text.Some? {
        var inner := SchemaFor(schema.properties, schema.additional, text.value);
        if inner.Some? {
          CleanMeansAccepted(scene, inner.value, entry.1, depth + 1, Join(path, text.value));
        }
      }
      assert EntryFinding(scene, schema, node, entry, depth, path) == [] <==>
        EntryAccepted(scene, schema, entry, Left(scene, depth + 1));
    }
  }

  /** The schemas of the first `n` that accept the node. */
  ghost function Accepting(scene: Scene, schemas: seq<Schema>, n: nat, node: NodeId, budget: nat): set<nat>
    requires n <= |schemas|
  {
    set i: nat | i < n && Accepts(scene, schemas[i], node, budget)
  }

  lemma {:induction false} CountIsAccepting(scene: Scene, schemas: seq<Schema>, n: nat, node: NodeId, depth: nat,
                                            path: string)
    requires n <= |schemas| && depth <= scene.settings.maxDepth
    ensures CountMatching(scene, schemas, n, node, depth, path)
      == |Accepting(scene, schemas, n, node, Left(scene, depth + 1))|
    decreases Left(scene, depth), 0, n
  {
    hide Findings, Accepts;
    var budget := Left(scene, depth + 1);
    if n == 0 {
      assert Accepting(scene, schemas, n, node, budget) == {};
    } else {
      CountIsAccepting(scene, schemas, n - 1, node, depth, path);
      CleanMeansAccepted(scene, schemas[n - 1], node, depth + 1, path);
      var before := Accepting(scene, schemas, n - 1, node, budget);
      var now := Accepting(scene, schemas, n, node, budget);
      assert n - 1 !in before && forall i :: i in now <==>
        i in before || (i == n - 1 && Accepts(scene, schemas[n - 1], node, budget));
      assert now == before + (if Accepts(scene, schemas[n - 1], node, budget) then {n - 1} else {});
    }
  }

  lemma {:induction false} AllClean(scene: Scene, schemas: seq<Schema>, n: nat, node: NodeId, depth: nat, path: string)
    requires n <= |schemas| && depth <= scene.settings.maxDepth
    ensures AllFindings(scene, schemas, n, node, depth, path) == [] <==>
      forall i | 0 <= i < n :: Accepts(scene, schemas[i], node, Left(scene, depth + 1))
    decreases Left(scene, depth), 0, n
  {
    hide Findings, Accepts;
    if n > 0 {
      AllClean(scene, schemas, n - 1, node, depth, path);
      CleanMeansAccepted(scene, schemas[n - 1], node, depth + 1, path);
    }
  }

  /** A set of positions has one element exactly when some position is the only one in it. */
  lemma OneMember(s: set<nat>)
    ensures |s| == 1 <==> exists i :: s == {i}
    ensures |s| == 0 <==> s == {}
  {
    if |s| == 1 {
      var i :| i in s;
      assert |s - {i}| == 0;
      assert s == {i};
    }
  }

  lemma AcceptingCounts(scene: Scene, schemas: seq<Schema>, node: NodeId, budget: nat)
    ensures |Accepting(scene, schemas, |schemas|, node, budget)| == 1 <==> OneAccepts(scene, schemas, node, budget)
    ensures |Accepting(scene, schemas, |schemas|, node, budget)| == 0 <==> !SomeAccepts(scene, schemas, node, budget)
  {
    hide Accepts;
    var s := Accepting(scene, schemas, |schemas|, node, budget);
    assert forall j: nat :: j in s <==> j < |schemas| && Accepts(scene, schemas[j], node, budget);
    OneMember(s);
    if i: nat :| s == {i} {
      assert i in s && forall j | 0 <= j < |schemas| && j != i :: j !in s;
    }
    forall i: nat | i < |schemas| && Accepts(scene, schemas[i], node, budget)
      && (forall j | 0 <= j < |schemas| && j != i :: !Accepts(scene, schemas[j], node, budget))
      ensures s == {i}
    {
    }
  }

  /** The node's own checks raise nothing if its own part holds, and only an object or a reference may ask for more. */
  lemma OwnClean(scene: Scene, schema: Schema, node: NodeId)
    ensures Holds(scene, schema, node) ==> OwnIssues(scene, schema, node) == []
    ensures OwnIssues(scene, schema, node) == [] && !schema.Object? && !schema.Ref? ==> Holds(scene, schema, node)
  {
  }

  /** Validation reports nothing exactly when the node satisfies the schema with the depth that is left. */
  lemma {:induction false} CleanMeansAccepted(scene: Scene, schema: Schema, node: NodeId, depth: nat, path: string)
    ensures Findings(scene, schema, node, depth, path) == [] <==> Accepts(scene, schema, node, Left(scene, depth))
    decreases Left(scene, depth), 3, 0
  {
    hide InnerFindings, InnerHolds, OwnIssues, Holds;
    if depth <= scene.settings.maxDepth {
      OwnClean(scene, schema, node);
      if OwnIssues(scene, schema, node) == [] {
        InnerClean(scene, schema, node, depth, path);
      }
    }
  }

  lemma {:induction false} InnerClean(scene: Scene, schema: Schema, node: NodeId, depth: nat, path: string)
    requires depth <= scene.settings.maxDepth && OwnIssues(scene, schema, node) == []
    ensures InnerFindings(scene, schema, node, depth, path) == [] <==>
      Holds(scene, schema, node) && InnerHolds(scene, schema, node, Left(scene, depth + 1))
    decreases Left(scene, depth), 2, 0
  {
    hide Findings, OwnIssues, Holds, Accepts;
    OwnClean(scene, schema, node);
    if schema.Array? {
      ArrayClean(scene, schema, node, depth, path);
    } else if schema.Object? {
      ObjectClean(scene, schema, node, depth, path);
    } else if schema.Not? || schema.OneOf? || schema.AnyOf? {
      CombinatorClean(scene, schema, node, depth, path);
    } else if schema.AllOf? {
      AllOfClean(scene, schema, node, depth, path);
    } else if schema.Ref? {
      RefClean(scene, schema, node, depth, path);
    }
  }

  lemma {:induction false} CombinatorClean(scene: Scene, schema: Schema, node: NodeId, depth: nat, path: string)
    requires schema.Not? || schema.OneOf? || schema.AnyOf?
    requires depth <= scene.settings.maxDepth
    ensures InnerFindings(scene, schema, node, depth, path) == [] <==>
      InnerHolds(scene, schema, node, Left(scene, depth + 1))
    decreases Left(scene, depth), 1, 0
  {
    hide Findings, Accepts, Enters, OneAccepts, SomeAccepts, Accepting;
    if schema.Not? {
      CleanMeansAccepted(scene, schema.inner, node, depth + 1, path);
    } else {
      CountIsAccepting(scene, schema.schemas, |schema.schemas|, node, depth, path);
      AcceptingCounts(scene, schema.schemas, node, Left(scene, depth + 1));
    }
  }

  lemma {:induction false} AllOfClean(scene: Scene, schema: Schema, node: NodeId, depth: nat, path: string)
    requires schema.AllOf? && depth <= scene.settings.maxDepth
    ensures InnerFindings(scene, schema, node, depth, path) == [] <==>
      InnerHolds(scene, schema, node, Left(scene, depth + 1))
    decreases Left(scene, depth), 1, 0
  {
    hide Findings, Accepts;
    if scene.settings.combinators {
      AllClean(scene, schema.schemas, |schema.schemas|, node, depth, path);
      assert forall i | 0 <= i < |schema.schemas| :: Enters(scene, schema, node, schema.schemas[i], node);
    }
  }

  lemma {:induction false} RefClean(scene: Scene, schema: Schema, node: NodeId, depth: nat, path: string)
    requires schema.Ref? && depth <= scene.settings.maxDepth
    ensures InnerFindings(scene, schema, node, depth, path) == [] <==>
      Holds(scene, schema, node) && InnerHolds(scene, schema, node, Left(scene, depth + 1))
    decreases Left(scene, depth), 1, 0
  {
    hide Findings, Accepts;
    if scene.settings.refs && RefKey(schema.name) in scene.defs {
      var target := scene.defs[RefKey(schema.name)];
      CleanMeansAccepted(scene, target, node, depth + 1, path);
      assert Enters(scene, schema, node, target, node);
    }
  }

  lemma {:induction false} ArrayClean(scene: Scene, schema: Schema, node: NodeId, depth: nat, path: string)
    requires schema.Array? && depth <= scene.settings.maxDepth && OwnIssues(scene, schema, node) == []
    ensures InnerFindings(scene, schema, node, depth, path) == [] <==>
      InnerHolds(scene, schema, node, Left(scene, depth + 1))
    decreases Left(scene, depth), 1, 0
  {
    hide Findings, Accepts, ArrayIssues;
    if scene.settings.arrays && schema.items.Some? {
      var elements := ItemsOf(scene.nodes, node).value;
      ItemsClean(scene, schema.items.value, elements, |elements|, depth, path);
      assert forall i | 0 <= i < |elements| :: Enters(scene, schema, node, schema.items.value, elements[i]);
    }
  }

  lemma {:induction false} ObjectClean(scene: Scene, schema: Schema, node: NodeId, depth: nat, path: string)
    requires schema.Object? && depth <= scene.settings.maxDepth && OwnIssues(scene, schema, node) == []
    ensures InnerFindings(scene, schema, node, depth, path) == [] <==>
      Holds(scene, schema, node) && InnerHolds(scene, schema, node, Left(scene, depth + 1))
    decreases Left(scene, depth), 1, 0
  {
    hide Findings, Accepts;
    if scene.settings.objects {
      var entries, budget := EntriesOf(scene.nodes, node).value, Left(scene, depth + 1);
      EntriesClean(scene, schema, node, entries, |entries|, depth, path);
      forall e | e in entries && TextOf(scene.nodes, e.0).Some?
        && SchemaFor(schema.properties, schema.additional, TextOf(scene.nodes, e.0).value).Some?
        ensures Enters(scene, schema, node,
                       SchemaFor(schema.properties, schema.additional, TextOf(scene.nodes, e.0).value).value, e.1)
      {
      }
      assert (forall e | e in entries :: EntryAccepted(scene, schema, e, budget)) <==>
        Holds(scene, schema, node) && InnerHolds(scene, schema, node, budget);
    }
  }

  /** `oneOf` tells a node that no alternative accepts from one that several accept. */
  lemma OneOfReported(scene: Scene, schema: Schema, node: NodeId, depth: nat, path: string)
    requires schema.OneOf? && scene.settings.combinators && depth <= scene.settings.maxDepth
    ensures var budget := Left(scene, depth + 1);
      Findings(scene, schema, node, depth, path) ==
        if OneAccepts(scene, schema.schemas, node, budget) then []
        else
          Raise(scene, node, path,
                [if SomeAccepts(scene, schema.schemas, node, budget) then OneOfAmbiguous else OneOfMismatch])
  {
    hide Accepts, Accepting, OneAccepts, SomeAccepts, CountMatching;
    CountIsAccepting(scene, schema.schemas, |schema.schemas|, node, depth, path);
    AcceptingCounts(scene, schema.schemas, node, Left(scene, depth + 1));
  }
}
