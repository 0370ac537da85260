/** What a schema asks of a value, and that validating a node is asking it of the value the node reads as. */
module SchemaValues {
  import opened Prelude
  import opened Arena
  import opened Values
  import opened Schemas
  import opened Validation
  import opened ArenaInvariant
  import G = Grammar

  /** What stays fixed while values are held against schemas. */
  datatype Judge = Judge(defs: map<string, Schema>, settings: Settings, rules: Rules)

  function JudgeOf(scene: Scene): Judge {
    Judge(scene.defs, scene.settings, scene.rules)
  }

  // ----- Values as a schema sees them

  /** The value under its tags. */
  function Bare(v: Value): (r: Value)
    ensures !r.VTagged? && (r == v || r < v)
  {
    if v.VTagged? then Bare(v.inner) else v
  }

  function TypeOfValue(v: Value): JsonType {
    match Bare(v)
    case VNull => JNull
    case VBool(_) => JBoolean
    case VInt(_) => JNumber
    case VFloat(_) => JNumber
    case VString(_) => JString
    case VSequence(_) => JArray
    case _ => JObject
  }

  function TextOfValue(v: Value): Option<string> {
    if Bare(v).VString? then Some(Bare(v).s) else None
  }

  function NumberOfValue(rules: Rules, v: Value): Option<nat> {
    match Bare(v)
    case VInt(i) => Some(rules.fromInt(i))
    case VFloat(bits) => Some(bits)
    case _ => None
  }

  /** Equality of values: tags do not count, floats are compared by their rule, entries come in any order. */
  predicate Alike(rules: Rules, a: Value, b: Value)
    decreases a
  {
    var x, y := Bare(a), Bare(b);
    match x
    case VFloat(bits) => y.VFloat? && (bits == y.bits || rules.same(bits, y.bits))
    case VSequence(items) =>
      y.VSequence? && |items| == |y.items| && forall i | 0 <= i < |items| :: Alike(rules, items[i], y.items[i])
    case VMapping(entries) =>
      && y.VMapping? && |entries| == |y.entries|
      && forall i | 0 <= i < |entries| :: Among(rules, entries[i], y.entries)
    case _ => x == y
  }

  predicate Among(rules: Rules, entry: (Value, Value), entries: seq<(Value, Value)>)
    decreases entry, 1
  {
    exists j | 0 <= j < |entries| :: AlikeEntries(rules, entry, entries[j])
  }

  predicate AlikeEntries(rules: Rules, a: (Value, Value), b: (Value, Value))
    decreases a, 0
  {
    assert a.0 < a && a.1 < a;
    Alike(rules, a.0, b.0) && Alike(rules, a.1, b.1)
  }

  predicate EqualsEnum(rules: Rules, e: EnumValue, v: Value) {
    match e
    case EnumNull => Bare(v) == VNull
    case EnumBool(b) => Bare(v) == VBool(b)
    case EnumString(s) => Bare(v) == VString(s)
    case EnumNumber(bits) => NumberOfValue(rules, v).Some? && rules.same(NumberOfValue(rules, v).value, bits)
  }

  predicate HasEntry(entries: seq<(Value, Value)>, name: string) {
    exists i | 0 <= i < |entries| :: Bare(entries[i].0) == VString(name)
  }

  /** Property `i` is the first called `name`. */
  predicate FirstNamed(properties: seq<(string, Schema)>, name: string, i: nat) {
    i < |properties| && properties[i].0 == name && forall j | 0 <= j < i :: properties[j].0 != name
  }

  predicate Listed(properties: seq<(string, Schema)>, name: string) {
    exists i | 0 <= i < |properties| :: properties[i].0 == name
  }

  /** What a schema asks of a value itself. */
  predicate ValueHolds(judge: Judge, schema: Schema, v: Value) {
    var settings, rules := judge.settings, judge.rules;
    match schema
    case Constant(ok) => ok
    case OfType(jsonType) => settings.types ==> TypeOfValue(v) == jsonType
    case Enum(values) => settings.enums ==> exists e | e in values :: EqualsEnum(rules, e, v)
    case Const(value) => settings.enums ==> EqualsEnum(rules, value, v)
    case Text(low, high, pattern, format) =>
      settings.strings ==>
        && Bare(v).VString?
        && var text := Bare(v).s;
           && (low.Some? ==> |text| >= low.value) && (high.Some? ==> |text| <= high.value)
           && (pattern.Some? ==> rules.hasPattern(pattern.value, text))
           && (format.Some? && settings.formats ==> rules.hasFormat(format.value, text))
    case Number(low, high, above, below, step) =>
      settings.numbers ==>
        && NumberOfValue(rules, v).Some?
        && var n := NumberOfValue(rules, v).value;
           && (low.Some? ==> !rules.less(n, low.value))
           && (high.Some? ==> !rules.less(high.value, n))
           && (above.Some? ==> !rules.atMost(n, above.value))
           && (below.Some? ==> !rules.atMost(below.value, n))
           && (step.Some? ==> !rules.offStep(n, step.value))
    case Array(_, low, high, unique) =>
      settings.arrays ==>
        && Bare(v).VSequence?
        && var items := Bare(v).items;
           && (low.Some? ==> |items| >= low.value) && (high.Some? ==> |items| <= high.value)
           && (unique ==> forall i, j | 0 <= i < j < |items| :: !Alike(rules, items[i], items[j]))
    case Object(properties, required, additional, low, high) =>
      settings.objects ==>
        && Bare(v).VMapping?
        && var entries := Bare(v).entries;
           && (low.Some? ==> |entries| >= low.value) && (high.Some? ==> |entries| <= high.value)
           && (forall name | name in required :: HasEntry(entries, name))
           && (additional.Forbid? ==> forall i | 0 <= i < |entries| && Bare(entries[i].0).VString? ::
                 Listed(properties, Bare(entries[i].0).s))
    case Ref(name) => settings.refs ==> RefKey(name) in judge.defs
    case _ => true
  }

  /** What a schema asks of a value and of the values in it, when at most `budget` levels of it may be entered. */
  ghost predicate ValueAccepts(judge: Judge, schema: Schema, v: Value, budget: nat)
    decreases budget, 0
  {
    budget > 0 && ValueHolds(judge, schema, v) &&
    match schema
    case Array(items, _, _, _) =>
      judge.settings.arrays && items.Some? ==>
        forall i | 0 <= i < |Bare(v).items| :: ValueAccepts(judge, items.value, Bare(v).items[i], budget - 1)
    case Object(properties, _, additional, _, _) =>
      judge.settings.objects ==> forall i | 0 <= i < |Bare(v).entries| ::
        EntryAccepts(judge, properties, additional, Bare(v).entries[i], budget - 1)
    case Not(inner) => judge.settings.combinators ==> !ValueAccepts(judge, inner, v, budget - 1)
    case OneOf(schemas) =>
      judge.settings.combinators ==> exists i | 0 <= i < |schemas| ::
        && ValueAccepts(judge, schemas[i], v, budget - 1)
        && forall j | 0 <= j < |schemas| && j != i :: !ValueAccepts(judge, schemas[j], v, budget - 1)
    case AnyOf(schemas) =>
      judge.settings.combinators ==> exists i | 0 <= i < |schemas| :: ValueAccepts(judge, schemas[i], v, budget - 1)
    case AllOf(schemas) =>
      judge.settings.combinators ==> forall i | 0 <= i < |schemas| :: ValueAccepts(judge, schemas[i], v, budget - 1)
    case Ref(name) =>
      judge.settings.refs ==> ValueAccepts(judge, judge.defs[RefKey(name)], v, budget - 1)
    case _ => true
  }

  /** What stands under a name is held against the first property of that name, or else against `additional`. */
  ghost predicate EntryAccepts(judge: Judge, properties: seq<(string, Schema)>, additional: Additional,
                               entry: (Value, Value), budget: nat)
    decreases budget, 1
  {
    Bare(entry.0).VString? ==>
      var name := Bare(entry.0).s;
      && (forall i | 0 <= i < |properties| && FirstNamed(properties, name, i) ::
            ValueAccepts(judge, properties[i].1, entry.1, budget))
      && (additional.Against? && !Listed(properties, name) ==> ValueAccepts(judge, additional.schema, entry.1, budget))
  }

  lemma {:induction false} PropertyNamed(properties: seq<(string, Schema)>, name: string)
    ensures Property(properties, name).Some? <==> Listed(properties, name)
    ensures forall i: nat | FirstNamed(properties, name, i) :: Property(properties, name) == Some(properties[i].1)
    ensures Listed(properties, name) ==> exists i: nat :: FirstNamed(properties, name, i)
  {
    if properties != [] {
      var rest := properties[1..];
      PropertyNamed(rest, name);
      if properties[0].0 == name {
        assert FirstNamed(properties, name, 0);
      } else {
        forall i: nat | FirstNamed(properties, name, i) ensures Property(properties, name) == Some(properties[i].1) {
          assert FirstNamed(rest, name, i - 1);
        }
        if Listed(properties, name) {
          var k :| 0 <= k < |properties| && properties[k].0 == name;
          assert rest[k - 1].0 == name;
          var i: nat :| FirstNamed(rest, name, i);
          assert FirstNamed(properties, name, i + 1);
        }
        if Listed(rest, name) {
          var k :| 0 <= k < |rest| && rest[k].0 == name;
          assert properties[k + 1].0 == name;
        }
      }
    }
  }

  /** So the schema for a name is that of its first property, or the one for all others. */
  lemma SchemaForName(judge: Judge, properties: seq<(string, Schema)>, additional: Additional, entry: (Value, Value),
                      budget: nat)
    requires Bare(entry.0).VString?
    ensures EntryAccepts(judge, properties, additional, entry, budget) <==>
      var inner := SchemaFor(properties, additional, Bare(entry.0).s);
      inner.Some? ==> ValueAccepts(judge, inner.value, entry.1, budget)
  {
    hide ValueAccepts, Property;
    PropertyNamed(properties, Bare(entry.0).s);
  }

  /** A reference below `$defs` or below the root is looked up by the rest of it, any other by itself. */
  lemma RefKeys(name: string)
    ensures RefKey("#/$defs/" + name) == name
    ensures !("$defs/" <= name) ==> RefKey("#/" + name) == name
    ensures !("#/" <= name) ==> RefKey(name) == name
  {
    assert ("#/$defs/" + name)[8..] == name && ("#/" + name)[2..] == name;
    if !("$defs/" <= name) && "#/$defs/" <= "#/" + name {
      assert false;
    }
    assert "#/" <= "#/$defs/";
  }

  // ----- The readings of a node

  /** The children of a parsed node are older than it. */
  lemma Older(g: G.Grammar, nodes: seq<NodeData>, id: NodeId)
    requires NodesOk(g, nodes) && id < |nodes|
    ensures match nodes[id].kind
      case Alias(target) => target < id
      case Sequence(items) => forall i | 0 <= i < |items| :: items[i] < id
      case Mapping(entries) => forall i | 0 <= i < |entries| :: entries[i].0 < id && entries[i].1 < id
      case _ => true
  {
    assert NodeOk(g, nodes, id);
    match nodes[id].kind
    case Sequence(items) => assert forall i | 0 <= i < |items| :: ChildOk(g, nodes, id, items[i]);
    case Mapping(entries) =>
      assert forall i | 0 <= i < |entries| ::
        ChildOk(g, nodes, id, entries[i].0) && ChildOk(g, nodes, id, entries[i].1);
    case _ =>
  }

  lemma {:induction false} ItemsRead(nodes: seq<NodeData>, items: seq<NodeId>, bound: nat)
    requires forall i | 0 <= i < |items| :: items[i] < bound
    ensures forall i | 0 <= i < |items| :: FromItems(nodes, items, bound)[i] == FromNode(nodes, items[i])
  {
    hide FromNode;
    if items != [] {
      ItemsRead(nodes, items[1..], bound);
    }
  }

  lemma {:induction false} EntriesRead(nodes: seq<NodeData>, entries: seq<(NodeId, NodeId)>, bound: nat)
    requires forall i | 0 <= i < |entries| :: entries[i].0 < bound && entries[i].1 < bound
    ensures forall i | 0 <= i < |entries| ::
      FromEntries(nodes, entries, bound)[i] == (FromNode(nodes, entries[i].0), FromNode(nodes, entries[i].1))
  {
    hide FromNode;
    if entries != [] {
      EntriesRead(nodes, entries[1..], bound);
    }
  }

  /** Under its tags, a node reads as its scalar or as what its children read as. */
  lemma BareReads(g: G.Grammar, nodes: seq<NodeData>, id: NodeId)
    requires NodesOk(g, nodes) && id < |nodes|
    ensures var v := Bare(FromNode(nodes, id));
      match nodes[id].kind
      case Scalar(scalar) => v == FromScalar(scalar.value)
      case Sequence(items) => v.VSequence? && |v.items| == |items| && forall i | 0 <= i < |items| ::
        v.items[i] == FromNode(nodes, items[i])
      case Mapping(entries) => v.VMapping? && |v.entries| == |entries| && forall i | 0 <= i < |entries| ::
        v.entries[i] == (FromNode(nodes, entries[i].0), FromNode(nodes, entries[i].1))
      case Alias(target) => target < id && FromNode(nodes, id) == FromNode(nodes, target)
  {
    Older(g, nodes, id);
    match nodes[id].kind
    case Sequence(items) => ItemsRead(nodes, items, id);
    case Mapping(entries) => EntriesRead(nodes, entries, id);
    case _ =>
  }

  /** The type of a node is that of the value it reads as, aliases and tags included. */
  lemma {:induction false} TypeMeans(g: G.Grammar, nodes: seq<NodeData>, id: NodeId)
    requires NodesOk(g, nodes) && id < |nodes|
    ensures TypeOf(nodes, id) == Some(TypeOfValue(FromNode(nodes, id)))
    decreases id
  {
    BareReads(g, nodes, id);
    hide FromNode;
    if nodes[id].kind.Alias? {
      TypeMeans(g, nodes, nodes[id].kind.target);
    }
  }

  lemma TextMeans(g: G.Grammar, nodes: seq<NodeData>, id: NodeId)
    requires NodesOk(g, nodes) && id < |nodes|
    ensures TextOf(nodes, id) == if nodes[id].kind.Alias? then None else TextOfValue(FromNode(nodes, id))
  {
    BareReads(g, nodes, id);
    hide FromNode;
  }

  /**
   The other readings stop at an alias. Elsewhere the text, the number and the equality with an
   `enum` value are those of the value; so a node has a number exactly if it is no alias and its type
   is number, and a text exactly if it is no alias and its type is string.
   */
  lemma ReadingsMean(g: G.Grammar, nodes: seq<NodeData>, rules: Rules, id: NodeId)
    requires NodesOk(g, nodes) && id < |nodes|
    ensures var v := FromNode(nodes, id);
      var alias := nodes[id].kind.Alias?;
      && TextOf(nodes, id) == (if alias then None else TextOfValue(v))
      && NumberOf(nodes, rules, id) == (if alias then None else NumberOfValue(rules, v))
      && (TextOf(nodes, id).Some? <==> !alias && TypeOf(nodes, id) == Some(JString))
      && (NumberOf(nodes, rules, id).Some? <==> !alias && TypeOf(nodes, id) == Some(JNumber))
      && forall e :: Matches(nodes, rules, e, id) <==> !alias && EqualsEnum(rules, e, v)
  {
    BareReads(g, nodes, id);
    TypeMeans(g, nodes, id);
    TextMeans(g, nodes, id);
    hide FromNode;
  }

  // ----- Equality

  /** No alias in the node, no timestamp, and no float that differs from itself. */
  predicate Plain(nodes: seq<NodeData>, rules: Rules, id: NodeId)
    decreases id
  {
    id < |nodes| &&
    match nodes[id].kind
    case Alias(_) => false
    case Scalar(scalar) => !scalar.value.Timestamp?
      && (scalar.value.Float? ==> rules.same(scalar.value.bits, scalar.value.bits))
    case Sequence(items) => forall i | 0 <= i < |items| :: items[i] < id && Plain(nodes, rules, items[i])
    case Mapping(entries) =>
      forall i | 0 <= i < |entries| ::
        entries[i].0 < id && Plain(nodes, rules, entries[i].0) && entries[i].1 < id && Plain(nodes, rules, entries[i].1)
  }

  lemma {:induction false} AlikeSelf(rules: Rules, v: Value)
    ensures Alike(rules, v, v)
    decreases v
  {
    match Bare(v)
    case VSequence(items) =>
      forall i | 0 <= i < |items| ensures Alike(rules, items[i], items[i]) {
        AlikeSelf(rules, items[i]);
      }
    case VMapping(entries) =>
      forall i | 0 <= i < |entries| ensures AlikeEntries(rules, entries[i], entries[i]) {
        var e := entries[i];
        assert e.0 < e && e.1 < e;
        AlikeSelf(rules, e.0);
        AlikeSelf(rules, e.1);
      }
      assert forall i | 0 <= i < |entries| :: Among(rules, entries[i], entries);
    case _ =>
  }

  /** Nodes found equal read alike; plain nodes are found equal exactly if they read alike. */
  predicate Agrees(nodes: seq<NodeData>, rules: Rules, a: NodeId, b: NodeId) {
    var equal, alike := NodesEqual(nodes, rules, a, b), Alike(rules, FromNode(nodes, a), FromNode(nodes, b));
    && (equal ==> alike)
    && (Plain(nodes, rules, a) && Plain(nodes, rules, b) ==> (equal <==> alike))
  }

  /** The comparison of duplicate items is equality of what they read as. */
  lemma {:induction false} EqualMeans(g: G.Grammar, nodes: seq<NodeData>, rules: Rules, a: NodeId, b: NodeId)
    requires NodesOk(g, nodes) && a < |nodes| && b < |nodes|
    ensures Agrees(nodes, rules, a, b)
    decreases a
  {
    Older(g, nodes, a);
    Older(g, nodes, b);
    if a == b {
      AlikeSelf(rules, FromNode(nodes, a));
    } else if nodes[a].kind.Sequence? && nodes[b].kind.Sequence? {
      var x, y := nodes[a].kind.items, nodes[b].kind.items;
      forall i | 0 <= i < |x| && i < |y| ensures Agrees(nodes, rules, x[i], y[i]) {
        EqualMeans(g, nodes, rules, x[i], y[i]);
      }
      SequencesMean(g, nodes, rules, a, b);
    } else if nodes[a].kind.Mapping? && nodes[b].kind.Mapping? {
      var x, y := nodes[a].kind.entries, nodes[b].kind.entries;
      forall i, j | 0 <= i < |x| && 0 <= j < |y|
        ensures Agrees(nodes, rules, x[i].0, y[j].0) && Agrees(nodes, rules, x[i].1, y[j].1)
      {
        EqualMeans(g, nodes, rules, x[i].0, y[j].0);
        EqualMeans(g, nodes, rules, x[i].1, y[j].1);
      }
      MappingsMean(g, nodes, rules, a, b);
    } else {
      BareReads(g, nodes, a);
      BareReads(g, nodes, b);
    }
  }

  lemma SequencesMean(g: G.Grammar, nodes: seq<NodeData>, rules: Rules, a: NodeId, b: NodeId)
    requires NodesOk(g, nodes) && a < |nodes| && b < |nodes| && a != b
    requires nodes[a].kind.Sequence? && nodes[b].kind.Sequence?
    requires var x, y := nodes[a].kind.items, nodes[b].kind.items;
      forall i | 0 <= i < |x| && i < |y| :: Agrees(nodes, rules, x[i], y[i])
    ensures Agrees(nodes, rules, a, b)
  {
    BareReads(g, nodes, a);
    BareReads(g, nodes, b);
    Older(g, nodes, a);
    hide FromNode;
  }

  lemma MappingsMean(g: G.Grammar, nodes: seq<NodeData>, rules: Rules, a: NodeId, b: NodeId)
    requires NodesOk(g, nodes) && a < |nodes| && b < |nodes| && a != b
    requires nodes[a].kind.Mapping? && nodes[b].kind.Mapping?
    requires var x, y := nodes[a].kind.entries, nodes[b].kind.entries;
      forall i, j | 0 <= i < |x| && 0 <= j < |y| ::
        Agrees(nodes, rules, x[i].0, y[j].0) && Agrees(nodes, rules, x[i].1, y[j].1)
    ensures Agrees(nodes, rules, a, b)
  {
    hide FromNode, NodesOk, Bare, AlikeEntries, Among;
    BareReads(g, nodes, a);
    BareReads(g, nodes, b);
    Older(g, nodes, a);
    var x, y := nodes[a].kind.entries, nodes[b].kind.entries;
    var v, w := Bare(FromNode(nodes, a)).entries, Bare(FromNode(nodes, b)).entries;
    forall i | 0 <= i < |x|
      ensures HasEqual(nodes, rules, x[i], y) ==> Among(rules, v[i], w)
      ensures Plain(nodes, rules, a) && Plain(nodes, rules, b) && Among(rules, v[i], w) ==>
        HasEqual(nodes, rules, x[i], y)
    {
      EntryMeans(nodes, rules, x[i], y, v[i], w);
    }
  }

  predicate HasEqual(nodes: seq<NodeData>, rules: Rules, entry: (NodeId, NodeId), entries: seq<(NodeId, NodeId)>) {
    exists j | 0 <= j < |entries| ::
      NodesEqual(nodes, rules, entry.0, entries[j].0) && NodesEqual(nodes, rules, entry.1, entries[j].1)
  }

  lemma EntryMeans(nodes: seq<NodeData>, rules: Rules, x: (NodeId, NodeId), y: seq<(NodeId, NodeId)>, v: (Value, Value),
                   w: seq<(Value, Value)>)
    requires v == (FromNode(nodes, x.0), FromNode(nodes, x.1)) && |w| == |y|
    requires forall j | 0 <= j < |y| :: w[j] == (FromNode(nodes, y[j].0), FromNode(nodes, y[j].1))
    requires forall j | 0 <= j < |y| :: Agrees(nodes, rules, x.0, y[j].0) && Agrees(nodes, rules, x.1, y[j].1)
    ensures HasEqual(nodes, rules, x, y) ==> Among(rules, v, w)
    ensures
      (&& Plain(nodes, rules, x.0) && Plain(nodes, rules, x.1) && Among(rules, v, w)
       && forall j | 0 <= j < |y| :: Plain(nodes, rules, y[j].0) && Plain(nodes, rules, y[j].1)) ==>
        HasEqual(nodes, rules, x, y)
  {
    hide FromNode, Plain, NodesEqual, Alike;
    if HasEqual(nodes, rules, x, y) {
      var j :| 0 <= j < |y| && NodesEqual(nodes, rules, x.0, y[j].0) && NodesEqual(nodes, rules, x.1, y[j].1);
      assert AlikeEntries(rules, v, w[j]);
    }
    if Among(rules, v, w) {
      var j :| 0 <= j < |w| && AlikeEntries(rules, v, w[j]);
      assert Agrees(nodes, rules, x.0, y[j].0) && Agrees(nodes, rules, x.1, y[j].1);
    }
  }

  // ----- The checks of one node

  /** What holding an alias against a schema asks: types are looked through to, everything else stops at it. */
  predicate AliasHolds(judge: Judge, schema: Schema, v: Value) {
    var settings := judge.settings;
    match schema
    case Constant(ok) => ok
    case OfType(jsonType) => settings.types ==> TypeOfValue(v) == jsonType
    case Enum(_) => !settings.enums
    case Const(_) => !settings.enums
    case Text(_, _, _, _) => settings.strings ==> Bare(v).VString?
    case Number(_, _, _, _, _) => !settings.numbers
    case Array(_, _, _, _) => !settings.arrays
    case Object(_, _, _, _, _) => !settings.objects
    case Ref(name) => settings.refs ==> RefKey(name) in judge.defs
    case _ => true
  }

  lemma AliasMeans(g: G.Grammar, scene: Scene, schema: Schema, node: NodeId)
    requires NodesOk(g, scene.nodes) && node < |scene.nodes| && scene.nodes[node].kind.Alias?
    ensures Holds(scene, schema, node) <==> AliasHolds(JudgeOf(scene), schema, FromNode(scene.nodes, node))
  {
    ReadingsMean(g, scene.nodes, scene.rules, node);
    TypeMeans(g, scene.nodes, node);
    hide FromNode, TypeOf;
    TypeIsText(FromNode(scene.nodes, node));
  }

  lemma TypeIsText(v: Value)
    ensures TypeOfValue(v) == JString <==> Bare(v).VString?
  {
  }

  /** The node's own checks are those of the value it reads as; duplicates are only told apart among plain items. */
  lemma NodeMeans(g: G.Grammar, scene: Scene, schema: Schema, node: NodeId)
    requires NodesOk(g, scene.nodes) && node < |scene.nodes| && !scene.nodes[node].kind.Alias?
    requires schema.Array? && schema.uniqueItems && scene.nodes[node].kind.Sequence? ==>
      forall c | c in scene.nodes[node].kind.items :: Plain(scene.nodes, scene.rules, c)
    requires schema.Object? && scene.nodes[node].kind.Mapping? ==>
      forall e | e in scene.nodes[node].kind.entries :: e.0 < |scene.nodes| && !scene.nodes[e.0].kind.Alias?
    ensures Holds(scene, schema, node) <==> ValueHolds(JudgeOf(scene), schema, FromNode(scene.nodes, node))
  {
    hide FromNode, TypeOf, Matches, EqualsEnum, Plain;
    if schema.Array? {
      ArrayMeans(g, scene, schema, node);
    } else if schema.Object? {
      ObjectMeans(g, scene, schema, node);
    } else {
      ReadingsMean(g, scene.nodes, scene.rules, node);
      TypeMeans(g, scene.nodes, node);
      TypeIsText(FromNode(scene.nodes, node));
    }
  }

  /** What may be wrong with a value itself, and how it is reported. */
  predicate Fault(judge: Judge, schema: Schema, v: Value, kind: IssueKind) {
    var settings, rules := judge.settings, judge.rules;
    match schema
    case Constant(ok) => kind.NotMatched? && !ok
    case OfType(jsonType) => settings.types && kind.TypeMismatch? && TypeOfValue(v) != jsonType
    case Enum(values) => settings.enums && kind.EnumMismatch? && forall e | e in values :: !EqualsEnum(rules, e, v)
    case Const(value) => settings.enums && kind.ConstMismatch? && !EqualsEnum(rules, value, v)
    case Text(low, high, pattern, format) =>
      settings.strings &&
      if !Bare(v).VString? then kind.TypeMismatch? else
      var text := Bare(v).s;
      (match kind
       case MinLength => low.Some? && |text| < low.value
       case MaxLength => high.Some? && |text| > high.value
       case PatternMismatch => pattern.Some? && !rules.hasPattern(pattern.value, text)
       case FormatMismatch => settings.formats && format.Some? && !rules.hasFormat(format.value, text)
       case _ => false)
    case Number(low, high, above, below, step) =>
      settings.numbers &&
      if NumberOfValue(rules, v).None? then kind.TypeMismatch? else
      var n := NumberOfValue(rules, v).value;
      (match kind
       case Minimum => low.Some? && rules.less(n, low.value)
       case Maximum => high.Some? && rules.less(high.value, n)
       case ExclusiveMinimum => above.Some? && rules.atMost(n, above.value)
       case ExclusiveMaximum => below.Some? && rules.atMost(below.value, n)
       case MultipleOf => step.Some? && rules.offStep(n, step.value)
       case _ => false)
    case Array(_, low, high, unique) =>
      settings.arrays &&
      if !Bare(v).VSequence? then kind.TypeMismatch? else
      var items := Bare(v).items;
      (match kind
       case MinItems => low.Some? && |items| < low.value
       case MaxItems => high.Some? && |items| > high.value
       case UniqueItems => unique && exists i, j | 0 <= i < j < |items| :: Alike(rules, items[i], items[j])
       case _ => false)
    case Object(_, required, _, low, high) =>
      settings.objects &&
      if !Bare(v).VMapping? then kind.TypeMismatch? else
      var entries := Bare(v).entries;
      (match kind
       case MinProperties => low.Some? && |entries| < low.value
       case MaxProperties => high.Some? && |entries| > high.value
       case RequiredMissing => exists name | name in required :: !HasEntry(entries, name)
       case _ => false)
    case _ => false
  }

  /** The issues of the node's own checks are of exactly the kinds that the value has faults of. */
  lemma FaultsReported(g: G.Grammar, scene: Scene, schema: Schema, node: NodeId, kind: IssueKind)
    requires NodesOk(g, scene.nodes) && node < |scene.nodes| && !scene.nodes[node].kind.Alias?
    requires schema.Array? && schema.uniqueItems && scene.nodes[node].kind.Sequence? ==>
      forall c | c in scene.nodes[node].kind.items :: Plain(scene.nodes, scene.rules, c)
    requires schema.Object? && scene.nodes[node].kind.Mapping? ==>
      forall e | e in scene.nodes[node].kind.entries :: e.0 < |scene.nodes| && !scene.nodes[e.0].kind.Alias?
    ensures kind in OwnIssues(scene, schema, node) <==>
      Fault(JudgeOf(scene), schema, FromNode(scene.nodes, node), kind)
  {
    hide FromNode, TypeOf, Matches, EqualsEnum, Plain;
    if schema.Array? {
      ArrayFaults(g, scene, schema, node, kind);
    } else if schema.Object? {
      ObjectFaults(g, scene, schema, node, kind);
    } else {
      ReadingsMean(g, scene.nodes, scene.rules, node);
      TypeMeans(g, scene.nodes, node);
      ScalarFaults(scene, schema, node, FromNode(scene.nodes, node), kind);
    }
  }

  /** A node read as a value has the faults of that value. */
  lemma ScalarFaults(scene: Scene, schema: Schema, node: NodeId, v: Value, kind: IssueKind)
    requires !schema.Array? && !schema.Object?
    requires TypeOf(scene.nodes, node) == Some(TypeOfValue(v)) && TextOf(scene.nodes, node) == TextOfValue(v)
    requires NumberOf(scene.nodes, scene.rules, node) == NumberOfValue(scene.rules, v)
    requires forall e :: Matches(scene.nodes, scene.rules, e, node) <==> EqualsEnum(scene.rules, e, v)
    ensures kind in OwnIssues(scene, schema, node) <==> Fault(JudgeOf(scene), schema, v, kind)
  {
    hide TypeOf, NumberOf, TextOf, Matches, EqualsEnum, TypeOfValue, NumberOfValue, OwnIssues, Fault;
    if schema.Text? {
      TextFaults(scene, schema, node, v, kind);
    } else if schema.Number? {
      NumberFaults(scene, schema, node, v, kind);
    } else {
      OtherFaults(scene, schema, node, v, kind);
    }
  }

  lemma OtherFaults(scene: Scene, schema: Schema, node: NodeId, v: Value, kind: IssueKind)
    requires !schema.Array? && !schema.Object? && !schema.Text? && !schema.Number?
    requires TypeOf(scene.nodes, node) == Some(TypeOfValue(v))
    requires forall e :: Matches(scene.nodes, scene.rules, e, node) <==> EqualsEnum(scene.rules, e, v)
    ensures kind in OwnIssues(scene, schema, node) <==> Fault(JudgeOf(scene), schema, v, kind)
  {
    hide TypeOf, Matches, EqualsEnum, TypeOfValue;
  }

  lemma TextFaults(scene: Scene, schema: Schema, node: NodeId, v: Value, kind: IssueKind)
    requires schema.Text? && TypeOf(scene.nodes, node) == Some(TypeOfValue(v))
    requires TextOf(scene.nodes, node) == TextOfValue(v)
    ensures kind in OwnIssues(scene, schema, node) <==> Fault(JudgeOf(scene), schema, v, kind)
  {
    hide TypeOf, TextOf, TypeOfValue;
    TypeIsText(v);
  }

  lemma NumberFaults(scene: Scene, schema: Schema, node: NodeId, v: Value, kind: IssueKind)
    requires schema.Number? && NumberOf(scene.nodes, scene.rules, node) == NumberOfValue(scene.rules, v)
    ensures kind in OwnIssues(scene, schema, node) <==> Fault(JudgeOf(scene), schema, v, kind)
  {
    hide NumberOf, NumberOfValue, NumberIssues;
    if NumberOfValue(scene.rules, v).Some? {
      NumberKinds(scene.rules, schema, NumberOfValue(scene.rules, v).value, kind);
    }
  }

  lemma NumberKinds(rules: Rules, schema: Schema, n: nat, kind: IssueKind)
    requires schema.Number?
    ensures kind in NumberIssues(rules, schema, n) <==>
      match kind
      case Minimum => schema.minimum.Some? && rules.less(n, schema.minimum.value)
      case Maximum => schema.maximum.Some? && rules.less(schema.maximum.value, n)
      case ExclusiveMinimum => schema.exclusiveMinimum.Some? && rules.atMost(n, schema.exclusiveMinimum.value)
      case ExclusiveMaximum => schema.exclusiveMaximum.Some? && rules.atMost(schema.exclusiveMaximum.value, n)
      case MultipleOf => schema.multipleOf.Some? && rules.offStep(n, schema.multipleOf.value)
      case _ => false
  {
  }

  /** Items found equal are those that read alike. */
  lemma DuplicatesMean(g: G.Grammar, nodes: seq<NodeData>, rules: Rules, node: NodeId)
    requires NodesOk(g, nodes) && node < |nodes| && nodes[node].kind.Sequence?
    requires forall c | c in nodes[node].kind.items :: Plain(nodes, rules, c)
    ensures var items, read := nodes[node].kind.items, Bare(FromNode(nodes, node));
      && read.VSequence? && |read.items| == |items|
      && forall i, j | 0 <= i < j < |items| ::
           NodesEqual(nodes, rules, items[i], items[j]) <==> Alike(rules, read.items[i], read.items[j])
  {
    BareReads(g, nodes, node);
    Older(g, nodes, node);
    hide FromNode, NodesEqual, Alike, Plain;
    var items := nodes[node].kind.items;
    var read := Bare(FromNode(nodes, node)).items;
    forall i, j | 0 <= i < j < |items|
      ensures NodesEqual(nodes, rules, items[i], items[j]) <==> Alike(rules, read[i], read[j])
    {
      EqualMeans(g, nodes, rules, items[i], items[j]);
    }
  }

  lemma ArrayKinds(scene: Scene, schema: Schema, items: seq<NodeId>, kind: IssueKind)
    requires schema.Array?
    ensures kind in ArrayIssues(scene, schema, items) <==>
      match kind
      case MinItems => schema.minItems.Some? && |items| < schema.minItems.value
      case MaxItems => schema.maxItems.Some? && |items| > schema.maxItems.value
      case UniqueItems => schema.uniqueItems && HasDuplicate(scene.nodes, scene.rules, items)
      case _ => false
  {
    hide HasDuplicate;
  }

  lemma ArrayFaults(g: G.Grammar, scene: Scene, schema: Schema, node: NodeId, kind: IssueKind)
    requires schema.Array? && NodesOk(g, scene.nodes) && node < |scene.nodes| && !scene.nodes[node].kind.Alias?
    requires schema.uniqueItems && scene.nodes[node].kind.Sequence? ==>
      forall c | c in scene.nodes[node].kind.items :: Plain(scene.nodes, scene.rules, c)
    ensures kind in OwnIssues(scene, schema, node) <==>
      Fault(JudgeOf(scene), schema, FromNode(scene.nodes, node), kind)
  {
    hide FromNode, NodesEqual, Alike, Plain, NodesOk, Bare, ArrayIssues;
    BareReads(g, scene.nodes, node);
    if scene.nodes[node].kind.Sequence? {
      ArrayKinds(scene, schema, scene.nodes[node].kind.items, kind);
      if schema.uniqueItems {
        DuplicatesMean(g, scene.nodes, scene.rules, node);
      }
    }
  }

  lemma {:induction false} RequiredReported(nodes: seq<NodeData>, required: seq<string>, entries: seq<(NodeId, NodeId)>,
                                            kind: IssueKind)
    ensures kind in RequiredIssues(nodes, required, entries) <==>
      kind.RequiredMissing? && exists name | name in required :: !Names(nodes, entries, name)
  {
    hide Names;
    if required != [] {
      RequiredReported(nodes, required[1..], entries, kind);
      assert forall name :: name in required <==> name == required[0] || name in required[1..];
    }
  }

  lemma ObjectFaults(g: G.Grammar, scene: Scene, schema: Schema, node: NodeId, kind: IssueKind)
    requires schema.Object? && NodesOk(g, scene.nodes) && node < |scene.nodes| && !scene.nodes[node].kind.Alias?
    requires scene.nodes[node].kind.Mapping? ==>
      forall e | e in scene.nodes[node].kind.entries :: e.0 < |scene.nodes| && !scene.nodes[e.0].kind.Alias?
    ensures kind in OwnIssues(scene, schema, node) <==>
      Fault(JudgeOf(scene), schema, FromNode(scene.nodes, node), kind)
  {
    var nodes := scene.nodes;
    hide FromNode, TextOf;
    if nodes[node].kind.Mapping? {
      NamesMean(g, nodes, node);
      var entries := nodes[node].kind.entries;
      var read := Bare(FromNode(nodes, node)).entries;
      forall name ensures Names(nodes, entries, name) <==> HasEntry(read, name) {
        NameMeans(nodes, entries, read, name);
      }
      RequiredReported(nodes, schema.required, entries, kind);
    } else {
      BareReads(g, nodes, node);
    }
  }

  lemma ArrayMeans(g: G.Grammar, scene: Scene, schema: Schema, node: NodeId)
    requires schema.Array? && NodesOk(g, scene.nodes) && node < |scene.nodes| && !scene.nodes[node].kind.Alias?
    requires schema.uniqueItems && scene.nodes[node].kind.Sequence? ==>
      forall c | c in scene.nodes[node].kind.items :: Plain(scene.nodes, scene.rules, c)
    ensures Holds(scene, schema, node) <==> ValueHolds(JudgeOf(scene), schema, FromNode(scene.nodes, node))
  {
    hide FromNode, NodesEqual, Alike, Plain, NodesOk, Bare;
    BareReads(g, scene.nodes, node);
    if schema.uniqueItems && scene.nodes[node].kind.Sequence? {
      DuplicatesMean(g, scene.nodes, scene.rules, node);
    }
  }

  /** A text key names what it reads as. */
  lemma NamesMean(g: G.Grammar, nodes: seq<NodeData>, node: NodeId)
    requires NodesOk(g, nodes) && node < |nodes| && nodes[node].kind.Mapping?
    requires forall e | e in nodes[node].kind.entries :: e.0 < |nodes| && !nodes[e.0].kind.Alias?
    ensures var read := Bare(FromNode(nodes, node));
      && read.VMapping? && |read.entries| == |nodes[node].kind.entries|
      && (forall i | 0 <= i < |read.entries| ::
            TextOf(nodes, nodes[node].kind.entries[i].0) == TextOfValue(read.entries[i].0))
  {
    BareReads(g, nodes, node);
    hide FromNode, TextOf, TextOfValue;
    var entries := nodes[node].kind.entries;
    forall i | 0 <= i < |entries|
      ensures TextOf(nodes, entries[i].0) == TextOfValue(Bare(FromNode(nodes, node)).entries[i].0)
    {
      assert entries[i] in entries;
      TextMeans(g, nodes, entries[i].0);
    }
  }

  lemma ObjectMeans(g: G.Grammar, scene: Scene, schema: Schema, node: NodeId)
    requires schema.Object? && NodesOk(g, scene.nodes) && node < |scene.nodes| && !scene.nodes[node].kind.Alias?
    requires scene.nodes[node].kind.Mapping? ==>
      forall e | e in scene.nodes[node].kind.entries :: e.0 < |scene.nodes| && !scene.nodes[e.0].kind.Alias?
    ensures Holds(scene, schema, node) <==> ValueHolds(JudgeOf(scene), schema, FromNode(scene.nodes, node))
  {
    var nodes := scene.nodes;
    hide FromNode, TextOf;
    if nodes[node].kind.Mapping? {
      NamesMean(g, nodes, node);
      var entries := nodes[node].kind.entries;
      var read := Bare(FromNode(nodes, node)).entries;
      forall name ensures Names(nodes, entries, name) <==> HasEntry(read, name) {
        NameMeans(nodes, entries, read, name);
      }
    } else {
      BareReads(g, nodes, node);
    }
  }

  lemma NameMeans(nodes: seq<NodeData>, entries: seq<(NodeId, NodeId)>, read: seq<(Value, Value)>, name: string)
    requires |read| == |entries| && forall i | 0 <= i < |read| :: TextOf(nodes, entries[i].0) == TextOfValue(read[i].0)
    ensures Names(nodes, entries, name) <==> HasEntry(read, name)
  {
    hide TextOf;
    forall i | 0 <= i < |entries|
      ensures TextOf(nodes, entries[i].0) == Some(name) <==> Bare(read[i].0) == VString(name)
    {
    }
    if i :| 0 <= i < |entries| && Bare(read[i].0) == VString(name) {
      assert entries[i] in entries;
    }
  }

  // ----- Whole schemas

  /** Validating a plain node is holding the value it reads as against the schema. */
  lemma {:induction false} AcceptsMeans(g: G.Grammar, scene: Scene, schema: Schema, node: NodeId, budget: nat)
    requires NodesOk(g, scene.nodes) && Plain(scene.nodes, scene.rules, node)
    ensures Accepts(scene, schema, node, budget) <==>
      ValueAccepts(JudgeOf(scene), schema, FromNode(scene.nodes, node), budget)
    decreases budget, 1
  {
    if budget > 0 {
      PlainMeans(g, scene, schema, node);
      if Holds(scene, schema, node) {
        InnerMeans(g, scene, schema, node, budget);
      }
    }
  }

  lemma PlainMeans(g: G.Grammar, scene: Scene, schema: Schema, node: NodeId)
    requires NodesOk(g, scene.nodes) && Plain(scene.nodes, scene.rules, node)
    ensures Holds(scene, schema, node) <==> ValueHolds(JudgeOf(scene), schema, FromNode(scene.nodes, node))
  {
    hide FromNode, Holds, ValueHolds;
    PlainParts(scene.nodes, scene.rules, node);
    NodeMeans(g, scene, schema, node);
  }

  lemma PlainParts(nodes: seq<NodeData>, rules: Rules, node: NodeId)
    requires Plain(nodes, rules, node)
    ensures node < |nodes| && !nodes[node].kind.Alias?
    ensures nodes[node].kind.Sequence? ==> forall c | c in nodes[node].kind.items :: Plain(nodes, rules, c)
    ensures nodes[node].kind.Mapping? ==> forall e | e in nodes[node].kind.entries ::
      e.0 < |nodes| && !nodes[e.0].kind.Alias? && Plain(nodes, rules, e.1)
  {
    if nodes[node].kind.Mapping? {
      forall e | e in nodes[node].kind.entries
        ensures e.0 < |nodes| && !nodes[e.0].kind.Alias? && Plain(nodes, rules, e.1)
      {
        var i :| 0 <= i < |nodes[node].kind.entries| && nodes[node].kind.entries[i] == e;
        assert Plain(nodes, rules, nodes[node].kind.entries[i].0);
      }
    }
  }

  lemma {:induction false} InnerMeans(g: G.Grammar, scene: Scene, schema: Schema, node: NodeId, budget: nat)
    requires NodesOk(g, scene.nodes) && Plain(scene.nodes, scene.rules, node)
    requires budget > 0 && Holds(scene, schema, node)
    requires ValueHolds(JudgeOf(scene), schema, FromNode(scene.nodes, node))
    ensures InnerHolds(scene, schema, node, budget - 1) <==>
      ValueAccepts(JudgeOf(scene), schema, FromNode(scene.nodes, node), budget)
    decreases budget, 0
  {
    hide FromNode, Plain, ValueHolds, Holds;
    match schema {
      case Array(_, _, _, _) => ArrayInside(g, scene, schema, node, budget);
      case Object(_, _, _, _, _) => ObjectInside(g, scene, schema, node, budget);
      case Not(_) => NotInside(g, scene, schema, node, budget);
      case OneOf(_) => SchemasInside(g, scene, schema, node, budget);
      case AnyOf(_) => SchemasInside(g, scene, schema, node, budget);
      case AllOf(_) => SchemasInside(g, scene, schema, node, budget);
      case Ref(_) => RefInside(g, scene, schema, node, budget);
      case _ => LeafInside(scene, schema, node, FromNode(scene.nodes, node), budget);
    }
  }

  lemma LeafInside(scene: Scene, schema: Schema, node: NodeId, v: Value, budget: nat)
    requires budget > 0 && ValueHolds(JudgeOf(scene), schema, v)
    requires schema.Constant? || schema.OfType? || schema.Enum? || schema.Const? || schema.Text? || schema.Number?
    ensures InnerHolds(scene, schema, node, budget - 1) <==> ValueAccepts(JudgeOf(scene), schema, v, budget)
  {
  }

  lemma {:induction false} NotInside(g: G.Grammar, scene: Scene, schema: Schema, node: NodeId, budget: nat)
    requires NodesOk(g, scene.nodes) && Plain(scene.nodes, scene.rules, node) && budget > 0 && schema.Not?
    ensures InnerHolds(scene, schema, node, budget - 1) <==>
      ValueAccepts(JudgeOf(scene), schema, FromNode(scene.nodes, node), budget)
    decreases budget - 1, 2
  {
    AcceptsMeans(g, scene, schema.inner, node, budget - 1);
    hide FromNode, Plain, NodesOk, Holds, Accepts;
  }

  lemma {:induction false} RefInside(g: G.Grammar, scene: Scene, schema: Schema, node: NodeId, budget: nat)
    requires NodesOk(g, scene.nodes) && Plain(scene.nodes, scene.rules, node) && budget > 0 && schema.Ref?
    requires ValueHolds(JudgeOf(scene), schema, FromNode(scene.nodes, node))
    ensures InnerHolds(scene, schema, node, budget - 1) <==>
      ValueAccepts(JudgeOf(scene), schema, FromNode(scene.nodes, node), budget)
    decreases budget - 1, 2
  {
    hide FromNode, Plain, NodesOk, Holds, Accepts;
    if scene.settings.refs {
      var inner := scene.defs[RefKey(schema.name)];
      AcceptsMeans(g, scene, inner, node, budget - 1);
      assert Enters(scene, schema, node, inner, node);
    }
  }

  lemma {:induction false} SchemasInside(g: G.Grammar, scene: Scene, schema: Schema, node: NodeId, budget: nat)
    requires NodesOk(g, scene.nodes) && Plain(scene.nodes, scene.rules, node) && budget > 0
    requires schema.OneOf? || schema.AnyOf? || schema.AllOf?
    ensures InnerHolds(scene, schema, node, budget - 1) <==>
      ValueAccepts(JudgeOf(scene), schema, FromNode(scene.nodes, node), budget)
    decreases budget - 1, 2
  {
    hide FromNode, Plain, NodesOk, Accepts, ValueAccepts, InnerHolds;
    var schemas := schema.schemas;
    forall i | 0 <= i < |schemas|
      ensures Accepts(scene, schemas[i], node, budget - 1) <==>
        ValueAccepts(JudgeOf(scene), schemas[i], FromNode(scene.nodes, node), budget - 1)
    {
      AcceptsMeans(g, scene, schemas[i], node, budget - 1);
    }
    if schema.AllOf? {
      AllInside(scene, schema, node, FromNode(scene.nodes, node), budget);
    } else {
      SomeInside(scene, schema, node, FromNode(scene.nodes, node), budget);
    }
  }

  lemma SomeInside(scene: Scene, schema: Schema, node: NodeId, v: Value, budget: nat)
    requires budget > 0 && (schema.OneOf? || schema.AnyOf?)
    requires forall i | 0 <= i < |schema.schemas| ::
      Accepts(scene, schema.schemas[i], node, budget - 1) <==>
        ValueAccepts(JudgeOf(scene), schema.schemas[i], v, budget - 1)
    ensures InnerHolds(scene, schema, node, budget - 1) <==> ValueAccepts(JudgeOf(scene), schema, v, budget)
  {
    hide Accepts, Enters, Holds;
  }

  lemma AllInside(scene: Scene, schema: Schema, node: NodeId, v: Value, budget: nat)
    requires budget > 0 && schema.AllOf?
    requires forall i | 0 <= i < |schema.schemas| ::
      Accepts(scene, schema.schemas[i], node, budget - 1) <==>
        ValueAccepts(JudgeOf(scene), schema.schemas[i], v, budget - 1)
    ensures InnerHolds(scene, schema, node, budget - 1) <==> ValueAccepts(JudgeOf(scene), schema, v, budget)
  {
    hide Accepts, Holds;
    if scene.settings.combinators {
      forall i | 0 <= i < |schema.schemas| ensures Enters(scene, schema, node, schema.schemas[i], node) {
      }
    }
  }

  lemma {:induction false} ArrayInside(g: G.Grammar, scene: Scene, schema: Schema, node: NodeId, budget: nat)
    requires NodesOk(g, scene.nodes) && Plain(scene.nodes, scene.rules, node) && budget > 0 && schema.Array?
    requires Holds(scene, schema, node) && ValueHolds(JudgeOf(scene), schema, FromNode(scene.nodes, node))
    ensures InnerHolds(scene, schema, node, budget - 1) <==>
      ValueAccepts(JudgeOf(scene), schema, FromNode(scene.nodes, node), budget)
    decreases budget - 1, 2
  {
    PlainParts(scene.nodes, scene.rules, node);
    BareReads(g, scene.nodes, node);
    hide FromNode, Plain, NodesOk, Accepts, Alike, NodesEqual;
    if scene.settings.arrays && schema.items.Some? {
      var items := scene.nodes[node].kind.items;
      forall i | 0 <= i < |items|
        ensures Accepts(scene, schema.items.value, items[i], budget - 1) <==>
          ValueAccepts(JudgeOf(scene), schema.items.value, FromNode(scene.nodes, items[i]), budget - 1)
        ensures Enters(scene, schema, node, schema.items.value, items[i])
      {
        AcceptsMeans(g, scene, schema.items.value, items[i], budget - 1);
      }
    }
  }

  lemma {:induction false} ObjectInside(g: G.Grammar, scene: Scene, schema: Schema, node: NodeId, budget: nat)
    requires NodesOk(g, scene.nodes) && Plain(scene.nodes, scene.rules, node) && budget > 0 && schema.Object?
    requires Holds(scene, schema, node) && ValueHolds(JudgeOf(scene), schema, FromNode(scene.nodes, node))
    ensures InnerHolds(scene, schema, node, budget - 1) <==>
      ValueAccepts(JudgeOf(scene), schema, FromNode(scene.nodes, node), budget)
    decreases budget - 1, 2
  {
    PlainParts(scene.nodes, scene.rules, node);
    if scene.settings.objects {
      NamesMean(g, scene.nodes, node);
      BareReads(g, scene.nodes, node);
      hide FromNode, Plain, NodesOk, Accepts, TextOf, SchemaFor, Forbidden;
      var entries, read := scene.nodes[node].kind.entries, Bare(FromNode(scene.nodes, node)).entries;
      forall i | 0 <= i < |entries|
        ensures EntryEntered(scene, schema, entries[i], budget - 1) <==>
          EntryAccepts(JudgeOf(scene), schema.properties, schema.additional, read[i], budget - 1)
      {
        if Bare(read[i].0).VString? {
          SchemaForName(JudgeOf(scene), schema.properties, schema.additional, read[i], budget - 1);
          var inner := SchemaFor(schema.properties, schema.additional, Bare(read[i].0).s);
          if inner.Some? {
            AcceptsMeans(g, scene, inner.value, entries[i].1, budget - 1);
          }
        }
      }
      EntriesEntered(scene, schema, node, budget - 1);
    }
  }

  /** The value of an entry meets the schema for its name, if it has a text and the name a schema. */
  ghost predicate EntryEntered(scene: Scene, schema: Schema, entry: (NodeId, NodeId), budget: nat)
    requires schema.Object?
  {
    TextOf(scene.nodes, entry.0).Some? ==>
      var inner := SchemaFor(schema.properties, schema.additional, TextOf(scene.nodes, entry.0).value);
      inner.Some? ==> Accepts(scene, inner.value, entry.1, budget)
  }

  lemma EntriesEntered(scene: Scene, schema: Schema, node: NodeId, budget: nat)
    requires schema.Object? && scene.settings.objects && node < |scene.nodes| && scene.nodes[node].kind.Mapping?
    ensures InnerHolds(scene, schema, node, budget) <==>
      var entries := scene.nodes[node].kind.entries;
      forall i | 0 <= i < |entries| :: EntryEntered(scene, schema, entries[i], budget)
  {
    hide Accepts, TextOf, SchemaFor;
    var entries := scene.nodes[node].kind.entries;
    if InnerHolds(scene, schema, node, budget) {
      forall i | 0 <= i < |entries| ensures EntryEntered(scene, schema, entries[i], budget) {
        assert entries[i] in entries;
        if TextOf(scene.nodes, entries[i].0).Some? {
          var inner := SchemaFor(schema.properties, schema.additional, TextOf(scene.nodes, entries[i].0).value);
          assert inner.Some? ==> Enters(scene, schema, node, inner.value, entries[i].1);
        }
      }
    }
    if forall i | 0 <= i < |entries| :: EntryEntered(scene, schema, entries[i], budget) {
      forall inner, child | Enters(scene, schema, node, inner, child) ensures Accepts(scene, inner, child, budget) {
        var e :| e in entries && e.1 == child && TextOf(scene.nodes, e.0).Some?
          && SchemaFor(schema.properties, schema.additional, TextOf(scene.nodes, e.0).value) == Some(inner);
        var i :| 0 <= i < |entries| && entries[i] == e;
        assert EntryEntered(scene, schema, entries[i], budget);
      }
    }
  }

  /** What the validator reports of a plain node of a parsed arena is what the schema says of the value. */
  lemma FindingsJudgeValues(g: G.Grammar, scene: Scene, schema: Schema, node: NodeId, depth: nat, path: string)
    requires G.Parse(g).Ok? && scene.nodes == G.Parse(g).value.document.nodes
    requires Plain(scene.nodes, scene.rules, node)
    ensures Findings(scene, schema, node, depth, path) == [] <==>
      ValueAccepts(JudgeOf(scene), schema, FromNode(scene.nodes, node), Left(scene, depth))
  {
    ParsedArenaOk(g);
    hide G.Parse, Plain, Accepts, ValueAccepts, Findings, FromNode;
    CleanMeansAccepted(scene, schema, node, depth, path);
    AcceptsMeans(g, scene, schema, node, Left(scene, depth));
  }
}
