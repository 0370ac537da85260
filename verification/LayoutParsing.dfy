/** Every layout of a value parses to a node that reads as the value. */
module LayoutParsing {
  import opened Prelude
  import opened Syntax
  import opened Arena
  import opened Grammar
  import opened GrammarParts
  import opened Values
  import opened Layouts
  import MK = MergeKeys
  import MergeProperties

  // ----- What is known while parsing

  /** No scalar carries a tag of its own, and none is refused for meaning two things. */
  ghost predicate Steady(g: Grammar, pinned: bool) {
    forall i | 0 <= i < |g.tokens| && g.tokens[i].kind.Scalar? ::
      && g.tokens[i].kind.tag.None?
      && (g.tokens[i].kind.style == Plain && g.cfg.options.strictVersion && !pinned ==>
            !Ambiguous(g.cfg, g.tokens[i].kind.raw))
  }

  /** The anchors registered so far stand on nodes older than `bound` that read as the environment says. */
  ghost predicate Knows(anchors: map<string, NodeId>, nodes: seq<NodeData>, env: Env, bound: nat) {
    && anchors.Keys == env.Keys && bound <= |nodes|
    && forall name | name in env :: anchors[name] < bound && FromNode(nodes, anchors[name]) == env[name]
  }

  /** The state in front of a value, with the anchors of `env` registered. */
  ghost predicate Ready(g: Grammar, s: PState, env: Env) {
    && s.pos <= |g.tokens| && Steady(g, s.pinned) && g.keyAnchors.EveryAnchor?
    && Knows(s.anchors, s.document.nodes, env, |s.document.nodes|)
  }

  /** What a node reads as apart from its tag. */
  function FromKind(nodes: seq<NodeData>, id: NodeId): Value
    requires id < |nodes|
  {
    match nodes[id].kind
    case Alias(target) => FromChild(nodes, target, id)
    case Scalar(scalar) => FromScalar(scalar.value)
    case Sequence(items) => VSequence(FromItems(nodes, items, id))
    case Mapping(entries) => VMapping(FromEntries(nodes, entries, id))
  }

  /** A node was built last, from the tokens up to somewhere in `from..stop`, and reads as `v`. */
  ghost predicate Arrived(r: Parsed, from: nat, stop: nat, v: Value, env: Env) {
    && r.Ok? && from <= r.value.0.pos <= stop &&
    var (t, id) := r.value;
    && id + 1 == |t.document.nodes| && FromNode(t.document.nodes, id) == v
    && Knows(t.anchors, t.document.nodes, env, |t.document.nodes|)
  }

  /** The node is an alias or a scalar, and spelled so, only if the tokens are. */
  ghost predicate Fits(tokens: seq<Token>, core: Core, kind: NodeKind) {
    && (kind.Alias? <==> IsAlias(tokens, core))
    && (kind.Scalar? ==>
          && core.Atom?
          && (KindAt(tokens, core.at).Scalar? ==> kind.scalar.raw == KindAt(tokens, core.at).raw)
          && (KindAt(tokens, core.at).BlockScalar? ==> kind.scalar.raw == KindAt(tokens, core.at).text)
          && (KindAt(tokens, core.at).Scalar? || KindAt(tokens, core.at).BlockScalar?))
  }

  /** The same before anchors and tags are put on the node. */
  ghost predicate CoreArrived(tokens: seq<Token>, core: Core, r: Parsed, from: nat, stop: nat, bare: Value, env: Env) {
    && r.Ok? && from <= r.value.0.pos <= stop &&
    var (t, id) := r.value;
    && id + 1 == |t.document.nodes|
    && t.document.nodes[id].tag.None? && Fits(tokens, core, t.document.nodes[id].kind)
    && FromKind(t.document.nodes, id) == bare && Knows(t.anchors, t.document.nodes, env, id)
  }

  // ----- Reading goes on through comments and blank lines

  lemma {:induction false} SkipToNext(tokens: seq<Token>, i: nat, at: nat)
    requires Next(tokens, i, at)
    ensures SkipPos(tokens, i) == at
    decreases at - i
  {
    if i < at {
      SkipToNext(tokens, i + 1, at);
    }
  }

  lemma ValueSkips(g: Grammar, s: PState)
    requires s.pos <= |g.tokens|
    ensures ParseValue(g, SkipTrivia(g, s)) == ParseValue(g, s)
  {
    hide TriviaFrom, ParseBlockSequence, ParseBlockMapping, ParseFlowSequence, ParseFlowMapping, ParseLeaf, Declare,
      Retag;
    SkipTriviaAgain(g, s);
  }

  lemma KnowsMore(anchors: map<string, NodeId>, nodes: seq<NodeData>, nodes': seq<NodeData>, env: Env, bound: nat)
    requires Knows(anchors, nodes, env, bound) && nodes <= nodes'
    ensures Knows(anchors, nodes', env, bound)
  {
    hide FromNode;
    forall name | name in env ensures FromNode(nodes', anchors[name]) == env[name] {
      FromNodeFrame(nodes, nodes', anchors[name]);
    }
  }

  lemma KnowsWider(anchors: map<string, NodeId>, nodes: seq<NodeData>, env: Env, bound: nat, bound': nat)
    requires Knows(anchors, nodes, env, bound) && bound <= bound' <= |nodes|
    ensures Knows(anchors, nodes, env, bound')
  {
    hide FromNode;
  }

  // ----- The shape of a layout's first token

  lemma LaidStarts(tokens: seq<Token>, i: nat, layout: Layout)
    requires Laid(tokens, i, layout)
    ensures var at := Start(layout);
      && Next(tokens, i, at) && i < |tokens| && OpensValue(tokens[at].kind)
      && (OpensValue(tokens[i].kind) || IsTrivia(tokens[i].kind))
  {
    if layout.props == [] {
      match layout.core
      case Atom(_) =>
      case Dashes(items) => assert ItemsLaid(tokens, i, items, ColumnAt(tokens, items[0].dash));
      case Keys(entries) =>
        assert EntriesLaid(tokens, i, entries, ColumnAt(tokens, entries[0].key.at));
        assert KeyLaid(tokens, entries[0].key, entries[0].colon);
      case Brackets(_, _, _) =>
      case Braces(_, _, _) =>
    }
    assert i < Start(layout) ==> IsTrivia(tokens[i].kind);
  }

  lemma LaidFrom(tokens: seq<Token>, i: nat, j: nat, layout: Layout)
    requires Laid(tokens, i, layout) && i <= j <= Start(layout)
    ensures Laid(tokens, j, layout)
  {
    if layout.props == [] {
      CoreLaidFrom(tokens, i, j, layout);
    }
  }

  lemma CoreLaidFrom(tokens: seq<Token>, i: nat, j: nat, layout: Layout)
    requires layout.props == [] && CoreLaid(tokens, i, layout.core) && i <= j <= Start(layout)
    ensures CoreLaid(tokens, j, layout.core)
  {
    match layout.core
    case Atom(_) =>
    case Dashes(items) =>
      assert ItemsLaid(tokens, i, items, ColumnAt(tokens, items[0].dash));
      assert ItemsLaid(tokens, j, items, ColumnAt(tokens, items[0].dash));
    case Keys(entries) =>
      assert EntriesLaid(tokens, i, entries, ColumnAt(tokens, entries[0].key.at));
      assert EntriesLaid(tokens, j, entries, ColumnAt(tokens, entries[0].key.at));
    case Brackets(_, _, _) =>
    case Braces(_, _, _) =>
  }

  // ----- One token

  lemma ScalarResolves(g: Grammar, s: PState, i: nat)
    requires Steady(g, s.pinned) && i < |g.tokens| && g.tokens[i].kind.Scalar?
    ensures var kind := g.tokens[i].kind;
      var value := ResolveScalarValue(g, s, kind.raw, kind.style, kind.tag);
      value.Ok? && FromScalar(value.value) == ScalarMeaning(g.cfg, s.version, kind.raw, kind.style)
  {
  }

  /** The newest node reads as its kind says, and the older ones as before. */
  lemma AddedReads(s: PState, kind: NodeKind, span: Span, trivia: seq<Trivia>, env: Env)
    requires Knows(s.anchors, s.document.nodes, env, |s.document.nodes|)
    ensures var (t, id) := AddNode(s, kind, span, trivia);
      && id + 1 == |t.document.nodes| && t.document.nodes[id].tag.None? && t.document.nodes[id].kind == kind
      && s.document.nodes <= t.document.nodes && t.anchors == s.anchors && Knows(t.anchors, t.document.nodes, env, id)
  {
    hide FromNode;
    var (t, id) := AddNode(s, kind, span, trivia);
    KnowsMore(s.anchors, s.document.nodes, t.document.nodes, env, id);
  }

  lemma AtomParses(g: Grammar, s: PState, at: nat, env: Env, bare: Value)
    requires Ready(g, s, env) && Next(g.tokens, s.pos, at) && at + 1 < |g.tokens|
    requires CoreLaid(g.tokens, s.pos, Atom(at)) && Closes(g.tokens, Layout([], Atom(at)), at + 1)
    requires CoreMeaning(g.cfg, s.version, g.tokens, Atom(at), env) == Some((bare, env))
    ensures CoreArrived(g.tokens, Atom(at), ParseValue(g, s), at + 1, at + 1, bare, env)
  {
    hide Knows, TriviaFrom, ParseBlockMapping, ParseBlockSequence, ParseFlowMapping, ParseFlowSequence;
    SkipToNext(g.tokens, s.pos, at);
    var u := SkipTrivia(g, s);
    assert ParseValue(g, s) == ParseLeaf(g, u);
    hide ParseValue;
    LeafParses(g, u, env, bare);
  }

  lemma LeafParses(g: Grammar, s: PState, env: Env, bare: Value)
    requires Ready(g, s, env) && s.pos < |g.tokens|
    requires CoreMeaning(g.cfg, s.version, g.tokens, Atom(s.pos), env) == Some((bare, env))
    ensures CoreArrived(g.tokens, Atom(s.pos), ParseLeaf(g, s), s.pos + 1, s.pos + 1, bare, env)
  {
    hide Steady;
    var token := g.tokens[s.pos];
    match token.kind
    case Scalar(raw, style, tag) =>
      ScalarResolves(g, s, s.pos);
      var value := ResolveScalarValue(g, s, raw, style, tag).value;
      hide Knows, ResolveScalarValue;
      AddedReads(Advance(s).(pending := []), NodeKind.Scalar(ScalarData(value, style, raw, tag)), token.span, s.pending,
                 env);
    case BlockScalar(indicator, text) =>
      hide Knows;
      var style := if indicator.Literal? then BlockLiteral else BlockChomped;
      AddedReads(Advance(s).(pending := []), NodeKind.Scalar(ScalarData(String(text), style, text, None)), token.span,
                 s.pending, env);
    case Alias(name) =>
      AddedReads(Advance(s).(pending := []), NodeKind.Alias(s.anchors[name]), token.span, s.pending, env);
  }

  // ----- Anchors and tags

  /** Behind the core: the names in front of it stand on its node, and all others where they did. */
  ghost predicate Named(anchors: map<string, NodeId>, nodes: seq<NodeData>, known: Env, env: Env, id: NodeId) {
    && id < |nodes| && anchors.Keys == env.Keys
    && forall name | name in env ::
         if name in known then anchors[name] < id && FromNode(nodes, anchors[name]) == known[name]
           else anchors[name] == id
  }

  /** With the anchors and tags of `props` put on. */
  ghost predicate PropsArrived(tokens: seq<Token>, core: Core, r: Parsed, from: nat, stop: nat, tag: Option<string>,
                               bare: Value, known: Env, env: Env) {
    && r.Ok? && from <= r.value.0.pos <= stop &&
    var (t, id) := r.value;
    && id + 1 == |t.document.nodes|
    && t.document.nodes[id].tag == tag && Fits(tokens, core, t.document.nodes[id].kind)
    && FromKind(t.document.nodes, id) == bare && Named(t.anchors, t.document.nodes, known, env, id)
  }

  /** Changing only the tag or anchor of node `id` changes what it reads as by the tag, and nothing older. */
  lemma MarkReads(nodes: seq<NodeData>, nodes': seq<NodeData>, id: NodeId)
    requires id < |nodes| == |nodes'| && nodes' == nodes[id := nodes'[id]] && nodes'[id].kind == nodes[id].kind
    ensures FromKind(nodes', id) == FromKind(nodes, id)
    ensures forall i: nat | i < id :: FromNode(nodes', i) == FromNode(nodes, i)
  {
    hide FromNode, FromKind;
    var older := nodes[..id];
    assert older <= nodes && older <= nodes';
    forall i: nat | i < id ensures FromNode(nodes', i) == FromNode(nodes, i) {
      FromNodeFrame(older, nodes, i);
      FromNodeFrame(older, nodes', i);
    }
    FromKindOlder(older, nodes, id);
    FromKindOlder(older, nodes', id);
  }

  /** A node of this kind, on top of the nodes of `older`. */
  function FromOlder(older: seq<NodeData>, kind: NodeKind): Value {
    match kind
    case Alias(target) => FromChild(older, target, |older|)
    case Scalar(scalar) => FromScalar(scalar.value)
    case Sequence(items) => VSequence(FromItems(older, items, |older|))
    case Mapping(entries) => VMapping(FromEntries(older, entries, |older|))
  }

  lemma FromKindOlder(older: seq<NodeData>, nodes: seq<NodeData>, id: NodeId)
    requires |older| == id < |nodes| && older <= nodes
    ensures FromKind(nodes, id) == FromOlder(older, nodes[id].kind)
  {
    hide FromChild, FromItems, FromEntries;
    match nodes[id].kind
    case Alias(target) => FromChildFrame(older, nodes, target, id);
    case Scalar(_) =>
    case Sequence(items) => FromItemsFrame(older, nodes, items, id);
    case Mapping(entries) => FromEntriesFrame(older, nodes, entries, id);
  }

  lemma DeclareArrives(tokens: seq<Token>, core: Core, r: Parsed, from: nat, stop: nat, tag: Option<string>,
                       bare: Value, known: Env, env: Env, name: string, v: Value)
    requires PropsArrived(tokens, core, r, from, stop, tag, bare, known, env) && name !in env && known.Keys <= env.Keys
    ensures PropsArrived(tokens, core, Declare(r.value.0, r.value.1, name), from, stop, tag, bare, known,
                         env[name := v])
  {
    hide FromNode, FromKind, Fits;
    var (t, id) := r.value;
    MarkReads(t.document.nodes, SetAnchor(t.document.nodes, id, name), id);
  }

  lemma RetagArrives(tokens: seq<Token>, core: Core, r: Parsed, from: nat, stop: nat, tag: Option<string>, bare: Value,
                     known: Env, env: Env, name: string)
    requires PropsArrived(tokens, core, r, from, stop, tag, bare, known, env)
    ensures PropsArrived(tokens, core, Ok(Retag(r.value.0, r.value.1, name)), from, stop, Some(name), bare, known, env)
  {
    hide FromNode, FromKind, Fits;
    var (t, id) := r.value;
    MarkReads(t.document.nodes, SetTag(t.document.nodes, id, name), id);
  }

  lemma TagReads(tag: Option<string>, bare: Value)
    ensures WithTag(tag, bare) == Tagged(tag, bare)
  {
  }

  /** Once every name is declared, the node reads as the decorated value, and so does every name put on it. */
  lemma PropsDone(tokens: seq<Token>, layout: Layout, r: Parsed, from: nat, stop: nat, bare: Value, known: Env,
                  env: Env, v: Value)
    requires PropsArrived(tokens, layout.core, r, from, stop, OuterTag(tokens, layout.props), bare, known, env)
    requires v == if IsAlias(tokens, layout.core) then bare else Tagged(OuterTag(tokens, layout.props), bare)
    requires Declared(tokens, layout.props, v, known) == Some(env)
    ensures Arrived(r, from, stop, v, env) && Fits(tokens, layout.core, r.value.0.document.nodes[r.value.1].kind)
  {
    TagReads(OuterTag(tokens, layout.props), bare);
    hide WithTag, Tagged;
    var (t, id) := r.value;
    assert FromNode(t.document.nodes, id) == v;
    hide FromNode, FromKind, OuterTag, Fits;
    DeclaredAdds(tokens, layout.props, v, known);
  }

  /** A core without anchors and tags in front of it. */
  lemma CoreDone(tokens: seq<Token>, core: Core, r: Parsed, from: nat, stop: nat, bare: Value, known: Env)
    requires CoreArrived(tokens, core, r, from, stop, bare, known)
    ensures PropsArrived(tokens, core, r, from, stop, None, bare, known, known)
  {
    hide FromNode, FromKind, Fits;
  }

  lemma {:induction false} DeclaredAdds(tokens: seq<Token>, props: seq<nat>, v: Value, known: Env)
    ensures var env := Declared(tokens, props, v, known);
      env.Some? ==>
        && known.Keys <= env.value.Keys
        && forall name | name in env.value :: env.value[name] == if name in known then known[name] else v
    decreases |props|
  {
    if props != [] {
      DeclaredAdds(tokens, props[1..], v, known);
    }
  }

  // ----- Values

  lemma {:induction false} LayoutParses(g: Grammar, s: PState, layout: Layout, stop: nat, env: Env, v: Value, env': Env)
    requires Ready(g, s, env)
    requires Laid(g.tokens, s.pos, layout) && Next(g.tokens, End(layout), stop) && Closes(g.tokens, layout, stop)
    requires Meaning(g.cfg, s.version, g.tokens, layout, env) == Some((v, env'))
    ensures Arrived(ParseValue(g, s), End(layout), stop, v, env')
    ensures Fits(g.tokens, layout.core, ParseValue(g, s).value.0.document.nodes[ParseValue(g, s).value.1].kind)
    decreases layout.core, 3
  {
    hide Laid, Closes, CoreMeaning, ParseValue, PropsArrived, Declared, OuterTag, Tagged, Fits;
    var (bare, known) := CoreMeaning(g.cfg, s.version, g.tokens, layout.core, env).value;
    PropsParse(g, s, layout, stop, env, bare, known, v, env');
    PropsDone(g.tokens, layout, ParseValue(g, s), End(layout), stop, bare, known, env', v);
  }

  lemma {:induction false} PropsParse(g: Grammar, s: PState, layout: Layout, stop: nat, env: Env, bare: Value,
                                      known: Env, v: Value, env': Env)
    requires Ready(g, s, env)
    requires Laid(g.tokens, s.pos, layout) && Next(g.tokens, End(layout), stop) && Closes(g.tokens, layout, stop)
    requires CoreMeaning(g.cfg, s.version, g.tokens, layout.core, env) == Some((bare, known))
    requires Declared(g.tokens, layout.props, v, known) == Some(env')
    ensures PropsArrived(g.tokens, layout.core, ParseValue(g, s), End(layout), stop, OuterTag(g.tokens, layout.props),
                         bare, known, env')
    decreases layout.core, 2, |layout.props|
  {
    hide Knows, CoreMeaning, PropsArrived, ParseValue, TriviaFrom, Declare, Retag;
    if layout.props == [] {
      CoreParses(g, s, layout, stop, env, bare, known);
    } else {
      var at, inner := layout.props[0], Layout(layout.props[1..], layout.core);
      PropUnfolds(g, s, at);
      InnerCloses(g.tokens, layout, inner, stop);
      DeclaredAdds(g.tokens, inner.props, v, known);
      var named := Declared(g.tokens, inner.props, v, known).value;
      PropsParse(g, Advance(SkipTrivia(g, s)), inner, stop, env, bare, known, v, named);
      var r := ParseValue(g, Advance(SkipTrivia(g, s)));
      PropArrives(g.tokens, layout, r, End(layout), stop, bare, known, named, v);
    }
  }

  /** One more anchor or tag, in front of the others. */
  lemma PropArrives(tokens: seq<Token>, layout: Layout, r: Parsed, from: nat, stop: nat, bare: Value, known: Env,
                    named: Env, v: Value)
    requires layout.props != [] && (KindAt(tokens, layout.props[0]).Anchor? || KindAt(tokens, layout.props[0]).Tag?)
    requires PropsArrived(tokens, layout.core, r, from, stop, OuterTag(tokens, layout.props[1..]), bare, known, named)
    requires Declared(tokens, layout.props[1..], v, known) == Some(named) && known.Keys <= named.Keys
    requires Declared(tokens, layout.props, v, known).Some?
    ensures r.Ok?
    ensures var kind := KindAt(tokens, layout.props[0]);
      var marked := if kind.Anchor? then Declare(r.value.0, r.value.1, kind.name)
                    else Ok(Retag(r.value.0, r.value.1, kind.name));
      PropsArrived(tokens, layout.core, marked, from, stop, OuterTag(tokens, layout.props), bare, known,
                   Declared(tokens, layout.props, v, known).value)
  {
    hide PropsArrived, Declare, Retag;
    var kind, tag := KindAt(tokens, layout.props[0]), OuterTag(tokens, layout.props[1..]);
    assert r.Ok? && r.value.1 < |r.value.0.document.nodes| by {
      PropsNode(tokens, layout.core, r, from, stop, tag, bare, known, named);
    }
    if kind.Anchor? {
      DeclareArrives(tokens, layout.core, r, from, stop, tag, bare, known, named, kind.name, v);
    } else {
      RetagArrives(tokens, layout.core, r, from, stop, tag, bare, known, named, kind.name);
    }
  }

  lemma PropsNode(tokens: seq<Token>, core: Core, r: Parsed, from: nat, stop: nat, tag: Option<string>, bare: Value,
                  known: Env, env: Env)
    requires PropsArrived(tokens, core, r, from, stop, tag, bare, known, env)
    ensures r.Ok? && r.value.1 < |r.value.0.document.nodes|
  {
  }

  /** Properties change neither where a value ends nor what may follow. */
  lemma InnerCloses(tokens: seq<Token>, layout: Layout, inner: Layout, stop: nat)
    requires inner.core == layout.core
    ensures End(inner) == End(layout) && Closes(tokens, inner, stop) == Closes(tokens, layout, stop)
  {
  }

  lemma PropUnfolds(g: Grammar, s: PState, at: nat)
    requires s.pos <= |g.tokens| && Next(g.tokens, s.pos, at)
    requires g.tokens[at].kind.Anchor? || g.tokens[at].kind.Tag?
    ensures SkipTrivia(g, s).pos == at
    ensures var inner := ParseValue(g, Advance(SkipTrivia(g, s)));
      ParseValue(g, s) ==
        if inner.Err? then inner
        else if g.tokens[at].kind.Anchor? then Declare(inner.value.0, inner.value.1, g.tokens[at].kind.name)
        else Ok(Retag(inner.value.0, inner.value.1, g.tokens[at].kind.name))
  {
    hide TriviaFrom, ParseBlockSequence, ParseBlockMapping, ParseFlowSequence, ParseFlowMapping, ParseLeaf, Declare,
      Retag;
    SkipToNext(g.tokens, s.pos, at);
    ValueSkips(g, Advance(SkipTrivia(g, s)));
  }

  lemma {:induction false} CoreParses(g: Grammar, s: PState, layout: Layout, stop: nat, env: Env, bare: Value,
                                      known: Env)
    requires Ready(g, s, env) && layout.props == []
    requires CoreLaid(g.tokens, s.pos, layout.core) && Next(g.tokens, End(layout), stop)
      && Closes(g.tokens, layout, stop)
    requires CoreMeaning(g.cfg, s.version, g.tokens, layout.core, env) == Some((bare, known))
    ensures PropsArrived(g.tokens, layout.core, ParseValue(g, s), End(layout), stop, None, bare, known, known)
    decreases layout.core, 1
  {
    hide CoreArrived, PropsArrived, ParseValue, Knows, Steady;
    match layout.core {
      case Atom(at) =>
        AtomParses(g, s, at, env, bare);
        CoreArrivedLater(g.tokens, layout.core, ParseValue(g, s), at + 1, at + 1, stop, bare, known);
      case Dashes(_) => DashesParse(g, s, layout, stop, env, bare, known);
      case Keys(_) => KeysParse(g, s, layout, stop, env, bare, known);
      case Brackets(_, _, _) => BracketsParse(g, s, layout, stop, env, bare, known);
      case Braces(_, _, _) => BracesParse(g, s, layout, stop, env, bare, known);
    }
    CoreDone(g.tokens, layout.core, ParseValue(g, s), End(layout), stop, bare, known);
  }

  // ----- Block sequences

  /** A sequence was finished whose items behind `done` read as `values`. */
  ghost predicate ItemsArrived(r: Parsed, done: seq<NodeId>, stop: nat, values: seq<Value>, env: Env) {
    && r.Ok? && r.value.0.pos == stop &&
    var (t, id) := r.value;
    && id + 1 == |t.document.nodes| && t.document.nodes[id].tag.None? && t.document.nodes[id].kind.Sequence?
    && done <= t.document.nodes[id].kind.items
    && FromItems(t.document.nodes, t.document.nodes[id].kind.items[|done|..], id) == values
    && Knows(t.anchors, t.document.nodes, env, id)
  }

  lemma AllItems(tokens: seq<Token>, core: Core, r: Parsed, from: nat, stop: nat, values: seq<Value>, env: Env)
    requires ItemsArrived(r, [], stop, values, env) && from <= stop && !core.Atom?
    ensures CoreArrived(tokens, core, r, from, stop, VSequence(values), env)
  {
    hide Knows, FromItems;
    var all := r.value.0.document.nodes[r.value.1].kind.items;
    assert all[0..] == all;
  }

  lemma {:induction false} DashesParse(g: Grammar, s: PState, layout: Layout, stop: nat, env: Env, bare: Value,
                                       known: Env)
    requires Ready(g, s, env) && layout.props == [] && layout.core.Dashes?
    requires CoreLaid(g.tokens, s.pos, layout.core) && Next(g.tokens, End(layout), stop)
      && Closes(g.tokens, layout, stop)
    requires CoreMeaning(g.cfg, s.version, g.tokens, layout.core, env) == Some((bare, known))
    ensures CoreArrived(g.tokens, layout.core, ParseValue(g, s), End(layout), stop, bare, known)
    decreases layout.core, 0
  {
    hide Knows, Steady, ParseBlockSequence, ItemsMeaning, ItemsArrived, CoreArrived, TriviaFrom;
    var items := layout.core.items;
    var column := ColumnAt(g.tokens, items[0].dash);
    assert ItemsLaid(g.tokens, s.pos, items, column) && g.tokens[items[0].dash].kind.SequenceEntry?;
    SkipToNext(g.tokens, s.pos, items[0].dash);
    var u := SkipTrivia(g, s);
    assert ParseValue(g, s) == ParseBlockSequence(g, u, [], None, 0, None);
    hide ParseValue, ItemsLaid;
    var values := ItemsMeaning(g.cfg, s.version, g.tokens, items, env).value.0;
    ItemsParse(g, u, s.pos, items, [], None, 0, None, column, stop, env, values, known);
    AllItems(g.tokens, layout.core, ParseValue(g, s), End(layout), stop, values, known);
  }

  lemma {:induction false} ItemsParse(g: Grammar, s: PState, i: nat, items: seq<Item>, done: seq<NodeId>,
                                      first: Option<Span>, lastEnd: nat, itemCol: Option<nat>, column: nat, stop: nat,
                                      env: Env, values: seq<Value>, env': Env)
    requires Ready(g, s, env) && ItemsLaid(g.tokens, i, items, column)
    requires itemCol == Some(column) || (itemCol.None? && items != [])
    requires Next(g.tokens, s.pos, if items == [] then stop else items[0].dash)
    requires items != [] ==>
      Next(g.tokens, ItemEnd(items[|items| - 1]), stop) && ItemCloses(g.tokens, items[|items| - 1], stop)
    requires !(KindAt(g.tokens, stop).SequenceEntry? && ColumnAt(g.tokens, stop) == column)
    requires ItemsMeaning(g.cfg, s.version, g.tokens, items, env) == Some((values, env'))
    requires forall id | id in done :: id < |s.document.nodes|
    ensures ItemsArrived(ParseBlockSequence(g, s, done, first, lastEnd, itemCol), done, stop, values, env')
    decreases items
  {
    hide Knows, Steady, ParseBlockSequence, ItemsArrived, TriviaFrom, ParseItem, Meaning, ItemCloses, ItemsMeaning,
      ItemsLaid, ItemLaid, OptionMeaning;
    if items == [] {
      NoItemsMean(g.cfg, s.version, g.tokens, env);
      ItemsEnd(g, s, done, first, lastEnd, column, stop, env);
    } else {
      var item, r := items[0], ParseBlockSequence(g, s, done, first, lastEnd, itemCol);
      var next := if |items| > 1 then items[1].dash else stop;
      var v, known, rest := FirstItemMeans(g.cfg, s.version, g.tokens, items, env, values, env');
      ItemNext(g.tokens, i, items, column, stop);
      SkipToNext(g.tokens, s.pos, item.dash);
      var u := SkipTrivia(g, s);
      ItemParses(g, Advance(u), item, next, env, v, known);
      var dash := g.tokens[item.dash].span;
      var (t, id) := ParseItem(g, Advance(u), dash).value;
      ItemUnfolds(g, s, done, first, lastEnd, itemCol, item.dash);
      ItemsParse(g, t, ItemEnd(item), items[1..], done + [id], if first.None? then Some(dash) else first,
                 SpanEnd(t.document.nodes, id, Max(lastEnd, dash.end)), Some(column), column, stop, known, rest, env');
      ItemsJoin(t, r, done, id, v, rest, stop, env');
    }
  }

  lemma NoItemsMean(cfg: Config, version: YamlVersion, tokens: seq<Token>, env: Env)
    ensures ItemsMeaning(cfg, version, tokens, [], env) == Some(([], env))
  {
  }

  lemma FirstItemMeans(cfg: Config, version: YamlVersion, tokens: seq<Token>, items: seq<Item>, env: Env,
                       values: seq<Value>, env': Env)
    returns (v: Value, known: Env, rest: seq<Value>)
    requires items != [] && ItemsMeaning(cfg, version, tokens, items, env) == Some((values, env'))
    ensures OptionMeaning(cfg, version, tokens, items[0].value, env) == Some((v, known))
    ensures ItemsMeaning(cfg, version, tokens, items[1..], known) == Some((rest, env'))
    ensures values == [v] + rest
  {
    hide OptionMeaning;
    var (v', known') := OptionMeaning(cfg, version, tokens, items[0].value, env).value;
    v, known := v', known';
    rest := ItemsMeaning(cfg, version, tokens, items[1..], known).value.0;
  }

  /** Behind an item comes the next dash, or what follows the sequence. */
  lemma ItemNext(tokens: seq<Token>, i: nat, items: seq<Item>, column: nat, stop: nat)
    requires items != [] && ItemsLaid(tokens, i, items, column)
    requires Next(tokens, ItemEnd(items[|items| - 1]), stop) && ItemCloses(tokens, items[|items| - 1], stop)
    ensures var next := if |items| > 1 then items[1].dash else stop;
      && Next(tokens, ItemEnd(items[0]), next) && ItemCloses(tokens, items[0], next)
      && KindAt(tokens, items[0].dash).SequenceEntry? && ColumnAt(tokens, items[0].dash) == column
      && items[0].dash < |tokens| && ItemLaid(tokens, items[0])
      && ItemsLaid(tokens, ItemEnd(items[0]), items[1..], column)
    ensures var rest := items[1..];
      rest != [] ==>
        && rest[0] == items[1]
        && Next(tokens, ItemEnd(rest[|rest| - 1]), stop) && ItemCloses(tokens, rest[|rest| - 1], stop)
  {
    hide ItemCloses, ItemLaid;
  }

  lemma ItemsEnd(g: Grammar, s: PState, done: seq<NodeId>, first: Option<Span>, lastEnd: nat, column: nat, stop: nat,
                 env: Env)
    requires Ready(g, s, env) && Next(g.tokens, s.pos, stop)
    requires !(KindAt(g.tokens, stop).SequenceEntry? && ColumnAt(g.tokens, stop) == column)
    ensures ItemsArrived(ParseBlockSequence(g, s, done, first, lastEnd, Some(column)), done, stop, [], env)
  {
    hide TriviaFrom, Knows, FromNode;
    SkipToNext(g.tokens, s.pos, stop);
    var u := SkipTrivia(g, s);
    AddedReads(u.(pending := []), NodeKind.Sequence(done), BlockSpan(first, lastEnd), u.pending, env);
    assert done[|done|..] == [];
  }

  lemma {:induction false} ItemParses(g: Grammar, s: PState, item: Item, next: nat, env: Env, v: Value, env': Env)
    requires Ready(g, s, env) && s.pos == item.dash + 1 <= |g.tokens|
    requires ItemLaid(g.tokens, item) && Next(g.tokens, ItemEnd(item), next) && ItemCloses(g.tokens, item, next)
    requires OptionMeaning(g.cfg, s.version, g.tokens, item.value, env) == Some((v, env'))
    ensures Arrived(ParseItem(g, s, g.tokens[item.dash].span), ItemEnd(item), next, v, env')
    decreases item
  {
    hide Knows, Steady, ParseValue, Arrived, Meaning, Closes, Laid;
    if item.value.Some? {
      LaidStarts(g.tokens, s.pos, item.value.value);
      assert item.value.value.core < item;
      LayoutParses(g, s, item.value.value, next, env, v, env');
    } else {
      NullParses(g, s, g.tokens[item.dash].span, item.dash + 1, next, env);
    }
  }

  /** A value left out is a null node. */
  lemma NullParses(g: Grammar, s: PState, span: Span, from: nat, stop: nat, env: Env)
    requires Ready(g, s, env) && from <= s.pos <= stop
    ensures Arrived(Ok(AddNull(s, span)), from, stop, VNull, env)
  {
    hide Knows;
    AddedReads(s, NodeKind.Scalar(NullScalar()), span, [], env);
    var t := AddNull(s, span).0;
    KnowsWider(t.anchors, t.document.nodes, env, |t.document.nodes| - 1, |t.document.nodes|);
  }

  lemma ItemUnfolds(g: Grammar, s: PState, done: seq<NodeId>, first: Option<Span>, lastEnd: nat, itemCol: Option<nat>,
                    at: nat)
    requires s.pos <= |g.tokens| && Next(g.tokens, s.pos, at) && g.tokens[at].kind.SequenceEntry?
    requires itemCol.None? || itemCol == Some(g.tokens[at].span.column)
    ensures SkipTrivia(g, s).pos == at
    ensures var dash := g.tokens[at].span;
      var item := ParseItem(g, Advance(SkipTrivia(g, s)), dash);
      item.Ok? ==>
        var (t, id) := item.value;
        ParseBlockSequence(g, s, done, first, lastEnd, itemCol) ==
          ParseBlockSequence(g, t, done + [id], if first.None? then Some(dash) else first,
                             SpanEnd(t.document.nodes, id, Max(lastEnd, dash.end)), Some(dash.column))
  {
    hide TriviaFrom, ParseItem;
    SkipToNext(g.tokens, s.pos, at);
  }

  lemma ItemsJoin(t: PState, r: Parsed, done: seq<NodeId>, id: NodeId, v: Value, rest: seq<Value>, stop: nat, env: Env)
    requires id < |t.document.nodes| && FromNode(t.document.nodes, id) == v
    requires ItemsArrived(r, done + [id], stop, rest, env)
    requires r.Ok? ==> t.document.nodes <= r.value.0.document.nodes && |t.document.nodes| <= r.value.1
    ensures ItemsArrived(r, done, stop, [v] + rest, env)
  {
    hide Knows, FromNode;
    var nodes := r.value.0.document.nodes;
    var all := nodes[r.value.1].kind.items;
    var more := all[|done + [id]|..];
    assert all[|done|] == (done + [id])[|done|] == id;
    assert all[|done|..] == [id] + more && ([id] + more)[1..] == more;
    FromNodeFrame(t.document.nodes, nodes, id);
    assert FromItems(nodes, [id] + more, r.value.1) == [v] + rest;
  }

  // ----- Block mappings

  /** A mapping was finished whose entries behind `done` read as `values`. */
  ghost predicate EntriesArrived(r: Parsed, done: seq<(NodeId, NodeId)>, stop: nat, values: seq<(Value, Value)>,
                                 env: Env) {
    && r.Ok? && r.value.0.pos == stop &&
    var (t, id) := r.value;
    && id + 1 == |t.document.nodes| && t.document.nodes[id].tag.None? && t.document.nodes[id].kind.Mapping?
    && done <= t.document.nodes[id].kind.entries
    && FromEntries(t.document.nodes, t.document.nodes[id].kind.entries[|done|..], id) == values
    && Knows(t.anchors, t.document.nodes, env, id)
  }

  /** Finished entries, none of which expansion would touch. */
  ghost predicate Plainly(g: Grammar, nodes: seq<NodeData>, entries: seq<(NodeId, NodeId)>) {
    forall e | e in entries ::
      && e.0 < |nodes| && e.1 < |nodes| && (g.cfg.options.mergeKeys ==> !MK.IsMergeKey(nodes, e.0))
  }

  lemma AllEntries(tokens: seq<Token>, core: Core, r: Parsed, from: nat, stop: nat, values: seq<(Value, Value)>,
                   env: Env)
    requires EntriesArrived(r, [], stop, values, env) && from <= stop && !core.Atom?
    ensures CoreArrived(tokens, core, r, from, stop, VMapping(values), env)
  {
    hide Knows, FromEntries;
    var all := r.value.0.document.nodes[r.value.1].kind.entries;
    assert all[0..] == all;
  }

  lemma FinishArrives(g: Grammar, s: PState, done: seq<(NodeId, NodeId)>, span: Span, env: Env)
    requires Ready(g, s, env) && Plainly(g, s.document.nodes, done)
    ensures EntriesArrived(FinishMapping(g, s, done, span), done, s.pos, [], env)
  {
    hide Knows, FromNode;
    MergeProperties.NothingToMerge(g.cfg.options.mergeKeys, s.document.nodes, done);
    AddedReads(s.(pending := []), NodeKind.Mapping(done), span, s.pending, env);
    assert done[|done|..] == [];
  }

  lemma EntriesJoin(t: PState, u: PState, r: Parsed, done: seq<(NodeId, NodeId)>, key: NodeId, value: NodeId, k: Value,
                    v: Value, rest: seq<(Value, Value)>, stop: nat, env: Env)
    requires key < |t.document.nodes| && FromNode(t.document.nodes, key) == k
    requires value < |u.document.nodes| && FromNode(u.document.nodes, value) == v
    requires t.document.nodes <= u.document.nodes
    requires EntriesArrived(r, done + [(key, value)], stop, rest, env)
    requires r.Ok? ==> u.document.nodes <= r.value.0.document.nodes && |u.document.nodes| <= r.value.1
    ensures EntriesArrived(r, done, stop, [(k, v)] + rest, env)
  {
    hide Knows, FromNode;
    var nodes, ids := r.value.0.document.nodes, [(key, value)];
    var all := nodes[r.value.1].kind.entries;
    var more := all[|done + ids|..];
    assert all[|done|] == (done + ids)[|done|] == (key, value);
    assert all[|done|..] == ids + more && (ids + more)[1..] == more;
    FromNodeFrame(t.document.nodes, nodes, key);
    FromNodeFrame(u.document.nodes, nodes, value);
    assert FromEntries(nodes, ids + more, r.value.1) == [(k, v)] + rest;
  }

  lemma MorePlainly(g: Grammar, nodes: seq<NodeData>, keyed: seq<NodeData>, nodes': seq<NodeData>,
                    done: seq<(NodeId, NodeId)>, key: NodeId, value: NodeId)
    requires Plainly(g, nodes, done) && nodes <= keyed <= nodes' && key < |keyed| && value < |nodes'|
    requires g.cfg.options.mergeKeys ==> !MK.IsMergeKey(keyed, key)
    ensures Plainly(g, nodes', done + [(key, value)])
  {
  }

  lemma {:induction false} KeysParse(g: Grammar, s: PState, layout: Layout, stop: nat, env: Env, bare: Value,
                                     known: Env)
    requires Ready(g, s, env) && layout.props == [] && layout.core.Keys?
    requires CoreLaid(g.tokens, s.pos, layout.core) && Next(g.tokens, End(layout), stop)
      && Closes(g.tokens, layout, stop)
    requires CoreMeaning(g.cfg, s.version, g.tokens, layout.core, env) == Some((bare, known))
    ensures CoreArrived(g.tokens, layout.core, ParseValue(g, s), End(layout), stop, bare, known)
    decreases layout.core, 0
  {
    hide Knows, Steady, ParseBlockMapping, EntriesMeaning, EntriesArrived, CoreArrived, TriviaFrom;
    var entries := layout.core.entries;
    var column := ColumnAt(g.tokens, entries[0].key.at);
    assert EntriesLaid(g.tokens, s.pos, entries, column) && KeyLaid(g.tokens, entries[0].key, entries[0].colon);
    SkipToNext(g.tokens, s.pos, entries[0].key.at);
    var u := SkipTrivia(g, s);
    assert ParseValue(g, s) == ParseBlockMapping(g, u, [], None, 0, None);
    hide ParseValue, EntriesLaid, KeyLaid;
    var values := EntriesMeaning(g.cfg, s.version, g.tokens, entries, env).value.0;
    EntriesParse(g, u, s.pos, entries, [], None, 0, None, column, stop, env, values, known);
    AllEntries(g.tokens, layout.core, ParseValue(g, s), End(layout), stop, values, known);
  }

  lemma {:induction false} EntriesParse(g: Grammar, s: PState, i: nat, entries: seq<Entry>,
                                        done: seq<(NodeId, NodeId)>, first: Option<Span>, lastEnd: nat,
                                        entryCol: Option<nat>, column: nat, stop: nat, env: Env,
                                        values: seq<(Value, Value)>, env': Env)
    requires Ready(g, s, env) && EntriesLaid(g.tokens, i, entries, column)
    requires entryCol == Some(column) || (entryCol.None? && entries != [])
    requires Next(g.tokens, s.pos, if entries == [] then stop else entries[0].key.at)
    requires entries != [] ==>
      Next(g.tokens, EntryEnd(entries[|entries| - 1]), stop) && EntryCloses(g.tokens, entries[|entries| - 1], stop)
    requires !(StartsKey(KindAt(g.tokens, stop)) && ColumnAt(g.tokens, stop) == column)
    requires EntriesMeaning(g.cfg, s.version, g.tokens, entries, env) == Some((values, env'))
    requires Plainly(g, s.document.nodes, done)
    ensures EntriesArrived(ParseBlockMapping(g, s, done, first, lastEnd, entryCol), done, stop, values, env')
    decreases entries
  {
    hide Knows, Steady, ParseBlockMapping, EntriesArrived, TriviaFrom, ParseBlockKey, ParseBlockEntryValue, Meaning,
      EntryCloses, Plainly, MK.IsMergeKey, KeyLaid, EntriesMeaning, EntriesLaid, EntryLaid, KeyMeaning, OptionMeaning;
    if entries == [] {
      NoEntriesMean(g.cfg, s.version, g.tokens, env);
      EntriesEnd(g, s, done, first, lastEnd, column, stop, env);
    } else {
      var e, r := entries[0], ParseBlockMapping(g, s, done, first, lastEnd, entryCol);
      var next := if |entries| > 1 then entries[1].key.at else stop;
      var k, keyed, v, known, rest := FirstMeans(g.cfg, s.version, g.tokens, entries, env, values, env');
      EntryNext(g.tokens, i, entries, column, stop);
      var token := g.tokens[e.key.at].span;
      var t, key, w, value := EntryTaken(g, s, e, next, done, first, lastEnd, entryCol, env, k, keyed, v, known);
      EntriesParse(g, w, EntryEnd(e), entries[1..], done + [(key, value)], if first.None? then Some(token) else first,
                   SpanEnd(w.document.nodes, value, SpanEnd(w.document.nodes, key, lastEnd)), Some(column), column,
                     stop, known, rest, env');
      EntriesJoin(t, w, r, done, key, value, k, v, rest, stop, env');
    }
  }

  /** One round of the loop over keys: an entry is read and the loop goes on behind it. */
  lemma {:induction false} EntryTaken(g: Grammar, s: PState, e: Entry, next: nat, done: seq<(NodeId, NodeId)>,
                                      first: Option<Span>, lastEnd: nat, entryCol: Option<nat>, env: Env, k: Value,
                                      keyed: Env, v: Value, known: Env)
    returns (t: PState, key: NodeId, w: PState, value: NodeId)
    requires Ready(g, s, env) && Next(g.tokens, s.pos, e.key.at) && StartsKey(g.tokens[e.key.at].kind)
    requires KeyLaid(g.tokens, e.key, e.colon) && KindAt(g.tokens, e.colon).Colon?
    requires EntryLaid(g.tokens, e) && Next(g.tokens, EntryEnd(e), next) && EntryCloses(g.tokens, e, next)
    requires KeyMeaning(g.cfg, s.version, g.tokens, e.key, env) == Some((k, keyed))
    requires OptionMeaning(g.cfg, s.version, g.tokens, e.value, keyed) == Some((v, known))
    requires entryCol.None? || entryCol == Some(g.tokens[e.key.at].span.column)
    requires Plainly(g, s.document.nodes, done)
    ensures Ready(g, w, known) && Next(g.tokens, w.pos, next) && w.version == s.version
    ensures Plainly(g, w.document.nodes, done + [(key, value)])
    ensures key < |t.document.nodes| && FromNode(t.document.nodes, key) == k
    ensures value < |w.document.nodes| && FromNode(w.document.nodes, value) == v
    ensures t.document.nodes <= w.document.nodes
    ensures var token := g.tokens[e.key.at].span;
      ParseBlockMapping(g, s, done, first, lastEnd, entryCol)
        == ParseBlockMapping(g, w, done + [(key, value)], if first.None? then Some(token) else first,
                             SpanEnd(w.document.nodes, value, SpanEnd(w.document.nodes, key, lastEnd)),
                             Some(token.column))
    decreases e, 2
  {
    hide Knows, Steady, ParseBlockMapping, TriviaFrom, ParseBlockKey, ParseBlockEntryValue, Meaning, EntryCloses,
      Plainly, MK.IsMergeKey, KeyLaid, EntryLaid, KeyMeaning, OptionMeaning;
    SkipToNext(g.tokens, s.pos, e.key.at);
    var u := SkipTrivia(g, s);
    EntryParses(g, u, e, next, env, k, keyed, v, known);
    var (t', key') := ParseBlockKey(g, u).value;
    var (w', value') := ParseBlockEntryValue(g, t', g.tokens[e.key.at].span).value;
    t, key, w, value := t', key', w', value';
    EntryUnfolds(g, s, done, first, lastEnd, entryCol, e.key.at);
    MorePlainly(g, s.document.nodes, t.document.nodes, w.document.nodes, done, key, value);
  }

  lemma NoEntriesMean(cfg: Config, version: YamlVersion, tokens: seq<Token>, env: Env)
    ensures EntriesMeaning(cfg, version, tokens, [], env) == Some(([], env))
  {
  }

  lemma FirstMeans(cfg: Config, version: YamlVersion, tokens: seq<Token>, entries: seq<Entry>, env: Env,
                   values: seq<(Value, Value)>, env': Env)
    returns (k: Value, keyed: Env, v: Value, known: Env, rest: seq<(Value, Value)>)
    requires entries != [] && EntriesMeaning(cfg, version, tokens, entries, env) == Some((values, env'))
    ensures KeyMeaning(cfg, version, tokens, entries[0].key, env) == Some((k, keyed))
    ensures OptionMeaning(cfg, version, tokens, entries[0].value, keyed) == Some((v, known))
    ensures EntriesMeaning(cfg, version, tokens, entries[1..], known) == Some((rest, env'))
    ensures values == [(k, v)] + rest
  {
    hide KeyMeaning, OptionMeaning;
    var (k', keyed') := KeyMeaning(cfg, version, tokens, entries[0].key, env).value;
    var (v', known') := OptionMeaning(cfg, version, tokens, entries[0].value, keyed').value;
    k, keyed, v, known := k', keyed', v', known';
    rest := EntriesMeaning(cfg, version, tokens, entries[1..], known).value.0;
  }

  /** Behind an entry comes the next key, or what follows the mapping. */
  lemma EntryNext(tokens: seq<Token>, i: nat, entries: seq<Entry>, column: nat, stop: nat)
    requires entries != [] && EntriesLaid(tokens, i, entries, column)
    requires Next(tokens, EntryEnd(entries[|entries| - 1]), stop) && EntryCloses(tokens, entries[|entries| - 1], stop)
    ensures var e, next := entries[0], if |entries| > 1 then entries[1].key.at else stop;
      && Next(tokens, EntryEnd(e), next) && EntryCloses(tokens, e, next)
      && e.key.at < |tokens| && StartsKey(tokens[e.key.at].kind) && ColumnAt(tokens, e.key.at) == column
      && KeyLaid(tokens, e.key, e.colon) && KindAt(tokens, e.colon).Colon? && EntryLaid(tokens, e)
      && EntriesLaid(tokens, EntryEnd(e), entries[1..], column)
    ensures var rest := entries[1..];
      rest != [] ==>
        && rest[0] == entries[1]
        && Next(tokens, EntryEnd(rest[|rest| - 1]), stop) && EntryCloses(tokens, rest[|rest| - 1], stop)
  {
    hide EntryCloses, EntryLaid;
  }

  lemma EntriesEnd(g: Grammar, s: PState, done: seq<(NodeId, NodeId)>, first: Option<Span>, lastEnd: nat, column: nat,
                   stop: nat, env: Env)
    requires Ready(g, s, env) && Next(g.tokens, s.pos, stop) && Plainly(g, s.document.nodes, done)
    requires !(StartsKey(KindAt(g.tokens, stop)) && ColumnAt(g.tokens, stop) == column)
    ensures EntriesArrived(ParseBlockMapping(g, s, done, first, lastEnd, Some(column)), done, stop, [], env)
  {
    hide TriviaFrom, Knows, Steady, FinishMapping, EntriesArrived;
    SkipToNext(g.tokens, s.pos, stop);
    FinishArrives(g, SkipTrivia(g, s), done, BlockSpan(first, lastEnd), env);
  }

  lemma EntryUnfolds(g: Grammar, s: PState, done: seq<(NodeId, NodeId)>, first: Option<Span>, lastEnd: nat,
                     entryCol: Option<nat>, at: nat)
    requires s.pos <= |g.tokens| && Next(g.tokens, s.pos, at) && StartsKey(g.tokens[at].kind)
    requires entryCol.None? || entryCol == Some(g.tokens[at].span.column)
    requires SkipTrivia(g, s).pos == at && ParseBlockKey(g, SkipTrivia(g, s)).Ok?
    ensures var token := g.tokens[at].span;
      var (t, key) := ParseBlockKey(g, SkipTrivia(g, s)).value;
      var value := ParseBlockEntryValue(g, t, token);
      value.Ok? ==>
        ParseBlockMapping(g, s, done, first, lastEnd, entryCol) ==
          ParseBlockMapping(g, value.value.0, done + [(key, value.value.1)], if first.None? then Some(token) else first,
                            SpanEnd(value.value.0.document.nodes, value.value.1,
                                    SpanEnd(value.value.0.document.nodes, key, lastEnd)), Some(token.column))
  {
    hide TriviaFrom, ParseBlockKey, ParseBlockEntryValue, FinishMapping;
  }

  /** A key and its value, from the key's token on. */
  lemma {:induction false} EntryParses(g: Grammar, s: PState, e: Entry, next: nat, env: Env, k: Value, keyed: Env,
                                       v: Value, env': Env)
    requires Ready(g, s, env) && s.pos == e.key.at < |g.tokens| && StartsKey(g.tokens[e.key.at].kind)
    requires KeyLaid(g.tokens, e.key, e.colon) && KindAt(g.tokens, e.colon).Colon?
    requires EntryLaid(g.tokens, e) && Next(g.tokens, EntryEnd(e), next) && EntryCloses(g.tokens, e, next)
    requires KeyMeaning(g.cfg, s.version, g.tokens, e.key, env) == Some((k, keyed))
    requires OptionMeaning(g.cfg, s.version, g.tokens, e.value, keyed) == Some((v, env'))
    ensures KeyAt(g, s.pos, None)
    ensures var key := ParseBlockKey(g, s);
      && Arrived(key, KeyEnd(e.key), e.colon, k, keyed) && key.Ok?
      && (g.cfg.options.mergeKeys ==> !MK.IsMergeKey(key.value.0.document.nodes, key.value.1))
      && Arrived(ParseBlockEntryValue(g, key.value.0, g.tokens[e.key.at].span), EntryEnd(e), next, v, env')
    decreases e, 1
  {
    hide Knows, Steady, ParseBlockKey, ParseBlockEntryValue, Meaning, EntryCloses, EntryLaid, KeyLaid, KeyMeaning,
      OptionMeaning, MK.IsMergeKey;
    assert e.key < e;
    KeyParses(g, s, e.key, e.colon, env, k, keyed);
    var t := ParseBlockKey(g, s).value.0;
    EntryValueParses(g, t, e, next, keyed, v, env');
  }

  lemma {:induction false} KeyParses(g: Grammar, s: PState, key: Key, colon: nat, env: Env, k: Value, env': Env)
    requires Ready(g, s, env) && s.pos == key.at < |g.tokens| && KeyLaid(g.tokens, key, colon)
    requires KeyMeaning(g.cfg, s.version, g.tokens, key, env) == Some((k, env'))
    ensures KeyAt(g, s.pos, None)
    ensures var r := ParseBlockKey(g, s);
      && Arrived(r, KeyEnd(key), colon, k, env') && r.Ok? && Next(g.tokens, r.value.0.pos, colon)
      && (g.cfg.options.mergeKeys ==> !MK.IsMergeKey(r.value.0.document.nodes, r.value.1))
    decreases key
  {
    hide Knows, Steady, ParseValue, Meaning, Closes, Laid, TriviaFrom;
    match key
    case OneScalar(at) => OneScalarParses(g, s, colon, env, k);
    case Asked(at, value) =>
      var next := Advance(s);
      ValueSkips(g, next);
      LaidStarts(g.tokens, next.pos, value);
      assert value.core < key;
      LayoutParses(g, next, value, colon, env, k, env');
  }

  lemma OneScalarParses(g: Grammar, s: PState, colon: nat, env: Env, k: Value)
    requires Ready(g, s, env) && s.pos < |g.tokens| && g.tokens[s.pos].kind.Scalar? && Next(g.tokens, s.pos + 1, colon)
    requires KeyMeaning(g.cfg, s.version, g.tokens, OneScalar(s.pos), env) == Some((k, env))
    ensures var r := ParseBlockKey(g, s);
      && Arrived(r, s.pos + 1, colon, k, env) && r.Ok? && r.value.0.pos == s.pos + 1
      && (g.cfg.options.mergeKeys ==> !MK.IsMergeKey(r.value.0.document.nodes, r.value.1))
  {
    hide Knows;
    var token := g.tokens[s.pos];
    ScalarResolves(g, s, s.pos);
    var value := ResolveScalarValue(g, s, token.kind.raw, token.kind.style, token.kind.tag).value;
    hide Steady, ResolveScalarValue;
    var kind := NodeKind.Scalar(ScalarData(value, token.kind.style, token.kind.raw, token.kind.tag));
    AddedReads(Advance(s), kind, token.span, [], env);
    var t := AddNode(Advance(s), kind, token.span, []).0;
    KnowsWider(t.anchors, t.document.nodes, env, |t.document.nodes| - 1, |t.document.nodes|);
  }

  /** Behind the key: the colon, and the value under the key or nothing. */
  lemma {:induction false} EntryValueParses(g: Grammar, s: PState, e: Entry, next: nat, env: Env, v: Value, env': Env)
    requires Ready(g, s, env) && Next(g.tokens, s.pos, e.colon) && KindAt(g.tokens, e.colon).Colon?
      && e.key.at < |g.tokens|
    requires EntryLaid(g.tokens, e) && Next(g.tokens, EntryEnd(e), next) && EntryCloses(g.tokens, e, next)
    requires OptionMeaning(g.cfg, s.version, g.tokens, e.value, env) == Some((v, env'))
    ensures Arrived(ParseBlockEntryValue(g, s, g.tokens[e.key.at].span), EntryEnd(e), next, v, env')
    decreases e, 0
  {
    hide Knows, Steady, ParseValue, Arrived, Meaning, Closes, Laid, TriviaFrom;
    SkipToNext(g.tokens, s.pos, e.colon);
    var u := Advance(SkipTrivia(g, s));
    if e.value.Some? {
      LaidStarts(g.tokens, u.pos, e.value.value);
      SkipToNext(g.tokens, u.pos, Start(e.value.value));
      ValueSkips(g, u);
      assert e.value.value.core < e;
      LayoutParses(g, u, e.value.value, next, env, v, env');
    } else {
      SkipToNext(g.tokens, u.pos, next);
      NullParses(g, SkipTrivia(g, u), g.tokens[e.colon].span, EntryEnd(e), next, env);
    }
  }

  // ----- Flow sequences

  lemma {:induction false} BracketsParse(g: Grammar, s: PState, layout: Layout, stop: nat, env: Env, bare: Value,
                                         known: Env)
    requires Ready(g, s, env) && layout.props == [] && layout.core.Brackets?
    requires CoreLaid(g.tokens, s.pos, layout.core) && Next(g.tokens, End(layout), stop)
    requires CoreMeaning(g.cfg, s.version, g.tokens, layout.core, env) == Some((bare, known))
    ensures CoreArrived(g.tokens, layout.core, ParseValue(g, s), End(layout), stop, bare, known)
    decreases layout.core, 0
  {
    hide Knows, Steady, ParseFlowSequence, ElementsMeaning, ElementsLaid, ItemsArrived, CoreArrived, TriviaFrom;
    var core, span := layout.core, g.tokens[layout.core.open].span;
    SkipToNext(g.tokens, s.pos, core.open);
    ElementsStart(g.tokens, core.open + 1, core.elements, core.close);
    var start := ElementStart(core.elements, core.close);
    SkipToNext(g.tokens, core.open + 1, start);
    var u := SkipTrivia(g, Advance(SkipTrivia(g, s)));
    assert ParseValue(g, s) == ParseFlowSequence(g, u, [], span, span.end);
    hide ParseValue;
    var values := ElementsMeaning(g.cfg, s.version, g.tokens, core.elements, env).value.0;
    ElementsParse(g, u, core.open + 1, core.elements, [], span, span.end, core.close, env, values, known);
    AllItems(g.tokens, core, ParseValue(g, s), End(layout), core.close + 1, values, known);
    CoreArrivedLater(g.tokens, core, ParseValue(g, s), End(layout), core.close + 1, stop, bare, known);
  }

  lemma CoreArrivedLater(tokens: seq<Token>, core: Core, r: Parsed, from: nat, stop: nat, stop': nat, bare: Value,
                         env: Env)
    requires CoreArrived(tokens, core, r, from, stop, bare, env) && stop <= stop'
    ensures CoreArrived(tokens, core, r, from, stop', bare, env)
  {
    hide Knows, FromKind, Fits;
  }

  function ElementStart(elements: seq<Element>, close: nat): nat {
    if elements == [] then close else Start(elements[0].value)
  }

  lemma ElementsStart(tokens: seq<Token>, i: nat, elements: seq<Element>, close: nat)
    requires ElementsLaid(tokens, i, elements, close)
    ensures Next(tokens, i, ElementStart(elements, close))
  {
    if elements != [] {
      LaidStarts(tokens, i, elements[0].value);
    }
  }

  lemma {:induction false} ElementsParse(g: Grammar, s: PState, i: nat, elements: seq<Element>, done: seq<NodeId>,
                                         open: Span, end: nat, close: nat, env: Env, values: seq<Value>, env': Env)
    requires Ready(g, s, env) && ElementsLaid(g.tokens, i, elements, close) && KindAt(g.tokens, close).RightBracket?
    requires i <= s.pos == ElementStart(elements, close)
    requires ElementsMeaning(g.cfg, s.version, g.tokens, elements, env) == Some((values, env'))
    requires forall id | id in done :: id < |s.document.nodes|
    ensures ItemsArrived(ParseFlowSequence(g, s, done, open, end), done, close + 1, values, env')
    decreases elements
  {
    hide Knows, Steady, ParseFlowSequence, ItemsArrived, TriviaFrom, Meaning, Closes, Laid, CommasLaid, ParseValue;
    if elements == [] {
      BracketCloses(g, s, done, open, end, close, env);
    } else {
      var e, r := elements[0], ParseFlowSequence(g, s, done, open, end);
      var (v, known) := Meaning(g.cfg, s.version, g.tokens, e.value, env).value;
      var rest := ElementsMeaning(g.cfg, s.version, g.tokens, elements[1..], known).value.0;
      var after, behind := FirstComma(e.commas, close), CommasEnd(End(e.value), e.commas);
      ElementsStart(g.tokens, behind, elements[1..], close);
      CommaNext(g.tokens, End(e.value), e.commas, ElementStart(elements[1..], close), close);
      hide ElementsMeaning, ElementsLaid;
      LaidStarts(g.tokens, i, e.value);
      LaidFrom(g.tokens, i, s.pos, e.value);
      assert e.value.core < e;
      LayoutParses(g, s, e.value, after, env, v, known);
      var (t, id) := ParseValue(g, s).value;
      SkipToNext(g.tokens, t.pos, after);
      var u := SkipTrivia(g, t);
      ElementUnfolds(g, s, done, open, end);
      var end' := SpanEnd(t.document.nodes, id, end);
      var w := SequenceCommas(g, u, End(e.value), e.commas, ElementStart(elements[1..], close), done + [id], open,
                              end');
      ElementsParse(g, w, behind, elements[1..], done + [id], open, end', close, known, rest, env');
      ItemsJoin(t, r, done, id, v, rest, close + 1, env');
    }
  }

  /** Behind a value comes its first comma, or what comes when there is none. */
  lemma CommaNext(tokens: seq<Token>, i: nat, commas: seq<nat>, at: nat, close: nat)
    requires CommasLaid(tokens, i, commas) && Next(tokens, CommasEnd(i, commas), at) && (commas == [] ==> at == close)
    ensures Next(tokens, i, FirstComma(commas, close))
    ensures commas != [] ==> KindAt(tokens, commas[0]).Comma?
  {
  }

  lemma BracketCloses(g: Grammar, s: PState, done: seq<NodeId>, open: Span, end: nat, close: nat, env: Env)
    requires Ready(g, s, env) && s.pos == close < |g.tokens| && g.tokens[close].kind.RightBracket?
    ensures ItemsArrived(ParseFlowSequence(g, s, done, open, end), done, close + 1, [], env)
  {
    hide Knows, FromNode;
    var u := Advance(s);
    AddedReads(u.(pending := []), NodeKind.Sequence(done), FlowSpan(open, g.tokens[close].span.end), u.pending, env);
    assert done[|done|..] == [];
  }

  lemma ElementUnfolds(g: Grammar, s: PState, done: seq<NodeId>, open: Span, end: nat)
    requires s.pos < |g.tokens| && !g.tokens[s.pos].kind.RightBracket? && !g.tokens[s.pos].kind.Comma?
    requires ParseValue(g, s).Ok?
    requires var u := SkipTrivia(g, ParseValue(g, s).value.0);
      u.pos < |g.tokens| ==> g.tokens[u.pos].kind.Comma? || g.tokens[u.pos].kind.RightBracket?
    ensures var (t, id) := ParseValue(g, s).value;
      ParseFlowSequence(g, s, done, open, end) ==
        ParseFlowSequence(g, SkipTrivia(g, t), done + [id], open, SpanEnd(t.document.nodes, id, end))
  {
    hide TriviaFrom, ParseValue;
  }

  /** Commas are passed over, however many there are. */
  lemma {:induction false} SequenceCommas(g: Grammar, s: PState, i: nat, commas: seq<nat>, at: nat, done: seq<NodeId>,
                                          open: Span, end: nat) returns (t: PState)
    requires s.pos <= |g.tokens| && CommasLaid(g.tokens, i, commas) && Next(g.tokens, CommasEnd(i, commas), at)
    requires s.pos == FirstComma(commas, at)
    ensures t == s.(pos := at, pending := t.pending)
    ensures ParseFlowSequence(g, s, done, open, end) == ParseFlowSequence(g, t, done, open, end)
    decreases |commas|
  {
    hide TriviaFrom;
    t := s;
    if commas != [] {
      var next := FirstComma(commas[1..], at);
      CommaNext(g.tokens, commas[0] + 1, commas[1..], at, at);
      SkipToNext(g.tokens, commas[0] + 1, next);
      t := SequenceCommas(g, SkipTrivia(g, Advance(s)), commas[0] + 1, commas[1..], at, done, open, end);
    }
  }

  // ----- Flow mappings

  lemma {:induction false} BracesParse(g: Grammar, s: PState, layout: Layout, stop: nat, env: Env, bare: Value,
                                       known: Env)
    requires Ready(g, s, env) && layout.props == [] && layout.core.Braces?
    requires CoreLaid(g.tokens, s.pos, layout.core) && Next(g.tokens, End(layout), stop)
    requires CoreMeaning(g.cfg, s.version, g.tokens, layout.core, env) == Some((bare, known))
    ensures CoreArrived(g.tokens, layout.core, ParseValue(g, s), End(layout), stop, bare, known)
    decreases layout.core, 0
  {
    hide Knows, Steady, ParseFlowMapping, PairsMeaning, PairsLaid, EntriesArrived, CoreArrived, TriviaFrom;
    var core, span := layout.core, g.tokens[layout.core.open].span;
    SkipToNext(g.tokens, s.pos, core.open);
    PairsStart(g.tokens, core.open + 1, core.pairs, core.close);
    var start := PairStart(core.pairs, core.close);
    SkipToNext(g.tokens, core.open + 1, start);
    var u := SkipTrivia(g, Advance(SkipTrivia(g, s)));
    assert ParseValue(g, s) == ParseFlowMapping(g, u, [], span, span.end);
    hide ParseValue;
    var values := PairsMeaning(g.cfg, s.version, g.tokens, core.pairs, env).value.0;
    PairsParse(g, u, core.open + 1, core.pairs, [], span, span.end, core.close, env, values, known);
    AllEntries(g.tokens, core, ParseValue(g, s), End(layout), core.close + 1, values, known);
    CoreArrivedLater(g.tokens, core, ParseValue(g, s), End(layout), core.close + 1, stop, bare, known);
  }

  function PairStart(pairs: seq<Pair>, close: nat): nat {
    if pairs == [] then close else Start(pairs[0].key)
  }

  lemma PairsStart(tokens: seq<Token>, i: nat, pairs: seq<Pair>, close: nat)
    requires PairsLaid(tokens, i, pairs, close)
    ensures Next(tokens, i, PairStart(pairs, close))
  {
    if pairs != [] {
      LaidStarts(tokens, i, pairs[0].key);
    }
  }

  lemma {:induction false} PairsParse(g: Grammar, s: PState, i: nat, pairs: seq<Pair>, done: seq<(NodeId, NodeId)>,
                                      open: Span, end: nat, close: nat, env: Env, values: seq<(Value, Value)>,
                                      env': Env)
    requires Ready(g, s, env) && PairsLaid(g.tokens, i, pairs, close) && KindAt(g.tokens, close).RightBrace?
    requires i <= s.pos == PairStart(pairs, close)
    requires PairsMeaning(g.cfg, s.version, g.tokens, pairs, env) == Some((values, env'))
    requires Plainly(g, s.document.nodes, done)
    ensures EntriesArrived(ParseFlowMapping(g, s, done, open, end), done, close + 1, values, env')
    decreases pairs
  {
    hide Knows, Steady, ParseFlowMapping, EntriesArrived, TriviaFrom, Meaning, Closes, Laid, CommasLaid, ParseFlowKey,
      ParseFlowEntryValue, Plainly, MK.IsMergeKey, Mergeable, PairsMeaning, PairsLaid, OptionMeaning;
    if pairs == [] {
      NoPairs(g.cfg, s.version, g.tokens, i, close, env);
      BraceCloses(g, s, done, open, end, close, env);
    } else {
      var p, r := pairs[0], ParseFlowMapping(g, s, done, open, end);
      var k, keyed, v, known, rest := FirstPairMeans(g.cfg, s.version, g.tokens, pairs, env, values, env');
      var after, behind := FirstComma(p.commas, close), CommasEnd(PairEnd(p), p.commas);
      PairNext(g.tokens, i, pairs, close);
      LaidStarts(g.tokens, i, p.key);
      LaidFrom(g.tokens, i, s.pos, p.key);
      PairParses(g, s, p, after, env, k, keyed, v, known);
      var (t, key) := ParseFlowKey(g, s, false).value;
      var (w, value) := ParseFlowEntryValue(g, t).value;
      SkipToNext(g.tokens, w.pos, after);
      PairUnfolds(g, s, done, open, end);
      MorePlainly(g, s.document.nodes, t.document.nodes, w.document.nodes, done, key, value);
      var end' := SpanEnd(w.document.nodes, value, SpanEnd(w.document.nodes, key, end));
      var u := MappingCommas(g, SkipTrivia(g, w), PairEnd(p), p.commas, PairStart(pairs[1..], close),
                             done + [(key, value)],
                             open, end');
      PairsParse(g, u, behind, pairs[1..], done + [(key, value)], open, end', close, known, rest, env');
      EntriesJoin(t, w, r, done, key, value, k, v, rest, close + 1, env');
    }
  }

  lemma NoPairs(cfg: Config, version: YamlVersion, tokens: seq<Token>, i: nat, close: nat, env: Env)
    ensures PairsMeaning(cfg, version, tokens, [], env) == Some(([], env))
    ensures PairsLaid(tokens, i, [], close) ==> close < |tokens|
  {
  }

  lemma FirstPairMeans(cfg: Config, version: YamlVersion, tokens: seq<Token>, pairs: seq<Pair>, env: Env,
                       values: seq<(Value, Value)>, env': Env)
    returns (k: Value, keyed: Env, v: Value, known: Env, rest: seq<(Value, Value)>)
    requires pairs != [] && PairsMeaning(cfg, version, tokens, pairs, env) == Some((values, env'))
    ensures Meaning(cfg, version, tokens, pairs[0].key, env) == Some((k, keyed))
    ensures !Mergeable(cfg, tokens, pairs[0].key)
    ensures OptionMeaning(cfg, version, tokens, pairs[0].value, keyed) == Some((v, known))
    ensures PairsMeaning(cfg, version, tokens, pairs[1..], known) == Some((rest, env'))
    ensures values == [(k, v)] + rest
  {
    hide Meaning, OptionMeaning;
    var (k', keyed') := Meaning(cfg, version, tokens, pairs[0].key, env).value;
    var (v', known') := OptionMeaning(cfg, version, tokens, pairs[0].value, keyed').value;
    k, keyed, v, known := k', keyed', v', known';
    rest := PairsMeaning(cfg, version, tokens, pairs[1..], known).value.0;
  }

  /** Behind a pair come its commas, and then the next pair or the closing brace. */
  lemma PairNext(tokens: seq<Token>, i: nat, pairs: seq<Pair>, close: nat)
    requires pairs != [] && PairsLaid(tokens, i, pairs, close) && KindAt(tokens, close).RightBrace?
    ensures var p := pairs[0];
      var after, behind := FirstComma(p.commas, close), CommasEnd(PairEnd(p), p.commas);
      && Laid(tokens, i, p.key) && p.key.core.Atom? && KindAt(tokens, p.key.core.at).Scalar?
      && Next(tokens, End(p.key), p.colon) && KindAt(tokens, p.colon).Colon?
      && (p.value.Some? ==> Laid(tokens, p.colon + 1, p.value.value) && Closes(tokens, p.value.value, after))
      && Next(tokens, PairEnd(p), after) && (tokens[after].kind.Comma? || tokens[after].kind.RightBrace?)
      && CommasLaid(tokens, PairEnd(p), p.commas) && Next(tokens, behind, PairStart(pairs[1..], close))
      && PairsLaid(tokens, behind, pairs[1..], close) && (p.commas == [] ==> pairs[1..] == [])
  {
    hide Laid, Closes, CommasLaid;
    var p := pairs[0];
    PairsStart(tokens, CommasEnd(PairEnd(p), p.commas), pairs[1..], close);
    CommaNext(tokens, PairEnd(p), p.commas, PairStart(pairs[1..], close), close);
  }

  lemma {:induction false} PairParses(g: Grammar, s: PState, p: Pair, next: nat, env: Env, k: Value, keyed: Env,
                                      v: Value, env': Env)
    requires Ready(g, s, env) && Laid(g.tokens, s.pos, p.key) && Next(g.tokens, End(p.key), p.colon)
    requires p.key.core.Atom? && KindAt(g.tokens, p.key.core.at).Scalar? && !Mergeable(g.cfg, g.tokens, p.key)
    requires KindAt(g.tokens, p.colon).Colon?
    requires p.value.Some? ==> Laid(g.tokens, p.colon + 1, p.value.value) && Closes(g.tokens, p.value.value, next)
    requires Next(g.tokens, PairEnd(p), next) && (g.tokens[next].kind.Comma? || g.tokens[next].kind.RightBrace?)
    requires Meaning(g.cfg, s.version, g.tokens, p.key, env) == Some((k, keyed))
    requires OptionMeaning(g.cfg, s.version, g.tokens, p.value, keyed) == Some((v, env'))
    ensures var key := ParseFlowKey(g, s, false);
      && Arrived(key, End(p.key), p.colon, k, keyed) && key.Ok?
      && (g.cfg.options.mergeKeys ==> !MK.IsMergeKey(key.value.0.document.nodes, key.value.1))
      && Arrived(ParseFlowEntryValue(g, key.value.0), PairEnd(p), next, v, env')
    decreases p, 1
  {
    hide Knows, Steady, ParseFlowKey, ParseFlowEntryValue, Meaning, Closes, Laid, OptionMeaning, MK.IsMergeKey,
      Mergeable;
    FlowKeyParses(g, s, p.key, p.colon, env, k, keyed);
    PairValueParses(g, ParseFlowKey(g, s, false).value.0, p, next, keyed, v, env');
  }

  lemma BraceCloses(g: Grammar, s: PState, done: seq<(NodeId, NodeId)>, open: Span, end: nat, close: nat, env: Env)
    requires Ready(g, s, env) && s.pos == close < |g.tokens| && g.tokens[close].kind.RightBrace?
    requires Plainly(g, s.document.nodes, done)
    ensures EntriesArrived(ParseFlowMapping(g, s, done, open, end), done, close + 1, [], env)
  {
    hide Knows, Steady, FinishMapping, EntriesArrived, Plainly;
    FinishArrives(g, Advance(s), done, FlowSpan(open, g.tokens[close].span.end), env);
  }

  lemma PairUnfolds(g: Grammar, s: PState, done: seq<(NodeId, NodeId)>, open: Span, end: nat)
    requires s.pos < |g.tokens| && !g.tokens[s.pos].kind.RightBrace? && !g.tokens[s.pos].kind.Comma?
    requires ParseFlowKey(g, s, false).Ok? && ParseFlowEntryValue(g, ParseFlowKey(g, s, false).value.0).Ok?
    requires var u := SkipTrivia(g, ParseFlowEntryValue(g, ParseFlowKey(g, s, false).value.0).value.0);
      u.pos < |g.tokens| ==> g.tokens[u.pos].kind.Comma? || g.tokens[u.pos].kind.RightBrace?
    ensures var (t, key) := ParseFlowKey(g, s, false).value;
      var (w, value) := ParseFlowEntryValue(g, t).value;
      ParseFlowMapping(g, s, done, open, end) ==
        ParseFlowMapping(g, SkipTrivia(g, w), done + [(key, value)], open,
                         SpanEnd(w.document.nodes, value, SpanEnd(w.document.nodes, key, end)))
  {
    hide TriviaFrom, ParseFlowKey, ParseFlowEntryValue, FinishMapping;
  }

  lemma {:induction false} MappingCommas(g: Grammar, s: PState, i: nat, commas: seq<nat>, at: nat,
                                         done: seq<(NodeId, NodeId)>, open: Span, end: nat) returns (t: PState)
    requires s.pos <= |g.tokens| && CommasLaid(g.tokens, i, commas) && Next(g.tokens, CommasEnd(i, commas), at)
    requires s.pos == FirstComma(commas, at)
    ensures t == s.(pos := at, pending := t.pending)
    ensures ParseFlowMapping(g, s, done, open, end) == ParseFlowMapping(g, t, done, open, end)
    decreases |commas|
  {
    hide TriviaFrom;
    t := s;
    if commas != [] {
      var next := FirstComma(commas[1..], at);
      CommaNext(g.tokens, commas[0] + 1, commas[1..], at, at);
      SkipToNext(g.tokens, commas[0] + 1, next);
      t := MappingCommas(g, SkipTrivia(g, Advance(s)), commas[0] + 1, commas[1..], at, done, open, end);
    }
  }

  lemma {:induction false} PairValueParses(g: Grammar, s: PState, p: Pair, next: nat, env: Env, v: Value, env': Env)
    requires Ready(g, s, env) && Next(g.tokens, s.pos, p.colon) && KindAt(g.tokens, p.colon).Colon?
    requires p.value.Some? ==> Laid(g.tokens, p.colon + 1, p.value.value) && Closes(g.tokens, p.value.value, next)
    requires Next(g.tokens, PairEnd(p), next) && (g.tokens[next].kind.Comma? || g.tokens[next].kind.RightBrace?)
    requires OptionMeaning(g.cfg, s.version, g.tokens, p.value, env) == Some((v, env'))
    ensures Arrived(ParseFlowEntryValue(g, s), PairEnd(p), next, v, env')
    decreases p, 0
  {
    hide Knows, Steady, ParseValue, Arrived, Meaning, Closes, Laid, TriviaFrom;
    SkipToNext(g.tokens, s.pos, p.colon);
    var u := Advance(SkipTrivia(g, s));
    if p.value.Some? {
      LaidStarts(g.tokens, u.pos, p.value.value);
      SkipToNext(g.tokens, u.pos, Start(p.value.value));
      ValueSkips(g, u);
      assert p.value.value.core < p;
      LayoutParses(g, u, p.value.value, next, env, v, env');
    } else {
      SkipToNext(g.tokens, u.pos, next);
      NullParses(g, SkipTrivia(g, u), g.tokens[p.colon].span, PairEnd(p), next, env);
    }
  }

  // ----- Flow keys

  lemma FlowKeySkips(g: Grammar, s: PState, seen: bool)
    requires s.pos <= |g.tokens|
    ensures ParseFlowKey(g, SkipTrivia(g, s), seen) == ParseFlowKey(g, s, seen)
  {
    hide TriviaFrom, Declare, Retag, ResolveScalarValue, AddNode;
    SkipTriviaAgain(g, s);
  }

  lemma {:induction false} FlowKeyParses(g: Grammar, s: PState, key: Layout, colon: nat, env: Env, k: Value, env': Env)
    requires Ready(g, s, env) && Laid(g.tokens, s.pos, key) && Next(g.tokens, End(key), colon)
    requires key.core.Atom? && KindAt(g.tokens, key.core.at).Scalar? && !Mergeable(g.cfg, g.tokens, key)
    requires Meaning(g.cfg, s.version, g.tokens, key, env) == Some((k, env'))
    ensures var r := ParseFlowKey(g, s, false);
      && Arrived(r, End(key), colon, k, env') && r.Ok?
      && (g.cfg.options.mergeKeys ==> !MK.IsMergeKey(r.value.0.document.nodes, r.value.1))
  {
    hide Knows, Steady, Laid, ParseFlowKey, PropsArrived, Declared, OuterTag, Tagged, CoreMeaning;
    var (bare, known) := CoreMeaning(g.cfg, s.version, g.tokens, key.core, env).value;
    FlowPropsParse(g, s, key, false, env, bare, known, k, env');
    PropsDone(g.tokens, key, ParseFlowKey(g, s, false), End(key), End(key), bare, known, env', k);
  }

  lemma {:induction false} FlowPropsParse(g: Grammar, s: PState, key: Layout, seen: bool, env: Env, bare: Value,
                                          known: Env, v: Value, env': Env)
    requires Ready(g, s, env) && Laid(g.tokens, s.pos, key)
    requires key.core.Atom? && KindAt(g.tokens, key.core.at).Scalar?
    requires CoreMeaning(g.cfg, s.version, g.tokens, key.core, env) == Some((bare, known))
    requires Declared(g.tokens, key.props, v, known) == Some(env')
    ensures PropsArrived(g.tokens, key.core, ParseFlowKey(g, s, seen), End(key), End(key),
                         OuterTag(g.tokens, key.props),
                         bare, known, env')
    decreases |key.props|
  {
    hide Knows, CoreMeaning, PropsArrived, ParseFlowKey, TriviaFrom, Declare, Retag;
    if key.props == [] {
      BareKeyParses(g, s, key, seen, env, bare, known);
    } else {
      var at, inner := key.props[0], Layout(key.props[1..], key.core);
      SkipToNext(g.tokens, s.pos, at);
      var next, seen' := Advance(SkipTrivia(g, s)), seen || g.tokens[at].kind.Anchor?;
      FlowPropUnfolds(g, s, at, seen);
      DeclaredAdds(g.tokens, inner.props, v, known);
      var named := Declared(g.tokens, inner.props, v, known).value;
      FlowPropsParse(g, next, inner, seen', env, bare, known, v, named);
      PropArrives(g.tokens, key, ParseFlowKey(g, next, seen'), End(key), End(key), bare, known, named, v);
    }
  }

  lemma FlowPropUnfolds(g: Grammar, s: PState, at: nat, seen: bool)
    requires s.pos <= |g.tokens| && Next(g.tokens, s.pos, at) && g.keyAnchors.EveryAnchor?
    requires g.tokens[at].kind.Anchor? || g.tokens[at].kind.Tag?
    requires SkipTrivia(g, s).pos == at
    ensures var inner := ParseFlowKey(g, Advance(SkipTrivia(g, s)), seen || g.tokens[at].kind.Anchor?);
      ParseFlowKey(g, s, seen) ==
        if inner.Err? then inner
        else if g.tokens[at].kind.Anchor? then Declare(inner.value.0, inner.value.1, g.tokens[at].kind.name)
        else Ok(Retag(inner.value.0, inner.value.1, g.tokens[at].kind.name))
  {
    hide TriviaFrom, Declare, Retag, ResolveScalarValue, AddNode;
    FlowKeySkips(g, Advance(SkipTrivia(g, s)), seen || g.tokens[at].kind.Anchor?);
  }

  lemma BareKeyParses(g: Grammar, s: PState, key: Layout, seen: bool, env: Env, bare: Value, known: Env)
    requires Ready(g, s, env) && key.props == [] && key.core.Atom? && CoreLaid(g.tokens, s.pos, key.core)
    requires KindAt(g.tokens, key.core.at).Scalar?
    requires CoreMeaning(g.cfg, s.version, g.tokens, key.core, env) == Some((bare, known))
    ensures PropsArrived(g.tokens, key.core, ParseFlowKey(g, s, seen), End(key), End(key), None, bare, known, known)
  {
    hide Knows, TriviaFrom, PropsArrived;
    var token := g.tokens[key.core.at];
    SkipToNext(g.tokens, s.pos, key.core.at);
    var u := SkipTrivia(g, s);
    ScalarResolves(g, u, key.core.at);
    var value := ResolveScalarValue(g, u, token.kind.raw, token.kind.style, token.kind.tag).value;
    hide Steady, ResolveScalarValue;
    AddedReads(Advance(u), NodeKind.Scalar(ScalarData(value, token.kind.style, token.kind.raw, token.kind.tag)),
               token.span, [], env);
    CoreDone(g.tokens, key.core, ParseFlowKey(g, s, seen), End(key), End(key), bare, known);
  }
}
