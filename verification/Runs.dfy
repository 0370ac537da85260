/** Finite runs of the machine, and the shape in which a run simulates a parse. */
module Runs {
  import opened Prelude
  import opened Syntax
  import opened Arena
  import opened Events
  import opened Grammar
  import opened Machine
  import opened Flatten

  function Steps(g: Grammar, m: Machine, n: nat): (r: Stepped)
    requires m.pos <= |g.tokens|
    ensures Forward(g.tokens, m.pos, r)
    decreases n
  {
    if n == 0 then Ok(m) else
    var m' :- Step(g.cfg, g.tokens, m);
    Steps(g, m', n - 1)
  }

  function StepsFrom(g: Grammar, start: Stepped, n: nat): Stepped
    requires Forward(g.tokens, 0, start)
  {
    var m :- start;
    Steps(g, m, n)
  }

  lemma {:induction false} StepsAdd(g: Grammar, m: Machine, a: nat, b: nat)
    requires m.pos <= |g.tokens|
    ensures Steps(g, m, a + b) == StepsFrom(g, Steps(g, m, a), b)
    decreases a
  {
    hide Step;
    if a > 0 && Step(g.cfg, g.tokens, m).Ok? {
      StepsAdd(g, Step(g.cfg, g.tokens, m).value, a - 1, b);
    }
  }

  /** What one step of a running machine is, by the kind of its top frame. */
  lemma StepByKind(g: Grammar, m: Machine)
    requires m.pos <= |g.tokens| && !m.finished && m.frames != []
    ensures Steps(g, m, 1) == Step(g.cfg, g.tokens, m)
    ensures Top(m).kind.DocumentFrame? ==> Step(g.cfg, g.tokens, m) == StepDocument(g.cfg, g.tokens, m)
    ensures Top(m).kind.BlockMapping? ==> Step(g.cfg, g.tokens, m) == StepBlockMapping(g.cfg, g.tokens, m)
    ensures Top(m).kind.BlockSequence? ==> Step(g.cfg, g.tokens, m) == StepBlockSequence(g.cfg, g.tokens, m)
    ensures Top(m).kind.FlowMapping? ==> Step(g.cfg, g.tokens, m) == StepFlowMapping(g.cfg, g.tokens, m)
    ensures Top(m).kind.FlowSequence? ==> Step(g.cfg, g.tokens, m) == StepFlowSequence(g.cfg, g.tokens, m)
  {
    hide StepDocument, StepBlockMapping, StepBlockSequence, StepFlowMapping, StepFlowSequence;
  }

  /** The machine and the parser have read the same tokens' worth of anchors and directives. */
  ghost predicate Agree(s: PState, m: Machine) {
    m.anchors == s.anchors.Keys && m.version == s.version && m.pinned == s.pinned && !m.finished
  }

  /** `m` after reading as far as `s`, declaring what was pending and emitting `events`. */
  function Finish(m: Machine, s: PState, pending: seq<(string, Span)>, events: seq<Event<string>>): Stepped {
    var anchors :- Register(s.anchors.Keys, pending);
    Ok(m.(pos := s.pos, anchors := anchors, log := m.log + events))
  }

  /** Appending an anchor to the pending ones is declaring it first. */
  lemma {:induction false} RegisterLast(anchors: set<string>, pending: seq<(string, Span)>, name: string, span: Span)
    ensures Register(anchors, pending + [(name, span)])
         == if name in anchors then Err(InvalidAnchor) else Register(anchors + {name}, pending)
    decreases |pending|
  {
    var all := pending + [(name, span)];
    if pending == [] {
      assert all[1..] == [];
    } else {
      assert all[1..] == pending[1..] + [(name, span)];
      RegisterLast(anchors + {pending[0].0}, pending[1..], name, span);
      assert anchors + {pending[0].0} + {name} == anchors + {name} + {pending[0].0};
    }
  }

  /** Once an anchor is known its meaning never changes. */
  lemma ReferGrows(before: map<string, NodeId>, after: map<string, NodeId>, events: seq<Event<string>>)
    requires Extends(before, after) && Known(before, events)
    ensures Known(after, events) && ReferAll(after, events) == ReferAll(before, events)
  {
  }

  /** `events` read against the anchors of `s` are exactly `expected`. */
  ghost predicate Denotes(s: PState, events: seq<Event<string>>, expected: seq<TreeEvent>) {
    Known(s.anchors, events) && ReferAll(s.anchors, events) == expected
  }

  lemma DenotesConcat(t: PState, a: seq<Event<string>>, x: seq<TreeEvent>, s: PState, b: seq<Event<string>>,
                      y: seq<TreeEvent>)
    requires Denotes(t, a, x) && Denotes(s, b, y) && Extends(t.anchors, s.anchors)
    ensures Denotes(s, a + b, x + y)
  {
    ReferGrows(t.anchors, s.anchors, a);
    ReferConcat(s.anchors, a, b);
  }

  /**
   From `start`, `k` steps do what the parse of one value did: fail alike, or emit `events` for the
   parsed node, with `anchor` and `tag` read before it taking precedence over its own.
   */
  ghost predicate Simulates(g: Grammar, start: Stepped, k: nat, events: seq<Event<string>>, base: Machine,
                            pending: seq<(string, Span)>, parsed: Parsed, anchor: Option<string>, tag: Option<string>)
    requires Forward(g.tokens, 0, start)
  {
    match parsed
    case Err(e) => StepsFrom(g, start, k) == Err(e)
    case Ok((s, id)) =>
      && StepsFrom(g, start, k) == Finish(base, s, pending, events)
      && Denotes(s, events, Decorate(NodeEvents(s.document.nodes, id), anchor, tag))
  }

  /** What the parser's loop added to the children it started from, and the closing event. */
  ghost predicate ClosesSequence(s: PState, id: NodeId, items: seq<NodeId>, events: seq<Event<string>>)
    requires id < |s.document.nodes|
  {
    var node := s.document.nodes[id];
    && node.kind.Sequence? && node.anchor.None? && node.tag.None? && node.span.Some?
    && items <= node.kind.items
    && Denotes(s, events, ItemEvents(s.document.nodes, node.kind.items[|items|..], id) + [SequenceEnd])
  }

  ghost predicate ClosesMapping(s: PState, id: NodeId, entries: seq<(NodeId, NodeId)>, events: seq<Event<string>>)
    requires id < |s.document.nodes|
  {
    var node := s.document.nodes[id];
    && node.kind.Mapping? && node.anchor.None? && node.tag.None? && node.span.Some?
    && entries <= node.kind.entries
    && Denotes(s, events, EntryEvents(s.document.nodes, node.kind.entries[|entries|..], id) + [MappingEnd])
  }

  /** From `m`, whose top frame is the sequence being read, `k` steps do what the parser's loop did. */
  ghost predicate EndsSequence(g: Grammar, m: Machine, k: nat, events: seq<Event<string>>, items: seq<NodeId>,
                               parsed: Parsed)
    requires m.pos <= |g.tokens| && m.frames != []
  {
    match parsed
    case Err(e) => Steps(g, m, k) == Err(e)
    case Ok((s, id)) =>
      && id < |s.document.nodes|
      && Steps(g, m, k) == Finish(PopFrame(m), s, Top(m).pending, events)
      && ClosesSequence(s, id, items, events)
  }

  ghost predicate EndsMapping(g: Grammar, m: Machine, k: nat, events: seq<Event<string>>,
                              entries: seq<(NodeId, NodeId)>, parsed: Parsed)
    requires m.pos <= |g.tokens| && m.frames != []
  {
    match parsed
    case Err(e) => Steps(g, m, k) == Err(e)
    case Ok((s, id)) =>
      && id < |s.document.nodes|
      && Steps(g, m, k) == Finish(PopFrame(m), s, Top(m).pending, events)
      && ClosesMapping(s, id, entries, events)
  }

  /** `m` after one child: its frame is still on top, only its own fields may differ. */
  ghost predicate SameFrame(before: Machine, after: Machine, t: PState, events: seq<Event<string>>) {
    && before.frames != [] && after.frames != []
    && Top(after).pending == Top(before).pending && Top(after).kind == Top(before).kind
    && PopFrame(after) == PopFrame(before).(pos := after.pos, anchors := t.anchors.Keys, log := before.log + events)
  }

  /** Running on from a machine already reached. */
  lemma RunOn(g: Grammar, m: Machine, a: nat, m': Machine, b: nat)
    requires m.pos <= |g.tokens| && Steps(g, m, a) == Ok(m')
    ensures Steps(g, m, a + b) == Steps(g, m', b)
  {
    hide Step;
    StepsAdd(g, m, a, b);
  }

  /** Running from the outcome of the first step. */
  lemma RunFirst(g: Grammar, m: Machine, b: nat)
    requires m.pos <= |g.tokens|
    ensures Steps(g, m, 1 + b) == StepsFrom(g, Step(g.cfg, g.tokens, m), b)
  {
    hide Step;
  }

  /** Scalar tokens come out of the lexer untagged. */
  ghost predicate Untagged(tokens: seq<Token>) {
    forall i | 0 <= i < |tokens| :: tokens[i].kind.Scalar? ==> tokens[i].kind.tag.None?
  }

  /** A grammar the machine follows: no merge keys, and flow keys keep their first anchor. */
  ghost predicate Followed(g: Grammar) {
    !g.cfg.options.mergeKeys && g.keyAnchors.FirstAnchor? && Untagged(g.tokens)
  }
}
