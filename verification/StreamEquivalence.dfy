/** The machine follows the recursive parser over whole streams. */
module StreamEquivalence {
  import opened Prelude
  import opened Syntax
  import opened Arena
  import opened Events
  import opened Grammar
  import opened Machine
  import opened Flatten
  import opened Runs
  import opened Equivalence

  // ----- Directives

  lemma {:induction false} SimDirectives(g: Grammar, s: PState, m: Machine)
    requires Agree(s, m) && m.pos == s.pos <= |g.tokens|
    ensures var read := ConsumeDirectives(g, s);
      ConsumeDirectivesM(g.cfg, g.tokens, m) ==
        if read.Err? then Err(read.error)
        else Ok(m.(pos := read.value.pos, version := read.value.version, pinned := read.value.pinned))
    decreases |g.tokens| - s.pos
  {
    var s1 := SkipTrivia(g, s);
    if s1.pos < |g.tokens| && g.tokens[s1.pos].kind.Directive? {
      var version := DirectiveVersion(g.tokens[s1.pos].kind.text);
      if version.Ok? {
        var s2 := Advance(ApplyDirective(g.cfg, s1, version.value));
        SimDirectives(g, s2, m.(pos := s2.pos, version := s2.version, pinned := s2.pinned));
      }
    }
  }

  lemma NoDirectives(g: Grammar, s: PState)
    requires s.pos <= |g.tokens| && SkipPos(g.tokens, s.pos) == s.pos
    requires s.pos < |g.tokens| ==> !g.tokens[s.pos].kind.Directive?
    ensures ConsumeDirectives(g, SkipTrivia(g, s)) == Ok(s)
  {
    SkipTriviaTwice(g, s);
  }

  // ----- One document

  /** Between documents: where both parsers stand once directives have been read. */
  ghost predicate AtDocument(g: Grammar, s: PState, m: Machine) {
    && m.frames == [] && m.stream.BetweenDocuments? && Agree(s, m)
    && m.pos == s.pos <= |g.tokens| && SkipPos(g.tokens, s.pos) == s.pos
    && m.documents == |s.document.documents|
  }

  lemma StepBetween(g: Grammar, s: PState, m: Machine)
    requires AtDocument(g, s, m) && (s.pos < |g.tokens| ==> !g.tokens[s.pos].kind.Directive?)
    ensures Steps(g, m, 1) == Step(g.cfg, g.tokens, m) == StepStream(g.cfg, g.tokens, m)
    ensures ConsumeDirectivesM(g.cfg, g.tokens, Skip(g.tokens, m)) == Ok(m)
  {
    hide StepStream, StepDocument, StepBlockMapping, StepBlockSequence, StepFlowMapping, StepFlowSequence;
  }

  function OpenDocument(g: Grammar, s: PState, m: Machine): Machine
    requires s.pos < |g.tokens|
  {
    var start := DocumentStartSpan(g, s);
    var content := DocumentContent(g, s);
    var nullSpan := if start.Some? then start else if content.pos < |g.tokens| then Some(g.tokens[content.pos].span)
      else None;
    m.(pos := content.pos, documents := m.documents + 1,
       frames := [NewFrame(DocumentFrame, []).(nullSpan := nullSpan)], log := m.log + [Event.DocumentStart])
  }

  lemma StepOpenDocument(g: Grammar, s: PState, m: Machine)
    requires AtDocument(g, s, m) && !AtEof(g.tokens, s.pos) && !g.tokens[s.pos].kind.Directive?
    ensures Steps(g, m, 1) == Ok(OpenDocument(g, s, m))
  {
    hide ConsumeDirectivesM, Step, Steps;
    StepBetween(g, s, m);
    var result := StepStream(g.cfg, g.tokens, m).value;
    assert result.frames == OpenDocument(g, s, m).frames;
    assert result == OpenDocument(g, s, m);
  }

  /** The root of a document, read by the machine under its document frame. */
  lemma RunRoot(g: Grammar, s: PState, m: Machine, start: Option<Span>)
    returns (k: nat, events: seq<Event<string>>, m': Machine)
    requires Followed(g) && Agree(s, m) && m.pos == s.pos <= |g.tokens| && SkipPos(g.tokens, s.pos) == s.pos
    requires |m.frames| == 1 && Top(m).kind.DocumentFrame? && Top(m).state.BeginEntry?
    requires Top(m).nullSpan == if start.Some? then start else if s.pos < |g.tokens| then Some(g.tokens[s.pos].span)
      else None
    ensures match ParseDocument(g, s, start)
      case Err(e) => Steps(g, m, k) == Err(e)
      case Ok((t, id)) =>
        && Steps(g, m, k) == Ok(m')
        && m' == m.(pos := t.pos, anchors := t.anchors.Keys, log := m.log + events, frames := m'.frames)
        && |m'.frames| == 1 && Top(m').kind.DocumentFrame? && Top(m').state.AfterValue?
        && Denotes(t, events, Decorate(NodeEvents(t.document.nodes, id), None, None))
  {
    hide Step, BeginValue, ConsumeDirectivesM, Denotes, NodeEvents;
    SkipTriviaTwice(g, s);
    StepByKind(g, m);
    var m1 := SetState(m, AfterValue);
    var empty := AtEof(g.tokens, s.pos) || g.tokens[s.pos].kind.DocumentEnd?;
    var span := if Top(m).nullSpan.Some? then Top(m).nullSpan.value else ORIGIN;
    k, events := SimChild(g, s, m1, !empty, span, ParseDocument(g, s, start), Step(g.cfg, g.tokens, m));
    RunFirst(g, m, k);
    k, m' := 1 + k, m;
    var parsed := ParseDocument(g, s, start);
    if parsed.Ok? {
      m' := Finish(m1, parsed.value.0, [], events).value;
    }
  }

  lemma RunEnd(g: Grammar, s: PState, m: Machine)
    requires Agree(s, m) && m.pos == s.pos <= |g.tokens|
    requires |m.frames| == 1 && Top(m).kind.DocumentFrame? && Top(m).state.AfterValue?
    ensures match EndDocument(g, s)
      case Err(e) => Steps(g, m, 1) == Err(e)
      case Ok(t) => Steps(g, m, 1) == Ok(m.(pos := t.pos, version := t.version, pinned := t.pinned, frames := [],
                                            log := m.log + [Event.DocumentEnd]))
    ensures var ended := EndDocument(g, s); ended.Ok? ==>
      && SkipPos(g.tokens, ended.value.pos) == ended.value.pos
      && (AtEof(g.tokens, ended.value.pos) || g.tokens[ended.value.pos].kind.DocumentStart?)
  {
    hide Step, Steps, BeginValue, ConsumeDirectives, ConsumeDirectivesM, TriviaFrom;
    StepByKind(g, m);
    var s1 := SkipTrivia(g, s);
    var s2 := if s1.pos < |g.tokens| && g.tokens[s1.pos].kind.DocumentEnd? then Advance(s1) else s1;
    SimDirectives(g, SkipTrivia(g, s2), m.(pos := SkipTrivia(g, s2).pos));
  }

  /** From behind the root of a document, counted already, to between documents. */
  lemma RunClose(g: Grammar, s: PState, m: Machine) returns (m': Machine)
    requires Agree(s, m) && m.pos == s.pos <= |g.tokens| && m.stream.BetweenDocuments?
      && m.documents == |s.document.documents|
    requires |m.frames| == 1 && Top(m).kind.DocumentFrame? && Top(m).state.AfterValue?
    ensures var ended := EndDocument(g, s);
      if ended.Err? then Steps(g, m, 1) == Err(ended.error) else
      && Steps(g, m, 1) == Ok(m') && AtDocument(g, ended.value, m') && m'.log == m.log + [Event.DocumentEnd]
      && (AtEof(g.tokens, ended.value.pos) || g.tokens[ended.value.pos].kind.DocumentStart?)
  {
    hide Step, Steps, TriviaFrom;
    RunEnd(g, s, m);
    var ended := EndDocument(g, s);
    hide EndDocument;
    m' := m;
    if ended.Ok? {
      var t := ended.value;
      m' := m.(pos := t.pos, version := t.version, pinned := t.pinned, frames := [],
               log := m.log + [Event.DocumentEnd]);
    }
  }

  /** A document up to behind its root. */
  lemma RunContent(g: Grammar, s: PState, m: Machine) returns (k: nat, events: seq<Event<string>>, m': Machine)
    requires Followed(g) && AtDocument(g, s, m) && !AtEof(g.tokens, s.pos) && !g.tokens[s.pos].kind.Directive?
    ensures var parsed := ParseDocument(g, DocumentContent(g, s), DocumentStartSpan(g, s));
      if parsed.Err? then Steps(g, m, k) == Err(parsed.error) else
      var t := parsed.value.0;
      && Steps(g, m, k) == Ok(m') && Agree(t, m') && m'.pos == t.pos
      && m'.stream.BetweenDocuments? && m'.documents == m.documents + 1
      && |m'.frames| == 1 && Top(m').kind.DocumentFrame? && Top(m').state.AfterValue?
      && m'.log == m.log + [Event.DocumentStart] + events
      && Denotes(t, events, Decorate(NodeEvents(t.document.nodes, parsed.value.1), None, None))
  {
    hide Step, Steps, NodeEvents, Denotes, ParseDocument, Decorate, TriviaFrom;
    StepOpenDocument(g, s, m);
    var m1 := OpenDocument(g, s, m);
    k, events, m' := RunRoot(g, DocumentContent(g, s), m1, DocumentStartSpan(g, s));
    RunOn(g, m, 1, m1, k);
    k := 1 + k;
  }

  /** One document, from between documents to between documents. */
  lemma RunDocument(g: Grammar, s: PState, m: Machine)
    returns (k: nat, events: seq<Event<string>>, root: NodeId, m': Machine)
    requires Followed(g) && AtDocument(g, s, m) && !AtEof(g.tokens, s.pos) && !g.tokens[s.pos].kind.Directive?
    ensures var one := ParseOneDocument(g, s);
      if one.Err? then Steps(g, m, k) == Err(one.error)
      else
        && Steps(g, m, k) == Ok(m') && AtDocument(g, one.value, m') && m'.log == m.log + events
        && (AtEof(g.tokens, one.value.pos) || g.tokens[one.value.pos].kind.DocumentStart?)
        && one.value.document.documents == s.document.documents + [root] && root < |one.value.document.nodes|
        && Denotes(one.value, events,
                   [Event.DocumentStart] + NodeEvents(one.value.document.nodes, root) + [Event.DocumentEnd])
  {
    hide Step, Steps, NodeEvents, Denotes, ParseDocument, DocumentStartSpan, Decorate, TriviaFrom;
    var content := DocumentContent(g, s);
    assert content.pos <= |g.tokens| && content.document == s.document;
    hide DocumentContent, EndDocument;
    var k1, inner, m2 := RunContent(g, s, m);
    k, events, root, m' := k1, [], 0, m;
    var parsed := ParseDocument(g, DocumentContent(g, s), DocumentStartSpan(g, s));
    if parsed.Ok? {
      var t := parsed.value.0;
      root := parsed.value.1;
      var s2 := PushRoot(t, root);
      m' := RunClose(g, s2, m2);
      RunOn(g, m, k, m2, 1);
      k := k + 1;
      if EndDocument(g, s2).Ok? {
        events := [Event.DocumentStart] + inner + [Event.DocumentEnd];
        assert m.log + [Event.DocumentStart] + inner + [Event.DocumentEnd] == m.log + events;
        BracketDocument(t, inner, EndDocument(g, s2).value, root);
      }
    }
  }

  lemma BracketDocument(t: PState, inner: seq<Event<string>>, u: PState, root: NodeId)
    requires Denotes(t, inner, Decorate(NodeEvents(t.document.nodes, root), None, None))
    requires u.anchors == t.anchors && u.document.nodes == t.document.nodes
    ensures Denotes(u, [Event.DocumentStart] + inner + [Event.DocumentEnd],
                    [Event.DocumentStart] + NodeEvents(u.document.nodes, root) + [Event.DocumentEnd])
  {
    hide NodeEvents;
    var first: seq<Event<string>> := [Event.DocumentStart];
    var last: seq<Event<string>> := [Event.DocumentEnd];
    var body := NodeEvents(t.document.nodes, root);
    DecorateNothing(body);
    assert ReferAll(u.anchors, first) == [Event.DocumentStart];
    assert ReferAll(u.anchors, last) == [Event.DocumentEnd];
    DenotesConcat(u, first, [Event.DocumentStart], u, inner, body);
    DenotesConcat(u, first + inner, [Event.DocumentStart] + body, u, last, [Event.DocumentEnd]);
  }

  // ----- The whole stream

  lemma RunFinish(g: Grammar, s: PState, m: Machine) returns (events: seq<Event<string>>, m': Machine)
    requires AtDocument(g, s, m) && AtEof(g.tokens, s.pos)
    ensures Steps(g, m, 1) == Ok(m') && m'.finished && m'.log == m.log + events
    ensures ClosesStream(s, events, |s.document.documents|)
  {
    hide ConsumeDirectivesM, Step, Steps;
    StepBetween(g, s, m);
    var t := WithDefaultDocument(s);
    var first: seq<Event<string>> := if m.documents == 0 then
      [Event.DocumentStart, NullEvent(ORIGIN), Event.DocumentEnd] else [];
    events := first + [Event.StreamEnd];
    m' := StepStream(g.cfg, g.tokens, m).value;
    assert m.log + first + [Event.StreamEnd] == m.log + events;
    var roots := t.document.documents[|s.document.documents|..];
    if m.documents == 0 {
      var id := |s.document.nodes|;
      assert roots == [id] && roots[1..] == [];
      assert DocumentEvents(t.document.nodes, roots[1..]) == [];
      assert NodeEvents(t.document.nodes, id) == [NullEvent(ORIGIN)];
      assert DocumentEvents(t.document.nodes, roots) == [Event.DocumentStart, NullEvent(ORIGIN), Event.DocumentEnd];
    } else {
      assert roots == [];
    }
  }

  /** A finished document in front of the rest of the stream. */
  lemma PrependDocument(t: PState, root: NodeId, u: PState, first: seq<Event<string>>, s: PState,
                        rest: seq<Event<string>>, roots: seq<NodeId>)
    requires root < |t.document.nodes| && t.document.nodes <= s.document.nodes && Extends(u.anchors, s.anchors)
    requires Denotes(u, first, [Event.DocumentStart] + NodeEvents(t.document.nodes, root) + [Event.DocumentEnd])
    requires Denotes(s, rest, DocumentEvents(s.document.nodes, roots) + [Event.StreamEnd])
    ensures Denotes(s, first + rest, DocumentEvents(s.document.nodes, [root] + roots) + [Event.StreamEnd])
  {
    var nodes := s.document.nodes;
    NodeEventsFrame(t.document.nodes, nodes, root);
    var one := [Event.DocumentStart] + NodeEvents(nodes, root) + [Event.DocumentEnd];
    DenotesConcat(u, first, one, s, rest, DocumentEvents(nodes, roots) + [Event.StreamEnd]);
    assert ([root] + roots)[1..] == roots;
    assert DocumentEvents(nodes, [root] + roots) == one + DocumentEvents(nodes, roots);
  }

  /** From `m`, `k` steps do what parsing the remaining documents did, up to the end of the stream. */
  ghost predicate EndsStream(g: Grammar, m: Machine, k: nat, events: seq<Event<string>>, m': Machine, before: nat,
                             parsed: Result<PState, ErrorKind>)
    requires m.pos <= |g.tokens|
  {
    match parsed
    case Err(e) => Steps(g, m, k) == Err(e)
    case Ok(t) => Steps(g, m, k) == Ok(m') && m'.finished && m'.log == m.log + events && ClosesStream(t, events, before)
  }

  /** The events are those of the documents past the first `before`, and of the default one if there is none. */
  ghost predicate ClosesStream(t: PState, events: seq<Event<string>>, before: nat) {
    var t := WithDefaultDocument(t);
    && before <= |t.document.documents|
    && Denotes(t, events, DocumentEvents(t.document.nodes, t.document.documents[before..]) + [Event.StreamEnd])
  }

  /** A document in front of a stream already simulated. */
  lemma ThenRest(u: PState, root: NodeId, events: seq<Event<string>>, t: PState, rest: seq<Event<string>>, before: nat)
    requires |u.document.documents| == before + 1 && u.document.documents[before] == root < |u.document.nodes|
    requires Denotes(u, events, [Event.DocumentStart] + NodeEvents(u.document.nodes, root) + [Event.DocumentEnd])
    requires u.document.nodes <= t.document.nodes && u.document.documents <= t.document.documents
      && Extends(u.anchors, t.anchors)
    requires ClosesStream(t, rest, before + 1)
    ensures ClosesStream(t, events + rest, before)
  {
    hide NodeEvents, Denotes, DocumentEvents;
    assert WithDefaultDocument(t) == t;
    var roots := t.document.documents[before + 1..];
    assert t.document.documents[before..] == [root] + roots;
    PrependDocument(u, root, u, events, t, rest, roots);
  }

  lemma Prolong(g: Grammar, m: Machine, k: nat, events: seq<Event<string>>, u: PState, root: NodeId, m1: Machine,
                k2: nat, rest: seq<Event<string>>, m': Machine, before: nat)
    requires m.pos <= |g.tokens| && Steps(g, m, k) == Ok(m1) && m1.log == m.log + events && u.pos <= |g.tokens|
    requires |u.document.documents| == before + 1 && u.document.documents[before] == root < |u.document.nodes|
    requires Denotes(u, events, [Event.DocumentStart] + NodeEvents(u.document.nodes, root) + [Event.DocumentEnd])
    requires EndsStream(g, m1, k2, rest, m', before + 1, ParseDocuments(g, u))
    ensures EndsStream(g, m, k + k2, events + rest, m', before, ParseDocuments(g, u))
  {
    hide Steps, ParseDocuments, NodeEvents, Denotes, DocumentEvents, ClosesStream;
    RunOn(g, m, k, m1, k2);
    if ParseDocuments(g, u).Ok? {
      ThenRest(u, root, events, ParseDocuments(g, u).value, rest, before);
      assert m.log + events + rest == m.log + (events + rest);
    }
  }

  lemma SimDocuments(g: Grammar, s: PState, m: Machine) returns (k: nat, events: seq<Event<string>>, m': Machine)
    requires Followed(g) && AtDocument(g, s, m) && (s.pos < |g.tokens| ==> !g.tokens[s.pos].kind.Directive?)
    ensures EndsStream(g, m, k, events, m', |s.document.documents|, ParseDocuments(g, s))
    decreases |g.tokens| - s.pos
  {
    hide Steps, NodeEvents, ParseOneDocument, Denotes, DocumentEvents, ClosesStream;
    if AtEof(g.tokens, s.pos) {
      k := 1;
      events, m' := RunFinish(g, s, m);
    } else {
      var root;
      k, events, root, m' := RunDocument(g, s, m);
      if ParseOneDocument(g, s).Ok? {
        var u, m1 := ParseOneDocument(g, s).value, m';
        var k2, rest;
        k2, rest, m' := SimDocuments(g, u, m1);
        hide EndsStream;
        Prolong(g, m, k, events, u, root, m1, k2, rest, m', |s.document.documents|);
        k, events := k + k2, events + rest;
      }
    }
  }

  /** The machine reads the directives of the first document as part of opening it. */
  lemma RunDirectives(g: Grammar, s: PState, m: Machine, k: nat)
    requires m.frames == [] && m.stream.BetweenDocuments? && Agree(s, m) && m.pos == s.pos <= |g.tokens|
    ensures var read := ConsumeDirectives(g, SkipTrivia(g, s));
      if read.Err? then Steps(g, m, 1) == Err(read.error)
      else k > 0 ==>
        Steps(g, m, k)
        == Steps(g, m.(pos := read.value.pos, version := read.value.version, pinned := read.value.pinned), k)
  {
    hide ConsumeDirectivesM, StepDocument, StepBlockMapping, StepBlockSequence, StepFlowMapping, StepFlowSequence;
    var s1 := SkipTrivia(g, s);
    SimDirectives(g, s1, Skip(g.tokens, m));
    if ConsumeDirectives(g, s1).Ok? {
      var t := ConsumeDirectives(g, s1).value;
      var m' := m.(pos := t.pos, version := t.version, pinned := t.pinned);
      NoMoreDirectives(g, s1);
      NoDirectives(g, t);
      SkipTriviaTwice(g, t);
      SimDirectives(g, t, m');
      assert StepStream(g.cfg, g.tokens, m) == StepStream(g.cfg, g.tokens, m');
      hide StepStream;
      assert Step(g.cfg, g.tokens, m) == Step(g.cfg, g.tokens, m');
    }
  }

  lemma {:induction false} NoMoreDirectives(g: Grammar, s: PState)
    requires s.pos <= |g.tokens|
    ensures var r := ConsumeDirectives(g, s);
      r.Ok? && r.value.pos < |g.tokens| ==> !g.tokens[r.value.pos].kind.Directive?
    decreases |g.tokens| - s.pos
  {
    var s1 := SkipTrivia(g, s);
    if s1.pos < |g.tokens| && g.tokens[s1.pos].kind.Directive? {
      var version := DirectiveVersion(g.tokens[s1.pos].kind.text);
      if version.Ok? {
        NoMoreDirectives(g, Advance(ApplyDirective(g.cfg, s1, version.value)));
      }
    }
  }

  lemma StreamBracket(t: PState, events: seq<Event<string>>)
    requires Denotes(t, events, DocumentEvents(t.document.nodes, t.document.documents) + [Event.StreamEnd])
    ensures Denotes(t, [Event.StreamStart] + events, StreamEvents(t.document))
  {
    hide DocumentEvents;
    var first: seq<Event<string>> := [Event.StreamStart];
    assert ReferAll(t.anchors, first) == [Event.StreamStart];
    DenotesConcat(t, first, [Event.StreamStart], t, events,
                  DocumentEvents(t.document.nodes, t.document.documents) + [Event.StreamEnd]);
  }

  lemma StepStart(g: Grammar)
    ensures var m := InitialMachine(g.cfg);
      Steps(g, m, 1) == Ok(m.(stream := BetweenDocuments, log := [Event.StreamStart]))
  {
    var first: seq<Event<string>> := [Event.StreamStart];
    assert InitialMachine(g.cfg).log + first == first;
  }

  /** A finished run and a parse of the same tokens: the same error, or the parsed documents' events. */
  ghost predicate SameOutcome(run: Stepped, parsed: Result<PState, ErrorKind>) {
    match parsed
    case Err(e) => run == Err(e)
    case Ok(t) => run.Ok? && run.value.finished && Denotes(t, run.value.log, StreamEvents(t.document))
  }

  /**
   The event parser and the arena parser agree on every token list: they accept together, fail with
   the same kind of error, and the events are those of the parsed documents, in order.
   */
  lemma MachineFollowsParser(g: Grammar) returns (k: nat)
    requires Followed(g)
    ensures SameOutcome(Steps(g, InitialMachine(g.cfg), k), Parse(g))
  {
    hide Denotes, DocumentEvents, Step, ConsumeDirectives;
    var s, m := InitialState(g), InitialMachine(g.cfg);
    var m1 := m.(stream := BetweenDocuments, log := [Event.StreamStart]);
    StepStart(g);
    var read := ConsumeDirectives(g, SkipTrivia(g, s));
    RunDirectives(g, s, m1, 1);
    RunOn(g, m, 1, m1, 1);
    k := 2;
    if read.Ok? {
      var t := read.value;
      NoMoreDirectives(g, SkipTrivia(g, s));
      var m2 := m1.(pos := t.pos, version := t.version, pinned := t.pinned);
      var k2, events, m' := SimDocuments(g, t, m2);
      assert k2 > 0;
      RunDirectives(g, s, m1, k2);
      RunOn(g, m, 1, m1, k2);
      k := 1 + k2;
      var parsed := ParseDocuments(g, t);
      if parsed.Ok? {
        var u := WithDefaultDocument(parsed.value);
        assert u.document.documents[0..] == u.document.documents;
        StreamBracket(u, events);
      }
    }
  }
}
