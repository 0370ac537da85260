/** The pull-based event parser: a token lookahead, a frame stack and an outbox, updated in place. */
module EventParser {
  import opened Prelude
  import opened Syntax
  import opened Events
  import opened M = Machine
  import opened Runs
  import opened MachineInvariant
  import G = Grammar

  /** What a value does depends on the position of its prefix, not on where the machine stood before. */
  lemma DispatchAnywhere(cfg: Config, tokens: seq<Token>, m: M.Machine, p: Prefix)
    ensures M.Dispatch(cfg, tokens, m.(pos := p.pos), p) == M.Dispatch(cfg, tokens, m, p)
  {
  }

  lemma EmitFlowKeyAnywhere(cfg: Config, tokens: seq<Token>, m: M.Machine, p: Prefix)
    ensures M.EmitFlowKey(cfg, tokens, m.(pos := p.pos), p) == M.EmitFlowKey(cfg, tokens, m, p)
  {
  }

  /** A prefix extended by the anchor or the tag at its end; `next` is where the prefix goes on. */
  function PastProperty(p: Prefix, token: Token, next: nat): (past: Prefix)
    requires token.kind.Anchor? || token.kind.Tag?
    ensures past.pos == next
  {
    if token.kind.Anchor? then
      Prefix(next, First(p.anchor, token.kind.name), p.tag, p.pending + [(token.kind.name, token.span)])
    else
      p.(pos := next, tag := First(p.tag, token.kind.name))
  }

  lemma PrefixStep(tokens: seq<Token>, p: Prefix)
    requires p.pos <= |tokens|
    ensures ReadPrefix(tokens, p) ==
      if p.pos < |tokens| && (tokens[p.pos].kind.Anchor? || tokens[p.pos].kind.Tag?)
      then ReadPrefix(tokens, PastProperty(p, tokens[p.pos], G.SkipPos(tokens, p.pos + 1)))
      else p
  {
  }

  /** What the key routine keeps of a prefix: the first anchor with its span, and the first tag. */
  predicate KeptOnly(p: Prefix, anchor: Option<(string, Span)>, tag: Option<string>) {
    && FlowKeyAnchors(p) == (if anchor.Some? then [anchor.value] else [])
    && p.anchor == (if anchor.Some? then Some(anchor.value.0) else None)
    && p.tag == tag
  }

  lemma NothingKept(p: Prefix)
    requires p.anchor == None && p.tag == None && p.pending == []
    ensures KeptOnly(p, None, None)
  {
  }

  lemma KeepFirst(p: Prefix, anchor: Option<(string, Span)>, tag: Option<string>, token: Token, next: nat)
    requires KeptOnly(p, anchor, tag) && (token.kind.Anchor? || token.kind.Tag?)
    ensures token.kind.Anchor? ==>
      KeptOnly(PastProperty(p, token, next), if anchor.None? then Some((token.kind.name, token.span)) else anchor, tag)
    ensures token.kind.Tag? ==>
      KeptOnly(PastProperty(p, token, next), anchor, if tag.None? then Some(token.kind.name) else tag)
  {
  }

  lemma DirectiveStep(cfg: Config, tokens: seq<Token>, m: M.Machine)
    requires m.pos <= |tokens|
    ensures var here := Skip(tokens, m);
      ConsumeDirectivesM(cfg, tokens, m) ==
        if here.pos >= |tokens| || !tokens[here.pos].kind.Directive? then Ok(here) else
        var version := DirectiveVersion(tokens[here.pos].kind.text);
        if version.Err? then Err(version.error) else
        var past := here.(pos := here.pos + 1);
        ConsumeDirectivesM(cfg, tokens, if version.value.Some? && cfg.options.yamlVersion.None?
                                        then past.(version := version.value.value, pinned := true) else past)
  {
    hide DirectiveVersion, G.SkipPos;
  }

  /** Behind an optional `...` and the trivia around it. */
  function PastEnd(tokens: seq<Token>, m: M.Machine): (past: M.Machine)
    requires m.pos <= |tokens|
    ensures past == m.(pos := past.pos) && past.pos <= |tokens|
  {
    var m := Skip(tokens, m);
    Skip(tokens, if m.pos < |tokens| && tokens[m.pos].kind.DocumentEnd? then m.(pos := m.pos + 1) else m)
  }

  /** Behind the content of a document, its frame looks past the end first. */
  lemma StepPastEnd(cfg: Config, tokens: seq<Token>, m: M.Machine)
    requires m.pos <= |tokens| && m.frames != [] && !Top(m).state.BeginEntry?
    ensures var read := ConsumeDirectivesM(cfg, tokens, PastEnd(tokens, m));
      M.StepDocument(cfg, tokens, m) ==
        if read.Err? then Err(read.error) else
        var t := read.value;
        if !G.AtEof(tokens, t.pos) && !tokens[t.pos].kind.DocumentStart? then Err(TrailingContent)
        else Ok(M.PopFrame(M.Emit(t, Event.DocumentEnd)))
  {
    hide ConsumeDirectivesM, G.SkipPos, M.PopFrame, M.Emit;
  }

  class EventParser {
    const cfg: Config
    const tokens: seq<Token>
    /** How many tokens the lexer has handed out so far. */
    var lexed: nat
    var lookahead: seq<Token>
    var outbox: seq<Event<string>>
    var frames: seq<Frame>
    var stream: StreamState
    var documents: nat
    var anchors: set<string>
    var version: YamlVersion
    var versionPinned: bool
    var finished: bool
    /** Every event already handed to the caller. */
    ghost var delivered: seq<Event<string>>

    ghost predicate Consistent()
      reads this
    {
      && |lookahead| <= 2
      && |lookahead| <= lexed <= |tokens|
      && lookahead == tokens[lexed - |lookahead|..lexed]
    }

    function Pos(): nat
      reads this
      requires Consistent()
    {
      lexed - |lookahead|
    }

    ghost function State(): M.Machine
      reads this
      requires Consistent()
    {
      Machine(Pos(), frames, stream, documents, anchors, version, versionPinned, finished, delivered + outbox)
    }

    ghost function Gr(): G.Grammar
      reads this
    {
      G.Grammar(cfg, G.FirstAnchor, tokens)
    }

    /** A routine behaved as its machine function: same state, or same error. */
    ghost predicate Did(spec: Stepped, r: Result<(), ErrorKind>)
      reads this
    {
      match spec
      case Err(e) => r == Err(e)
      case Ok(m) => r.Ok? && Consistent() && State() == m
    }

    constructor (cfg: Config, tokens: seq<Token>)
      ensures this.cfg == cfg && this.tokens == tokens
      ensures Consistent() && State() == InitialMachine(cfg) && outbox == [] && delivered == []
      ensures Valid(tokens, State())
    {
      this.cfg := cfg;
      this.tokens := tokens;
      lexed, lookahead, outbox, frames := 0, [], [], [];
      stream, documents, anchors := Start, 0, {};
      version := InitialVersion(cfg.options);
      versionPinned := cfg.options.yamlVersion.Some?;
      finished := false;
      delivered := [];
      new;
      InitialValid(cfg, tokens);
    }

    // ----- Token lookahead

    /** Fills the lookahead to `depth` tokens, as far as there are any; never beyond two. */
    method Ensure(depth: nat)
      requires Consistent() && depth <= 2
      modifies this`lexed, this`lookahead
      ensures Consistent() && Pos() == old(Pos())
      ensures |lookahead| >= depth || lexed == |tokens|
      ensures |lookahead| <= depth || |lookahead| == old(|lookahead|)
    {
      while |lookahead| < depth && lexed < |tokens|
        invariant Consistent() && Pos() == old(Pos())
        invariant |lookahead| <= depth || |lookahead| == old(|lookahead|)
        decreases |tokens| - lexed
      {
        assert tokens[lexed - |lookahead|..lexed + 1] == lookahead + [tokens[lexed]];
        lookahead := lookahead + [tokens[lexed]];
        lexed := lexed + 1;
      }
    }

    method TokenAt(offset: nat) returns (token: Option<Token>)
      requires Consistent() && offset <= 1
      modifies this`lexed, this`lookahead
      ensures Consistent() && Pos() == old(Pos())
      ensures token == if Pos() + offset < |tokens| then Some(tokens[Pos() + offset]) else None
    {
      Ensure(offset + 1);
      token := if offset < |lookahead| then Some(lookahead[offset]) else None;
    }

    method Pop()
      requires Consistent() && Pos() < |tokens|
      modifies this`lexed, this`lookahead
      ensures Consistent() && Pos() == old(Pos()) + 1
    {
      Ensure(1);
      lookahead := lookahead[1..];
    }

    method SkipTrivia()
      requires Consistent()
      modifies this`lexed, this`lookahead
      ensures Consistent() && State() == Skip(tokens, old(State()))
    {
      while true
        invariant Consistent() && G.SkipPos(tokens, Pos()) == G.SkipPos(tokens, old(Pos()))
        decreases |tokens| - Pos()
      {
        var token := TokenAt(0);
        if token.None? || !IsTrivia(token.value.kind) {
          return;
        }
        Pop();
      }
    }

    // ----- Frames, events and anchors

    method PushFrame(frame: Frame)
      requires Consistent()
      modifies this`frames
      ensures Consistent() && State() == M.PushFrame(old(State()), frame)
    {
      frames := frames + [frame];
    }

    method SetTop(frame: Frame)
      requires Consistent() && frames != []
      modifies this`frames
      ensures Consistent() && State() == M.SetTop(old(State()), frame)
    {
      frames := frames[..|frames| - 1] + [frame];
    }

    method Emit(event: Event<string>)
      requires Consistent()
      modifies this`outbox
      ensures Consistent() && State() == M.Emit(old(State()), event) && outbox == old(outbox) + [event]
    {
      outbox := outbox + [event];
      assert delivered + old(outbox) + [event] == delivered + outbox;
    }

    method RegisterAnchors(pending: seq<(string, Span)>) returns (r: Result<(), ErrorKind>)
      requires Consistent()
      modifies this`anchors
      ensures Did(M.RegisterAnchors(old(State()), pending), r)
    {
      assert pending[0..] == pending;
      for i := 0 to |pending|
        invariant Register(anchors, pending[i..]) == Register(old(anchors), pending)
      {
        assert pending[i..][1..] == pending[i + 1..];
        if pending[i].0 in anchors {
          return Err(InvalidAnchor);
        }
        anchors := anchors + {pending[i].0};
      }
      return Ok(());
    }

    method Close(event: Event<string>) returns (r: Result<(), ErrorKind>)
      requires Consistent() && frames != [] && (event.MappingEnd? || event.SequenceEnd?)
      modifies this`frames, this`anchors, this`outbox
      ensures Did(if event.MappingEnd? then CloseMapping(old(State())) else CloseSequence(old(State())), r)
      ensures outbox == if r.Ok? then old(outbox) + [event] else old(outbox)
    {
      var pending := frames[|frames| - 1].pending;
      frames := frames[..|frames| - 1];
      var _ :- RegisterAnchors(pending);
      Emit(event);
      return Ok(());
    }

    // ----- Values

    method BeginValue() returns (r: Result<(), ErrorKind>)
      requires Consistent()
      modifies this
      ensures Did(M.BeginValue(cfg, tokens, old(State())), r)
      ensures delivered == old(delivered) && (r.Err? ==> outbox == old(outbox))
    {
      hide M.Dispatch;
      var p := ReadValuePrefix();
      DispatchAnywhere(cfg, tokens, old(State()), p);
      r := Dispatch(p);
    }

    /** All anchors and tags in front of a value. */
    method ReadValuePrefix() returns (p: Prefix)
      requires Consistent()
      modifies this`lexed, this`lookahead
      ensures Consistent() && State() == old(State()).(pos := p.pos)
      ensures p == ReadPrefix(tokens, Prefix(G.SkipPos(tokens, old(Pos())), None, None, []))
    {
      hide G.SkipPos, ReadPrefix, First;
      SkipTrivia();
      p := Prefix(Pos(), None, None, []);
      while true
        invariant Consistent() && p.pos == Pos()
        invariant ReadPrefix(tokens, p) == ReadPrefix(tokens, Prefix(G.SkipPos(tokens, old(Pos())), None, None, []))
        decreases |tokens| - Pos()
      {
        var token := TokenAt(0);
        PrefixStep(tokens, p);
        if token.None? || !(token.value.kind.Anchor? || token.value.kind.Tag?) {
          return;
        }
        Pop();
        SkipTrivia();
        p := PastProperty(p, token.value, Pos());
      }
    }

    /** The leaf or the collection at the front, under the given prefix. */
    method Dispatch(p: Prefix) returns (r: Result<(), ErrorKind>)
      requires Consistent() && Pos() == p.pos
      modifies this
      ensures Did(M.Dispatch(cfg, tokens, old(State()), p), r)
      ensures delivered == old(delivered) && (r.Err? ==> outbox == old(outbox))
    {
      hide M.Emit, M.PushFrame, M.RegisterAnchors, Resolve;
      var front := TokenAt(0);
      if front.None? {
        return Err(UnexpectedEof);
      }
      var token := front.value;
      var meta := NodeMeta(p.anchor, p.tag, token.span);
      var next := TokenAt(1);
      var startsMapping := token.kind.Scalar? && next.Some? && next.value.kind.Colon?;
      if startsMapping || token.kind.MappingKey? {
        Open(NewFrame(BlockMapping, p.pending), MappingStart(meta));
      } else if token.kind.SequenceEntry? {
        Open(NewFrame(BlockSequence, p.pending), SequenceStart(meta));
      } else if token.kind.LeftBrace? {
        Pop();
        Open(NewFrame(FlowMapping, p.pending), MappingStart(meta));
      } else if token.kind.LeftBracket? {
        Pop();
        Open(NewFrame(FlowSequence, p.pending), SequenceStart(meta));
      } else {
        r := EmitLeaf(p, token);
        return;
      }
      return Ok(());
    }

    method Open(frame: Frame, event: Event<string>)
      requires Consistent()
      modifies this`frames, this`outbox
      ensures Consistent() && State() == M.Emit(M.PushFrame(old(State()), frame), event)
    {
      PushFrame(frame);
      Emit(event);
    }

    method ResolveScalar(raw: string, style: ScalarStyle) returns (r: Result<ScalarValue, ErrorKind>)
      requires Consistent()
      ensures r == Resolve(cfg, State(), raw, style)
    {
      if style != Plain {
        return Ok(String(raw));
      }
      if cfg.options.strictVersion && !versionPinned && Ambiguous(cfg, raw) {
        return Err(AmbiguousVersion);
      }
      return Ok(cfg.resolve(raw, version));
    }

    method EmitLeaf(p: Prefix, token: Token) returns (r: Result<(), ErrorKind>)
      requires Consistent() && Pos() == p.pos < |tokens| && token == tokens[p.pos]
      requires !G.PeekIsColon(tokens, p.pos) || !token.kind.Scalar?
      requires !token.kind.MappingKey? && !token.kind.SequenceEntry? && !token.kind.LeftBrace?
        && !token.kind.LeftBracket?
      modifies this
      ensures Did(M.Dispatch(cfg, tokens, old(State()), p), r)
      ensures delivered == old(delivered) && (r.Err? ==> outbox == old(outbox))
    {
      var meta := NodeMeta(p.anchor, p.tag, token.span);
      var event: Event<string>;
      if token.kind.Scalar? {
        var _ :- RejectMergeKey(cfg, token.kind.raw);
        var value :- ResolveScalar(token.kind.raw, token.kind.style);
        event := Event.Scalar(meta, value, token.kind.style, token.kind.raw);
      } else if token.kind.BlockScalar? {
        var style := if token.kind.indicator.Literal? then BlockLiteral else BlockChomped;
        event := Event.Scalar(meta, String(token.kind.text), style, token.kind.text);
      } else if token.kind.Alias? {
        if token.kind.name !in anchors {
          return Err(UnknownAnchor);
        }
        event := Event.Alias(meta, token.kind.name);
      } else {
        return Err(UnexpectedCharacter);
      }
      var _ :- RegisterAnchors(p.pending);
      Pop();
      Emit(event);
      return Ok(());
    }

    // ----- The stream and its documents

    method ConsumeDirectives() returns (r: Result<(), ErrorKind>)
      requires Consistent()
      modifies this`lexed, this`lookahead, this`version, this`versionPinned
      ensures Did(ConsumeDirectivesM(cfg, tokens, old(State())), r)
    {
      hide DirectiveVersion, G.SkipPos, ConsumeDirectivesM;
      while true
        invariant Consistent()
        invariant ConsumeDirectivesM(cfg, tokens, State()) == ConsumeDirectivesM(cfg, tokens, old(State()))
        decreases |tokens| - Pos()
      {
        DirectiveStep(cfg, tokens, State());
        SkipTrivia();
        var token := TokenAt(0);
        if token.None? || !token.value.kind.Directive? {
          return Ok(());
        }
        Pop();
        var _ :- ApplyDirective(token.value.kind.text);
      }
    }

    method ApplyDirective(text: string) returns (r: Result<(), ErrorKind>)
      requires Consistent()
      modifies this`version, this`versionPinned
      ensures match DirectiveVersion(text)
        case Err(e) => r == Err(e)
        case Ok(requested) =>
          r == Ok(()) && State() == if requested.Some? && cfg.options.yamlVersion.None?
            then old(State()).(version := requested.value, pinned := true) else old(State())
    {
      var requested :- DirectiveVersion(text);
      if requested.Some? && cfg.options.yamlVersion.None? {
        version := requested.value;
        versionPinned := true;
      }
      return Ok(());
    }

    method StepStream() returns (r: Result<(), ErrorKind>)
      requires Consistent() && frames == []
      modifies this
      ensures Did(M.StepStream(cfg, tokens, old(State())), r)
      ensures delivered == old(delivered) && (r.Err? ==> outbox == old(outbox))
    {
      match stream {
        case Start =>
          stream := BetweenDocuments;
          Emit(Event.StreamStart);
          r := Ok(());
        case BetweenDocuments =>
          r := StepBetween();
        case Finished =>
          finished := true;
          r := Ok(());
      }
    }

    /** The end of the stream, or the start of the next document. */
    method StepBetween() returns (r: Result<(), ErrorKind>)
      requires Consistent() && stream.BetweenDocuments?
      modifies this
      ensures Did(M.StepStream(cfg, tokens, old(State())), r)
      ensures delivered == old(delivered) && (r.Err? ==> outbox == old(outbox))
    {
      hide ConsumeDirectivesM, Skip, M.Emit, M.PushFrame;
      SkipTrivia();
      var _ :- ConsumeDirectives();
      var front := TokenAt(0);
      if front.None? || front.value.kind.Eof? {
        FinishStream();
      } else {
        OpenDocument(front.value);
      }
      return Ok(());
    }

    method FinishStream()
      requires Consistent()
      modifies this`documents, this`outbox, this`stream, this`finished
      ensures Consistent()
      ensures State() == M.Emit((if old(documents) == 0
                 then old(State()).(documents := 1,
                                    log := old(State()).log
                                    + [Event.DocumentStart, NullEvent(ORIGIN), Event.DocumentEnd])
                 else old(State())).(stream := Finished, finished := true), Event.StreamEnd)
    {
      if documents == 0 {
        documents := documents + 1;
        outbox := outbox + [Event.DocumentStart, NullEvent(ORIGIN), Event.DocumentEnd];
        assert delivered + outbox
          == delivered + old(outbox) + [Event.DocumentStart, NullEvent(ORIGIN), Event.DocumentEnd];
      }
      stream := Finished;
      finished := true;
      Emit(Event.StreamEnd);
    }

    method OpenDocument(token: Token)
      requires Consistent() && Pos() < |tokens| && token == tokens[Pos()]
      modifies this`lexed, this`lookahead, this`documents, this`frames, this`outbox
      ensures Consistent()
      ensures var explicit := token.kind.DocumentStart?;
        var start := if explicit then Some(token.span) else None;
        var m := old(State());
        var m := Skip(tokens, if explicit then m.(pos := m.pos + 1) else m);
        var nullSpan := if start.Some? then start else if m.pos < |tokens| then Some(tokens[m.pos].span) else None;
        State() == M.Emit(M.PushFrame(m.(documents := m.documents + 1),
                                      NewFrame(DocumentFrame, []).(nullSpan := nullSpan)), Event.DocumentStart)
    {
      hide G.SkipPos;
      var start: Option<Span> := None;
      if token.kind.DocumentStart? {
        start := Some(token.span);
        Pop();
      }
      SkipTrivia();
      var front := TokenAt(0);
      var nullSpan := if start.Some? then start else if front.Some? then Some(front.value.span) else None;
      PushFrame(NewFrame(DocumentFrame, []).(nullSpan := nullSpan));
      documents := documents + 1;
      Emit(Event.DocumentStart);
    }

    method StepDocument() returns (r: Result<(), ErrorKind>)
      requires Consistent() && frames != []
      modifies this
      ensures Did(M.StepDocument(cfg, tokens, old(State())), r)
      ensures delivered == old(delivered) && (r.Err? ==> outbox == old(outbox))
    {
      hide M.BeginValue, ConsumeDirectivesM;
      var frame := frames[|frames| - 1];
      if !frame.state.BeginEntry? {
        r := EndDocument();
        return;
      }
      SkipTrivia();
      var front := TokenAt(0);
      SetTop(frame.(state := AfterValue));
      if front.None? || front.value.kind.Eof? || front.value.kind.DocumentEnd? {
        Emit(NullEvent(if frame.nullSpan.Some? then frame.nullSpan.value else ORIGIN));
        r := Ok(());
      } else {
        r := BeginValue();
      }
    }

    method EndDocument() returns (r: Result<(), ErrorKind>)
      requires Consistent() && frames != [] && !Top(State()).state.BeginEntry?
      modifies this
      ensures Did(M.StepDocument(cfg, tokens, old(State())), r)
      ensures delivered == old(delivered) && (r.Err? ==> outbox == old(outbox))
    {
      hide M.StepDocument, PastEnd, ConsumeDirectivesM, M.PopFrame, M.Emit;
      StepPastEnd(cfg, tokens, State());
      SkipPastEnd();
      var _ :- ConsumeDirectives();
      var front := TokenAt(0);
      if front.Some? && !front.value.kind.Eof? && !front.value.kind.DocumentStart? {
        return Err(TrailingContent);
      }
      CloseDocument();
      return Ok(());
    }

    method CloseDocument()
      requires Consistent() && frames != []
      modifies this`frames, this`outbox
      ensures Consistent() && State() == M.PopFrame(M.Emit(old(State()), Event.DocumentEnd))
    {
      Emit(Event.DocumentEnd);
      frames := frames[..|frames| - 1];
    }

    /** Past an optional `...` and the trivia around it. */
    method SkipPastEnd()
      requires Consistent()
      modifies this`lexed, this`lookahead
      ensures Consistent()
      ensures State() == PastEnd(tokens, old(State()))
    {
      SkipTrivia();
      var front := TokenAt(0);
      if front.Some? && front.value.kind.DocumentEnd? {
        Pop();
      }
      SkipTrivia();
    }

    // ----- Block collections

    method StepBlockMapping() returns (r: Result<(), ErrorKind>)
      requires Consistent() && frames != []
      modifies this
      ensures Did(M.StepBlockMapping(cfg, tokens, old(State())), r)
      ensures delivered == old(delivered) && (r.Err? ==> outbox == old(outbox))
    {
      hide M.StepBlockKey, M.StepBlockColon;
      var frame := frames[|frames| - 1];
      match frame.state {
        case BeginEntry => r := StepBlockKey();
        case ExpectColon => r := StepBlockColon();
        case AfterValue =>
          SetTop(frame.(state := BeginEntry));
          r := Ok(());
      }
    }

    method StepBlockKey() returns (r: Result<(), ErrorKind>)
      requires Consistent() && frames != []
      modifies this
      ensures Did(M.StepBlockKey(cfg, tokens, old(State())), r)
      ensures delivered == old(delivered) && (r.Err? ==> outbox == old(outbox))
    {
      hide M.BeginValue, M.CloseMapping, Resolve, RejectMergeKey, G.SkipPos, M.Emit, M.SetTop;
      SkipTrivia();
      var frame := frames[|frames| - 1];
      var front := TokenAt(0);
      if front.None? || !(front.value.kind.MappingKey? || front.value.kind.Scalar?)
         || (frame.entryCol.Some? && front.value.span.column != frame.entryCol.value) {
        r := Close(MappingEnd);
        return;
      }
      var token := front.value;
      frame := frame.(entryCol := Some(token.span.column), keyCol := token.span.column, keyLine := token.span.line,
                      state := ExpectColon);
      if token.kind.MappingKey? {
        r := BeginKey(frame);
      } else {
        r := EmitScalarKey(token, frame);
      }
    }

    /** Behind the `?` of an explicit key. */
    method BeginKey(frame: Frame) returns (r: Result<(), ErrorKind>)
      requires Consistent() && frames != [] && Pos() < |tokens|
      modifies this
      ensures Did(M.BeginValue(cfg, tokens, M.SetTop(Skip(tokens, old(State()).(pos := old(Pos()) + 1)), frame)), r)
      ensures delivered == old(delivered) && (r.Err? ==> outbox == old(outbox))
    {
      hide M.BeginValue;
      Pop();
      SkipTrivia();
      SetTop(frame);
      r := BeginValue();
    }

    /** A scalar in front of its colon: checked, resolved and handed out without properties. */
    method EmitScalarKey(token: Token, frame: Frame) returns (r: Result<(), ErrorKind>)
      requires Consistent() && frames != [] && Pos() < |tokens| && token == tokens[Pos()] && token.kind.Scalar?
      modifies this`lexed, this`lookahead, this`frames, this`outbox
      ensures var checked := RejectMergeKey(cfg, token.kind.raw);
        var value := Resolve(cfg, old(State()), token.kind.raw, token.kind.style);
        if checked.Err? then r == Err(checked.error)
        else if value.Err? then r == Err(value.error)
        else
          var key := Event.Scalar(NodeMeta(None, None, token.span), value.value, token.kind.style, token.kind.raw);
          r.Ok? && Consistent() && State() == M.SetTop(M.Emit(old(State()).(pos := old(Pos()) + 1), key), frame)
      ensures r.Err? ==> outbox == old(outbox)
    {
      hide Resolve, RejectMergeKey;
      var _ :- RejectMergeKey(cfg, token.kind.raw);
      var value :- ResolveScalar(token.kind.raw, token.kind.style);
      Emit(Event.Scalar(NodeMeta(None, None, token.span), value, token.kind.style, token.kind.raw));
      Pop();
      SetTop(frame);
      return Ok(());
    }

    /** The colon of an entry and the trivia around it. */
    method PassColon() returns (r: Result<Span, ErrorKind>)
      requires Consistent()
      modifies this`lexed, this`lookahead
      ensures Consistent()
      ensures var m := Skip(tokens, old(State()));
        if m.pos >= |tokens| then r == Err(UnexpectedEof)
        else if !tokens[m.pos].kind.Colon? then r == Err(UnexpectedCharacter)
        else r == Ok(tokens[m.pos].span) && State() == Skip(tokens, m.(pos := m.pos + 1))
    {
      SkipTrivia();
      var colon := TokenAt(0);
      if colon.None? {
        return Err(UnexpectedEof);
      }
      if !colon.value.kind.Colon? {
        return Err(UnexpectedCharacter);
      }
      Pop();
      SkipTrivia();
      return Ok(colon.value.span);
    }

    method StepBlockColon() returns (r: Result<(), ErrorKind>)
      requires Consistent() && frames != []
      modifies this
      ensures Did(M.StepBlockColon(cfg, tokens, old(State())), r)
      ensures delivered == old(delivered) && (r.Err? ==> outbox == old(outbox))
    {
      hide M.BeginValue, Skip, M.Emit;
      var colon :- PassColon();
      var frame := frames[|frames| - 1];
      SetTop(frame.(state := AfterValue));
      if G.ValueFollowsKey(tokens, Pos(), frame.keyCol, frame.keyLine) {
        r := BeginValue();
      } else {
        Emit(NullEvent(colon));
        return Ok(());
      }
    }

    method StepBlockSequence() returns (r: Result<(), ErrorKind>)
      requires Consistent() && frames != []
      modifies this
      ensures Did(M.StepBlockSequence(cfg, tokens, old(State())), r)
      ensures delivered == old(delivered) && (r.Err? ==> outbox == old(outbox))
    {
      hide M.BeginValue, M.CloseSequence, G.SkipPos, G.ValueFollowsDash, M.Emit;
      SkipTrivia();
      var frame := frames[|frames| - 1];
      var front := TokenAt(0);
      if front.None? || !front.value.kind.SequenceEntry?
         || (frame.entryCol.Some? && front.value.span.column != frame.entryCol.value) {
        r := Close(SequenceEnd);
        return;
      }
      var dash := front.value.span;
      SetTop(frame.(entryCol := Some(dash.column)));
      Pop();
      if G.ValueFollowsDash(tokens, Pos(), dash.column, dash.line) {
        r := BeginValue();
      } else {
        Emit(NullEvent(dash));
        return Ok(());
      }
    }

    // ----- Flow collections

    method StepFlowSequence() returns (r: Result<(), ErrorKind>)
      requires Consistent() && frames != []
      modifies this
      ensures Did(M.StepFlowSequence(cfg, tokens, old(State())), r)
      ensures delivered == old(delivered) && (r.Err? ==> outbox == old(outbox))
    {
      hide M.BeginValue, M.CloseSequence;
      SkipTrivia();
      var frame := frames[|frames| - 1];
      var front := TokenAt(0);
      if front.None? {
        r := Close(SequenceEnd);
      } else if frame.state.BeginEntry? {
        if front.value.kind.RightBracket? {
          Pop();
          r := Close(SequenceEnd);
        } else if front.value.kind.Comma? {
          Pop();
          r := Ok(());
        } else {
          SetTop(frame.(state := AfterValue));
          r := BeginValue();
        }
      } else if front.value.kind.Comma? || front.value.kind.RightBracket? {
        SetTop(frame.(state := BeginEntry));
        r := Ok(());
      } else {
        r := Err(UnexpectedCharacter);
      }
    }

    /** A flow key: a scalar under anchors and tags, of which only the first of each is kept. */
    method ParseFlowKey() returns (r: Result<(), ErrorKind>)
      requires Consistent()
      modifies this
      ensures Did(ParseFlowKeyM(cfg, tokens, old(State())), r)
      ensures delivered == old(delivered) && (r.Err? ==> outbox == old(outbox))
      ensures frames == old(frames)
    {
      hide M.EmitFlowKey;
      var anchor, tag, p := ReadKeyPrefix();
      EmitFlowKeyAnywhere(cfg, tokens, old(State()), p);
      r := EmitFlowKey(anchor, tag, p);
    }

    /** The first anchor and the first tag in front of a flow key; later ones are dropped. */
    method ReadKeyPrefix() returns (anchor: Option<(string, Span)>, tag: Option<string>, ghost p: Prefix)
      requires Consistent()
      modifies this`lexed, this`lookahead
      ensures Consistent() && State() == old(State()).(pos := p.pos)
      ensures p == ReadPrefix(tokens, Prefix(G.SkipPos(tokens, old(Pos())), None, None, []))
      ensures KeptOnly(p, anchor, tag)
    {
      hide G.SkipPos, ReadPrefix, KeptOnly, PastProperty;
      SkipTrivia();
      anchor, tag := None, None;
      p := Prefix(Pos(), None, None, []);
      NothingKept(p);
      while true
        invariant Consistent() && p.pos == Pos() && KeptOnly(p, anchor, tag)
        invariant ReadPrefix(tokens, p) == ReadPrefix(tokens, Prefix(G.SkipPos(tokens, old(Pos())), None, None, []))
        decreases |tokens| - Pos()
      {
        var token := TokenAt(0);
        PrefixStep(tokens, p);
        if token.None? || !(token.value.kind.Anchor? || token.value.kind.Tag?) {
          return;
        }
        KeepFirst(p, anchor, tag, token.value, G.SkipPos(tokens, p.pos + 1));
        Pop();
        if token.value.kind.Anchor? {
          anchor := if anchor.None? then Some((token.value.kind.name, token.value.span)) else anchor;
        } else {
          tag := if tag.None? then Some(token.value.kind.name) else tag;
        }
        SkipTrivia();
        p := PastProperty(p, token.value, Pos());
      }
    }

    method EmitFlowKey(anchor: Option<(string, Span)>, tag: Option<string>, ghost p: Prefix)
      returns (r: Result<(), ErrorKind>)
      requires Consistent() && Pos() == p.pos && KeptOnly(p, anchor, tag)
      modifies this
      ensures Did(M.EmitFlowKey(cfg, tokens, old(State()), p), r)
      ensures delivered == old(delivered) && (r.Err? ==> outbox == old(outbox))
      ensures frames == old(frames)
    {
      hide RejectMergeKey, Resolve, M.Emit, M.RegisterAnchors;
      var front := TokenAt(0);
      if front.None? {
        return Err(UnexpectedEof);
      }
      var token := front.value;
      if !token.kind.Scalar? {
        return Err(UnexpectedCharacter);
      }
      var _ :- RejectMergeKey(cfg, token.kind.raw);
      var value :- ResolveScalar(token.kind.raw, token.kind.style);
      Pop();
      var _ :- RegisterAnchors(if anchor.Some? then [anchor.value] else []);
      var name := if anchor.Some? then Some(anchor.value.0) else None;
      Emit(Event.Scalar(NodeMeta(name, tag, token.span), value, token.kind.style, token.kind.raw));
      return Ok(());
    }

    method StepFlowColon() returns (r: Result<(), ErrorKind>)
      requires Consistent() && frames != []
      modifies this
      ensures Did(M.StepFlowColon(cfg, tokens, old(State())), r)
      ensures delivered == old(delivered) && (r.Err? ==> outbox == old(outbox))
    {
      hide M.BeginValue, Skip, M.Emit;
      var colon :- PassColon();
      SetTop(frames[|frames| - 1].(state := AfterValue));
      var front := TokenAt(0);
      if front.None? || front.value.kind.Comma? || front.value.kind.RightBrace? {
        Emit(NullEvent(colon));
        return Ok(());
      }
      r := BeginValue();
    }

    method StepFlowMapping() returns (r: Result<(), ErrorKind>)
      requires Consistent() && frames != []
      modifies this
      ensures Did(M.StepFlowMapping(cfg, tokens, old(State())), r)
      ensures delivered == old(delivered) && (r.Err? ==> outbox == old(outbox))
    {
      hide M.StepFlowColon, M.CloseMapping, ParseFlowKeyM;
      var frame := frames[|frames| - 1];
      if frame.state.ExpectColon? {
        r := StepFlowColon();
        return;
      }
      SkipTrivia();
      var front := TokenAt(0);
      if front.None? {
        r := Close(MappingEnd);
      } else if frame.state.BeginEntry? {
        if front.value.kind.RightBrace? {
          Pop();
          r := Close(MappingEnd);
        } else if front.value.kind.Comma? {
          Pop();
          r := Ok(());
        } else {
          var _ :- ParseFlowKey();
          SetTop(frame.(state := ExpectColon));
          r := Ok(());
        }
      } else if front.value.kind.Comma? || front.value.kind.RightBrace? {
        SetTop(frame.(state := BeginEntry));
        r := Ok(());
      } else {
        r := Err(UnexpectedCharacter);
      }
    }

    // ----- The driver

    method Step() returns (r: Result<(), ErrorKind>)
      requires Consistent() && !finished
      modifies this
      ensures Did(M.Step(cfg, tokens, old(State())), r)
      ensures delivered == old(delivered) && (r.Err? ==> outbox == old(outbox))
    {
      hide M.StepStream, M.StepDocument, M.StepBlockMapping, M.StepBlockSequence, M.StepFlowMapping, M.StepFlowSequence;
      if frames == [] {
        r := StepStream();
        return;
      }
      match frames[|frames| - 1].kind {
        case DocumentFrame => r := StepDocument();
        case BlockMapping => r := StepBlockMapping();
        case BlockSequence => r := StepBlockSequence();
        case FlowMapping => r := StepFlowMapping();
        case FlowSequence => r := StepFlowSequence();
      }
    }

    /** The run from `m` stops with this error, right behind the events delivered so far. */
    ghost predicate Fails(m: M.Machine, e: ErrorKind)
      reads this
    {
      Valid(tokens, m) && Final(Gr(), m).1 == Some(e) && Final(Gr(), m).0.log == delivered
    }

    /** Steps until an event is queued or the stream is over; an error leaves nothing queued. */
    method Pump() returns (r: Result<(), ErrorKind>)
      requires Consistent() && Valid(tokens, State()) && outbox == []
      modifies this
      ensures delivered == old(delivered)
      ensures r.Ok? ==> Consistent() && Valid(tokens, State()) && Final(Gr(), State()) == Final(Gr(), old(State()))
      ensures r.Ok? ==> outbox != [] || finished
      ensures r.Ok? && !old(finished) ==> Decreases(tokens, old(State()), State())
      ensures r.Err? ==> Fails(old(State()), r.error) && outbox == []
    {
      hide M.Step, Valid;
      while outbox == [] && !finished
        invariant Consistent() && Valid(tokens, State()) && delivered == old(delivered)
        invariant Final(Gr(), State()) == Final(Gr(), old(State()))
        invariant State() == old(State()) || Decreases(tokens, old(State()), State())
        decreases StreamRank(State()), |tokens| - Pos(), FreshRank(State()), Weights(frames)
      {
        StepKeeps(cfg, tokens, State());
        assert delivered + [] == delivered;
        var _ :- Step();
      }
      return Ok(());
    }

    /** The next event of the run, or none once the stream is exhausted. */
    method NextEvent() returns (r: Result<Option<Event<string>>, ErrorKind>)
      requires Consistent() && Valid(tokens, State())
      modifies this
      ensures r.Ok? ==>
        && Consistent() && Valid(tokens, State()) && Final(Gr(), State()) == Final(Gr(), old(State()))
        && delivered == old(delivered) + (if r.value.Some? then [r.value.value] else [])
        && (r.value.None? ==> finished && outbox == [])
        && (r.value.Some? ==>
            Decreases(tokens, old(State()), State()) || (State() == old(State()) && |outbox| < old(|outbox|)))
      ensures r.Err? ==> Fails(old(State()), r.error) && outbox == [] && delivered == old(delivered)
    {
      hide M.Step, Valid;
      if outbox == [] {
        if finished {
          assert delivered == old(delivered) + [];
          return Ok(None);
        }
        var _ :- Pump();
      }
      if outbox == [] {
        assert delivered == old(delivered) + [];
        return Ok(None);
      }
      var event := outbox[0];
      assert delivered + outbox == delivered + [event] + outbox[1..];
      delivered := delivered + [event];
      outbox := outbox[1..];
      return Ok(Some(event));
    }

    /** Pulls every event; the result is the outcome of the whole run. */
    method CollectEvents() returns (r: Result<seq<Event<string>>, ErrorKind>)
      requires Consistent() && State() == InitialMachine(cfg) && outbox == [] && delivered == []
      modifies this
      ensures Valid(tokens, InitialMachine(cfg))
      ensures match Run(G.Grammar(cfg, G.FirstAnchor, tokens), InitialMachine(cfg))
        case Err(e) => r == Err(e)
        case Ok(m) => r == Ok(m.log)
    {
      hide M.Step, Valid;
      InitialValid(cfg, tokens);
      FinalIsRun(Gr(), InitialMachine(cfg));
      hide Run;
      var events: seq<Event<string>> := [];
      while true
        invariant Consistent() && Valid(tokens, State()) && delivered == events
        invariant Final(Gr(), State()) == Final(Gr(), InitialMachine(cfg))
        decreases StreamRank(State()), |tokens| - Pos(), FreshRank(State()), Weights(frames), |outbox|
      {
        var event :- NextEvent();
        if event.None? {
          assert delivered + outbox == events;
          return Ok(events);
        }
        events := events + [event.value];
      }
    }
  }
}
