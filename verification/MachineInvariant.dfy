/** What every reachable machine state satisfies, and why every run ends. */
module MachineInvariant {
  import opened Prelude
  import opened Syntax
  import opened Events
  import opened Grammar
  import opened Machine
  import opened Runs

  // ----- Well-formed event streams, independently of the machine

  /** An open bracket, and what may come next inside it. */
  datatype Context = DocumentContext(full: bool) | MappingContext(wantsValue: bool) | SequenceContext

  datatype Reading = Before | Inside(open: seq<Context>) | After | Malformed

  /** What an open bracket becomes when one node is delivered to it. */
  function Delivered(context: Context): Option<Context> {
    match context
    case DocumentContext(full) => if full then None else Some(DocumentContext(true))
    case MappingContext(wantsValue) => Some(MappingContext(!wantsValue))
    case SequenceContext => Some(SequenceContext)
  }

  /** One node goes to the innermost open bracket. */
  function Deliver(open: seq<Context>): Option<seq<Context>> {
    if open == [] then None else
    match Delivered(open[|open| - 1])
    case None => None
    case Some(context) => Some(open[..|open| - 1] + [context])
  }

  function DeliverAnd(open: seq<Context>, inner: seq<Context>): Reading {
    match Deliver(open)
    case None => Malformed
    case Some(open') => Inside(open' + inner)
  }

  function CloseOf(open: seq<Context>, expected: Context): Reading {
    if open != [] && open[|open| - 1] == expected then Inside(open[..|open| - 1]) else Malformed
  }

  /** A document holds one node, a mapping alternates keys and values, and every bracket closes its own. */
  function Read(r: Reading, event: Event<string>): Reading {
    match r
    case Before => if event.StreamStart? then Inside([]) else Malformed
    case Inside(open) =>
      (match event
       case StreamStart => Malformed
       case StreamEnd => if open == [] then After else Malformed
       case DocumentStart => if open == [] then Inside([DocumentContext(false)]) else Malformed
       case DocumentEnd => if |open| == 1 then CloseOf(open, DocumentContext(true)) else Malformed
       case MappingStart(_) => DeliverAnd(open, [MappingContext(false)])
       case SequenceStart(_) => DeliverAnd(open, [SequenceContext])
       case MappingEnd => CloseOf(open, MappingContext(false))
       case SequenceEnd => CloseOf(open, SequenceContext)
       case Scalar(_, _, _, _) => DeliverAnd(open, [])
       case Alias(_, _) => DeliverAnd(open, []))
    case After => Malformed
    case Malformed => Malformed
  }

  function ReadAll(events: seq<Event<string>>): Reading {
    if events == [] then Before else Read(ReadAll(events[..|events| - 1]), events[|events| - 1])
  }

  lemma ReadLast(events: seq<Event<string>>, event: Event<string>)
    ensures ReadAll(events + [event]) == Read(ReadAll(events), event)
  {
    assert (events + [event])[..|events|] == events;
  }

  // ----- The invariant

  function ContextOf(frame: Frame): Context {
    match frame.kind
    case DocumentFrame => DocumentContext(!frame.state.BeginEntry?)
    case BlockMapping => MappingContext(frame.state.ExpectColon?)
    case FlowMapping => MappingContext(frame.state.ExpectColon?)
    case BlockSequence => SequenceContext
    case FlowSequence => SequenceContext
  }

  function Contexts(frames: seq<Frame>): (open: seq<Context>)
    ensures |open| == |frames|
  {
    seq(|frames|, i requires 0 <= i < |frames| => ContextOf(frames[i]))
  }

  /** A block frame that has not read its first key or dash yet. */
  predicate Fresh(frame: Frame) {
    (frame.kind.BlockMapping? || frame.kind.BlockSequence?) && frame.entryCol.None?
  }

  /** A frame with a child above it, or whose child has just been delivered. */
  predicate Waiting(frame: Frame) {
    match frame.kind
    case DocumentFrame => frame.state.AfterValue?
    case BlockMapping => !frame.state.BeginEntry? && frame.entryCol.Some?
    case BlockSequence => frame.state.BeginEntry? && frame.entryCol.Some?
    case FlowMapping => frame.state.AfterValue?
    case FlowSequence => frame.state.AfterValue?
  }

  /** A frame the driver may find on top; a fresh one has its own key or dash in front of it. */
  predicate Runnable(tokens: seq<Token>, pos: nat, frame: Frame) {
    && (frame.kind.DocumentFrame? || frame.kind.FlowSequence? ==> !frame.state.ExpectColon?)
    && (frame.kind.BlockSequence? ==> frame.state.BeginEntry?)
    && (frame.kind.BlockMapping? && !frame.state.BeginEntry? ==> frame.entryCol.Some?)
    && (Fresh(frame) ==>
          && pos < |tokens|
          && (frame.kind.BlockMapping? ==> tokens[pos].kind.MappingKey? || tokens[pos].kind.Scalar?)
          && (frame.kind.BlockSequence? ==> tokens[pos].kind.SequenceEntry?))
  }

  /** Only the bottom frame is a document's, and every frame below the top waits for its child. */
  ghost predicate Stacked(frames: seq<Frame>) {
    && (forall i | 0 <= i < |frames| :: frames[i].kind.DocumentFrame? <==> i == 0)
    && (forall i | 0 <= i < |frames| - 1 :: Waiting(frames[i]))
  }

  ghost predicate Valid(tokens: seq<Token>, m: Machine) {
    && m.pos <= |tokens|
    && Stacked(m.frames)
    && (m.frames != [] ==> m.stream.BetweenDocuments? && m.documents > 0 && Runnable(tokens, m.pos, Top(m)))
    && (m.finished <==> m.stream.Finished?)
    && (m.stream.Start? ==> m.documents == 0)
    && (m.frames == [] && m.stream.BetweenDocuments? && m.documents > 0 ==>
          AtEof(tokens, m.pos) || tokens[m.pos].kind.DocumentStart?)
    && ReadAll(m.log)
      == (match m.stream case Start => Before case BetweenDocuments => Inside(Contexts(m.frames))
          case Finished => After)
  }

  // ----- The measure

  function Weight(frame: Frame): nat {
    if frame.kind.DocumentFrame? then (if frame.state.BeginEntry? then 2 else 1)
    else if frame.state.BeginEntry? then 1 else 2
  }

  function Weights(frames: seq<Frame>): nat {
    if frames == [] then 0 else Weights(frames[..|frames| - 1]) + Weight(frames[|frames| - 1])
  }

  function StreamRank(m: Machine): nat {
    if m.finished then 0 else if m.stream.Start? then 3 else if m.documents == 0 then 2 else 1
  }

  function FreshRank(m: Machine): nat {
    if m.frames != [] && Fresh(Top(m)) then 0 else 1
  }

  /** Stages of the stream, then tokens left, then whether a fresh frame is about to read its token. */
  ghost predicate Decreases(tokens: seq<Token>, m: Machine, m': Machine)
    requires m.pos <= |tokens| && m'.pos <= |tokens|
  {
    || StreamRank(m') < StreamRank(m)
    || (StreamRank(m') == StreamRank(m) &&
        (|| m.pos < m'.pos
         || (m.pos == m'.pos &&
             (|| FreshRank(m') < FreshRank(m)
              || (FreshRank(m') == FreshRank(m) && Weights(m'.frames) < Weights(m.frames))))))
  }

  /** A step from a valid state either fails, or leads to a valid state that is closer to the end. */
  ghost predicate Progresses(tokens: seq<Token>, m: Machine, r: Stepped) {
    r.Ok? ==> Valid(tokens, r.value) && m.pos <= |tokens| && Decreases(tokens, m, r.value)
  }

  // ----- Frames and brackets

  lemma WeightsSnoc(frames: seq<Frame>, frame: Frame)
    ensures Weights(frames + [frame]) == Weights(frames) + Weight(frame)
  {
    assert (frames + [frame])[..|frames|] == frames;
  }

  lemma ContextsSnoc(frames: seq<Frame>, frame: Frame)
    ensures Contexts(frames + [frame]) == Contexts(frames) + [ContextOf(frame)]
  {
  }

  /** Everything below the top frame is as it was. */
  ghost predicate SameBelow(m: Machine, m': Machine) {
    && m.frames != [] && m'.frames != []
    && m.frames[..|m.frames| - 1] == m'.frames[..|m'.frames| - 1]
    && (Top(m).kind.DocumentFrame? <==> Top(m').kind.DocumentFrame?)
  }

  lemma StackedTop(m: Machine, m': Machine)
    requires Stacked(m.frames) && SameBelow(m, m')
    ensures Stacked(m'.frames)
    ensures Contexts(m'.frames) == Contexts(m.frames[..|m.frames| - 1]) + [ContextOf(Top(m'))]
    ensures Contexts(m.frames) == Contexts(m.frames[..|m.frames| - 1]) + [ContextOf(Top(m))]
    ensures Weights(m'.frames) == Weights(m.frames[..|m.frames| - 1]) + Weight(Top(m'))
    ensures Weights(m.frames) == Weights(m.frames[..|m.frames| - 1]) + Weight(Top(m))
  {
    var below := m.frames[..|m.frames| - 1];
    assert m.frames == below + [Top(m)];
    assert m'.frames == below + [Top(m')];
    ContextsSnoc(below, Top(m));
    ContextsSnoc(below, Top(m'));
    WeightsSnoc(below, Top(m));
    WeightsSnoc(below, Top(m'));
    assert forall i | 0 <= i < |m'.frames| - 1 :: m'.frames[i] == below[i] == m.frames[i];
  }

  lemma StackedPush(frames: seq<Frame>, frame: Frame)
    requires Stacked(frames) && frames != [] && Waiting(frames[|frames| - 1]) && !frame.kind.DocumentFrame?
    ensures Stacked(frames + [frame])
    ensures Contexts(frames + [frame]) == Contexts(frames) + [ContextOf(frame)]
  {
    ContextsSnoc(frames, frame);
  }

  lemma StackedPop(m: Machine)
    requires Stacked(m.frames) && m.frames != []
    ensures Stacked(PopFrame(m).frames)
    ensures Contexts(m.frames) == Contexts(PopFrame(m).frames) + [ContextOf(Top(m))]
    ensures Weights(PopFrame(m).frames) < Weights(m.frames)
    ensures |m.frames| > 1 ==> Waiting(Top(PopFrame(m)))
  {
    var below := m.frames[..|m.frames| - 1];
    assert m.frames == below + [Top(m)];
    ContextsSnoc(below, Top(m));
    WeightsSnoc(below, Top(m));
  }

  // ----- Values

  /** The frames wait for a value whose delivery the events are about to record. */
  ghost predicate Receptive(m: Machine) {
    && m.frames != [] && Stacked(m.frames) && Waiting(Top(m))
    && m.stream.BetweenDocuments? && !m.finished && m.documents > 0
    && ReadAll(m.log).Inside?
    && Deliver(ReadAll(m.log).open) == Some(Contexts(m.frames))
  }

  lemma {:induction false} PrefixProgress(tokens: seq<Token>, p: Prefix)
    requires p.pos <= |tokens| && SkipPos(tokens, p.pos) == p.pos
    ensures SkipPos(tokens, ReadPrefix(tokens, p).pos) == ReadPrefix(tokens, p).pos
    decreases |tokens| - p.pos
  {
    if p.pos < |tokens| {
      match tokens[p.pos].kind
      case Anchor(name) =>
        PrefixProgress(tokens,
                       Prefix(SkipPos(tokens, p.pos + 1), First(p.anchor, name), p.tag,
                              p.pending + [(name, tokens[p.pos].span)]));
      case Tag(name) =>
        PrefixProgress(tokens, p.(pos := SkipPos(tokens, p.pos + 1), tag := First(p.tag, name)));
      case _ =>
    }
  }

  lemma LeafKeeps(tokens: seq<Token>, m: Machine, m': Machine, event: Event<string>)
    requires Receptive(m) && m'.pos <= |tokens| && (event.Scalar? || event.Alias?)
    requires m' == m.(pos := m'.pos, anchors := m'.anchors, log := m.log + [event])
    ensures Valid(tokens, m') && !m'.finished
  {
    hide ReadAll;
    ReadLast(m.log, event);
    assert Contexts(m.frames) + [] == Contexts(m.frames);
  }

  lemma OpenKeeps(tokens: seq<Token>, m: Machine, m': Machine, frame: Frame, event: Event<string>)
    requires Receptive(m) && m'.pos <= |tokens| && !frame.kind.DocumentFrame? && Runnable(tokens, m'.pos, frame)
    requires (event.MappingStart? && ContextOf(frame) == MappingContext(false))
      || (event.SequenceStart? && ContextOf(frame) == SequenceContext)
    requires m' == m.(pos := m'.pos, frames := m.frames + [frame], log := m.log + [event])
    ensures Valid(tokens, m') && Top(m') == frame && !m'.finished
  {
    hide ReadAll;
    ReadLast(m.log, event);
    StackedPush(m.frames, frame);
  }

  /** A value emits one node, or opens one collection and pushes its frame. */
  lemma DispatchKeeps(cfg: Config, tokens: seq<Token>, m: Machine, p: Prefix)
    requires Receptive(m) && p.pos <= |tokens|
    ensures var r := Dispatch(cfg, tokens, m, p);
      r.Ok? ==>
        && Valid(tokens, r.value) && r.value.stream == m.stream && r.value.documents == m.documents && !r.value.finished
        && (r.value.pos == p.pos ==> FreshRank(r.value) == 0)
  {
    hide Receptive, Valid;
    var r := Dispatch(cfg, tokens, m, p);
    if r.Ok? {
      var m' := r.value;
      var token := tokens[p.pos];
      var meta := NodeMeta(p.anchor, p.tag, token.span);
      match token.kind
      case LeftBrace => OpenKeeps(tokens, m, m', NewFrame(FlowMapping, p.pending), MappingStart(meta));
      case LeftBracket => OpenKeeps(tokens, m, m', NewFrame(FlowSequence, p.pending), SequenceStart(meta));
      case SequenceEntry => OpenKeeps(tokens, m, m', NewFrame(BlockSequence, p.pending), SequenceStart(meta));
      case MappingKey => OpenKeeps(tokens, m, m', NewFrame(BlockMapping, p.pending), MappingStart(meta));
      case Scalar(raw, style, _) =>
        if PeekIsColon(tokens, p.pos) {
          OpenKeeps(tokens, m, m', NewFrame(BlockMapping, p.pending), MappingStart(meta));
        } else {
          LeafKeeps(tokens, m, m', Event.Scalar(meta, Resolve(cfg, m, raw, style).value, style, raw));
        }
      case BlockScalar(indicator, text) =>
        LeafKeeps(tokens, m, m',
                  Event.Scalar(meta, String(text), if indicator.Literal? then BlockLiteral else BlockChomped, text));
      case Alias(name) => LeafKeeps(tokens, m, m', Event.Alias(meta, name));
    }
  }

  lemma BeginValueKeeps(cfg: Config, tokens: seq<Token>, m: Machine)
    requires Receptive(m) && m.pos <= |tokens|
    ensures var r := BeginValue(cfg, tokens, m);
      r.Ok? ==>
        && Valid(tokens, r.value) && r.value.stream == m.stream && r.value.documents == m.documents && !r.value.finished
        && (r.value.pos == m.pos ==> FreshRank(r.value) == 0)
  {
    hide Dispatch;
    var p := ReadPrefix(tokens, Prefix(SkipPos(tokens, m.pos), None, None, []));
    DispatchKeeps(cfg, tokens, m, p);
  }

  lemma EmitNullKeeps(tokens: seq<Token>, m: Machine, span: Span)
    requires Receptive(m) && m.pos <= |tokens|
    ensures Valid(tokens, EmitNull(m, span))
  {
    ReadLast(m.log, NullEvent(span));
    assert Contexts(m.frames) + [] == Contexts(m.frames);
  }

  lemma CloseKeeps(tokens: seq<Token>, m: Machine, skipped: Machine, r: Stepped)
    requires Valid(tokens, m) && m.frames != [] && |m.frames| > 1
    requires skipped == m.(pos := skipped.pos) && m.pos <= skipped.pos <= |tokens|
    requires !Fresh(Top(m))
    requires || (r == CloseMapping(skipped) && ContextOf(Top(m)) == MappingContext(false))
             || (r == CloseSequence(skipped) && ContextOf(Top(m)) == SequenceContext)
    ensures Progresses(tokens, m, r)
  {
    StackedPop(m);
    if r.Ok? {
      var event: Event<string> := if ContextOf(Top(m)).MappingContext? then MappingEnd else SequenceEnd;
      assert r.value.log == m.log + [event];
      ReadLast(m.log, event);
      assert Contexts(m.frames)[..|m.frames| - 1] == Contexts(PopFrame(m).frames);
    }
  }

  // ----- Steps

  /** Changing the top frame so that it waits for the node its context has just been promised. */
  lemma ReceptiveTop(tokens: seq<Token>, m: Machine, m': Machine)
    requires Valid(tokens, m) && m.frames != [] && !m.finished
    requires SameBelow(m, m') && m' == m.(pos := m'.pos, frames := m'.frames) && Waiting(Top(m'))
    requires Delivered(ContextOf(Top(m))) == Some(ContextOf(Top(m')))
    ensures Receptive(m')
    ensures FreshRank(m') == 1
  {
    StackedTop(m, m');
    var below := Contexts(m.frames[..|m.frames| - 1]);
    assert (below + [ContextOf(Top(m))])[..|below|] == below;
  }

  lemma StepBlockSequenceKeeps(cfg: Config, tokens: seq<Token>, m: Machine)
    requires Valid(tokens, m) && !m.finished && m.frames != [] && Top(m).kind.BlockSequence?
    ensures Progresses(tokens, m, StepBlockSequence(cfg, tokens, m))
  {
    hide BeginValue, CloseSequence, ReadAll;
    var m0 := Skip(tokens, m);
    var r := StepBlockSequence(cfg, tokens, m);
    if m0.pos >= |tokens| || !tokens[m0.pos].kind.SequenceEntry?
       || (Top(m).entryCol.Some? && tokens[m0.pos].span.column != Top(m).entryCol.value) {
      CloseKeeps(tokens, m, m0, r);
    } else {
      var dash := tokens[m0.pos].span;
      var m1 := SetTop(m0.(pos := m0.pos + 1), Top(m).(entryCol := Some(dash.column)));
      ReceptiveTop(tokens, m, m1);
      BeginValueKeeps(cfg, tokens, m1);
      EmitNullKeeps(tokens, m1, dash);
    }
  }

  lemma StepBlockColonKeeps(cfg: Config, tokens: seq<Token>, m: Machine)
    requires Valid(tokens, m) && !m.finished && m.frames != [] && Top(m).kind.BlockMapping? && Top(m).state.ExpectColon?
    ensures Progresses(tokens, m, StepBlockColon(cfg, tokens, m))
  {
    hide BeginValue, ReadAll;
    var m0 := Skip(tokens, m);
    if m0.pos < |tokens| && tokens[m0.pos].kind.Colon? {
      var m1 := SetState(Skip(tokens, m0.(pos := m0.pos + 1)), AfterValue);
      ReceptiveTop(tokens, m, m1);
      BeginValueKeeps(cfg, tokens, m1);
      EmitNullKeeps(tokens, m1, tokens[m0.pos].span);
    }
  }

  lemma ComplexKeyKeeps(cfg: Config, tokens: seq<Token>, m: Machine, key: Span, pos: nat)
    requires Valid(tokens, m) && !m.finished && m.frames != [] && Top(m).kind.BlockMapping? && Top(m).state.BeginEntry?
    requires m.pos < pos <= |tokens|
    ensures var frame :=
      Top(m).(entryCol := Some(key.column), keyCol := key.column, keyLine := key.line, state := ExpectColon);
      Progresses(tokens, m, BeginValue(cfg, tokens, SetTop(m.(pos := pos), frame)))
  {
    hide BeginValue, ReadAll;
    var frame := Top(m).(entryCol := Some(key.column), keyCol := key.column, keyLine := key.line, state := ExpectColon);
    var m1 := SetTop(m.(pos := pos), frame);
    ReceptiveTop(tokens, m, m1);
    BeginValueKeeps(cfg, tokens, m1);
  }

  lemma StepBlockKeyKeeps(cfg: Config, tokens: seq<Token>, m: Machine)
    requires Valid(tokens, m) && !m.finished && m.frames != [] && Top(m).kind.BlockMapping? && Top(m).state.BeginEntry?
    ensures Progresses(tokens, m, StepBlockKey(cfg, tokens, m))
  {
    hide BeginValue, CloseMapping, ReadAll, Resolve, Weights, Contexts, Decreases;
    var m0 := Skip(tokens, m);
    var r := StepBlockKey(cfg, tokens, m);
    if m0.pos >= |tokens| || !(tokens[m0.pos].kind.MappingKey? || tokens[m0.pos].kind.Scalar?)
       || (Top(m).entryCol.Some? && tokens[m0.pos].span.column != Top(m).entryCol.value) {
      CloseKeeps(tokens, m, m0, r);
    } else if tokens[m0.pos].kind.MappingKey? {
      ComplexKeyKeeps(cfg, tokens, m, tokens[m0.pos].span, SkipPos(tokens, m0.pos + 1));
    } else if r.Ok? {
      BareKeyKeeps(tokens, m, r.value);
    }
  }

  /** A scalar key is delivered to its mapping, whose frame then waits for the colon. */
  lemma BareKeyKeeps(tokens: seq<Token>, m: Machine, m': Machine)
    requires Valid(tokens, m) && m.frames != [] && !m.finished
    requires (Top(m).kind.BlockMapping? || Top(m).kind.FlowMapping?) && Top(m).state.BeginEntry?
    requires SameBelow(m, m') && m' == m.(pos := m'.pos, frames := m'.frames, anchors := m'.anchors, log := m'.log)
    requires Top(m').kind == Top(m).kind && Top(m').state.ExpectColon?
      && (Top(m).kind.BlockMapping? ==> Top(m').entryCol.Some?)
    requires m'.log != [] && m'.log == m.log + [m'.log[|m'.log| - 1]] && m'.log[|m'.log| - 1].Scalar?
    requires m.pos < m'.pos <= |tokens|
    ensures Valid(tokens, m') && Decreases(tokens, m, m')
  {
    hide ReadAll;
    StackedTop(m, m');
    var below := Contexts(m.frames[..|m.frames| - 1]);
    ReadLast(m.log, m'.log[|m'.log| - 1]);
    assert (below + [ContextOf(Top(m))])[..|below|] == below;
    assert Contexts(m'.frames) + [] == Contexts(m'.frames);
  }

  /** A frame that only changes state, without delivering anything. */
  lemma ResumeKeeps(tokens: seq<Token>, m: Machine, m': Machine)
    requires Valid(tokens, m) && m.frames != [] && !m.finished && Top(m).state.AfterValue?
      && !Top(m).kind.DocumentFrame?
    requires m' == SetState(m.(pos := m'.pos), BeginEntry) && m.pos <= m'.pos <= |tokens|
    ensures Valid(tokens, m') && Decreases(tokens, m, m')
  {
    hide ReadAll;
    StackedTop(m, m');
  }

  lemma StepBlockMappingKeeps(cfg: Config, tokens: seq<Token>, m: Machine)
    requires Valid(tokens, m) && !m.finished && m.frames != [] && Top(m).kind.BlockMapping?
    ensures Progresses(tokens, m, StepBlockMapping(cfg, tokens, m))
  {
    hide StepBlockKey, StepBlockColon, ReadAll;
    match Top(m).state
    case BeginEntry => StepBlockKeyKeeps(cfg, tokens, m);
    case ExpectColon => StepBlockColonKeeps(cfg, tokens, m);
    case AfterValue => ResumeKeeps(tokens, m, SetState(m, BeginEntry));
  }

  lemma StepFlowSequenceKeeps(cfg: Config, tokens: seq<Token>, m: Machine)
    requires Valid(tokens, m) && !m.finished && m.frames != [] && Top(m).kind.FlowSequence?
    ensures Progresses(tokens, m, StepFlowSequence(cfg, tokens, m))
  {
    hide BeginValue, CloseSequence, ReadAll;
    var m0 := Skip(tokens, m);
    var r := StepFlowSequence(cfg, tokens, m);
    if m0.pos >= |tokens| {
      CloseKeeps(tokens, m, m0, r);
    } else if Top(m).state.BeginEntry? {
      if tokens[m0.pos].kind.RightBracket? {
        CloseKeeps(tokens, m, m0.(pos := m0.pos + 1), r);
      } else if !tokens[m0.pos].kind.Comma? {
        var m1 := SetState(m0, AfterValue);
        ReceptiveTop(tokens, m, m1);
        BeginValueKeeps(cfg, tokens, m1);
      }
    } else if r.Ok? {
      ResumeKeeps(tokens, m, r.value);
    }
  }

  lemma StepFlowColonKeeps(cfg: Config, tokens: seq<Token>, m: Machine)
    requires Valid(tokens, m) && !m.finished && m.frames != [] && Top(m).kind.FlowMapping? && Top(m).state.ExpectColon?
    ensures Progresses(tokens, m, StepFlowColon(cfg, tokens, m))
  {
    hide BeginValue, ReadAll;
    var m0 := Skip(tokens, m);
    if m0.pos < |tokens| && tokens[m0.pos].kind.Colon? {
      var m1 := SetState(Skip(tokens, m0.(pos := m0.pos + 1)), AfterValue);
      ReceptiveTop(tokens, m, m1);
      BeginValueKeeps(cfg, tokens, m1);
      EmitNullKeeps(tokens, m1, tokens[m0.pos].span);
    }
  }

  lemma FlowKeyShape(cfg: Config, tokens: seq<Token>, m: Machine)
    requires m.pos <= |tokens|
    ensures var r := ParseFlowKeyM(cfg, tokens, m);
      r.Ok? ==> r.value.log != [] && r.value == m.(pos := r.value.pos, anchors := r.value.anchors, log := r.value.log)
                && r.value.log == m.log + [r.value.log[|r.value.log| - 1]] && r.value.log[|r.value.log| - 1].Scalar?
                && m.pos < r.value.pos
  {
  }

  lemma StepFlowMappingKeeps(cfg: Config, tokens: seq<Token>, m: Machine)
    requires Valid(tokens, m) && !m.finished && m.frames != [] && Top(m).kind.FlowMapping?
    ensures Progresses(tokens, m, StepFlowMapping(cfg, tokens, m))
  {
    hide StepFlowColon, CloseMapping, ReadAll, ParseFlowKeyM;
    var m0 := Skip(tokens, m);
    var r := StepFlowMapping(cfg, tokens, m);
    if Top(m).state.ExpectColon? {
      StepFlowColonKeeps(cfg, tokens, m);
    } else if m0.pos >= |tokens| {
      CloseKeeps(tokens, m, m0, r);
    } else if Top(m).state.BeginEntry? {
      if tokens[m0.pos].kind.RightBrace? {
        CloseKeeps(tokens, m, m0.(pos := m0.pos + 1), r);
      } else if !tokens[m0.pos].kind.Comma? {
        FlowKeyShape(cfg, tokens, m0);
        if r.Ok? {
          BareKeyKeeps(tokens, m, r.value);
        }
      }
    } else if r.Ok? {
      ResumeKeeps(tokens, m, r.value);
    }
  }

  lemma OpenDocumentKeeps(cfg: Config, tokens: seq<Token>, m: Machine)
    requires Valid(tokens, m) && !m.finished && m.frames != [] && Top(m).kind.DocumentFrame? && Top(m).state.BeginEntry?
    ensures Progresses(tokens, m, StepDocument(cfg, tokens, m))
  {
    hide BeginValue, ReadAll, ConsumeDirectivesM, Contexts, Weights, Receptive, Stacked, Runnable;
    var m0 := Skip(tokens, m);
    var m1 := SetState(m0, AfterValue);
    assert FreshRank(m) == 1;
    ReceptiveTop(tokens, m, m1);
    if AtEof(tokens, m0.pos) || tokens[m0.pos].kind.DocumentEnd? {
      var span := if Top(m).nullSpan.Some? then Top(m).nullSpan.value else ORIGIN;
      assert StepDocument(cfg, tokens, m) == Ok(EmitNull(m1, span));
      EmitNullKeeps(tokens, m1, span);
      StackedTop(m, m1);
    } else {
      assert StepDocument(cfg, tokens, m) == BeginValue(cfg, tokens, m1);
      BeginValueKeeps(cfg, tokens, m1);
    }
  }

  lemma EndDocumentKeeps(tokens: seq<Token>, m: Machine, m': Machine)
    requires Valid(tokens, m) && !m.finished && m.frames != [] && Top(m).kind.DocumentFrame?
      && !Top(m).state.BeginEntry?
    requires m.pos <= m'.pos <= |tokens| && (AtEof(tokens, m'.pos) || tokens[m'.pos].kind.DocumentStart?)
    requires m' == PopFrame(m).(pos := m'.pos, version := m'.version, pinned := m'.pinned,
                                log := m.log + [Event.DocumentEnd])
    ensures Valid(tokens, m') && Decreases(tokens, m, m')
  {
    hide ReadAll;
    StackedPop(m);
    assert |m.frames| == 1;
    ReadLast(m.log, Event.DocumentEnd);
    assert m'.frames == [];
    assert Contexts(m.frames)[..0] == [];
    assert Contexts(m'.frames) == [];
  }

  lemma StepDocumentKeeps(cfg: Config, tokens: seq<Token>, m: Machine)
    requires Valid(tokens, m) && !m.finished && m.frames != [] && Top(m).kind.DocumentFrame?
    ensures Progresses(tokens, m, StepDocument(cfg, tokens, m))
  {
    if Top(m).state.BeginEntry? {
      hide StepDocument;
      OpenDocumentKeeps(cfg, tokens, m);
    } else {
      hide BeginValue, ReadAll, ConsumeDirectivesM, Contexts, Weights;
      var r := StepDocument(cfg, tokens, m);
      if r.Ok? {
        EndDocumentKeeps(tokens, m, r.value);
      }
    }
  }

  lemma StepStreamKeeps(cfg: Config, tokens: seq<Token>, m: Machine)
    requires Valid(tokens, m) && !m.finished && m.frames == []
    ensures Progresses(tokens, m, StepStream(cfg, tokens, m))
  {
    hide ReadAll, ConsumeDirectivesM;
    var r := StepStream(cfg, tokens, m);
    assert Contexts([]) == [];
    if m.stream.Start? {
      ReadLast(m.log, Event.StreamStart);
    } else if r.Ok? {
      StepBetweenKeeps(cfg, tokens, m);
    }
  }

  /** The end of the stream, with the default document if there was none. */
  lemma FinishKeeps(tokens: seq<Token>, m: Machine, m': Machine)
    requires Valid(tokens, m) && !m.finished && m.frames == [] && m.stream.BetweenDocuments?
    requires m'.pos <= |tokens| && m'.frames == [] && m'.stream.Finished? && m'.finished
    requires m'.log
      == (if m.documents == 0 then m.log + [Event.DocumentStart, NullEvent(ORIGIN), Event.DocumentEnd]
          else m.log) + [StreamEnd]
    ensures Valid(tokens, m')
  {
    assert Contexts([]) == [];
    hide Contexts;
    if m.documents == 0 {
      ReadLast(m.log, Event.DocumentStart);
      ReadLast(m.log + [Event.DocumentStart], NullEvent(ORIGIN));
      ReadLast(m.log + [Event.DocumentStart] + [NullEvent(ORIGIN)], Event.DocumentEnd);
      ReadLast(m.log + [Event.DocumentStart] + [NullEvent(ORIGIN)] + [Event.DocumentEnd], Event.StreamEnd);
      assert m.log + [Event.DocumentStart, NullEvent(ORIGIN), Event.DocumentEnd] + [Event.StreamEnd]
          == m.log + [Event.DocumentStart] + [NullEvent(ORIGIN)] + [Event.DocumentEnd] + [Event.StreamEnd];
    } else {
      ReadLast(m.log, Event.StreamEnd);
    }
  }

  lemma StepBetweenKeeps(cfg: Config, tokens: seq<Token>, m: Machine)
    requires Valid(tokens, m) && !m.finished && m.frames == [] && m.stream.BetweenDocuments?
    ensures Progresses(tokens, m, StepStream(cfg, tokens, m))
  {
    hide ReadAll, ConsumeDirectivesM;
    var read := ConsumeDirectivesM(cfg, tokens, Skip(tokens, m));
    if read.Ok? {
      var m1 := read.value;
      var m2 := StepStream(cfg, tokens, m).value;
      if AtEof(tokens, m1.pos) {
        FinishKeeps(tokens, m, m2);
      } else {
        assert Contexts([]) == [];
        ReadLast(m.log, Event.DocumentStart);
        assert m2.frames == [Top(m2)];
        assert Contexts(m2.frames) == [DocumentContext(false)];
        assert m.documents > 0 ==> m.pos < m2.pos by {
          if m.documents > 0 && !tokens[m.pos].kind.Eof? {
            DirectivesStay(cfg, tokens, m);
          }
        }
      }
    }
  }

  lemma DirectivesStay(cfg: Config, tokens: seq<Token>, m: Machine)
    requires m.pos < |tokens| && tokens[m.pos].kind.DocumentStart?
    ensures ConsumeDirectivesM(cfg, tokens, Skip(tokens, m)) == Ok(m)
  {
  }

  /** Every step from a valid state keeps the invariant and brings the run closer to its end. */
  lemma StepKeeps(cfg: Config, tokens: seq<Token>, m: Machine)
    requires Valid(tokens, m) && !m.finished
    ensures Progresses(tokens, m, Step(cfg, tokens, m))
  {
    hide StepStream, StepDocument, StepBlockMapping, StepBlockSequence, StepFlowMapping, StepFlowSequence, Valid,
      Progresses;
    if m.frames == [] {
      StepStreamKeeps(cfg, tokens, m);
    } else {
      match Top(m).kind
      case DocumentFrame => StepDocumentKeeps(cfg, tokens, m);
      case BlockMapping => StepBlockMappingKeeps(cfg, tokens, m);
      case BlockSequence => StepBlockSequenceKeeps(cfg, tokens, m);
      case FlowMapping => StepFlowMappingKeeps(cfg, tokens, m);
      case FlowSequence => StepFlowSequenceKeeps(cfg, tokens, m);
    }
  }

  lemma InitialValid(cfg: Config, tokens: seq<Token>)
    ensures Valid(tokens, InitialMachine(cfg))
  {
  }

  // ----- Whole runs

  /** Runs to the end: the finished machine or the error. */
  function Run(g: Grammar, m: Machine): (r: Stepped)
    requires Valid(g.tokens, m)
    ensures r.Ok? ==> Valid(g.tokens, r.value) && r.value.finished
    decreases StreamRank(m), |g.tokens| - m.pos, FreshRank(m), Weights(m.frames)
  {
    if m.finished then Ok(m) else
    StepKeeps(g.cfg, g.tokens, m);
    var m' :- Step(g.cfg, g.tokens, m);
    Run(g, m')
  }

  /** Where the run stops: the last machine it reaches, and the error if it does not finish. */
  function Final(g: Grammar, m: Machine): (r: (Machine, Option<ErrorKind>))
    requires Valid(g.tokens, m)
    ensures Valid(g.tokens, r.0) && (r.1.None? <==> r.0.finished)
    decreases StreamRank(m), |g.tokens| - m.pos, FreshRank(m), Weights(m.frames)
  {
    if m.finished then (m, None) else
    StepKeeps(g.cfg, g.tokens, m);
    match Step(g.cfg, g.tokens, m)
    case Err(e) => (m, Some(e))
    case Ok(m') => Final(g, m')
  }

  // ----- Events are never taken back

  lemma DispatchLogs(cfg: Config, tokens: seq<Token>, m: Machine, p: Prefix)
    ensures var r := Dispatch(cfg, tokens, m, p); r.Ok? ==> m.log <= r.value.log
  {
  }

  lemma BeginValueLogs(cfg: Config, tokens: seq<Token>, m: Machine)
    requires m.pos <= |tokens|
    ensures var r := BeginValue(cfg, tokens, m); r.Ok? ==> m.log <= r.value.log
  {
    DispatchLogs(cfg, tokens, m, ReadPrefix(tokens, Prefix(SkipPos(tokens, m.pos), None, None, [])));
  }

  lemma CloseLogs(m: Machine)
    requires m.frames != []
    ensures CloseMapping(m).Ok? ==> m.log <= CloseMapping(m).value.log
    ensures CloseSequence(m).Ok? ==> m.log <= CloseSequence(m).value.log
  {
  }

  lemma BlockLogs(cfg: Config, tokens: seq<Token>, m: Machine)
    requires m.pos <= |tokens| && m.frames != []
    ensures var r := StepBlockMapping(cfg, tokens, m); r.Ok? ==> m.log <= r.value.log
    ensures var r := StepBlockSequence(cfg, tokens, m); r.Ok? ==> m.log <= r.value.log
  {
    hide BeginValue, CloseMapping, CloseSequence;
    var at := Skip(tokens, m);
    CloseLogs(at);
    if at.pos < |tokens| {
      var frame := Top(m).(entryCol := Some(tokens[at.pos].span.column), keyCol := tokens[at.pos].span.column,
                           keyLine := tokens[at.pos].span.line, state := ExpectColon);
      BeginValueLogs(cfg, tokens, SetTop(Skip(tokens, at.(pos := at.pos + 1)), frame));
      BeginValueLogs(cfg, tokens, SetState(Skip(tokens, at.(pos := at.pos + 1)), AfterValue));
      BeginValueLogs(cfg, tokens,
                     SetTop(at.(pos := at.pos + 1), Top(m).(entryCol := Some(tokens[at.pos].span.column))));
    }
  }

  lemma FlowLogs(cfg: Config, tokens: seq<Token>, m: Machine)
    requires m.pos <= |tokens| && m.frames != []
    ensures var r := StepFlowMapping(cfg, tokens, m); r.Ok? ==> m.log <= r.value.log
    ensures var r := StepFlowSequence(cfg, tokens, m); r.Ok? ==> m.log <= r.value.log
  {
    hide BeginValue, CloseMapping, CloseSequence, ParseFlowKeyM;
    var at := Skip(tokens, m);
    CloseLogs(at);
    FlowKeyShape(cfg, tokens, at);
    if at.pos < |tokens| {
      CloseLogs(at.(pos := at.pos + 1));
      BeginValueLogs(cfg, tokens, SetState(at, AfterValue));
      BeginValueLogs(cfg, tokens, SetState(Skip(tokens, at.(pos := at.pos + 1)), AfterValue));
    }
  }

  lemma StepLogs(cfg: Config, tokens: seq<Token>, m: Machine)
    requires m.pos <= |tokens|
    ensures var r := Step(cfg, tokens, m); r.Ok? ==> m.log <= r.value.log
  {
    if m.frames == [] {
      hide ConsumeDirectivesM;
    } else if Top(m).kind.DocumentFrame? {
      hide BeginValue, ConsumeDirectivesM;
      BeginValueLogs(cfg, tokens, SetState(Skip(tokens, m), AfterValue));
    } else {
      hide StepBlockMapping, StepBlockSequence, StepFlowMapping, StepFlowSequence;
      BlockLogs(cfg, tokens, m);
      FlowLogs(cfg, tokens, m);
    }
  }

  lemma {:induction false} FinalLogs(g: Grammar, m: Machine)
    requires Valid(g.tokens, m)
    ensures m.log <= Final(g, m).0.log
    decreases StreamRank(m), |g.tokens| - m.pos, FreshRank(m), Weights(m.frames)
  {
    assert m.pos <= |g.tokens|;
    hide Step, Valid;
    if !m.finished {
      StepKeeps(g.cfg, g.tokens, m);
      StepLogs(g.cfg, g.tokens, m);
      if Step(g.cfg, g.tokens, m).Ok? {
        FinalLogs(g, Step(g.cfg, g.tokens, m).value);
      }
    }
  }

  lemma {:induction false} FinalIsRun(g: Grammar, m: Machine)
    requires Valid(g.tokens, m)
    ensures var (end, error) := Final(g, m);
      Run(g, m) == if error.Some? then Err(error.value) else Ok(end)
    decreases StreamRank(m), |g.tokens| - m.pos, FreshRank(m), Weights(m.frames)
  {
    assert m.pos <= |g.tokens|;
    hide Step, Valid;
    if !m.finished {
      StepKeeps(g.cfg, g.tokens, m);
      if Step(g.cfg, g.tokens, m).Ok? {
        FinalIsRun(g, Step(g.cfg, g.tokens, m).value);
      }
    }
  }

  /** Some number of steps finishes the run or fails, and no other outcome is ever reached. */
  lemma {:induction false} RunIsSteps(g: Grammar, m: Machine, k: nat)
    requires Valid(g.tokens, m)
    requires Steps(g, m, k).Err? || Steps(g, m, k).value.finished
    ensures Run(g, m) == Steps(g, m, k)
    decreases k
  {
    if m.finished {
      FinishedStays(g, m, k);
    } else {
      StepKeeps(g.cfg, g.tokens, m);
      hide Step, Valid;
      if Step(g.cfg, g.tokens, m).Ok? && k > 0 {
        RunIsSteps(g, Step(g.cfg, g.tokens, m).value, k - 1);
      }
    }
  }

  lemma {:induction false} FinishedStays(g: Grammar, m: Machine, k: nat)
    requires m.pos <= |g.tokens| && m.finished
    ensures Steps(g, m, k) == Ok(m)
    decreases k
  {
    if k > 0 {
      FinishedStays(g, m, k - 1);
    }
  }
}
