/**
 The event parser as an explicit-stack machine: one function per step routine over the parser's
 whole state. `log` holds every event produced so far, delivered or not.
 */
module Machine {
  import opened Prelude
  import opened Syntax
  import opened Events
  import opened Grammar

  datatype FrameKind = DocumentFrame | BlockMapping | BlockSequence | FlowMapping | FlowSequence

  datatype FrameState = BeginEntry | ExpectColon | AfterValue

  datatype Frame = Frame(
    kind: FrameKind,
    state: FrameState,
    entryCol: Option<nat>,
    keyCol: nat,
    keyLine: nat,
    nullSpan: Option<Span>,
    pending: seq<(string, Span)>)

  datatype StreamState = Start | BetweenDocuments | Finished

  datatype Machine = Machine(
    pos: nat,
    frames: seq<Frame>,
    stream: StreamState,
    documents: nat,
    anchors: set<string>,
    version: YamlVersion,
    pinned: bool,
    finished: bool,
    log: seq<Event<string>>)

  type Stepped = Result<Machine, ErrorKind>

  /** A step never moves back, and never past the last token. */
  ghost predicate Forward(tokens: seq<Token>, pos: nat, r: Stepped) {
    r.Ok? ==> pos <= r.value.pos <= |tokens|
  }

  function NewFrame(kind: FrameKind, pending: seq<(string, Span)>): Frame {
    Frame(kind, BeginEntry, None, 0, 0, None, pending)
  }

  function InitialMachine(cfg: Config): Machine {
    Machine(0, [], Start, 0, {}, InitialVersion(cfg.options), cfg.options.yamlVersion.Some?, false, [])
  }

  function Top(m: Machine): Frame
    requires m.frames != []
  {
    m.frames[|m.frames| - 1]
  }

  function SetTop(m: Machine, frame: Frame): Machine
    requires m.frames != []
  {
    m.(frames := m.frames[..|m.frames| - 1] + [frame])
  }

  function SetState(m: Machine, state: FrameState): Machine
    requires m.frames != []
  {
    SetTop(m, Top(m).(state := state))
  }

  function PushFrame(m: Machine, frame: Frame): Machine {
    m.(frames := m.frames + [frame])
  }

  function PopFrame(m: Machine): Machine
    requires m.frames != []
  {
    m.(frames := m.frames[..|m.frames| - 1])
  }

  function Emit(m: Machine, event: Event<string>): Machine {
    m.(log := m.log + [event])
  }

  function Skip(tokens: seq<Token>, m: Machine): Machine
    requires m.pos <= |tokens|
  {
    m.(pos := SkipPos(tokens, m.pos))
  }

  // ----- Anchors, scalars and merge keys

  /** Registers anchors in order, refusing the first name already declared. */
  function Register(anchors: set<string>, pending: seq<(string, Span)>): Result<set<string>, ErrorKind>
    decreases |pending|
  {
    if pending == [] then Ok(anchors)
    else if pending[0].0 in anchors then Err(InvalidAnchor)
    else Register(anchors + {pending[0].0}, pending[1..])
  }

  function RegisterAnchors(m: Machine, pending: seq<(string, Span)>): Stepped {
    var anchors :- Register(m.anchors, pending);
    Ok(m.(anchors := anchors))
  }

  function RejectMergeKey(cfg: Config, raw: string): Result<(), ErrorKind> {
    if cfg.options.mergeKeys && raw == "<<" then Err(InvalidMergeKey) else Ok(())
  }

  function Resolve(cfg: Config, m: Machine, raw: string, style: ScalarStyle): Result<ScalarValue, ErrorKind> {
    if style != Plain then Ok(String(raw))
    else if cfg.options.strictVersion && !m.pinned && Ambiguous(cfg, raw) then Err(AmbiguousVersion)
    else Ok(cfg.resolve(raw, m.version))
  }

  // ----- Values

  /** The anchors and tags read before a value; the first of each is the one kept on the event. */
  datatype Prefix = Prefix(pos: nat, anchor: Option<string>, tag: Option<string>, pending: seq<(string, Span)>)

  function First(kept: Option<string>, name: string): Option<string> {
    if kept.None? then Some(name) else kept
  }

  function ReadPrefix(tokens: seq<Token>, p: Prefix): (r: Prefix)
    requires p.pos <= |tokens|
    ensures p.pos <= r.pos <= |tokens|
    decreases |tokens| - p.pos
  {
    if p.pos >= |tokens| then p else
    match tokens[p.pos].kind
    case Anchor(name) =>
      ReadPrefix(tokens, Prefix(SkipPos(tokens, p.pos + 1), First(p.anchor, name), p.tag,
                                p.pending + [(name, tokens[p.pos].span)]))
    case Tag(name) =>
      ReadPrefix(tokens, p.(pos := SkipPos(tokens, p.pos + 1), tag := First(p.tag, name)))
    case _ => p
  }

  /** Emits a leaf, or opens the frame of a collection, at the token after the prefix. */
  function Dispatch(cfg: Config, tokens: seq<Token>, m: Machine, p: Prefix): (r: Stepped)
    ensures Forward(tokens, p.pos, r)
  {
    if p.pos >= |tokens| then Err(UnexpectedEof) else
    var token := tokens[p.pos];
    var meta := NodeMeta(p.anchor, p.tag, token.span);
    var here := m.(pos := p.pos);
    var past := m.(pos := p.pos + 1);
    match token.kind
    case Scalar(raw, style, _) =>
      if PeekIsColon(tokens, p.pos) then
        Ok(Emit(PushFrame(here, NewFrame(BlockMapping, p.pending)), MappingStart(meta)))
      else
        var _ :- RejectMergeKey(cfg, raw);
        var value :- Resolve(cfg, m, raw, style);
        var m' :- RegisterAnchors(past, p.pending);
        Ok(Emit(m', Event.Scalar(meta, value, style, raw)))
    case BlockScalar(indicator, text) =>
      var style := if indicator.Literal? then BlockLiteral else BlockChomped;
      var m' :- RegisterAnchors(past, p.pending);
      Ok(Emit(m', Event.Scalar(meta, String(text), style, text)))
    case Alias(name) =>
      if name !in m.anchors then Err(UnknownAnchor) else
      var m' :- RegisterAnchors(past, p.pending);
      Ok(Emit(m', Event.Alias(meta, name)))
    case LeftBrace => Ok(Emit(PushFrame(past, NewFrame(FlowMapping, p.pending)), MappingStart(meta)))
    case LeftBracket => Ok(Emit(PushFrame(past, NewFrame(FlowSequence, p.pending)), SequenceStart(meta)))
    case SequenceEntry => Ok(Emit(PushFrame(here, NewFrame(BlockSequence, p.pending)), SequenceStart(meta)))
    case MappingKey => Ok(Emit(PushFrame(here, NewFrame(BlockMapping, p.pending)), MappingStart(meta)))
    case _ => Err(UnexpectedCharacter)
  }

  function BeginValue(cfg: Config, tokens: seq<Token>, m: Machine): (r: Stepped)
    requires m.pos <= |tokens|
    ensures Forward(tokens, m.pos, r)
  {
    Dispatch(cfg, tokens, m, ReadPrefix(tokens, Prefix(SkipPos(tokens, m.pos), None, None, [])))
  }

  function EmitNull(m: Machine, span: Span): Machine {
    Emit(m, NullEvent(span))
  }

  function CloseMapping(m: Machine): Stepped
    requires m.frames != []
  {
    var m' :- RegisterAnchors(PopFrame(m), Top(m).pending);
    Ok(Emit(m', MappingEnd))
  }

  function CloseSequence(m: Machine): Stepped
    requires m.frames != []
  {
    var m' :- RegisterAnchors(PopFrame(m), Top(m).pending);
    Ok(Emit(m', SequenceEnd))
  }

  // ----- The stream and its documents

  function ConsumeDirectivesM(cfg: Config, tokens: seq<Token>, m: Machine): (r: Stepped)
    requires m.pos <= |tokens|
    ensures r.Ok? ==>
      && m.pos <= r.value.pos <= |tokens|
      && SkipPos(tokens, r.value.pos) == r.value.pos
      && r.value == m.(pos := r.value.pos, version := r.value.version, pinned := r.value.pinned)
    decreases |tokens| - m.pos
  {
    var m := Skip(tokens, m);
    if m.pos >= |tokens| || !tokens[m.pos].kind.Directive? then Ok(m)
    else
      var version :- DirectiveVersion(tokens[m.pos].kind.text);
      var m := m.(pos := m.pos + 1);
      ConsumeDirectivesM(cfg, tokens,
        if version.Some? && cfg.options.yamlVersion.None? then m.(version := version.value, pinned := true) else m)
  }

  function StepStream(cfg: Config, tokens: seq<Token>, m: Machine): (r: Stepped)
    requires m.pos <= |tokens|
    ensures Forward(tokens, m.pos, r)
  {
    match m.stream
    case Start => Ok(Emit(m.(stream := BetweenDocuments), StreamStart))
    case BetweenDocuments =>
      var m :- ConsumeDirectivesM(cfg, tokens, Skip(tokens, m));
      if AtEof(tokens, m.pos) then
        var m := if m.documents == 0
          then m.(documents := 1, log := m.log + [Event.DocumentStart, NullEvent(ORIGIN), Event.DocumentEnd])
          else m;
        Ok(Emit(m.(stream := Finished, finished := true), StreamEnd))
      else
        var explicit := tokens[m.pos].kind.DocumentStart?;
        var start := if explicit then Some(tokens[m.pos].span) else None;
        var m := Skip(tokens, if explicit then m.(pos := m.pos + 1) else m);
        var nullSpan := if start.Some? then start else if m.pos < |tokens| then Some(tokens[m.pos].span) else None;
        Ok(Emit(PushFrame(m.(documents := m.documents + 1), NewFrame(DocumentFrame, []).(nullSpan := nullSpan)),
                Event.DocumentStart))
    case Finished => Ok(m.(finished := true))
  }

  function StepDocument(cfg: Config, tokens: seq<Token>, m: Machine): (r: Stepped)
    requires m.pos <= |tokens| && m.frames != []
    ensures Forward(tokens, m.pos, r)
  {
    var m := Skip(tokens, m);
    match Top(m).state
    case BeginEntry =>
      var empty := AtEof(tokens, m.pos) || tokens[m.pos].kind.DocumentEnd?;
      var span := if Top(m).nullSpan.Some? then Top(m).nullSpan.value else ORIGIN;
      var m := SetState(m, AfterValue);
      if empty then Ok(EmitNull(m, span)) else BeginValue(cfg, tokens, m)
    case _ =>
      var m := if m.pos < |tokens| && tokens[m.pos].kind.DocumentEnd? then m.(pos := m.pos + 1) else m;
      var m :- ConsumeDirectivesM(cfg, tokens, Skip(tokens, m));
      if !AtEof(tokens, m.pos) && !tokens[m.pos].kind.DocumentStart? then Err(TrailingContent)
      else Ok(PopFrame(Emit(m, Event.DocumentEnd)))
  }

  // ----- Block collections

  /** The value of the entry whose colon is next. */
  function StepBlockColon(cfg: Config, tokens: seq<Token>, m: Machine): (r: Stepped)
    requires m.pos <= |tokens| && m.frames != []
    ensures Forward(tokens, m.pos, r)
  {
    var m := Skip(tokens, m);
    if m.pos >= |tokens| then Err(UnexpectedEof)
    else if !tokens[m.pos].kind.Colon? then Err(UnexpectedCharacter)
    else
      var colon := tokens[m.pos].span;
      var m := SetState(Skip(tokens, m.(pos := m.pos + 1)), AfterValue);
      if ValueFollowsKey(tokens, m.pos, Top(m).keyCol, Top(m).keyLine) then BeginValue(cfg, tokens, m)
      else Ok(EmitNull(m, colon))
  }

  /** The next key, or the end of the mapping. */
  function StepBlockKey(cfg: Config, tokens: seq<Token>, m: Machine): (r: Stepped)
    requires m.pos <= |tokens| && m.frames != []
    ensures Forward(tokens, m.pos, r)
  {
    var m := Skip(tokens, m);
    if m.pos >= |tokens| then CloseMapping(m) else
    var token := tokens[m.pos];
    if !token.kind.MappingKey? && !token.kind.Scalar? then CloseMapping(m)
    else if Top(m).entryCol.Some? && token.span.column != Top(m).entryCol.value then CloseMapping(m)
    else
      var frame := Top(m).(entryCol := Some(token.span.column), keyCol := token.span.column,
                           keyLine := token.span.line, state := ExpectColon);
      if token.kind.MappingKey? then
        BeginValue(cfg, tokens, SetTop(Skip(tokens, m.(pos := m.pos + 1)), frame))
      else
        var _ :- RejectMergeKey(cfg, token.kind.raw);
        var value :- Resolve(cfg, m, token.kind.raw, token.kind.style);
        var key := Event.Scalar(NodeMeta(None, None, token.span), value, token.kind.style, token.kind.raw);
        Ok(SetTop(Emit(m.(pos := m.pos + 1), key), frame))
  }

  function StepBlockMapping(cfg: Config, tokens: seq<Token>, m: Machine): (r: Stepped)
    requires m.pos <= |tokens| && m.frames != []
    ensures Forward(tokens, m.pos, r)
  {
    match Top(m).state
    case BeginEntry => StepBlockKey(cfg, tokens, m)
    case ExpectColon => StepBlockColon(cfg, tokens, m)
    case AfterValue => Ok(SetState(m, BeginEntry))
  }

  function StepBlockSequence(cfg: Config, tokens: seq<Token>, m: Machine): (r: Stepped)
    requires m.pos <= |tokens| && m.frames != []
    ensures Forward(tokens, m.pos, r)
  {
    var m := Skip(tokens, m);
    if m.pos >= |tokens| || !tokens[m.pos].kind.SequenceEntry? then CloseSequence(m)
    else
      var dash := tokens[m.pos].span;
      if Top(m).entryCol.Some? && dash.column != Top(m).entryCol.value then CloseSequence(m)
      else
        var m := SetTop(m.(pos := m.pos + 1), Top(m).(entryCol := Some(dash.column)));
        if ValueFollowsDash(tokens, m.pos, dash.column, dash.line) then BeginValue(cfg, tokens, m)
        else Ok(EmitNull(m, dash))
  }

  // ----- Flow collections

  function StepFlowSequence(cfg: Config, tokens: seq<Token>, m: Machine): (r: Stepped)
    requires m.pos <= |tokens| && m.frames != []
    ensures Forward(tokens, m.pos, r)
  {
    var m := Skip(tokens, m);
    match Top(m).state
    case BeginEntry =>
      if m.pos >= |tokens| then CloseSequence(m)
      else if tokens[m.pos].kind.RightBracket? then CloseSequence(m.(pos := m.pos + 1))
      else if tokens[m.pos].kind.Comma? then Ok(m.(pos := m.pos + 1))
      else BeginValue(cfg, tokens, SetState(m, AfterValue))
    case _ =>
      if m.pos >= |tokens| then CloseSequence(m)
      else if tokens[m.pos].kind.Comma? || tokens[m.pos].kind.RightBracket? then Ok(SetState(m, BeginEntry))
      else Err(UnexpectedCharacter)
  }

  /** The prefix of a flow key: like that of a value, but only the first anchor is remembered. */
  function FlowKeyAnchors(p: Prefix): seq<(string, Span)> {
    if p.pending == [] then [] else [p.pending[0]]
  }

  function ParseFlowKeyM(cfg: Config, tokens: seq<Token>, m: Machine): (r: Stepped)
    requires m.pos <= |tokens|
    ensures Forward(tokens, m.pos, r)
    ensures r.Ok? ==> r.value.frames == m.frames
  {
    EmitFlowKey(cfg, tokens, m, ReadPrefix(tokens, Prefix(SkipPos(tokens, m.pos), None, None, [])))
  }

  function EmitFlowKey(cfg: Config, tokens: seq<Token>, m: Machine, p: Prefix): (r: Stepped)
    ensures Forward(tokens, p.pos, r)
    ensures r.Ok? ==> r.value.frames == m.frames
  {
    if p.pos >= |tokens| then Err(UnexpectedEof) else
    var token := tokens[p.pos];
    if !token.kind.Scalar? then Err(UnexpectedCharacter)
    else
      var _ :- RejectMergeKey(cfg, token.kind.raw);
      var value :- Resolve(cfg, m, token.kind.raw, token.kind.style);
      var m' :- RegisterAnchors(m.(pos := p.pos + 1), FlowKeyAnchors(p));
      Ok(Emit(m', Event.Scalar(NodeMeta(p.anchor, p.tag, token.span), value, token.kind.style, token.kind.raw)))
  }

  function StepFlowColon(cfg: Config, tokens: seq<Token>, m: Machine): (r: Stepped)
    requires m.pos <= |tokens| && m.frames != []
    ensures Forward(tokens, m.pos, r)
  {
    var m := Skip(tokens, m);
    if m.pos >= |tokens| then Err(UnexpectedEof)
    else if !tokens[m.pos].kind.Colon? then Err(UnexpectedCharacter)
    else
      var colon := tokens[m.pos].span;
      var m := SetState(Skip(tokens, m.(pos := m.pos + 1)), AfterValue);
      if m.pos >= |tokens| || tokens[m.pos].kind.Comma? || tokens[m.pos].kind.RightBrace? then Ok(EmitNull(m, colon))
      else BeginValue(cfg, tokens, m)
  }

  function StepFlowMapping(cfg: Config, tokens: seq<Token>, m: Machine): (r: Stepped)
    requires m.pos <= |tokens| && m.frames != []
    ensures Forward(tokens, m.pos, r)
  {
    match Top(m).state
    case BeginEntry =>
      var m := Skip(tokens, m);
      if m.pos >= |tokens| then CloseMapping(m)
      else if tokens[m.pos].kind.RightBrace? then CloseMapping(m.(pos := m.pos + 1))
      else if tokens[m.pos].kind.Comma? then Ok(m.(pos := m.pos + 1))
      else
        var m' :- ParseFlowKeyM(cfg, tokens, m);
        Ok(SetState(m', ExpectColon))
    case ExpectColon => StepFlowColon(cfg, tokens, m)
    case AfterValue =>
      var m := Skip(tokens, m);
      if m.pos >= |tokens| then CloseMapping(m)
      else if tokens[m.pos].kind.Comma? || tokens[m.pos].kind.RightBrace? then Ok(SetState(m, BeginEntry))
      else Err(UnexpectedCharacter)
  }

  // ----- One step and whole runs

  /** One turn of the driver loop; a finished machine stays as it is. */
  function Step(cfg: Config, tokens: seq<Token>, m: Machine): (r: Stepped)
    requires m.pos <= |tokens|
    ensures Forward(tokens, m.pos, r)
  {
    if m.finished then Ok(m)
    else if m.frames == [] then StepStream(cfg, tokens, m)
    else
      match Top(m).kind
      case DocumentFrame => StepDocument(cfg, tokens, m)
      case BlockMapping => StepBlockMapping(cfg, tokens, m)
      case BlockSequence => StepBlockSequence(cfg, tokens, m)
      case FlowMapping => StepFlowMapping(cfg, tokens, m)
      case FlowSequence => StepFlowSequence(cfg, tokens, m)
  }
}
