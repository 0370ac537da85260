/** The events of a stream, with aliases given either by name or by the node they refer to. */
module Events {
  import opened Prelude
  import opened Syntax
  import opened Arena

  datatype NodeMeta = NodeMeta(anchor: Option<string>, tag: Option<string>, span: Span)

  datatype Event<+Ref> =
    | StreamStart
    | StreamEnd
    | DocumentStart
    | DocumentEnd
    | MappingStart(meta: NodeMeta)
    | MappingEnd
    | SequenceStart(meta: NodeMeta)
    | SequenceEnd
    | Scalar(meta: NodeMeta, value: ScalarValue, style: ScalarStyle, raw: string)
    | Alias(meta: NodeMeta, target: Ref)

  function NullEvent<Ref>(span: Span): Event<Ref> {
    Event.Scalar(NodeMeta(None, None, span), Null, Plain, "")
  }
}
