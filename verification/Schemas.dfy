/** Compiled schemas, and the reports that checking a node against one fills in. */
module Schemas {
  import opened Prelude
  import opened Syntax
  import opened Arena
  import opened Numbers

  datatype JsonType = JNull | JBoolean | JNumber | JString | JArray | JObject

  /** A value of `enum` or `const`; a number is held as a 64-bit float pattern. */
  datatype EnumValue = EnumNull | EnumBool(b: bool) | EnumNumber(bits: nat) | EnumString(s: string)

  datatype Additional = Allow | Forbid | Against(schema: Schema)

  datatype Schema =
    | Constant(ok: bool)
    | OfType(jsonType: JsonType)
    | Enum(values: seq<EnumValue>)
    | Const(value: EnumValue)
    | Text(minLength: Option<nat>, maxLength: Option<nat>, pattern: Option<string>, format: Option<string>)
    | Number(minimum: Option<nat>, maximum: Option<nat>, exclusiveMinimum: Option<nat>, exclusiveMaximum: Option<nat>,
        multipleOf: Option<nat>)
    | Array(items: Option<Schema>, minItems: Option<nat>, maxItems: Option<nat>, uniqueItems: bool)
    | Object(properties: seq<(string, Schema)>, required: seq<string>, additional: Additional,
        minProperties: Option<nat>, maxProperties: Option<nat>)
    | Not(inner: Schema)
    | OneOf(schemas: seq<Schema>)
    | AnyOf(schemas: seq<Schema>)
    | AllOf(schemas: seq<Schema>)
    | Ref(name: string)

  datatype Settings = Settings(
    types: bool, enums: bool, strings: bool, numbers: bool, arrays: bool, objects: bool,
    combinators: bool, refs: bool, formats: bool, maxDepth: nat)

  /** What validation asks of floats, patterns and formats, none of which is interpreted here. */
  datatype Rules = Rules(
    fromInt: int -> nat,
    less: (nat, nat) -> bool,
    atMost: (nat, nat) -> bool,
    same: (nat, nat) -> bool,
    offStep: (nat, nat) -> bool,
    hasPattern: (string, string) -> bool,
    hasFormat: (string, string) -> bool)

  /** Everything that stays fixed while one document is validated. */
  datatype Scene = Scene(nodes: seq<NodeData>, defs: map<string, Schema>, settings: Settings, rules: Rules)

  datatype IssueKind =
    | TypeMismatch | EnumMismatch | ConstMismatch | PatternMismatch | FormatMismatch
    | MinLength | MaxLength
    | Minimum | Maximum | ExclusiveMinimum | ExclusiveMaximum | MultipleOf
    | MinItems | MaxItems | UniqueItems
    | RequiredMissing | AdditionalProperty | MinProperties | MaxProperties
    | OneOfMismatch | OneOfAmbiguous | AnyOfMismatch | NotMatched
    | RefUnresolved | RefCycle | DepthExceeded

  datatype Issue = Issue(path: string, kind: IssueKind, node: NodeId, span: Option<Span>)

  // ----- Reading a node

  function SpanOf(scene: Scene, node: NodeId): Option<Span> {
    if node < |scene.nodes| then scene.nodes[node].span else None
  }

  predicate IsScalar(nodes: seq<NodeData>, node: NodeId) {
    node < |nodes| && nodes[node].kind.Scalar?
  }

  function ScalarAt(nodes: seq<NodeData>, node: NodeId): ScalarValue
    requires IsScalar(nodes, node)
  {
    nodes[node].kind.scalar.value
  }

  function TypeOfScalar(value: ScalarValue): JsonType {
    match value
    case Null => JNull
    case Bool(_) => JBoolean
    case Int(_) => JNumber
    case Float(_) => JNumber
    case String(_) => JString
    case Timestamp(_) => JString
  }

  /**
   * The JSON type of a node, looking through aliases. An alias that does not point backwards, which no arena has, has
   * none.
   */
  function TypeOf(nodes: seq<NodeData>, node: NodeId): Option<JsonType> {
    if node >= |nodes| then None else
    match nodes[node].kind
    case Scalar(scalar) => Some(TypeOfScalar(scalar.value))
    case Mapping(_) => Some(JObject)
    case Sequence(_) => Some(JArray)
    case Alias(target) => if target < node then TypeOf(nodes, target) else None
  }

  /** The text of a string or timestamp scalar; also what a mapping key has to be to name a property. */
  function TextOf(nodes: seq<NodeData>, node: NodeId): Option<string> {
    if !IsScalar(nodes, node) then None else
    match ScalarAt(nodes, node)
    case String(s) => Some(s)
    case Timestamp(s) => Some(s)
    case _ => None
  }

  function NumberOf(nodes: seq<NodeData>, rules: Rules, node: NodeId): Option<nat> {
    if !IsScalar(nodes, node) then None else
    match ScalarAt(nodes, node)
    case Int(i) => Some(rules.fromInt(i))
    case Float(bits) => Some(bits)
    case _ => None
  }

  function ItemsOf(nodes: seq<NodeData>, node: NodeId): Option<seq<NodeId>> {
    if node < |nodes| && nodes[node].kind.Sequence? then Some(nodes[node].kind.items) else None
  }

  function EntriesOf(nodes: seq<NodeData>, node: NodeId): Option<seq<(NodeId, NodeId)>> {
    if node < |nodes| && nodes[node].kind.Mapping? then Some(nodes[node].kind.entries) else None
  }

  predicate Matches(nodes: seq<NodeData>, rules: Rules, value: EnumValue, node: NodeId) {
    && IsScalar(nodes, node)
    && match value
       case EnumNull => ScalarAt(nodes, node).Null?
       case EnumBool(b) => ScalarAt(nodes, node) == Bool(b)
       case EnumNumber(bits) => NumberOf(nodes, rules, node).Some?
         && rules.same(NumberOf(nodes, rules, node).value, bits)
       case EnumString(s) => TextOf(nodes, node) == Some(s)
  }

  predicate SameScalar(rules: Rules, a: ScalarValue, b: ScalarValue) {
    if a.Float? && b.Float? then rules.same(a.bits, b.bits) else a == b
  }

  /**
   * Whether two items count as duplicates. A child that is no older than its parent, which no arena has, equals
   * nothing.
   */
  predicate NodesEqual(nodes: seq<NodeData>, rules: Rules, a: NodeId, b: NodeId)
    decreases a
  {
    || a == b
    || (&& IsScalar(nodes, a) && IsScalar(nodes, b)
        && SameScalar(rules, ScalarAt(nodes, a), ScalarAt(nodes, b)))
    || (&& ItemsOf(nodes, a).Some? && ItemsOf(nodes, b).Some?
        && var x, y := ItemsOf(nodes, a).value, ItemsOf(nodes, b).value;
           && |x| == |y|
           && forall i | 0 <= i < |x| :: x[i] < a && NodesEqual(nodes, rules, x[i], y[i]))
    || (&& EntriesOf(nodes, a).Some? && EntriesOf(nodes, b).Some?
        && var x, y := EntriesOf(nodes, a).value, EntriesOf(nodes, b).value;
           && |x| == |y|
           && forall i | 0 <= i < |x| :: x[i].0 < a && x[i].1 < a &&
                exists j | 0 <= j < |y| ::
                NodesEqual(nodes, rules, x[i].0, y[j].0) && NodesEqual(nodes, rules, x[i].1, y[j].1))
  }

  predicate HasDuplicate(nodes: seq<NodeData>, rules: Rules, items: seq<NodeId>) {
    exists i, j | 0 <= i < j < |items| :: NodesEqual(nodes, rules, items[i], items[j])
  }

  /** The first property schema listed under `name`. */
  function Property(properties: seq<(string, Schema)>, name: string): (found: Option<Schema>)
    ensures found.Some? ==> exists i | 0 <= i < |properties| :: properties[i] == (name, found.value)
    ensures found.None? ==> forall i | 0 <= i < |properties| :: properties[i].0 != name
  {
    if properties == [] then None
    else if properties[0].0 == name then Some(properties[0].1)
    else
      var found := Property(properties[1..], name);
      assert found.Some? ==> exists i | 0 < i < |properties| :: properties[i] == (name, found.value) by {
        if found.Some? {
          var i :| 0 <= i < |properties[1..]| && properties[1..][i] == (name, found.value);
          assert properties[i + 1] == (name, found.value);
        }
      }
      found
  }

  /** The schema the value under property `name` is held against, if any. */
  function SchemaFor(properties: seq<(string, Schema)>, additional: Additional, name: string): Option<Schema> {
    var found := Property(properties, name);
    if found.Some? then found
    else if additional.Against? then Some(additional.schema)
    else None
  }

  predicate Forbidden(properties: seq<(string, Schema)>, additional: Additional, name: string) {
    Property(properties, name).None? && additional.Forbid?
  }

  predicate Names(nodes: seq<NodeData>, entries: seq<(NodeId, NodeId)>, name: string) {
    exists e | e in entries :: TextOf(nodes, e.0) == Some(name)
  }

  /** The key of `defs` a reference is looked up under. */
  function RefKey(name: string): string {
    if "#/$defs/" <= name then name[8..]
    else if "#/" <= name then name[2..]
    else name
  }

  /** The path of the child called `segment`. */
  function Join(path: string, segment: string): string {
    path + (if path == "" then "" else ".") + segment
  }

  // ----- The checks that look at one node only

  function Unless(ok: bool, kind: IssueKind): seq<IssueKind> {
    if ok then [] else [kind]
  }

  predicate Bounded(low: Option<nat>, n: nat) {
    low.None? || low.value <= n
  }

  predicate Capped(high: Option<nat>, n: nat) {
    high.None? || n <= high.value
  }

  function TextIssues(scene: Scene, schema: Schema, text: string): seq<IssueKind>
    requires schema.Text?
  {
    Unless(Bounded(schema.minLength, |text|), MinLength)
    + Unless(Capped(schema.maxLength, |text|), MaxLength)
    + Unless(schema.pattern.Some? ==> scene.rules.hasPattern(schema.pattern.value, text), PatternMismatch)
    + Unless(schema.format.Some? && scene.settings.formats ==>
             scene.rules.hasFormat(schema.format.value, text), FormatMismatch)
  }

  function NumberIssues(rules: Rules, schema: Schema, value: nat): seq<IssueKind>
    requires schema.Number?
  {
    Unless(schema.minimum.Some? ==> !rules.less(value, schema.minimum.value), Minimum)
    + Unless(schema.maximum.Some? ==> !rules.less(schema.maximum.value, value), Maximum)
    + Unless(schema.exclusiveMinimum.Some? ==> !rules.atMost(value, schema.exclusiveMinimum.value), ExclusiveMinimum)
    + Unless(schema.exclusiveMaximum.Some? ==> !rules.atMost(schema.exclusiveMaximum.value, value), ExclusiveMaximum)
    + Unless(schema.multipleOf.Some? ==> !rules.offStep(value, schema.multipleOf.value), MultipleOf)
  }

  function ArrayIssues(scene: Scene, schema: Schema, items: seq<NodeId>): seq<IssueKind>
    requires schema.Array?
  {
    Unless(Bounded(schema.minItems, |items|), MinItems)
    + Unless(Capped(schema.maxItems, |items|), MaxItems)
    + Unless(schema.uniqueItems ==> !HasDuplicate(scene.nodes, scene.rules, items), UniqueItems)
  }

  function RequiredIssues(nodes: seq<NodeData>, required: seq<string>, entries: seq<(NodeId, NodeId)>)
    : (kinds: seq<IssueKind>)
    ensures kinds == [] <==> forall name | name in required :: Names(nodes, entries, name)
  {
    if required == [] then []
    else
      assert forall name | name in required :: name == required[0] || name in required[1..];
      Unless(Names(nodes, entries, required[0]), RequiredMissing) + RequiredIssues(nodes, required[1..], entries)
  }

  function ObjectIssues(scene: Scene, schema: Schema, entries: seq<(NodeId, NodeId)>): seq<IssueKind>
    requires schema.Object?
  {
    Unless(Bounded(schema.minProperties, |entries|), MinProperties)
    + Unless(Capped(schema.maxProperties, |entries|), MaxProperties)
    + RequiredIssues(scene.nodes, schema.required, entries)
  }

  /** The findings of the checks that need no other node to be validated. */
  function OwnIssues(scene: Scene, schema: Schema, node: NodeId): seq<IssueKind> {
    match schema
    case Constant(ok) => Unless(ok, NotMatched)
    case OfType(jsonType) =>
      if !scene.settings.types then []
      else if TypeOf(scene.nodes, node).None? then [RefCycle]
      else Unless(TypeOf(scene.nodes, node).value == jsonType, TypeMismatch)
    case Enum(values) => Unless(scene.settings.enums ==>
                                exists v | v in values :: Matches(scene.nodes, scene.rules, v, node), EnumMismatch)
    case Const(value) => Unless(scene.settings.enums ==> Matches(scene.nodes, scene.rules, value, node), ConstMismatch)
    case Text(_, _, _, _) =>
      if !scene.settings.strings then []
      else if TypeOf(scene.nodes, node) != Some(JString) then [TypeMismatch]
      else if TextOf(scene.nodes, node).None? then []
      else TextIssues(scene, schema, TextOf(scene.nodes, node).value)
    case Number(_, _, _, _, _) =>
      if !scene.settings.numbers then []
      else if NumberOf(scene.nodes, scene.rules, node).None? then [TypeMismatch]
      else NumberIssues(scene.rules, schema, NumberOf(scene.nodes, scene.rules, node).value)
    case Array(_, _, _, _) =>
      if !scene.settings.arrays then []
      else if ItemsOf(scene.nodes, node).None? then [TypeMismatch]
      else ArrayIssues(scene, schema, ItemsOf(scene.nodes, node).value)
    case Object(_, _, _, _, _) =>
      if !scene.settings.objects then []
      else if EntriesOf(scene.nodes, node).None? then [TypeMismatch]
      else ObjectIssues(scene, schema, EntriesOf(scene.nodes, node).value)
    case _ => []
  }
}
