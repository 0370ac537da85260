/** The validator: it walks the schema and the document together, with one path and one report updated in place. */
module Validator {
  import opened Prelude
  import opened Syntax
  import opened Arena
  import opened Numbers
  import opened Schemas
  import opened Validation

  // ----- The path

  predicate OccursAt(text: string, piece: string, at: nat) {
    at + |piece| <= |text| && text[at..at + |piece|] == piece
  }

  /** Where `piece` last occurs in `text` at or before `from`. */
  function LastAt(text: string, piece: string, from: nat): (at: Option<nat>)
    ensures at.Some? ==> at.value <= from && OccursAt(text, piece, at.value)
    ensures forall k | 0 <= k <= from :: OccursAt(text, piece, k) ==> at.Some? && k <= at.value
  {
    if OccursAt(text, piece, from) then Some(from)
    else if from == 0 then None
    else LastAt(text, piece, from - 1)
  }

  /** The path once its last segment, known to be spelled `segment`, is taken off. */
  function Popped(path: string, segment: string): string {
    match LastAt(path, segment, |path|)
    case None => ""
    case Some(at) => if at > 0 && path[at - 1] == '.' then path[..at - 1] else path[..at]
  }

  /** Taking off a segment undoes adding it, even if it is empty, holds dots, or occurs earlier in the path. */
  lemma PopUndoesJoin(path: string, segment: string)
    ensures Popped(Join(path, segment), segment) == path
  {
    var joined := Join(path, segment);
    var at := |joined| - |segment|;
    assert joined[at..at + |segment|] == segment;
    assert OccursAt(joined, segment, at);
    assert LastAt(joined, segment, |joined|) == Some(at);
  }

  class Path {
    var text: string

    constructor ()
      ensures text == ""
    {
      text := "";
    }

    method Push(segment: string)
      modifies this
      ensures text == Join(old(text), segment)
    {
      text := text + (if text == "" then "" else ".");
      text := text + segment;
    }

    /** Cuts the path at the last occurrence of the segment, and at the dot before it. */
    method Pop(segment: string)
      modifies this
      ensures text == Popped(old(text), segment)
    {
      var at := LastAt(text, segment, |text|);
      if at.Some? {
        var cut := at.value;
        if cut > 0 && text[cut - 1] == '.' {
          cut := cut - 1;
        }
        text := text[..cut];
      } else {
        text := "";
      }
    }
  }

  // ----- The report

  class Report {
    var issues: seq<Issue>

    constructor ()
      ensures issues == []
    {
      issues := [];
    }

    method Add(scene: Scene, node: NodeId, path: Path, kind: IssueKind)
      modifies this
      ensures issues == old(issues) + Raise(scene, node, path.text, [kind])
    {
      issues := issues + [Issue(path.text, kind, node, SpanOf(scene, node))];
    }

    /** Takes over the issues of another report as issues of `node`. */
    method Absorb(scene: Scene, node: NodeId, path: Path, sub: Report)
      requires sub != this
      modifies this
      ensures issues == old(issues) + Restated(scene, node, path.text, sub.issues)
    {
      var i := 0;
      while i < |sub.issues|
        invariant 0 <= i <= |sub.issues|
        invariant issues == old(issues) + Restated(scene, node, path.text, sub.issues)[..i]
      {
        issues := issues + [Issue(path.text, sub.issues[i].kind, node, SpanOf(scene, node))];
        i := i + 1;
      }
    }
  }

  lemma RaiseConcat(scene: Scene, node: NodeId, path: string, a: seq<IssueKind>, b: seq<IssueKind>)
    ensures Raise(scene, node, path, a + b) == Raise(scene, node, path, a) + Raise(scene, node, path, b)
  {
  }

  // ----- The checks of one node

  /** Adds the issue unless the check passed. */
  method Check(scene: Scene, node: NodeId, path: Path, report: Report, ok: bool, kind: IssueKind,
               ghost before: seq<Issue>,
               ghost kinds: seq<IssueKind>)
    requires report.issues == before + Raise(scene, node, path.text, kinds)
    modifies report
    ensures report.issues == before + Raise(scene, node, path.text, kinds + Unless(ok, kind))
  {
    RaiseConcat(scene, node, path.text, kinds, Unless(ok, kind));
    if !ok {
      report.Add(scene, node, path, kind);
    }
  }

  method CheckText(scene: Scene, schema: Schema, node: NodeId, path: Path, report: Report)
    requires schema.Text?
    modifies report
    ensures report.issues == old(report.issues) + Raise(scene, node, path.text, OwnIssues(scene, schema, node))
  {
    hide Raise, Unless;
    if !scene.settings.strings {
      return;
    }
    if TypeOf(scene.nodes, node) != Some(JString) {
      report.Add(scene, node, path, TypeMismatch);
      return;
    }
    var scalar := TextOf(scene.nodes, node);
    if scalar.None? {
      return;
    }
    var text := scalar.value;
    ghost var before := report.issues;
    ghost var kinds: seq<IssueKind> := [];
    var ok := Bounded(schema.minLength, |text|);
    Check(scene, node, path, report, ok, MinLength, before, kinds);
    kinds := Unless(ok, MinLength);
    assert [] + kinds == kinds;
    ok := Capped(schema.maxLength, |text|);
    Check(scene, node, path, report, ok, MaxLength, before, kinds);
    kinds := kinds + Unless(ok, MaxLength);
    ok := schema.pattern.Some? ==> scene.rules.hasPattern(schema.pattern.value, text);
    Check(scene, node, path, report, ok, PatternMismatch, before, kinds);
    kinds := kinds + Unless(ok, PatternMismatch);
    ok := schema.format.Some? && scene.settings.formats ==> scene.rules.hasFormat(schema.format.value, text);
    Check(scene, node, path, report, ok, FormatMismatch, before, kinds);
    assert kinds + Unless(ok, FormatMismatch) == TextIssues(scene, schema, text);
  }

  method CheckNumber(scene: Scene, schema: Schema, node: NodeId, path: Path, report: Report)
    requires schema.Number?
    modifies report
    ensures report.issues == old(report.issues) + Raise(scene, node, path.text, OwnIssues(scene, schema, node))
  {
    hide Raise, Unless;
    if !scene.settings.numbers {
      return;
    }
    var number := NumberOf(scene.nodes, scene.rules, node);
    if number.None? {
      report.Add(scene, node, path, TypeMismatch);
      return;
    }
    var value, rules := number.value, scene.rules;
    ghost var before := report.issues;
    ghost var kinds: seq<IssueKind> := [];
    var ok := schema.minimum.Some? ==> !rules.less(value, schema.minimum.value);
    Check(scene, node, path, report, ok, Minimum, before, kinds);
    kinds := Unless(ok, Minimum);
    assert [] + kinds == kinds;
    ok := schema.maximum.Some? ==> !rules.less(schema.maximum.value, value);
    Check(scene, node, path, report, ok, Maximum, before, kinds);
    kinds := kinds + Unless(ok, Maximum);
    ok := schema.exclusiveMinimum.Some? ==> !rules.atMost(value, schema.exclusiveMinimum.value);
    Check(scene, node, path, report, ok, ExclusiveMinimum, before, kinds);
    kinds := kinds + Unless(ok, ExclusiveMinimum);
    ok := schema.exclusiveMaximum.Some? ==> !rules.atMost(schema.exclusiveMaximum.value, value);
    Check(scene, node, path, report, ok, ExclusiveMaximum, before, kinds);
    kinds := kinds + Unless(ok, ExclusiveMaximum);
    ok := schema.multipleOf.Some? ==> !rules.offStep(value, schema.multipleOf.value);
    Check(scene, node, path, report, ok, MultipleOf, before, kinds);
    assert kinds + Unless(ok, MultipleOf) == NumberIssues(rules, schema, value);
  }

  /** Looks for two equal items, stopping at the first pair. */
  method FindDuplicate(scene: Scene, items: seq<NodeId>) returns (found: bool)
    ensures found == HasDuplicate(scene.nodes, scene.rules, items)
  {
    found := false;
    var i := 0;
    while i < |items| && !found
      invariant 0 <= i <= |items|
      invariant found ==> HasDuplicate(scene.nodes, scene.rules, items)
      invariant !found ==>
        forall a, b | 0 <= a < i && a < b < |items| :: !NodesEqual(scene.nodes, scene.rules, items[a], items[b])
      decreases |items| - i, !found
    {
      var j := i + 1;
      while j < |items| && !found
        invariant i < j <= |items|
        invariant found ==> HasDuplicate(scene.nodes, scene.rules, items)
        invariant !found ==> forall b | i < b < j :: !NodesEqual(scene.nodes, scene.rules, items[i], items[b])
        decreases |items| - j, !found
      {
        found := NodesEqual(scene.nodes, scene.rules, items[i], items[j]);
        j := j + 1;
      }
      i := i + 1;
    }
  }

  method CheckArray(scene: Scene, schema: Schema, node: NodeId, items: seq<NodeId>, path: Path, report: Report)
    requires schema.Array?
    modifies report
    ensures report.issues == old(report.issues) + Raise(scene, node, path.text, ArrayIssues(scene, schema, items))
  {
    ghost var before := report.issues;
    ghost var kinds: seq<IssueKind> := [];
    var ok := Bounded(schema.minItems, |items|);
    Check(scene, node, path, report, ok, MinItems, before, kinds);
    kinds := kinds + Unless(ok, MinItems);
    ok := Capped(schema.maxItems, |items|);
    Check(scene, node, path, report, ok, MaxItems, before, kinds);
    kinds := kinds + Unless(ok, MaxItems);
    ok := true;
    if schema.uniqueItems {
      var found := FindDuplicate(scene, items);
      ok := !found;
    }
    Check(scene, node, path, report, ok, UniqueItems, before, kinds);
    assert kinds + Unless(ok, UniqueItems) == ArrayIssues(scene, schema, items);
  }

  /** The missing names, in the order they are required. */
  method CheckRequired(scene: Scene, required: seq<string>, node: NodeId, entries: seq<(NodeId, NodeId)>, path: Path,
                       report: Report)
    modifies report
    ensures report.issues
      == old(report.issues) + Raise(scene, node, path.text, RequiredIssues(scene.nodes, required, entries))
  {
    ghost var before := report.issues;
    ghost var kinds: seq<IssueKind> := [];
    var i := 0;
    while i < |required|
      invariant 0 <= i <= |required|
      invariant report.issues == before + Raise(scene, node, path.text, kinds)
      invariant kinds + RequiredIssues(scene.nodes, required[i..], entries)
        == RequiredIssues(scene.nodes, required, entries)
    {
      var ok := Names(scene.nodes, entries, required[i]);
      Check(scene, node, path, report, ok, RequiredMissing, before, kinds);
      assert required[i..][1..] == required[i + 1..];
      kinds := kinds + Unless(ok, RequiredMissing);
      i := i + 1;
    }
    assert kinds == RequiredIssues(scene.nodes, required, entries);
  }

  method CheckObject(scene: Scene, schema: Schema, node: NodeId, entries: seq<(NodeId, NodeId)>, path: Path,
                     report: Report)
    requires schema.Object?
    modifies report
    ensures report.issues == old(report.issues) + Raise(scene, node, path.text, ObjectIssues(scene, schema, entries))
  {
    ghost var before := report.issues;
    ghost var kinds: seq<IssueKind> := [];
    var ok := Bounded(schema.minProperties, |entries|);
    Check(scene, node, path, report, ok, MinProperties, before, kinds);
    kinds := kinds + Unless(ok, MinProperties);
    ok := Capped(schema.maxProperties, |entries|);
    Check(scene, node, path, report, ok, MaxProperties, before, kinds);
    kinds := kinds + Unless(ok, MaxProperties);
    CheckRequired(scene, schema.required, node, entries, path, report);
    RaiseConcat(scene, node, path.text, kinds, RequiredIssues(scene.nodes, schema.required, entries));
  }

  // ----- The walk

  /**
   * Holds a node against a schema: the issues are added to the report, and the path comes back as it was. With
   * `maxDepth` levels entered already, the only issue is that there are too many.
   */
  method ValidateNode(scene: Scene, node: NodeId, schema: Schema, depth: nat, path: Path, report: Report)
    modifies path, report
    ensures path.text == old(path.text)
    ensures report.issues == old(report.issues) + Findings(scene, schema, node, depth, old(path.text))
    decreases Left(scene, depth), 2, 0
  {
    hide Raise, TextIssues, NumberIssues, ArrayIssues, ObjectIssues, Matches, TypeOf;
    if depth > scene.settings.maxDepth {
      report.Add(scene, node, path, DepthExceeded);
      return;
    }
    match schema
    case Constant(ok) =>
      if !ok {
        report.Add(scene, node, path, NotMatched);
      }
    case OfType(jsonType) =>
      if scene.settings.types {
        var actual := TypeOf(scene.nodes, node);
        if actual.None? {
          report.Add(scene, node, path, RefCycle);
        } else if actual != Some(jsonType) {
          report.Add(scene, node, path, TypeMismatch);
        }
      }
    case Enum(values) =>
      if scene.settings.enums && !exists v | v in values :: Matches(scene.nodes, scene.rules, v, node) {
        report.Add(scene, node, path, EnumMismatch);
      }
    case Const(value) =>
      if scene.settings.enums && !Matches(scene.nodes, scene.rules, value, node) {
        report.Add(scene, node, path, ConstMismatch);
      }
    case Text(_, _, _, _) =>
      CheckText(scene, schema, node, path, report);
    case Number(_, _, _, _, _) =>
      CheckNumber(scene, schema, node, path, report);
    case Array(_, _, _, _) =>
      ValidateArray(scene, node, schema, depth, path, report);
    case Object(_, _, _, _, _) =>
      ValidateObject(scene, node, schema, depth, path, report);
    case Not(inner) =>
      if scene.settings.combinators {
        var sub := new Report();
        ValidateNode(scene, node, inner, depth + 1, path, sub);
        if sub.issues == [] {
          report.Add(scene, node, path, NotMatched);
        }
      }
    case OneOf(schemas) =>
      if scene.settings.combinators {
        var matches := CountMatches(scene, node, schemas, depth, path);
        if matches == 0 {
          report.Add(scene, node, path, OneOfMismatch);
        } else if matches > 1 {
          report.Add(scene, node, path, OneOfAmbiguous);
        }
      }
    case AnyOf(schemas) =>
      if scene.settings.combinators {
        var matches := CountMatches(scene, node, schemas, depth, path);
        if matches == 0 {
          report.Add(scene, node, path, AnyOfMismatch);
        }
      }
    case AllOf(schemas) =>
      if scene.settings.combinators {
        ValidateAll(scene, node, schemas, depth, path, report);
      }
    case Ref(name) =>
      if scene.settings.refs {
        var key := RefKey(name);
        if key !in scene.defs {
          report.Add(scene, node, path, RefUnresolved);
        } else {
          ValidateNode(scene, node, scene.defs[key], depth + 1, path, report);
        }
      }
  }

  method ValidateArray(scene: Scene, node: NodeId, schema: Schema, depth: nat, path: Path, report: Report)
    requires schema.Array? && depth <= scene.settings.maxDepth
    modifies path, report
    ensures path.text == old(path.text)
    ensures report.issues == old(report.issues) + Findings(scene, schema, node, depth, old(path.text))
    decreases Left(scene, depth), 1, 0
  {
    hide Raise, ArrayIssues;
    if !scene.settings.arrays {
      return;
    }
    if ItemsOf(scene.nodes, node).None? {
      report.Add(scene, node, path, TypeMismatch);
      return;
    }
    var elements := ItemsOf(scene.nodes, node).value;
    CheckArray(scene, schema, node, elements, path, report);
    if schema.items.None? {
      return;
    }
    ValidateItems(scene, elements, schema.items.value, depth, path, report);
  }

  method ValidateItems(scene: Scene, items: seq<NodeId>, schema: Schema, depth: nat, path: Path, report: Report)
    requires depth <= scene.settings.maxDepth
    modifies path, report
    ensures path.text == old(path.text)
    ensures report.issues == old(report.issues) + ItemFindings(scene, schema, items, |items|, depth, old(path.text))
    decreases Left(scene, depth), 0, 0
  {
    hide Findings, Join;
    ghost var before, start := report.issues, path.text;
    var i := 0;
    while i < |items|
      invariant 0 <= i <= |items|
      invariant path.text == start
      invariant report.issues == before + ItemFindings(scene, schema, items, i, depth, start)
    {
      path.Push(Decimal(i));
      ValidateNode(scene, items[i], schema, depth + 1, path, report);
      PopUndoesJoin(start, Decimal(i));
      path.Pop(Decimal(i));
      i := i + 1;
    }
  }

  method ValidateObject(scene: Scene, node: NodeId, schema: Schema, depth: nat, path: Path, report: Report)
    requires schema.Object? && depth <= scene.settings.maxDepth
    modifies path, report
    ensures path.text == old(path.text)
    ensures report.issues == old(report.issues) + Findings(scene, schema, node, depth, old(path.text))
    decreases Left(scene, depth), 1, 0
  {
    hide Raise, ObjectIssues;
    if !scene.settings.objects {
      return;
    }
    if EntriesOf(scene.nodes, node).None? {
      report.Add(scene, node, path, TypeMismatch);
      return;
    }
    var entries := EntriesOf(scene.nodes, node).value;
    CheckObject(scene, schema, node, entries, path, report);
    ghost var before, start := report.issues, path.text;
    var i := 0;
    while i < |entries|
      invariant 0 <= i <= |entries|
      invariant path.text == start
      invariant report.issues == before + EntryFindings(scene, schema, node, entries, i, depth, start)
    {
      ValidateEntry(scene, node, schema, entries[i], depth, path, report);
      i := i + 1;
    }
  }

  method ValidateEntry(scene: Scene, node: NodeId, schema: Schema, entry: (NodeId, NodeId), depth: nat, path: Path,
                       report: Report)
    requires schema.Object? && depth <= scene.settings.maxDepth
    modifies path, report
    ensures path.text == old(path.text)
    ensures report.issues == old(report.issues) + EntryFinding(scene, schema, node, entry, depth, old(path.text))
    decreases Left(scene, depth), 0, 0
  {
    var key := TextOf(scene.nodes, entry.0);
    if key.None? {
      return;
    }
    var name := key.value;
    var inner := Property(schema.properties, name);
    if inner.None? && schema.additional.Against? {
      inner := Some(schema.additional.schema);
    }
    if inner.Some? {
      ghost var start := path.text;
      path.Push(name);
      ValidateNode(scene, entry.1, inner.value, depth + 1, path, report);
      PopUndoesJoin(start, name);
      path.Pop(name);
    } else if schema.additional.Forbid? {
      report.Add(scene, node, path, AdditionalProperty);
    }
  }

  /** How many of the schemas raise no issue, each with a report of its own. */
  method CountMatches(scene: Scene, node: NodeId, schemas: seq<Schema>, depth: nat, path: Path) returns (count: nat)
    requires depth <= scene.settings.maxDepth
    modifies path
    ensures path.text == old(path.text)
    ensures count == CountMatching(scene, schemas, |schemas|, node, depth, old(path.text))
    decreases Left(scene, depth), 0, 0
  {
    hide Findings;
    ghost var start := path.text;
    count := 0;
    var i := 0;
    while i < |schemas|
      invariant 0 <= i <= |schemas|
      invariant path.text == start
      invariant count == CountMatching(scene, schemas, i, node, depth, start)
    {
      var sub := new Report();
      ValidateNode(scene, node, schemas[i], depth + 1, path, sub);
      if sub.issues == [] {
        count := count + 1;
      }
      i := i + 1;
    }
  }

  /** Holds the node against every schema, and reports whatever is found as issues of the node itself. */
  method ValidateAll(scene: Scene, node: NodeId, schemas: seq<Schema>, depth: nat, path: Path, report: Report)
    requires depth <= scene.settings.maxDepth
    modifies path, report
    ensures path.text == old(path.text)
    ensures report.issues == old(report.issues) + AllFindings(scene, schemas, |schemas|, node, depth, old(path.text))
    decreases Left(scene, depth), 0, 0
  {
    hide Findings, Restated;
    ghost var before, start := report.issues, path.text;
    var i := 0;
    while i < |schemas|
      invariant 0 <= i <= |schemas|
      invariant path.text == start
      invariant report.issues == before + AllFindings(scene, schemas, i, node, depth, start)
    {
      var sub := new Report();
      ValidateNode(scene, node, schemas[i], depth + 1, path, sub);
      assert sub.issues == Findings(scene, schemas[i], node, depth + 1, start);
      report.Absorb(scene, node, path, sub);
      i := i + 1;
    }
  }

  /** Validates a document from its root: the report is empty exactly when the schema accepts the root. */
  method Validate(scene: Scene, node: NodeId, schema: Schema) returns (report: Report)
    ensures report.issues == Findings(scene, schema, node, 0, "")
    ensures report.issues == [] <==> Accepts(scene, schema, node, scene.settings.maxDepth + 1)
  {
    report := new Report();
    var path := new Path();
    ValidateNode(scene, node, schema, 0, path, report);
    CleanMeansAccepted(scene, schema, node, 0, "");
  }
}
