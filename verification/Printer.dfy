/** Rendering a node as canonical block YAML: the text, and the printer that appends it piece by piece. */
module Printer {
  import opened Prelude
  import opened Syntax
  import opened Arena
  import opened Numbers
  import opened Resolve
  import MergeKeys

  function Pad(n: nat): (s: string)
    ensures |s| == n && forall i | 0 <= i < n :: s[i] == ' '
  {
    seq(n, _ => ' ')
  }

  // ----- Scalars

  function EscapeOf(c: char): string {
    match c
    case '"' => "\\\""
    case '\\' => "\\\\"
    case '\n' => "\\n"
    case '\r' => "\\r"
    case '\t' => "\\t"
    case _ => [c]
  }

  function Escaped(s: string): string {
    if s == "" then "" else EscapeOf(s[0]) + Escaped(s[1..])
  }

  function Doubled(s: string): string {
    if s == "" then "" else (if s[0] == '\'' then "''" else [s[0]]) + Doubled(s[1..])
  }

  const SPECIAL := ": #[]{},&*!|>'\"%@`"

  predicate NeedsQuotes(s: string) {
    s == "" || exists i | 0 <= i < |s| :: s[i] in SPECIAL || IsWhitespace(s[i])
  }

  function ScalarText(floats: Floats, scalar: ScalarData): string {
    match scalar.value
    case Null => "null"
    case Bool(b) => if b then "true" else "false"
    case Int(i) => IntText(i)
    case Float(bits) => floats.text(bits)
    case Timestamp(s) => s
    case String(s) =>
      if scalar.style.DoubleQuoted? then "\"" + Escaped(s) + "\""
      else if NeedsQuotes(s) then "'" + Doubled(s) + "'"
      else s
  }

  // ----- Aliases, trivia and lines

  function AnchorFor(nodes: seq<NodeData>, id: NodeId, seen: set<NodeId>): Option<string>
    decreases MergeKeys.Indices(|nodes|) - seen
  {
    if id in seen || id >= |nodes| then None
    else if nodes[id].anchor.Some? then nodes[id].anchor
    else if nodes[id].kind.Alias? then
      assert id in MergeKeys.Indices(|nodes|);
      AnchorFor(nodes, nodes[id].kind.target, seen + {id})
    else None
  }

  function AliasText(nodes: seq<NodeData>, target: NodeId): string {
    var name := AnchorFor(nodes, target, {});
    "*" + if name.Some? then name.value else "<unknown>"
  }

  function TriviumText(kind: TriviaKind, indent: nat): string {
    match kind
    case CommentTrivia(text) => Pad(indent) + "#" + (if text == "" then "" else " " + text) + "\n"
    case BlankLineTrivia => "\n"
  }

  function TriviaText(trivia: seq<Trivia>, indent: nat): string {
    if trivia == [] then "" else TriviumText(trivia[0].kind, indent) + TriviaText(trivia[1..], indent)
  }

  function FirstNewline(s: string, i: nat): (end: nat)
    requires i <= |s|
    ensures i <= end <= |s|
    decreases |s| - i
  {
    if i < |s| && s[i] != '\n' then FirstNewline(s, i + 1) else i
  }

  /** The lines of a text; a final newline does not start another one. */
  function LinesOf(s: string): seq<string> {
    if s == "" then [] else
    var end := FirstNewline(s, 0);
    if end == |s| then [s]
    else [if end > 0 && s[end - 1] == '\r' then s[..end - 1] else s[..end]] + LinesOf(s[end + 1..])
  }

  function IndentedLines(lines: seq<string>, prefix: string): string {
    if lines == [] then "" else prefix + " " + lines[0] + "\n" + IndentedLines(lines[1..], prefix)
  }

  // ----- Nodes

  predicate IsNonemptyCollection(node: NodeData) {
    (node.kind.Mapping? && node.kind.entries != []) || (node.kind.Sequence? && node.kind.items != [])
  }

  function InlineText(floats: Floats, nodes: seq<NodeData>, node: NodeData): string {
    match node.kind
    case Scalar(scalar) => ScalarText(floats, scalar)
    case Mapping(_) => "{}"
    case Sequence(_) => "[]"
    case Alias(target) => AliasText(nodes, target)
  }

  function KeyText(floats: Floats, nodes: seq<NodeData>, key: NodeId): string {
    if key < |nodes| && nodes[key].kind.Scalar? then ScalarText(floats, nodes[key].kind.scalar) else ""
  }

  function TriviaOf(nodes: seq<NodeData>, id: NodeId): seq<Trivia> {
    if id < |nodes| then nodes[id].trivia else []
  }

  predicate IsBlockStyle(style: ScalarStyle) {
    style.BlockLiteral? || style.BlockChomped?
  }

  /** The text of node `id`. A child that is no older than its parent, which no arena has, prints as nothing. */
  function NodeText(floats: Floats, nodes: seq<NodeData>, id: NodeId, indent: nat): string
    decreases id, 1, 0
  {
    if id >= |nodes| then "" else
    var node := nodes[id];
    match node.kind
    case Scalar(scalar) =>
      if IsBlockStyle(scalar.style) then
        Pad(indent) + (if scalar.style.BlockLiteral? then "|"
                       else ">") + "\n" + IndentedLines(LinesOf(scalar.raw), Pad(indent))
      else Pad(indent) + ScalarText(floats, scalar) + "\n"
    case Mapping(entries) =>
      if entries == [] then Pad(indent) + "{}" + "\n"
      else EntriesText(floats, nodes, entries, id, indent) + TriviaText(node.trivia, indent)
    case Sequence(items) =>
      if items == [] then Pad(indent) + "[]" + "\n"
      else ItemsText(floats, nodes, items, id, indent) + TriviaText(node.trivia, indent)
    case Alias(target) => Pad(indent) + AliasText(nodes, target) + "\n"
  }

  /** What follows a dash or a colon: the value itself, or an indented block below. */
  function TailText(floats: Floats, nodes: seq<NodeData>, value: NodeId, bound: nat, indent: nat): string
    decreases bound, 0, 0
  {
    if value >= |nodes| then "\n"
    else if IsNonemptyCollection(nodes[value]) then "\n" + if value < bound then
      NodeText(floats, nodes, value, indent + 2) else ""
    else " " + InlineText(floats, nodes, nodes[value]) + "\n"
  }

  function EntryHead(floats: Floats, nodes: seq<NodeData>, key: NodeId, value: NodeId, indent: nat): string {
    TriviaText(TriviaOf(nodes, key), indent) + TriviaText(TriviaOf(nodes, value), indent)
    + Pad(indent) + KeyText(floats, nodes, key) + ":"
  }

  function EntriesText(floats: Floats, nodes: seq<NodeData>, entries: seq<(NodeId, NodeId)>, bound: nat, indent: nat)
    : string
    decreases bound, 0, |entries|
  {
    if entries == [] then ""
    else
      EntryHead(floats, nodes, entries[0].0, entries[0].1, indent)
        + TailText(floats, nodes, entries[0].1, bound, indent)
      + EntriesText(floats, nodes, entries[1..], bound, indent)
  }

  function ItemHead(nodes: seq<NodeData>, item: NodeId, indent: nat): string {
    TriviaText(TriviaOf(nodes, item), indent) + Pad(indent) + "-"
  }

  function ItemsText(floats: Floats, nodes: seq<NodeData>, items: seq<NodeId>, bound: nat, indent: nat): string
    decreases bound, 0, |items|
  {
    if items == [] then ""
    else
      (if items[0] >= |nodes| then ""
       else ItemHead(nodes, items[0], indent) + TailText(floats, nodes, items[0], bound, indent))
      + ItemsText(floats, nodes, items[1..], bound, indent)
  }

  function PrettyPrint(floats: Floats, nodes: seq<NodeData>, root: NodeId): string {
    var output := TriviaText(TriviaOf(nodes, root), 0) + NodeText(floats, nodes, root, 0);
    if output == "" || output[|output| - 1] != '\n' then output + "\n" else output
  }

  class Printer {
    const floats: Floats
    const nodes: seq<NodeData>
    var output: string

    constructor (floats: Floats, nodes: seq<NodeData>)
      ensures this.floats == floats && this.nodes == nodes && output == ""
    {
      this.floats, this.nodes, output := floats, nodes, "";
    }

    method Push(text: string)
      modifies this`output
      ensures output == old(output) + text
    {
      output := output + text;
    }

    method RenderTrivia(trivia: seq<Trivia>, indent: nat)
      modifies this`output
      ensures output == old(output) + TriviaText(trivia, indent)
    {
      hide TriviumText;
      assert trivia[0..] == trivia;
      for k := 0 to |trivia|
        invariant output + TriviaText(trivia[k..], indent) == old(output) + TriviaText(trivia, indent)
      {
        assert trivia[k..][1..] == trivia[k + 1..];
        RenderTrivium(trivia[k].kind, indent);
      }
    }

    method RenderTrivium(kind: TriviaKind, indent: nat)
      modifies this`output
      ensures output == old(output) + TriviumText(kind, indent)
    {
      match kind {
        case CommentTrivia(text) =>
          Push(Pad(indent));
          Push("#");
          if text != "" {
            Push(" ");
            Push(text);
          }
          Push("\n");
        case BlankLineTrivia =>
          Push("\n");
      }
    }

    method RenderBlockScalar(scalar: ScalarData, indent: nat)
      requires IsBlockStyle(scalar.style)
      modifies this`output
      ensures output == old(output) + (Pad(indent) + (if scalar.style.BlockLiteral? then "|" else ">") + "\n"
                        + IndentedLines(LinesOf(scalar.raw), Pad(indent)))
    {
      var prefix := Pad(indent);
      RenderLine(if scalar.style.BlockLiteral? then "|" else ">", indent);
      var lines := LinesOf(scalar.raw);
      ghost var start := output;
      assert lines[0..] == lines;
      for k := 0 to |lines|
        invariant output + IndentedLines(lines[k..], prefix) == start + IndentedLines(lines, prefix)
      {
        ghost var before := output;
        assert lines[k..][1..] == lines[k + 1..];
        Push(prefix + " " + lines[k] + "\n");
        assert IndentedLines(lines[k..], prefix) == output[|before|..] + IndentedLines(lines[k + 1..], prefix);
      }
      assert IndentedLines(lines[|lines|..], prefix) == "";
      assert output + "" == output;
    }

    method RenderLine(text: string, indent: nat)
      modifies this`output
      ensures output == old(output) + (Pad(indent) + text + "\n")
    {
      Push(Pad(indent));
      Push(text);
      Push("\n");
    }

    method RenderNode(id: NodeId, indent: nat)
      modifies this`output
      ensures output == old(output) + NodeText(floats, nodes, id, indent)
      decreases id, 1, 0
    {
      hide Pad, TriviaText, ScalarText, AliasText, EntriesText, ItemsText, IndentedLines, LinesOf;
      if id >= |nodes| {
        return;
      }
      var node := nodes[id];
      match node.kind {
        case Scalar(scalar) =>
          if IsBlockStyle(scalar.style) {
            RenderBlockScalar(scalar, indent);
          } else {
            RenderLine(ScalarText(floats, scalar), indent);
          }
        case Mapping(entries) =>
          if entries == [] {
            RenderLine("{}", indent);
          } else {
            RenderEntries(id, entries, indent);
            RenderTrivia(node.trivia, indent);
          }
        case Sequence(items) =>
          if items == [] {
            RenderLine("[]", indent);
          } else {
            RenderItems(id, items, indent);
            RenderTrivia(node.trivia, indent);
          }
        case Alias(target) => RenderLine(AliasText(nodes, target), indent);
      }
    }

    method RenderTail(value: NodeId, bound: nat, indent: nat)
      modifies this`output
      ensures output == old(output) + TailText(floats, nodes, value, bound, indent)
      decreases bound, 0, 0
    {
      hide NodeText, InlineText, IsNonemptyCollection;
      ghost var start := output;
      if value >= |nodes| {
        Push("\n");
      } else if IsNonemptyCollection(nodes[value]) {
        Push("\n");
        if value < bound {
          RenderNode(value, indent + 2);
        }
      } else {
        RenderInline(nodes[value]);
      }
    }

    /** A value on the line of its key or dash. */
    method RenderInline(node: NodeData)
      modifies this`output
      ensures output == old(output) + (" " + InlineText(floats, nodes, node) + "\n")
    {
      hide InlineText;
      Push(" ");
      Push(InlineText(floats, nodes, node));
      Push("\n");
    }

    method RenderEntryHead(key: NodeId, value: NodeId, indent: nat)
      modifies this`output
      ensures output == old(output) + EntryHead(floats, nodes, key, value, indent)
    {
      hide Pad, TriviaText, KeyText;
      ghost var start := output;
      NoTrivia(indent);
      if key < |nodes| {
        RenderTrivia(nodes[key].trivia, indent);
      }
      assert output == start + TriviaText(TriviaOf(nodes, key), indent);
      if value < |nodes| {
        RenderTrivia(nodes[value].trivia, indent);
      }
      ghost var trivia := TriviaText(TriviaOf(nodes, key), indent) + TriviaText(TriviaOf(nodes, value), indent);
      assert output == start + trivia;
      Push(Pad(indent));
      assert output == start + (trivia + Pad(indent));
      Push(KeyText(floats, nodes, key));
      Push(":");
    }

    method RenderEntries(id: NodeId, entries: seq<(NodeId, NodeId)>, indent: nat)
      modifies this`output
      ensures output == old(output) + EntriesText(floats, nodes, entries, id, indent)
      decreases id, 0, |entries|
    {
      hide EntryHead, TailText;
      assert entries[0..] == entries;
      for k := 0 to |entries|
        invariant output + EntriesText(floats, nodes, entries[k..], id, indent)
          == old(output) + EntriesText(floats, nodes, entries, id, indent)
      {
        ghost var before := output;
        assert entries[k..][1..] == entries[k + 1..];
        RenderEntryHead(entries[k].0, entries[k].1, indent);
        RenderTail(entries[k].1, id, indent);
        assert output + EntriesText(floats, nodes, entries[k + 1..], id, indent)
          == before + EntriesText(floats, nodes, entries[k..], id, indent);
      }
    }

    lemma NoTrivia(indent: nat)
      ensures TriviaText([], indent) == ""
    {
    }

    method RenderItemHead(item: NodeId, indent: nat)
      requires item < |nodes|
      modifies this`output
      ensures output == old(output) + ItemHead(nodes, item, indent)
    {
      hide Pad, TriviaText;
      RenderTrivia(nodes[item].trivia, indent);
      Push(Pad(indent));
      Push("-");
    }

    method RenderItems(id: NodeId, items: seq<NodeId>, indent: nat)
      modifies this`output
      ensures output == old(output) + ItemsText(floats, nodes, items, id, indent)
      decreases id, 0, |items|
    {
      hide ItemHead, TailText;
      assert items[0..] == items;
      for k := 0 to |items|
        invariant output + ItemsText(floats, nodes, items[k..], id, indent)
          == old(output) + ItemsText(floats, nodes, items, id, indent)
      {
        ghost var before := output;
        assert items[k..][1..] == items[k + 1..];
        if items[k] < |nodes| {
          RenderItemHead(items[k], indent);
          RenderTail(items[k], id, indent);
        }
        assert output + ItemsText(floats, nodes, items[k + 1..], id, indent)
          == before + ItemsText(floats, nodes, items[k..], id, indent);
      }
    }

    /** The whole document, always ending in a newline. */
    method Print(root: NodeId) returns (text: string)
      requires output == ""
      modifies this`output
      ensures text == output == PrettyPrint(floats, nodes, root)
    {
      hide NodeText, TriviaText;
      if root < |nodes| {
        RenderTrivia(nodes[root].trivia, 0);
      } else {
        NoTrivia(0);
      }
      RenderNode(root, 0);
      if output == "" || output[|output| - 1] != '\n' {
        Push("\n");
      }
      text := output;
    }
  }
}
