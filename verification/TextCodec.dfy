/** Writing a value as text and reading it back, through the serializer, printer, tokenizer and parser. */
module TextCodec {
  import opened Prelude
  import opened Syntax
  import opened Resolve
  import opened Values
  import opened ValueText
  import opened ParsedText
  import opened RoundTrip
  import L = Lexing
  import G = Grammar
  import Lexer
  import Parser
  import Printer
  import Serializer

  method ToText(floats: Floats, v: Value) returns (text: string)
    ensures text == Written(floats, v)
  {
    var serializer := new Serializer.Serializer(floats);
    var root := serializer.Serialize(v);
    var printer := new Printer.Printer(floats, serializer.nodes);
    text := printer.Print(root);
  }

  method FromText(cfg: Config, alphabet: L.Alphabet, text: string) returns (r: Option<Value>)
    ensures r == ReadBack(cfg, G.EveryAnchor, alphabet, text)
  {
    var lexer := new Lexer.Lexer(alphabet, text);
    var tokens := lexer.Lex();
    if tokens.Err? {
      return None;
    }
    var parser := new Parser.Parser(cfg, tokens.value);
    var document := parser.Parse();
    if document.Err? || |document.value.documents| != 1 {
      return None;
    }
    return Some(FromNode(document.value.nodes, document.value.documents[0]));
  }

  /** What goes in comes out. */
  method ThereAndBack(options: Options, floats: Floats, floatEq: (nat, nat) -> bool, alphabet: L.Alphabet, v: Value)
    returns (r: Option<Value>)
    requires Printable(v) && KeysOk(options.mergeKeys, v)
    ensures r == Some(v)
  {
    hide ReadBack, Written, Printable, KeysOk;
    var text := ToText(floats, v);
    r := FromText(ConfigOf(options, floats, floatEq), alphabet, text);
    WriteThenRead(options, floats, floatEq, G.EveryAnchor, alphabet, v);
  }
}
