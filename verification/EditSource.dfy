/** Opening a document for editing: parsing it, and finding the tree the editor keeps. */
module EditSource {
  import opened Prelude
  import opened Syntax
  import opened Arena
  import opened Grammar
  import opened EditTree
  import opened ParsedTrees
  import opened ParsedForests
  import opened Editor
  import ArenaInvariant
  import Parser
  import G = Grammar
  import R = Resolve

  /** The first document of a parsed stream, which there always is. */
  lemma FirstDocument(g: Grammar)
    requires Parse(g).Ok?
    ensures Parse(g).value.document.documents != []
  {
    hide ParseDocuments, ConsumeDirectives;
  }

  /** Parses a stream that merges nothing, and takes its first document over for editing, with nothing dirty yet. */
  method Open(floats: R.Floats, cfg: Config, tokens: seq<Token>) returns (r: Result<EditableDocument, ErrorKind>)
    requires Unmerged(G.Grammar(cfg, EveryAnchor, tokens))
    ensures match Parse(G.Grammar(cfg, EveryAnchor, tokens))
      case Err(e) => r == Err(e)
      case Ok(s) =>
        && r.Ok? && fresh(r.value) && r.value.Valid() && r.value.dirty == {} && r.value.original == r.value.tree
        && r.value.nodes == s.document.nodes && r.value.documents == s.document.documents
  {
    hide Parse, Unmerged, Unfold;
    ghost var g := G.Grammar(cfg, EveryAnchor, tokens);
    var parser := new Parser.Parser(cfg, tokens);
    var document :- parser.Parse();
    FirstDocument(g);
    ghost var root := document.documents[0];
    ParsedUnshared(g, root);
    var editable := new EditableDocument(floats, document, Unfold(g, document.nodes, root));
    return Ok(editable);
  }
}
