/** Parts of the parsing routines that proofs speak about: what a mapping's loop still has to do behind a key. */
module GrammarParts {
  import opened Prelude
  import opened Syntax
  import opened Arena
  import opened Grammar

  /** Reading trivia a second time changes nothing. */
  lemma SkipTriviaAgain(g: Grammar, s: PState)
    requires s.pos <= |g.tokens|
    ensures SkipTrivia(g, SkipTrivia(g, s)) == SkipTrivia(g, s)
  {
    var pending := SkipTrivia(g, s).pending;
    assert pending + [] == pending;
  }

  /** The value of a block entry whose key is complete, and the entries after it. */
  function BlockRest(g: Grammar, t: PState, key: NodeId, entries: seq<(NodeId, NodeId)>, token: Span,
                     first: Option<Span>, lastEnd: nat): (r: Parsed)
    requires t.pos <= |g.tokens|
    ensures r.Ok? ==> t.pos <= r.value.0.pos <= |g.tokens|
  {
    var (u, value) :- ParseBlockEntryValue(g, t, token);
    ParseBlockMapping(g, u, entries + [(key, value)], first,
                      SpanEnd(u.document.nodes, value, SpanEnd(u.document.nodes, key, lastEnd)), Some(token.column))
  }

  /** The value of a flow entry whose key is complete, and the entries after it. */
  function FlowRest(g: Grammar, t: PState, key: NodeId, entries: seq<(NodeId, NodeId)>, open: Span, end: nat)
    : (r: Parsed)
    requires t.pos <= |g.tokens|
    ensures r.Ok? ==> t.pos <= r.value.0.pos <= |g.tokens|
  {
    var (u, value) :- ParseFlowEntryValue(g, t);
    var end := SpanEnd(u.document.nodes, value, SpanEnd(u.document.nodes, key, end));
    var u := SkipTrivia(g, u);
    if u.pos < |g.tokens| && !g.tokens[u.pos].kind.Comma? && !g.tokens[u.pos].kind.RightBrace? then
      Err(UnexpectedCharacter)
    else
      ParseFlowMapping(g, u, entries + [(key, value)], open, end)
  }
}
