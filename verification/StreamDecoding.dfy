/** Decoding from events and reading from the arena give the same values, document by document. */
module StreamDecoding {
  import opened Prelude
  import opened Syntax
  import opened Arena
  import opened Events
  import opened Flatten
  import opened Grammar
  import opened Machine
  import opened Runs
  import opened MachineInvariant
  import opened StreamEquivalence
  import opened ParsersAgree
  import opened Values
  import opened Decoding
  import opened FlowContext
  import opened KeyAnchors
  import opened KeyAnchorPolicies
  import ArenaInvariant
  import Decoder
  import G = Grammar

  /** After the end of the stream nothing well-formed follows. */
  lemma {:induction false} NothingAfterEnd(events: seq<Event<string>>, k: nat)
    requires k < |events| && events[k].StreamEnd?
    ensures ReadAll(events).After? || ReadAll(events).Malformed?
    decreases |events|
  {
    if k < |events| - 1 {
      NothingAfterEnd(events[..|events| - 1], k);
    }
  }

  lemma StreamDecodes(document: Document, anchors: map<string, NodeId>, log: seq<Event<string>>)
    requires Backward(document.nodes) && forall root | root in document.documents :: root < |document.nodes|
    requires ReferAll(anchors, log) == StreamEvents(document)
    ensures DecodeStream(log, None) == DocumentValues(document.nodes, document.documents)
  {
    hide DocumentEvents, DecodeDocuments, DocumentValues;
    var start: seq<TreeEvent> := [Event.StreamStart];
    var rest := DocumentEvents(document.nodes, document.documents) + [Event.StreamEnd];
    assert StreamEvents(document) == start + rest;
    var events := ReferAll(anchors, log);
    assert events[0] == start[0];
    forall k | 0 <= k < |rest| ensures events[1 + k] == rest[k] {
    }
    DocumentsDecode(document.nodes, document.documents, events, 1);
    DocumentsRefer(anchors, log, None, 1);
  }

  /** What iterating over the documents of a token list yields. */
  ghost function Iterated(g: Grammar): seq<Decoded>
    requires Valid(g.tokens, InitialMachine(g.cfg))
  {
    var (m, error) := Final(g, InitialMachine(g.cfg));
    DecodeStream(m.log, error)
  }

  predicate EndsInError(items: seq<Decoded>) {
    items != [] && items[|items| - 1].Err?
  }

  /** The same for the grammar with the event parser's own anchor policy. */
  lemma DocumentsMatchGrammar(g: Grammar)
    requires Followed(g)
    ensures Valid(g.tokens, InitialMachine(g.cfg))
    ensures var (m, error) := Final(g, InitialMachine(g.cfg));
      match Parse(g)
      case Ok(t) => error == None && DecodeStream(m.log, None) == DocumentValues(t.document.nodes, t.document.documents)
      case Err(e) =>
        error == Some(e) && EndsInError(DecodeStream(m.log, error))
  {
    hide Run, Parse, Step, Final, ReferAll, StreamEvents, DecodeStream, DocumentValues, Denotes;
    RunAgrees(g);
    FinalIsRun(g, InitialMachine(g.cfg));
    var (m, error) := Final(g, InitialMachine(g.cfg));
    if Parse(g).Ok? {
      var t := Parse(g).value;
      ArenaInvariant.ParsedBackward(g);
      assert ReferAll(t.anchors, m.log) == StreamEvents(t.document) by {
        Denoted(t, m.log, StreamEvents(t.document));
      }
      StreamDecodes(t.document, t.anchors, m.log);
    } else {
      FailureEnds(g, m, error.value);
    }
  }

  /**
   Where no flow key carries two anchors: when the arena parser accepts, iterating the event parser's
   documents yields the arena's values in order, without their tags, stopping at the first document
   that uses an alias; when it refuses, the iteration ends in an error.
   */
  lemma DocumentsMatchArena(g: Grammar)
    requires Followed(g) && OneAnchorPerKey(g.tokens)
    ensures Valid(g.tokens, InitialMachine(g.cfg))
    ensures match Parse(Every(g))
      case Ok(t) => Iterated(g) == DocumentValues(t.document.nodes, t.document.documents)
      case Err(_) => EndsInError(Iterated(g))
  {
    hide Parse, Final, DecodeStream, DocumentValues, OneAnchorPerKey, EndsInError;
    DocumentsMatchGrammar(g);
    SameParse(g);
  }

  /**
   On every other token list: the values agree whenever both parsers accept. The arena parser alone
   refuses exactly when an anchor name is declared twice, and accepts alone only if an alias names the
   second anchor of a flow key.
   */
  lemma DocumentsCompared(g: Grammar)
    requires Followed(g)
    ensures Valid(g.tokens, InitialMachine(g.cfg))
    ensures match Parse(Every(g))
      case Ok(t) =>
        || Iterated(g) == DocumentValues(t.document.nodes, t.document.documents)
        || (EndsInError(Iterated(g)) && AliasToDropped(g.tokens))
      case Err(_) => EndsInError(Iterated(g)) || Declaring({}, g.tokens, 0, FirstEof(g.tokens, 0)).None?
  {
    hide Parse, Final, DecodeStream, DocumentValues, EndsInError, AliasToDropped, Declaring, FirstEof;
    DocumentsMatchGrammar(g);
    PoliciesCompared(g);
  }

  // ----- Streams without aliases

  lemma {:induction false} NothingAliased(nodes: seq<NodeData>, id: NodeId)
    requires forall i | 0 <= i < |nodes| :: !nodes[i].kind.Alias?
    ensures !Aliased(nodes, id)
    decreases id, 1
  {
    if id < |nodes| {
      match nodes[id].kind
      case Sequence(items) => NoItemAliased(nodes, items, id);
      case Mapping(entries) => NoEntryAliased(nodes, entries, id);
      case _ =>
    }
  }

  lemma {:induction false} NoItemAliased(nodes: seq<NodeData>, items: seq<NodeId>, bound: nat)
    requires forall i | 0 <= i < |nodes| :: !nodes[i].kind.Alias?
    ensures !ItemsAliased(nodes, items, bound)
    decreases bound, 0, |items|
  {
    if items != [] {
      if items[0] < bound {
        NothingAliased(nodes, items[0]);
      }
      NoItemAliased(nodes, items[1..], bound);
    }
  }

  lemma {:induction false} NoEntryAliased(nodes: seq<NodeData>, entries: seq<(NodeId, NodeId)>, bound: nat)
    requires forall i | 0 <= i < |nodes| :: !nodes[i].kind.Alias?
    ensures !EntriesAliased(nodes, entries, bound)
    decreases bound, 0, |entries|
  {
    if entries != [] {
      if entries[0].0 < bound {
        NothingAliased(nodes, entries[0].0);
      }
      if entries[0].1 < bound {
        NothingAliased(nodes, entries[0].1);
      }
      NoEntryAliased(nodes, entries[1..], bound);
    }
  }

  /** The values of all documents, read from the arena. */
  function ArenaValues(nodes: seq<NodeData>, roots: seq<NodeId>): seq<Decoded> {
    seq(|roots|, k requires 0 <= k < |roots| => Ok(Untag(FromNode(nodes, roots[k]))))
  }

  lemma {:induction false} AllValues(nodes: seq<NodeData>, roots: seq<NodeId>)
    requires forall i | 0 <= i < |nodes| :: !nodes[i].kind.Alias?
    ensures DocumentValues(nodes, roots) == ArenaValues(nodes, roots)
    decreases |roots|
  {
    if roots != [] {
      NothingAliased(nodes, roots[0]);
      AllValues(nodes, roots[1..]);
      assert ArenaValues(nodes, roots) == [Ok(Untag(FromNode(nodes, roots[0])))] + ArenaValues(nodes, roots[1..]);
    }
  }

  /** Without alias tokens nothing is lost: every document of an accepted stream decodes to its arena value. */
  lemma AliasFreeDocuments(g: Grammar)
    requires Followed(g) && !ArenaInvariant.HasAlias(g.tokens)
    ensures Valid(g.tokens, InitialMachine(g.cfg))
    ensures match Parse(Every(g))
      case Ok(t) => Iterated(g) == ArenaValues(t.document.nodes, t.document.documents)
      case Err(_) => EndsInError(Iterated(g)) || Declaring({}, g.tokens, 0, FirstEof(g.tokens, 0)).None?
  {
    hide Parse, Iterated, Declaring, FirstEof;
    DocumentsCompared(g);
    if Parse(Every(g)).Ok? {
      ArenaInvariant.ParsedArenaOk(Every(g));
      var document := Parse(Every(g)).value.document;
      forall i | 0 <= i < |document.nodes| ensures !document.nodes[i].kind.Alias? {
        assert ArenaInvariant.NodeOk(Every(g), document.nodes, i);
      }
      AllValues(document.nodes, document.documents);
    }
  }

  /** Iterating over a token list to the end, with a parser of its own. */
  method DecodeAll(cfg: Config, tokens: seq<Token>) returns (items: seq<Decoded>)
    ensures Valid(tokens, InitialMachine(cfg))
    ensures items == Iterated(G.Grammar(cfg, FirstAnchor, tokens))
    ensures var g := G.Grammar(cfg, FirstAnchor, tokens);
      Followed(g) && OneAnchorPerKey(tokens) ==>
        match Parse(Every(g))
        case Ok(t) => items == DocumentValues(t.document.nodes, t.document.documents)
        case Err(_) => EndsInError(items)
  {
    hide Final, Valid, Parse, OneAnchorPerKey, DocumentValues, EndsInError, DecodeStream;
    ghost var g := G.Grammar(cfg, FirstAnchor, tokens);
    InitialValid(cfg, tokens);
    var documents := new Decoder.Documents(cfg, tokens);
    items := documents.Collect();
    if Followed(g) && OneAnchorPerKey(tokens) {
      DocumentsMatchArena(g);
    }
  }

  lemma Denoted(t: PState, log: seq<Event<string>>, expected: seq<TreeEvent>)
    requires Denotes(t, log, expected)
    ensures ReferAll(t.anchors, log) == expected
  {
  }

  lemma FailureEnds(g: Grammar, m: Machine, e: ErrorKind)
    requires Valid(g.tokens, m) && !m.finished
    ensures EndsInError(DecodeStream(m.log, Some(e)))
  {
    forall k | 1 <= k < |m.log| ensures !m.log[k].StreamEnd? {
      if m.log[k].StreamEnd? {
        NothingAfterEnd(m.log, k);
      }
    }
    hide ReadAll, Contexts;
    if m.log != [] {
      FailureShows(m.log, e, 1);
    }
  }

  /** A document without aliases decodes to its arena value exactly when that value carries no tag. */
  lemma SameValueWithoutTags(nodes: seq<NodeData>, roots: seq<NodeId>)
    requires roots != [] && !Aliased(nodes, roots[0])
    ensures DocumentValues(nodes, roots)[0].Ok?
    ensures DocumentValues(nodes, roots)[0].value == FromNode(nodes, roots[0]) <==> Tagless(FromNode(nodes, roots[0]))
  {
    UntagKeeps(FromNode(nodes, roots[0]));
  }
}
