/** The headline about the two parsers, stated over complete runs. */
module ParsersAgree {
  import opened Prelude
  import opened Syntax
  import opened Grammar
  import opened Machine
  import opened Runs
  import opened StreamEquivalence
  import opened MachineInvariant
  import opened Flatten
  import opened FlowContext
  import opened KeyAnchors
  import opened KeyAnchorPolicies
  import Lexing
  import LexedKinds

  /**
   On every token list, running the event parser to its end gives the same error as the recursive
   grammar, or finishes with exactly the events of the documents that grammar parses.
   */
  lemma RunAgrees(g: Grammar)
    requires Followed(g)
    ensures Valid(g.tokens, InitialMachine(g.cfg))
    ensures SameOutcome(Run(g, InitialMachine(g.cfg)), Parse(g))
  {
    hide Step, Steps, SameOutcome, Valid, Parse;
    InitialValid(g.cfg, g.tokens);
    var k := MachineFollowsParser(g);
    Finishes(g, k);
    RunIsSteps(g, InitialMachine(g.cfg), k);
  }

  lemma Finishes(g: Grammar, k: nat)
    requires SameOutcome(Steps(g, InitialMachine(g.cfg), k), Parse(g))
    ensures var run := Steps(g, InitialMachine(g.cfg), k); run.Err? || run.value.finished
  {
    hide Step, Steps;
  }

  lemma LexedUntagged(alphabet: Lexing.Alphabet, source: string)
    ensures var r := Lexing.Lex(alphabet, source); r.Ok? ==> Untagged(r.value)
  {
    hide Lexing.LexFrom;
    LexedKinds.LexedWritten(alphabet, source, 0);
    var r := Lexing.Lex(alphabet, source);
    if r.Ok? {
      forall i | 0 <= i < |r.value| && r.value[i].kind.Scalar? ensures r.value[i].kind.tag.None? {
        if i < |r.value| - 1 {
          assert LexedKinds.Written(r.value[i].kind);
        }
      }
    }
  }

  /** From source text: whatever the lexer makes of it, the two parsers agree on. */
  lemma SourceAgrees(g: Grammar, alphabet: Lexing.Alphabet, source: string)
    requires Lexing.Lex(alphabet, source) == Ok(g.tokens) && !g.cfg.options.mergeKeys && g.keyAnchors.FirstAnchor?
    ensures Followed(g) && Valid(g.tokens, InitialMachine(g.cfg))
    ensures SameOutcome(Run(g, InitialMachine(g.cfg)), Parse(g))
    ensures OneAnchorPerKey(g.tokens) ==> SameOutcome(Run(g, InitialMachine(g.cfg)), Parse(Every(g)))
  {
    hide Run, SameOutcome, Valid, Parse, OneAnchorPerKey, Lexing.LexFrom, Untagged;
    LexedUntagged(alphabet, source);
    RunAgrees(g);
    if OneAnchorPerKey(g.tokens) {
      ParsersAgreeOnce(g);
    }
  }

  // ----- The arena parser as it is, declaring every anchor of a flow key

  /** Where no flow key carries two anchors, the event parser and the arena parser agree outright. */
  lemma ParsersAgreeOnce(g: Grammar)
    requires Followed(g) && OneAnchorPerKey(g.tokens)
    ensures Valid(g.tokens, InitialMachine(g.cfg))
    ensures SameOutcome(Run(g, InitialMachine(g.cfg)), Parse(Every(g)))
  {
    hide Run, SameOutcome, Valid, Parse, OneAnchorPerKey;
    RunAgrees(g);
    SameParse(g);
  }

  /**
   On every other token list too: what the event parser accepts, the arena parser accepts with the
   same events exactly when no anchor name is declared twice up to the first `Eof`; what it refuses,
   the arena parser refuses, unless an alias names the second anchor of some flow key.
   */
  lemma ParsersCompared(g: Grammar)
    requires Followed(g)
    ensures Valid(g.tokens, InitialMachine(g.cfg))
    ensures match Run(g, InitialMachine(g.cfg))
      case Err(e) => Parse(Every(g)).Err? || (e == UnknownAnchor && AliasToDropped(g.tokens))
      case Ok(m) =>
        && (Parse(Every(g)).Ok? <==> Declaring({}, g.tokens, 0, FirstEof(g.tokens, 0)).Some?)
        && (Parse(Every(g)).Ok? ==> SameOutcome(Run(g, InitialMachine(g.cfg)), Parse(Every(g))))
  {
    hide Run, Valid, Parse, Declaring, StreamEvents, FirstEof, AliasToDropped;
    RunAgrees(g);
    PoliciesCompared(g);
    if Parse(g).Ok? && Parse(Every(g)).Ok? {
      ReferGrows(Parse(g).value.anchors, Parse(Every(g)).value.anchors, Run(g, InitialMachine(g.cfg)).value.log);
    }
  }
}
