/** Whole streams that are laid out parse to documents that read as their layouts say. */
module LaidStreams {
  import opened Prelude
  import opened Syntax
  import opened Arena
  import opened Grammar
  import opened Values
  import opened Layouts
  import opened LayoutParsing

  // ----- Directives

  lemma {:induction false} DirectivesParse(g: Grammar, s: PState, i: nat, directives: seq<nat>, at: nat)
    requires s.pos <= |g.tokens| && DirectivesLaid(g.tokens, i, directives)
      && Next(g.tokens, CommasEnd(i, directives), at)
    requires Next(g.tokens, s.pos, FirstComma(directives, at)) && !g.tokens[at].kind.Directive?
    ensures var r := ConsumeDirectives(g, s);
      && r.Ok? && r.value.pos == at
      && r.value.version == VersionBehind(g.cfg, g.tokens, s.version, directives) && (s.pinned ==> r.value.pinned)
    decreases |directives|
  {
    hide TriviaFrom, DirectiveVersion;
    SkipToNext(g.tokens, s.pos, FirstComma(directives, at));
    if directives != [] {
      var u := SkipTrivia(g, s);
      var version := DirectiveVersion(g.tokens[directives[0]].kind.text).value;
      var next := Advance(ApplyDirective(g.cfg, u, version));
      DirectiveNext(g.tokens, directives[0] + 1, directives[1..], at);
      DirectivesParse(g, next, directives[0] + 1, directives[1..], at);
    }
  }

  lemma DirectiveNext(tokens: seq<Token>, i: nat, directives: seq<nat>, at: nat)
    requires DirectivesLaid(tokens, i, directives) && Next(tokens, CommasEnd(i, directives), at)
    ensures Next(tokens, i, FirstComma(directives, at))
  {
  }

  // ----- One document

  /** Reading the roots from `k` on gives `values`. */
  ghost predicate RootsRead(document: Document, k: nat, values: seq<Value>) {
    && |document.documents| == k + |values|
    && forall i | 0 <= i < |values| ::
         document.documents[k + i] < |document.nodes|
           && FromNode(document.nodes, document.documents[k + i]) == values[i]
  }

  /** The content of a page, from behind its `---`. */
  lemma ContentParses(g: Grammar, s: PState, i: nat, page: Page, stop: nat, start: Option<Span>, env: Env, v: Value,
                      env': Env)
    requires Ready(g, s, env) && PageLaid(g.tokens, i, page, stop)
    requires Next(g.tokens, s.pos, if page.value.Some? then Start(page.value.value)
                                   else if page.end.Some? then page.end.value else stop)
    requires ContentStart(i, page) <= s.pos
    requires OptionMeaning(g.cfg, s.version, g.tokens, page.value, env) == Some((v, env'))
    ensures Arrived(ParseDocument(g, s, start), ContentEnd(i, page),
                    if page.end.Some? then page.end.value else stop, v, env')
  {
    hide Knows, Steady, TriviaFrom, Laid, Closes, Meaning, ParseValue, Arrived;
    var behind := if page.end.Some? then page.end.value else stop;
    if page.value.Some? {
      var layout := page.value.value;
      LaidStarts(g.tokens, ContentStart(i, page), layout);
      LaidFrom(g.tokens, ContentStart(i, page), s.pos, layout);
      SkipToNext(g.tokens, s.pos, Start(layout));
      ValueSkips(g, s);
      LayoutParses(g, s, layout, behind, env, v, env');
    } else {
      SkipToNext(g.tokens, s.pos, behind);
      var u := SkipTrivia(g, s);
      NullParses(g, u, if start.Some? then start.value else g.tokens[u.pos].span, ContentEnd(i, page), behind, env);
    }
  }

  /** Past the `...` and the directives of the next page. */
  lemma PageEnds(g: Grammar, s: PState, i: nat, page: Page, rest: seq<Page>, eof: nat)
    requires PageLaid(g.tokens, i, page, StreamStart(rest, eof)) && StreamLaid(g.tokens, PageEnd(i, page), rest, eof)
    requires rest != [] ==> rest[0].start.Some?
    requires ContentEnd(i, page) <= s.pos <= if page.end.Some? then page.end.value else StreamStart(rest, eof)
    ensures var r := EndDocument(g, s);
      && r.Ok? && r.value.pos == (if rest == [] then eof else PageStart(rest[0]))
      && r.value.version
        == (if rest == [] then s.version else VersionBehind(g.cfg, g.tokens, s.version, rest[0].directives))
      && (s.pinned ==> r.value.pinned)
  {
    hide TriviaFrom, DirectiveVersion, Laid, Closes, ConsumeDirectives;
    var behind := if page.end.Some? then page.end.value else StreamStart(rest, eof);
    SkipToNext(g.tokens, s.pos, behind);
    var u := SkipTrivia(g, s);
    var w := if page.end.Some? then Advance(u) else u;
    var directives := if rest == [] then [] else rest[0].directives;
    var at := if rest == [] then eof else PageStart(rest[0]);
    RestStarts(g.tokens, PageEnd(i, page), rest, eof);
    DirectiveNext(g.tokens, PageEnd(i, page), directives, at);
    SkipToNext(g.tokens, w.pos, StreamStart(rest, eof));
    DirectivesParse(g, SkipTrivia(g, w), PageEnd(i, page), directives, at);
  }

  /** Behind the directives of what is left comes its first document, or the end. */
  lemma RestStarts(tokens: seq<Token>, i: nat, rest: seq<Page>, eof: nat)
    requires StreamLaid(tokens, i, rest, eof) && (rest != [] ==> rest[0].start.Some?)
    ensures var directives := if rest == [] then [] else rest[0].directives;
      var at := if rest == [] then eof else PageStart(rest[0]);
      && DirectivesLaid(tokens, i, directives) && Next(tokens, CommasEnd(i, directives), at)
      && (tokens[at].kind.Eof? || tokens[at].kind.DocumentStart?)
  {
    hide Laid, Closes;
  }

  /** The value of a page becomes the next root. */
  lemma PageReads(g: Grammar, s: PState, i: nat, page: Page, stop: nat, env: Env, v: Value, env': Env)
    requires Ready(g, s, env) && PageLaid(g.tokens, i, page, stop)
    requires s.pos == PageStart(page) && CommasEnd(i, page.directives) <= s.pos < |g.tokens|
    requires OptionMeaning(g.cfg, s.version, g.tokens, page.value, env) == Some((v, env'))
    ensures !AtEof(g.tokens, s.pos)
    ensures DocumentContent(g, s).pos <= |g.tokens|
    ensures Arrived(ParseDocument(g, DocumentContent(g, s), DocumentStartSpan(g, s)), ContentEnd(i, page),
                    if page.end.Some? then page.end.value else stop, v, env')
  {
    hide Knows, Steady, TriviaFrom, Meaning, OptionMeaning, ParseDocument, PageLaid, Arrived;
    PageBegins(g.tokens, i, page, stop);
    var content := DocumentContent(g, s);
    SkipToNext(g.tokens, if page.start.Some? then s.pos + 1 else s.pos, ContentToken(page, stop));
    ContentParses(g, content, i, page, stop, DocumentStartSpan(g, s), env, v, env');
  }

  lemma PageParses(g: Grammar, s: PState, i: nat, pages: seq<Page>, eof: nat, env: Env, v: Value, env': Env)
    requires Ready(g, s, env) && pages != [] && StreamLaid(g.tokens, i, pages, eof)
    requires s.pos == PageStart(pages[0]) && CommasEnd(i, pages[0].directives) <= s.pos < |g.tokens|
    requires OptionMeaning(g.cfg, s.version, g.tokens, pages[0].value, env) == Some((v, env'))
    ensures !AtEof(g.tokens, s.pos)
    ensures var r := ParseOneDocument(g, s);
      && r.Ok? && Ready(g, r.value, env')
      && r.value.pos == (if pages[1..] == [] then eof else PageStart(pages[1]))
      && r.value.version == (if pages[1..] == [] then s.version
                             else VersionBehind(g.cfg, g.tokens, s.version, pages[1].directives))
      && RootsRead(r.value.document, |s.document.documents|, [v])
  {
    hide Knows, Steady, TriviaFrom, Laid, Closes, Meaning, OptionMeaning, ParseDocument, EndDocument, PageLaid,
      DocumentContent, DirectivesLaid, VersionBehind, FromNode;
    var page, rest := pages[0], pages[1..];
    PageReads(g, s, i, page, StreamStart(rest, eof), env, v, env');
    var (t, root) := ParseDocument(g, DocumentContent(g, s), DocumentStartSpan(g, s)).value;
    assert t.document.documents == s.document.documents && t.version == s.version && t.pinned == s.pinned by {
      ContentKeeps(g, s);
    }
    PageEnds(g, PushRoot(t, root), i, page, rest, eof);
    SteadyLater(g, s.pinned, EndDocument(g, PushRoot(t, root)).value.pinned);
  }

  lemma ContentKeeps(g: Grammar, s: PState)
    requires s.pos < |g.tokens|
    ensures DocumentContent(g, s).pos <= |g.tokens|
    ensures var r := ParseDocument(g, DocumentContent(g, s), DocumentStartSpan(g, s));
      r.Ok? ==>
        var t := r.value.0;
        t.document.documents == s.document.documents && t.version == s.version && t.pinned == s.pinned
  {
    hide ParseDocument, TriviaFrom;
  }

  lemma SteadyLater(g: Grammar, pinned: bool, pinned': bool)
    requires Steady(g, pinned) && (pinned ==> pinned')
    ensures Steady(g, pinned')
  {
  }

  /** The first token behind a page's `---`. */
  function ContentToken(page: Page, stop: nat): nat {
    if page.value.Some? then Start(page.value.value) else if page.end.Some? then page.end.value else stop
  }

  lemma PageBegins(tokens: seq<Token>, i: nat, page: Page, stop: nat)
    requires PageLaid(tokens, i, page, stop)
    ensures Next(tokens, ContentStart(i, page), ContentToken(page, stop))
    ensures page.start.Some? ==> KindAt(tokens, page.start.value).DocumentStart?
    ensures page.start.None? ==> PageStart(page) == ContentToken(page, stop)
    ensures !KindAt(tokens, PageStart(page)).Eof? && !KindAt(tokens, PageStart(page)).Directive?
    ensures page.start.None? ==> !KindAt(tokens, PageStart(page)).DocumentStart?
  {
    if page.value.Some? {
      LaidStarts(tokens, ContentStart(i, page), page.value.value);
    }
  }

  // ----- Streams

  lemma {:induction false} PagesParse(g: Grammar, s: PState, i: nat, pages: seq<Page>, eof: nat, version: YamlVersion,
                                      env: Env, values: seq<Value>)
    requires Ready(g, s, env) && StreamLaid(g.tokens, i, pages, eof)
    requires s.pos == (if pages == [] then eof else PageStart(pages[0])) < |g.tokens|
    requires pages != [] ==> CommasEnd(i, pages[0].directives) <= s.pos
    requires s.version == if pages == [] then version else VersionBehind(g.cfg, g.tokens, version, pages[0].directives)
    requires StreamMeaning(g.cfg, version, g.tokens, pages, env) == Some(values)
    ensures var r := ParseDocuments(g, s);
      r.Ok? && RootsRead(r.value.document, |s.document.documents|, values)
    decreases |pages|
  {
    hide Knows, Steady, Meaning, OptionMeaning, ParseOneDocument, VersionBehind, Laid, Closes, FromNode;
    if pages != [] {
      var (v, known) := OptionMeaning(g.cfg, s.version, g.tokens, pages[0].value, env).value;
      PageParses(g, s, i, pages, eof, env, v, known);
      var u, rest := ParseOneDocument(g, s).value, pages[1..];
      var values' := StreamMeaning(g.cfg, s.version, g.tokens, rest, known).value;
      hide StreamMeaning;
      RestStarts(g.tokens, PageEnd(i, pages[0]), rest, eof);
      PagesParse(g, u, PageEnd(i, pages[0]), rest, eof, s.version, known, values');
      RootsJoin(s.document, u.document, ParseDocuments(g, u).value.document, v, values');
    }
  }

  lemma RootsJoin(before: Document, one: Document, all: Document, v: Value, values: seq<Value>)
    requires RootsRead(one, |before.documents|, [v]) && RootsRead(all, |one.documents|, values)
    requires one.documents <= all.documents && one.nodes <= all.nodes
    ensures RootsRead(all, |before.documents|, [v] + values)
  {
    hide FromNode;
    var k := |before.documents|;
    assert all.documents[k] == one.documents[k + 0] && [v][0] == v;
    FromNodeFrame(one.nodes, all.nodes, one.documents[k]);
    forall i | 0 < i < 1 + |values| ensures all.documents[k + i] < |all.nodes|
      && FromNode(all.nodes, all.documents[k + i]) == ([v] + values)[i]
    {
      var j: nat := i - 1;
      assert ([v] + values)[1 + j] == values[j];
      assert all.documents[|one.documents| + j] < |all.nodes|;
    }
  }

  /** A stream that is laid out parses, and its documents read as their layouts say. */
  lemma StreamParses(g: Grammar, pages: seq<Page>, eof: nat, values: seq<Value>)
    requires Steady(g, g.cfg.options.yamlVersion.Some?) && g.keyAnchors.EveryAnchor?
    requires pages != [] && StreamLaid(g.tokens, 0, pages, eof)
    requires StreamMeaning(g.cfg, InitialVersion(g.cfg.options), g.tokens, pages, map[]) == Some(values)
    ensures Parse(g).Ok? && RootsRead(Parse(g).value.document, 0, values)
  {
    hide Steady, StreamMeaning, TriviaFrom, ConsumeDirectives, ParseDocuments, DirectivesLaid, PageLaid, RootsRead,
      VersionBehind, Meaning;
    var s, directives, at := InitialState(g), pages[0].directives, PageStart(pages[0]);
    StreamBegins(g.tokens, pages, eof);
    DirectiveNext(g.tokens, 0, directives, at);
    SkipToNext(g.tokens, 0, FirstComma(directives, at));
    var u := SkipTrivia(g, s);
    DirectivesParse(g, u, 0, directives, at);
    var t := ConsumeDirectives(g, u).value;
    SteadyLater(g, s.pinned, t.pinned);
    PagesParse(g, t, 0, pages, eof, s.version, map[], values);
    assert values != [] by { MeaningCount(g, pages, values); }
    StreamEnds(g, u, t, values);
  }

  lemma MeaningCount(g: Grammar, pages: seq<Page>, values: seq<Value>)
    requires pages != []
    requires StreamMeaning(g.cfg, InitialVersion(g.cfg.options), g.tokens, pages, map[]) == Some(values)
    ensures values != []
  {
    hide OptionMeaning, VersionBehind;
  }

  lemma StreamBegins(tokens: seq<Token>, pages: seq<Page>, eof: nat)
    requires pages != [] && StreamLaid(tokens, 0, pages, eof)
    ensures var directives, at := pages[0].directives, PageStart(pages[0]);
      && DirectivesLaid(tokens, 0, directives) && Next(tokens, CommasEnd(0, directives), at)
      && !tokens[at].kind.Directive?
  {
    hide DirectivesLaid, PageLaid;
    PageBegins(tokens, 0, pages[0], StreamStart(pages[1..], eof));
    PageNext(tokens, 0, pages[0], StreamStart(pages[1..], eof));
  }

  lemma PageNext(tokens: seq<Token>, i: nat, page: Page, stop: nat)
    requires PageLaid(tokens, i, page, stop)
    ensures page.start.Some? ==> Next(tokens, CommasEnd(i, page.directives), page.start.value)
  {
  }

  lemma StreamEnds(g: Grammar, u: PState, t: PState, values: seq<Value>)
    requires u == SkipTrivia(g, InitialState(g)) && ConsumeDirectives(g, u) == Ok(t) && values != []
    requires ParseDocuments(g, t).Ok? && RootsRead(ParseDocuments(g, t).value.document, |t.document.documents|, values)
    ensures Parse(g).Ok? && RootsRead(Parse(g).value.document, 0, values)
  {
    hide TriviaFrom, ConsumeDirectives, ParseDocuments, FromNode;
  }
}
