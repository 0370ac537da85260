# A verified model of the YAML toolkit

The repository holds two independently written YAML parsers over one line-based lexer, a printer meant to invert the arena
parser, a lossless editor over the node arena, a streaming decoder, a schema validator and a line diff. This project models
those parts in Dafny, each in the form the source has, and proves what they promise each other.

How it is laid out:

- **Two parsers, one language.** `Grammar` defines, by recursion over positioned tokens, what `parser.rs` does; the class
  `Parser.Parser` does the same with its cursor, anchors and growing arena in place. `Machine` defines one step of the explicit
  stack of `stream.rs`; the class `EventParser.EventParser` has the lookahead, frames, outbox and anchors as fields and
  performs those steps. `Equivalence`, `StreamEquivalence` and `ParsersAgree` hold the simulation: on every token list the
  two accept together, refuse with the same error, and the events are the flattening (`Flatten`) of the parsed documents.
  `MachineInvariant` holds the invariant of every reachable machine state and the measure that makes every run end;
  `FlowContext` tells the commas of flow mappings from those of flow sequences; `KeyAnchors` and `KeyAnchorPolicies` treat
  the one difference, a second anchor on a flow key, and `SecondAnchors` shows it at two sources.
- **What a text means.** `Layouts` says, without any parser, how a value may be set out in positioned tokens and what it then
  reads as; `LayoutParsing` and `LaidStreams` prove that every layout parses to that, anchors, aliases, tags, directives and
  several documents included, and `LaidSources` takes this to source text. `WrittenTokens` writes tokens in lines that lex
  back to them, `BlockScalars` does the same for block scalars, and `Directives` and `Resolve` say what directives and plain
  spellings mean.
- **What parsing builds.** `ArenaInvariant` (ids point backwards, spans nest, no `<<` key is left), `Aliases` (what an alias
  reads as), `MergeProperties` (what a key finds after merging), `StrictVersion` (strict mode is agreement of both versions),
  `Comments` (comments and blank lines are conserved).
- **Text.** `Lexing` and the class `Lexer.Lexer`, `TokenPositions`, `LexedKinds`, `Resolve`, `Printer.Printer`, `Serializer.Serializer`;
  `QuotedScalars` through `MergeKeyText` carry a value through printing, lexing and parsing and back; `PrintedStrings` says
  which strings survive without double quotes.
- **Editing.** `EditTree` gives the functional meaning of an edit; the class `Editor.EditableDocument` performs it on the arena
  with its dirty set; `EditLaws`, `EditShape` and `EditKept` hold the laws, the heap shape and the clean-subtree invariant,
  and `BuiltValues` says what the nodes an edit brings in read and print as.
  `ParsedForests` shows that parsed documents have that shape, and `EditSource` opens one.
- **Decoding, validation, diff.** `Decoder` and `StreamDecoding`; `Schemas`, `Validation`, `Validator` and `SchemaDepth`,
  with the meaning of a schema on values in `SchemaValues`; `TextDiff`.

Conventions. Strings are sequences of characters and offsets count characters. A float is its bit pattern; reading, printing
and comparing floats, and the class of Unicode alphanumeric characters, are parameters, and every theorem holds whatever they
are, but for the two sources of `SecondAnchors`, which need `a` and `b` alphanumeric and a space and `}` not, and for
`WrittenTokens` and `PrintedStrings`, which need a space not to be. Scalar
resolution is a parameter of the parser layer and is instantiated with the table of `resolve.rs` for the round trip. The
event parser's grammar keeps the first anchor of a flow key (`FirstAnchor`), the arena parser's keeps every anchor
(`EveryAnchor`); `Every(g)` is `g` with the latter. `Followed(g)` says that merge keys are off and that scalar tokens carry
no tag of their own, which is so of all lexed tokens.

Where the code and its comments part, the model follows the code:

- A second anchor on a flow key is registered by the arena parser and dropped by the event parser
  (`crates/tpt-yaml-core/src/stream.rs:943-948`, `crates/tpt-yaml-core/src/parser.rs:647-663`); see `AliasToSecondAnchor`
  and `SameAnchorTwice`.
- Even a quoted `<<` key is a merge key (`crates/tpt-yaml-core/src/parser.rs:723-725`); see `RoundTripExactly`.
- A single-quoted scalar with a line break cannot be read back, although the renderer writes one; see `SingleQuotedExactly`.
- The parser looks at the token right behind a dash, blank lines and comments included
  (`crates/tpt-yaml-core/src/parser.rs:250-266`): a blank line behind a lone dash hides the value below it, and the text is
  refused; see `ItemHidden` and `BlankHides`.
- A comment or blank line behind a document that is a single scalar hangs on no node and is lost
  (`crates/tpt-yaml-core/src/parser.rs:835-860`); see `TriviaConserved` and `CommentIsLost`.
- A folded block scalar (`>`) keeps its line breaks (`crates/tpt-yaml-core/src/lexer.rs:499-586`), which section 8.1.3 of the
  YAML 1.2 specification folds; `BlockLexes` gives both kinds the same text.
- An alias is a duplicate of nothing but itself, and a timestamp of no string, in `uniqueItems`
  (`crates/tpt-yaml-schema/src/lib.rs:1497-1516`), though they read the same; see `EqualMeans`.
- The printer means to quote a string that would read as something else, but its test looks at the kind of the scalar, which
  is a string there (`crates/tpt-yaml-core/src/node.rs:342-352`): `'5'` is printed as `5`; see `StringReads` and
  `DigitsLoseQuotes`.
- The comment on `read_plain` calls its result never empty (`crates/tpt-yaml-core/src/lexer.rs:466-468`); a line holding only
  a no-break space yields an empty plain scalar.

## Model

| member | source | states |
|---|---|---|
| ParsersAgree.SourceAgrees | crates/tpt-yaml-core/src/stream.rs:357-991 | From any source text that lexes, with merge keys off: the event parser run to its end has the outcome of the recursive grammar under its own anchor policy (the same error, or exactly the flattening of the parsed documents), and where no flow key carries two anchors the outcome of the arena parser |
| ParsersAgree.RunAgrees | crates/tpt-yaml-core/src/stream.rs:357-499 | The same for every token list, against the recursive grammar under the event parser's own anchor policy |
| ParsersAgree.ParsersAgreeOnce | crates/tpt-yaml-core/src/parser.rs:104-681 | The same against the arena parser as it is, on every token list in which no flow key carries two anchors; anchors elsewhere, items of flow sequences included, are free |
| ParsersAgree.ParsersCompared | crates/tpt-yaml-core/src/stream.rs:933-990 | Every other token list: what the event parser accepts the arena parser accepts, with the same events, if and only if no anchor name is declared twice up to the first `Eof`; what it refuses is refused, except perhaps with an unknown anchor where some alias names the second anchor of a flow key |
| SecondAnchors.AliasToSecondAnchor | crates/tpt-yaml-core/src/stream.rs:943-948 | The source `{&a &b "k": *b}` lexes, is accepted by the arena parser and refused by the event parser |
| SecondAnchors.SameAnchorTwice | crates/tpt-yaml-core/src/parser.rs:647-663 | The source `{&a &a "k": "v"}` lexes, is accepted by the event parser and refused by the arena parser |
| SecondAnchors.DecodedThoughRefused | crates/tpt-yaml-serde/src/stream.rs:325-375 | So iterating over the documents of that source ends without an error although the arena parser refuses it |
| FlowContext.ValueReads | crates/tpt-yaml-core/src/parser.rs:275-374 | Whatever parses as a value leaves the open brackets as they were and holds no `Eof`, so behind it the innermost bracket is the one before it |
| FlowContext.ParsedToFirstEof | crates/tpt-yaml-core/src/parser.rs:104-127 | A stream that parses is read exactly up to its first `Eof` |
| LayoutParsing.LayoutParses | crates/tpt-yaml-core/src/parser.rs:275-622 | Every way of setting a value out in positioned tokens parses to a node that reads as the value: values beside their key or dash or below it in any deeper column, sequences in the column of their own key, left-out values, `?` keys, flow collections, anchors, aliases and tags in front of anything, comments and blank lines in between; stated without the tests by which the parser decides |
| LaidStreams.StreamParses | crates/tpt-yaml-core/src/parser.rs:104-127 | The same for whole streams, with directives, document markers, empty documents and anchors that carry over: the roots read, in order, as the layouts say |
| LaidSources.SourceReads | crates/tpt-yaml-serde/src/value.rs:24-51 | The same from source text: a text whose tokens are laid out as one document reads as the value of the layout |
| LaidSources.ItemHidden | crates/tpt-yaml-core/src/parser.rs:250-266 | On another line and no deeper than its dash, the token right behind the dash, a comment or blank line too, leaves the item null |
| LaidSources.BlankHides | crates/tpt-yaml-core/src/parser.rs:376-417 | So the text of a dash, a blank line and an indented scalar lexes and is refused |
| StreamEquivalence.MachineFollowsParser | crates/tpt-yaml-core/src/stream.rs:375-448 | Some number of machine steps ends exactly as the recursive parse of the whole stream, documents, directives and default document included |
| StreamEquivalence.SimDocuments | crates/tpt-yaml-core/src/parser.rs:104-127 | The machine between documents simulates the parser's document loop |
| Equivalence.SimValue | crates/tpt-yaml-core/src/stream.rs:597-712 | From a machine about to read a value, some steps do what `parse_value` did: the same error, or the node's events with pending anchor and tag on the first, and the same position and anchors |
| Equivalence.SimBlockMapping | crates/tpt-yaml-core/src/stream.rs:715-780 | The frame states of a block mapping simulate the parser's column-driven loop |
| Equivalence.SimBlockSequence | crates/tpt-yaml-core/src/stream.rs:782-805 | The same for block sequences |
| Equivalence.SimFlowMapping | crates/tpt-yaml-core/src/stream.rs:861-928 | The same for flow mappings, keys and left-out values included |
| Equivalence.SimFlowSequence | crates/tpt-yaml-core/src/stream.rs:817-859 | The same for flow sequences |
| KeyAnchors.SameParse | crates/tpt-yaml-core/src/parser.rs:624-681 | Where no flow key carries two anchors (looking behind every opening brace and every comma directly inside braces), keeping the first and keeping all give the same parse |
| KeyAnchorPolicies.PoliciesCompared | crates/tpt-yaml-core/src/parser.rs:647-663 | On every token list, what keeping every anchor makes of a stream that keeping the first accepts (the same document, read up to the first `Eof`, if and only if no name is declared twice) or refuses (a refusal too, unless with an unknown anchor where some alias names the second anchor of a flow key) |
| MachineInvariant.StepKeeps | crates/tpt-yaml-core/src/stream.rs:359-373 | From every valid state a step keeps the invariant (events read as a prefix of a well-bracketed stream whose open brackets are the frames, in order and kind; a fresh block frame has its own key or dash in front) and lowers a lexicographic measure |
| MachineInvariant.InitialValid | crates/tpt-yaml-core/src/stream.rs:260-277 | A new parser satisfies the invariant |
| MachineInvariant.Run | crates/tpt-yaml-core/src/stream.rs:359-373 | Running to the end terminates on every token list, in a finished valid state or an error |
| MachineInvariant.RunIsSteps | crates/tpt-yaml-core/src/stream.rs:301-309 | Any number of steps that finishes or fails gives the run's outcome |
| MachineInvariant.FinalLogs | crates/tpt-yaml-core/src/stream.rs:282-291 | Events already emitted are never taken back |
| MachineInvariant.FinalIsRun | crates/tpt-yaml-core/src/stream.rs:301-309 | The last state and the outcome of a run agree |
| EventParser.EventParser.constructor | crates/tpt-yaml-core/src/stream.rs:260-277 | A new parser is in the machine's initial state, with nothing queued |
| EventParser.EventParser.Ensure | crates/tpt-yaml-core/src/stream.rs:311-319 | Lookahead grows to the depth asked for as far as tokens go, never past two, and the position stays |
| EventParser.EventParser.NextEvent | crates/tpt-yaml-core/src/stream.rs:282-291 | The next event of the one run the parser is in; none only at its end; an error is the run's own error and leaves nothing queued; each call makes the run's remainder smaller |
| EventParser.EventParser.Pump | crates/tpt-yaml-core/src/stream.rs:359-373 | Steps until something is queued or the stream is over, without changing what the run will be |
| EventParser.EventParser.CollectEvents | crates/tpt-yaml-core/src/stream.rs:301-309 | All events of the run, or its error |
| EventParser.EventParser.Step | crates/tpt-yaml-core/src/stream.rs:359-373 | One call to the step for the top frame is one machine step; an error leaves the outbox as it was |
| EventParser.EventParser.StepStream | crates/tpt-yaml-core/src/stream.rs:375-411 | Opening documents and ending the stream is the machine's stream step |
| EventParser.EventParser.StepDocument | crates/tpt-yaml-core/src/stream.rs:413-448 | The document frame's step |
| EventParser.EventParser.BeginValue | crates/tpt-yaml-core/src/stream.rs:597-712 | Reading the properties in front of a value and dispatching on its first token is the machine's value step |
| EventParser.EventParser.RegisterAnchors | crates/tpt-yaml-core/src/stream.rs:486-499 | Registering pending anchors adds all of them, or fails on the first that is already known |
| EventParser.EventParser.StepBlockMapping | crates/tpt-yaml-core/src/stream.rs:715-780 | The block mapping frame's step; when a value belongs to its key is said by `LayoutParsing.LayoutParses` |
| EventParser.EventParser.StepBlockSequence | crates/tpt-yaml-core/src/stream.rs:782-805 | The block sequence frame's step |
| EventParser.EventParser.StepFlowSequence | crates/tpt-yaml-core/src/stream.rs:817-859 | The flow sequence frame's step |
| EventParser.EventParser.StepFlowMapping | crates/tpt-yaml-core/src/stream.rs:861-928 | The flow mapping frame's step |
| EventParser.EventParser.ParseFlowKey | crates/tpt-yaml-core/src/stream.rs:933-1011 | A flow key with its first anchor and first tag |
| Parser.Parser.Parse | crates/tpt-yaml-core/src/parser.rs:104-127 | The whole stream: the arena the grammar defines, or its error |
| Parser.Parser.ParseValue | crates/tpt-yaml-core/src/parser.rs:275-374 | The cursor, arena, anchors and pending trivia after one value are those the grammar defines |
| Parser.Parser.ParseBlockSequence | crates/tpt-yaml-core/src/parser.rs:376-417 | The loop over dashes at one column builds what the grammar's recursion does |
| Parser.Parser.ParseBlockMapping | crates/tpt-yaml-core/src/parser.rs:419-508 | The loop over keys at one column builds what the grammar's recursion does, whose meaning `LayoutParsing.LayoutParses` gives |
| Parser.Parser.ParseFlowSequence | crates/tpt-yaml-core/src/parser.rs:510-551 | The loop over items up to `]` |
| Parser.Parser.ParseFlowMapping | crates/tpt-yaml-core/src/parser.rs:553-622 | The loop over entries up to `}` |
| Parser.Parser.ParseFlowKey | crates/tpt-yaml-core/src/parser.rs:624-681 | A flow key, declaring every anchor in front of it |
| Parser.Parser.ApplyMergeKeys | crates/tpt-yaml-core/src/parser.rs:785-820 | The loops over explicit and merged entries, with their set of seen keys, compute the merged entries |
| Parser.Parser.ConsumeDirectives | crates/tpt-yaml-core/src/parser.rs:174-212 | Directives in front of a document, and the version they pin |
| MergeProperties.MergedLookup | crates/tpt-yaml-core/src/parser.rs:753-820 | Expansion fails exactly when some `<<` value is not a mapping or a sequence of mappings; otherwise a key finds its explicit entry, else the entry of the earliest source that has it, and no merged key repeats an earlier one |
| MergeProperties.ExpansionClean | crates/tpt-yaml-core/src/parser.rs:785-820 | Expanding over an arena without `<<` keys leaves none |
| MergeProperties.UnseenKeepsUnspelled | crates/tpt-yaml-core/src/parser.rs:727-735 | A key that is a collection or an alias is never dropped as a repetition |
| MergeProperties.NothingMerged | crates/tpt-yaml-core/src/parser.rs:785-820 | Over an arena in which `<<` keys have been expanded, expansion leaves a mapping as it was written if and only if merging is off or no key of it is `<<` |
| MergeProperties.NothingToMerge | crates/tpt-yaml-core/src/parser.rs:801-803 | Over any arena, a mapping without a `<<` key is left as it was written |
| ArenaInvariant.ParsedArenaOk | crates/tpt-yaml-core/src/parser.rs:275-374 | Every parsed arena, under all options: children and alias targets are older than their node, scalars and aliases stand for tokens, no `<<` key is left where merging is on, children lie inside their parent's span where it is off and tokens are ordered |
| ArenaInvariant.SpansNest | crates/tpt-yaml-core/src/parser.rs:376-622 | Through any chain of containment, the descendant is older and its span lies inside the ancestor's, placeholders and decorated values included |
| ArenaInvariant.Resolved | crates/tpt-yaml-core/src/parser.rs:737-751 | Following aliases in a parsed arena ends at an older node that is no alias |
| ArenaInvariant.DerefResolves | crates/tpt-yaml-core/src/parser.rs:737-751 | `deref_alias` computes that node; its loop guard never fires |
| Aliases.AliasReads | crates/tpt-yaml-serde/src/value.rs:45-51 | In every parsed document each node reads as the node it dereferences to, which is older or itself and no alias |
| Comments.TriviaConserved | crates/tpt-yaml-core/src/parser.rs:835-860 | On every accepted stream each comment and blank line in front of the end hangs on exactly one node or is left over, in the order of the source; none is lost if and only if none is left over |
| Comments.CommentIsLost | crates/tpt-yaml-core/src/parser.rs:286-300 | A comment behind a document that is one scalar is lost |
| ArenaInvariant.ParsedBackward | crates/tpt-yaml-core/src/node.rs:126-130 | Containment and roots of parsed documents point backwards |
| StrictVersion.StrictIsBothVersions | crates/tpt-yaml-core/src/parser.rs:685-721 | On directive-free tokens, pinned runs accept and fail together; a strict run without a pin succeeds exactly when both build the same arena (floats under their own equality), and then builds it |
| StrictVersion.ParseFollows | crates/tpt-yaml-core/src/parser.rs:685-721 | The version never steers control flow: every run is the image of one version-independent run, cut short at the first ambiguous scalar if strict |
| StrictVersion.ClearIsSameArena | crates/tpt-yaml-core/src/parser.rs:708-721 | No scalar is ambiguous exactly when the two versions' arenas agree |
| Lexer.Lexer.NextToken | crates/tpt-yaml-core/src/lexer.rs:90-112 | Hands out the tokens of the source one by one and none after `Eof`; each call uses up queue or source |
| Lexer.Lexer.ScanLine | crates/tpt-yaml-core/src/lexer.rs:128-294 | One line, or a block scalar with its lines, becomes the tokens of the definition, and the next line start moves on |
| Lexer.Lexer.ScanPieces | crates/tpt-yaml-core/src/lexer.rs:148-290 | The column loop of one line |
| Lexer.Lexer.Lex | crates/tpt-yaml-core/src/lexer.rs:114-126 | Draining the lexer gives the whole token list or its error |
| Lexer.ReadQuoted | crates/tpt-yaml-core/src/lexer.rs:352-465 | The loop over quotes and escapes, both quote styles |
| Lexer.ReadPlain | crates/tpt-yaml-core/src/lexer.rs:474-497 | The loop that finds the end of a plain scalar and trims it |
| Lexer.ScanBlockScalar | crates/tpt-yaml-core/src/lexer.rs:499-586 | The loop that collects, dedents and chomps a block scalar computes the defined one, whose text `BlockScalars.BlockLexes` gives |
| BlockScalars.BlockLexes | crates/tpt-yaml-core/src/lexer.rs:499-586 | A line that opens a block scalar and the lines below it lex to one token whose text is the lines without a final line break (`-`), with one, or with one more than there are blank lines behind (`+`), for indentation given by a digit or by the first line with content, any number of blank lines, either order of the marks, a comment behind them, and any text that follows further out; without any line the text is the line breaks of the blank lines, as chomped |
| BlockScalars.KeyOpens | crates/tpt-yaml-core/src/lexer.rs:236-262 | A key, its colon and the header are a line that opens one |
| BlockScalars.DashOpens | crates/tpt-yaml-core/src/lexer.rs:236-262 | So is a dash and the header |
| BlockScalars.AloneOpens | crates/tpt-yaml-core/src/lexer.rs:236-262 | So is the header alone |
| LaidSources.KeyedBlockReads | crates/tpt-yaml-core/src/parser.rs:302-322 | A source text of a key and a block scalar reads, under all options, as the mapping of that key to the text |
| WrittenTokens.LineReads | crates/tpt-yaml-core/src/lexer.rs:148-290 | Tokens of every kind but block scalars, written with a space between any two, are scanned back from their line: markers, `?`, dashes, colons, brackets, commas, anchors, aliases, tags, directives, comments, quoted scalars, and plain scalars with `#` and `:` inside, which end in front of ` #`, a bracket, a comma or a colon |
| WrittenTokens.RowsLex | crates/tpt-yaml-core/src/lexer.rs:90-306 | So every list of tokens that can be set out in lines is what some source lexes to, at those lines and columns |
| WrittenTokens.TriviaRead | crates/tpt-yaml-core/src/node.rs:170-193 | Comments and blank lines as the printer writes them are read back as the same ones, in order, and nothing behind them is |
| TokenPositions.LexTiles | crates/tpt-yaml-core/src/lexer.rs:90-306 | On every successful lex tokens are in bounds, ordered and disjoint, only spaces, CR and LF lie between them, each line and column is the one counted from the source, and the last token is the only `Eof` |
| TokenPositions.LexedTokensOrdered | crates/tpt-yaml-core/src/lexer.rs:588-598 | So lexed tokens satisfy the order that the nesting of spans relies on |
| LexedKinds.LexedWritten | crates/tpt-yaml-core/src/lexer.rs:128-294 | Lexed tokens end in the only `Eof` and no scalar token carries a tag |
| QuotedScalars.DoubleQuotedReads | crates/tpt-yaml-core/src/node.rs:325-357 | Wherever the rendering of a double-quoted string stands in a line, the lexer reads that string back, for every string |
| QuotedScalars.SingleQuotedReads | crates/tpt-yaml-core/src/lexer.rs:352-465 | The same for single quotes within a line |
| QuotedScalars.SingleQuotedExactly | crates/tpt-yaml-core/src/lexer.rs:352-465 | A single-quoted rendering is scanned back to its string if and only if the string has no line break; otherwise scanning fails |
| QuotedScalars.CodeEscapes | crates/tpt-yaml-core/src/lexer.rs:410-455 | A character escaped by its code in two, four or eight hexadecimal digits is read back as itself, and `0` as null |
| Resolve.IntRoundTrip | crates/tpt-yaml-core/src/resolve.rs:106-143 | Printing any `i64`, the minimum included, and resolving it gives it back under both versions |
| Resolve.DecimalExact | crates/tpt-yaml-core/src/resolve.rs:118-143 | A signed decimal spelling is an integer exactly when its unbounded value fits an `i64`, and is then that value |
| Resolve.SignedExact | crates/tpt-yaml-core/src/resolve.rs:106-116 | Going through `u64` and the sign loses no representable value |
| Resolve.SexagesimalInt | crates/tpt-yaml-core/src/resolve.rs:60-85 | The checked base-60 loop returns a value exactly when the digit groups are well formed and the unbounded value is at most 2^63 - 1 |
| Resolve.PrefixGrows | crates/tpt-yaml-core/src/resolve.rs:72-84 | An intermediate overflow means the whole value overflows |
| Resolve.WordsRoundTrip | crates/tpt-yaml-core/src/resolve.rs:5-58 | The printed spellings of null and the booleans resolve to them under both versions |
| Resolve.WordsMean | crates/tpt-yaml-core/src/resolve.rs:5-40 | A plain scalar is true, false or null exactly if, without outer blanks, it is one of the words of its version in small letters, with a capital or in capitals; only 1.1 has `y`, `yes`, `on`, `n`, `no` and `off`; no text and `~` are null too |
| Resolve.OctalExact | crates/tpt-yaml-core/src/resolve.rs:118-143 | `0o` and octal digits under 1.2, and `0` and octal digits under 1.1, with any sign, are the integer they spell exactly if it fits an `i64`; neither version reads the spelling of the other |
| Directives.VersionAsked | crates/tpt-yaml-core/src/parser.rs:188-212 | `YAML` and a version, however spaced and whatever follows, asks for exactly that version, or fails if there is none such |
| Directives.NothingAsked | crates/tpt-yaml-core/src/parser.rs:188-212 | Any other directive, and `YAML` alone, asks for nothing |
| Serializer.Serializer.Serialize | crates/tpt-yaml-serde/src/ser.rs:196-352 | Appends the nodes of a value to the arena, children first, as the definition of storing does |
| Printer.Printer.Print | crates/tpt-yaml-core/src/node.rs:158-172 | The printed document is the text of the root node, ending in a newline |
| Printer.Printer.RenderNode | crates/tpt-yaml-core/src/node.rs:194-297 | The loops over entries and items append the text of the node |
| LexedSource.LinesLex | crates/tpt-yaml-core/src/lexer.rs:128-294 | Lines that scan to given pieces lex, as one source, to those pieces with their positions and a final `Eof` |
| ParsedText.ValueParses | crates/tpt-yaml-core/src/parser.rs:275-622 | Tokens positioned like a printed value parse, at any depth, to a node that reads as the value |
| RoundTrip.WriteThenRead | crates/tpt-yaml-core/src/node.rs:158-365 | Storing, printing, lexing, parsing and reading back is the identity on every value of null, bool, `i64`, string, sequences and mappings with scalar keys, at any depth, under all options, without `<<` keys where merging is on |
| MergeKeyText.RoundTripExactly | crates/tpt-yaml-core/src/parser.rs:723-725 | Such a value survives if and only if merging is off or no key anywhere in it is the string `<<` |
| RoundTrip.FloatReadsAsInt | crates/tpt-yaml-core/src/node.rs:358-365 | A float printed as an integer reads back as that integer |
| RoundTrip.TagsAreDropped | crates/tpt-yaml-serde/src/value.rs:54-81 | A value with tags anywhere in it reads back as the value without them, so it survives if and only if it has none |
| RoundTrip.CollectionKeyIsLost | crates/tpt-yaml-core/src/node.rs:230-236 | A mapping whose first key is a collection is written without that key and never reads back as one document |
| PrintedStrings.StringReads | crates/tpt-yaml-core/src/node.rs:325-365 | A string scalar that is not double-quoted, printed on a line of its own, reads back as that string if and only if the printer quotes it and it has no line break, or does not and it is none of `-`, `?`, `---` and `...` and resolves to itself or to a timestamp of its own spelling |
| PrintedStrings.DigitsLoseQuotes | crates/tpt-yaml-core/src/node.rs:342-352 | So a quoted string of digits that is an `i64` is printed without quotes and reads back as the number, under all options |
| TextCodec.ThereAndBack | crates/tpt-yaml-serde/src/value.rs:24-51 | Running the serializer, printer, lexer and parser objects one after another returns the value |
| Values.FromNodeFrame | crates/tpt-yaml-serde/src/value.rs:24-51 | Reading a node depends on it and older nodes only; what it is, aliases included, is said by `LayoutParsing.LayoutParses` and `Aliases.AliasReads` |
| Editor.EditableDocument.Set | crates/tpt-yaml-edit/src/lib.rs:69-85 | The new tree is the functional update, the dirty set grows by exactly the trail, the path names a node that reads as the new value, every diverging path resolves as before, the forest is kept; a failing call leaves tree and dirty set alone |
| Editor.EditableDocument.Remove | crates/tpt-yaml-edit/src/lib.rs:87-106 | The same for removing an entry or item |
| Editor.EditableDocument.PushValue | crates/tpt-yaml-edit/src/lib.rs:108-120 | The same for appending to a sequence; the path behind the last item names a node that reads as the new value |
| Editor.EditableDocument.SpliceChild | crates/tpt-yaml-edit/src/lib.rs:122-165 | Replacing or adding one child in place is the functional update of its parent |
| Editor.EditableDocument.Build | crates/tpt-yaml-edit/src/lib.rs:180-221 | A value becomes fresh nodes, children first, that read as it; nothing that was there changes |
| BuiltValues.BuiltReads | crates/tpt-yaml-edit/src/lib.rs:180-221 | Wherever the nodes built for a value stand in an arena, also after further edits, they read as the value |
| BuiltValues.ScalarPrints | crates/tpt-yaml-edit/src/lib.rs:185-200 | A built scalar holds its value and is spelled so that it resolves to it under both versions, or quoted; printed on a line of its own it is read back as the value under all options, floats and timestamps apart |
| Editor.EditableDocument.ResolveTrail | crates/tpt-yaml-edit/src/path.rs:90-98 | The ids from the root to the node a path names, or the error of the path |
| Editor.CleanMeansParsed | crates/tpt-yaml-edit/src/lib.rs:223-233 | After any history of edits a reachable node with a span that is not dirty is, with its whole subtree, the node of the original that had its id |
| Editor.SetLaws | crates/tpt-yaml-edit/src/lib.rs:69-85 | After setting a path it names the value, and every diverging path resolves as before |
| Editor.AtErrors | crates/tpt-yaml-edit/src/path.rs:55-98 | An edit fails exactly where its path or its container refuses it, with that error |
| EditLaws.SetThenGet | crates/tpt-yaml-edit/src/lib.rs:122-165 | A child put under a key is found under it |
| EditLaws.OtherPathsKept | crates/tpt-yaml-edit/src/path.rs:80-98 | An edit leaves every path that parts from its own as it was, errors included |
| EditLaws.SetKeepsOthers | crates/tpt-yaml-edit/src/lib.rs:122-165 | Setting a child leaves its siblings' paths alone too |
| EditLaws.RemoveShiftsItems | crates/tpt-yaml-edit/src/lib.rs:87-106 | Removing an item moves the items behind it up by one and no other |
| EditLaws.RemoveField | crates/tpt-yaml-edit/src/lib.rs:87-106 | Removing a field leaves the others; its own name is gone or names a later duplicate |
| EditLaws.PushThenGet | crates/tpt-yaml-edit/src/lib.rs:108-120 | An appended value is behind the last item, and the others stay |
| EditKept.AtKept | crates/tpt-yaml-edit/src/lib.rs:223-233 | With the trail marked dirty, an edit keeps every other clean subtree as parsed |
| EditKept.KeptMeans | crates/tpt-yaml-edit/src/lib.rs:235-256 | The invariant, read at any node, says that its source text may be copied |
| EditShape.AtShown | crates/tpt-yaml-edit/src/lib.rs:122-165 | Changing one node's child list in place changes the tree shown from the root exactly as the functional update does, where no id is shared |
| EditShape.AtUnshared | crates/tpt-yaml-edit/src/lib.rs:122-165 | Edits that bring new nodes keep the forest shape |
| ParsedTrees.Unfold | crates/tpt-yaml-edit/src/lib.rs:52-60 | Every node of a parsed arena shows a tree |
| ParsedForests.ParsedUnshared | crates/tpt-yaml-core/src/parser.rs:275-681 | Where merging is off or no token spells `<<`, no node of a parsed document is reached twice from its root |
| EditSource.Open | crates/tpt-yaml-edit/src/lib.rs:52-60 | So parsing such a stream yields an editable document that satisfies the editor's invariant, with nothing dirty |
| ParsedTrees.OneTree | crates/tpt-yaml-edit/src/lib.rs:52-60 | And shows only one |
| Decoder.Deserializer.Peek | crates/tpt-yaml-serde/src/stream.rs:57-66 | Looks at the next event without moving on |
| Decoder.Deserializer.Next | crates/tpt-yaml-serde/src/stream.rs:68-73 | Takes exactly one event |
| Decoder.Deserializer.DeserializeAny | crates/tpt-yaml-serde/src/stream.rs:200-220 | The value its events denote; the parser then stands right behind them and nothing is left peeked |
| Decoder.Deserializer.VisitSequence | crates/tpt-yaml-serde/src/value.rs:132-138 | The loop over elements |
| Decoder.Deserializer.VisitMapping | crates/tpt-yaml-serde/src/value.rs:140-146 | The loop over keys and values |
| Decoder.Documents.NextDocument | crates/tpt-yaml-serde/src/stream.rs:325-375 | One item of the iteration at a time, an error being the last |
| Decoding.NodeDecodes | crates/tpt-yaml-serde/src/stream.rs:200-220 | Decoding the events of a node gives the value read from the arena, without tags, or the alias error if and only if an alias is in it |
| Decoding.DocumentsDecode | crates/tpt-yaml-serde/src/stream.rs:290-375 | The same for the documents of a stream, in order |
| Decoding.UntagKeeps | crates/tpt-yaml-serde/src/stream.rs:200-220 | Taking tags off changes a value exactly when it has some |
| Decoding.FailureShows | crates/tpt-yaml-serde/src/stream.rs:325-375 | A stream cut short by an error never looks complete |
| Decoder.Documents.Collect | crates/tpt-yaml-serde/src/stream.rs:325-375 | Iterating to the end collects every item that remains |
| StreamDecoding.DocumentsMatchGrammar | crates/tpt-yaml-serde/src/stream.rs:290-375 | On every token list the iterator yields, document by document, the values read from what the grammar parses under the event parser's own anchor policy, up to the first document that uses an alias, or ends in an error if the grammar refuses |
| StreamDecoding.DocumentsMatchArena | crates/tpt-yaml-serde/src/stream.rs:290-375 | The same against the arena parser as it is, where no flow key carries two anchors |
| StreamDecoding.DocumentsCompared | crates/tpt-yaml-serde/src/stream.rs:325-375 | Every other token list: where the arena parser accepts, the iterator yields its values, or ends in an error and some alias names the second anchor of a flow key; where it refuses, the iteration ends in an error or an anchor name is declared twice |
| StreamDecoding.AliasFreeDocuments | crates/tpt-yaml-serde/src/stream.rs:325-375 | Without alias tokens, and however many anchors a key has: where the arena parser accepts, every document decodes to its arena value |
| StreamDecoding.DecodeAll | crates/tpt-yaml-serde/src/stream.rs:290-375 | Running the iterator object over a token list returns exactly those items: where no flow key carries two anchors, the values of the documents the arena parser builds up to the first that uses an alias, or a list that ends in an error if it refuses |
| StreamDecoding.SameValueWithoutTags | crates/tpt-yaml-serde/src/value.rs:24-51 | An alias-free document decodes to its arena value if and only if that value has no tag |
| Validator.ValidateNode | crates/tpt-yaml-schema/src/lib.rs:914-1442 | The issues added are exactly those defined for the schema, node and depth, in order, and the path comes back unchanged |
| Validator.ValidateArray | crates/tpt-yaml-schema/src/lib.rs:1121-1201 | Bounds, duplicates and items of an array |
| Validator.ValidateObject | crates/tpt-yaml-schema/src/lib.rs:1202-1306 | Bounds, required names and entries of an object |
| Validator.CountMatches | crates/tpt-yaml-schema/src/lib.rs:1323-1393 | Each alternative is judged with a report of its own |
| Validator.ValidateAll | crates/tpt-yaml-schema/src/lib.rs:1394-1416 | Issues found below `allOf` are restated for the node itself |
| Validator.FindDuplicate | crates/tpt-yaml-schema/src/lib.rs:1159-1182 | The nested loops find a pair of equal items exactly when there is one |
| Validator.PopUndoesJoin | crates/tpt-yaml-schema/src/lib.rs:1444-1460 | Cutting the path at the last occurrence of a segment undoes adding it, also for empty, dotted or repeated names |
| Validator.Validate | crates/tpt-yaml-schema/src/lib.rs:269-281 | The report is empty exactly when the schema accepts the root within the depth limit |
| Validation.CleanMeansAccepted | crates/tpt-yaml-schema/src/lib.rs:914-1442 | For every schema, node, path and setting of the check groups, no issue is found if and only if the node satisfies the declarative depth-indexed meaning of the schema, which `SchemaValues.AcceptsMeans` ties to values |
| Validation.OneOfReported | crates/tpt-yaml-schema/src/lib.rs:1323-1360 | `oneOf` reports nothing if exactly one alternative accepts, a mismatch if none does, and an ambiguity if several do |
| SchemaValues.FindingsJudgeValues | crates/tpt-yaml-schema/src/lib.rs:914-1442 | For every schema and every node of a parsed arena without aliases, timestamps and floats unlike themselves, nothing is found if and only if the value the node reads as satisfies the schema, by a definition on values that knows no arena |
| SchemaValues.AcceptsMeans | crates/tpt-yaml-schema/src/lib.rs:914-1442 | The meaning of a schema at such a node is its meaning for the value, combinators, references and depth included |
| SchemaValues.TypeMeans | crates/tpt-yaml-schema/src/lib.rs:98-116 | The type of any node is the type of the value it reads as, by a plain match, aliases and tags looked through |
| SchemaValues.ReadingsMean | crates/tpt-yaml-schema/src/lib.rs:1479-1495 | Text, number and equality with an `enum` value are those of the value, except that they stop at an alias; a node has a number exactly if it is no alias and of type number, a text exactly if it is no alias and of type string |
| SchemaValues.EqualMeans | crates/tpt-yaml-schema/src/lib.rs:1497-1516 | Items found equal read alike, and items without aliases, timestamps and floats unlike themselves are found equal exactly if they read alike |
| SchemaValues.NodeMeans | crates/tpt-yaml-schema/src/lib.rs:914-1306 | The checks of a node that is no alias are those of the value, for every kind of schema |
| SchemaValues.AliasMeans | crates/tpt-yaml-schema/src/lib.rs:914-1306 | At an alias the type is looked through to, and every other check stops at it |
| SchemaValues.FaultsReported | crates/tpt-yaml-schema/src/lib.rs:935-1306 | An issue of a kind is reported for the node itself if and only if the value has that fault |
| SchemaValues.RefKeys | crates/tpt-yaml-schema/src/lib.rs:1417-1439 | A reference below `$defs` or below the root is looked up by the rest of it, any other by itself |
| SchemaDepth.VerdictIsStable | crates/tpt-yaml-schema/src/lib.rs:925-928 | A verdict in which nothing was out of reach is the same for every larger depth |
| SchemaDepth.LargerLimitAgrees | crates/tpt-yaml-schema/src/lib.rs:925-928 | So raising `max_depth` does not change the validator's verdict |
| SchemaDepth.GuardedExactly | crates/tpt-yaml-schema/src/lib.rs:1417-1439 | Some limit suffices for every definition, on every node, if and only if no chain of `$ref`s and combinators leads back to its start without moving to a child |
| SchemaDepth.VerdictKeepsTurning | crates/tpt-yaml-schema/src/lib.rs:1307-1322 | The definition `a: {not: {$ref: a}}` exceeds every limit, and its verdict alternates with the limit for ever |
| TextDiff.TextDiff | crates/tpt-yaml-cli/src/main.rs:570-609 | The walk through the table writes the script of the two texts' lines |
| TextDiff.FillTable | crates/tpt-yaml-cli/src/main.rs:574-585 | Every cell holds the common-subsequence length of its pair of suffixes |
| TextDiff.LcsIsLongest | crates/tpt-yaml-cli/src/main.rs:577-585 | No common subsequence is longer than the table says |
| TextDiff.ScriptIsCorrect | crates/tpt-yaml-cli/src/main.rs:586-608 | Deleting the `-` lines from the first text and the `+` lines from the second leaves the same lines |
| TextDiff.ScriptLength | crates/tpt-yaml-cli/src/main.rs:586-608 | What is kept has the length of the table, and the script has n + m - 2 LCS lines |
| TextDiff.ScriptIsMinimal | crates/tpt-yaml-cli/src/main.rs:586-608 | No way of deleting lines until the texts agree deletes fewer |
| TextDiff.ScriptIsEmpty | crates/tpt-yaml-cli/src/main.rs:586-608 | The script is empty if and only if the texts have the same lines |
| TextDiff.LinesRead | crates/tpt-yaml-cli/src/main.rs:570-573 | A text is read as the lines it is made of, whichever of them end in a carriage return too, and a rest behind the last break is a line unless it is empty |

## Left out

- UTF-8: offsets and columns count characters where the source counts bytes of UTF-8.
- Error offsets and messages: errors are their kinds; two errors of one kind are not told apart.
- Node ids are unbounded where the source has 32-bit ids, so arenas of more than 2^32 nodes are not modelled.
- The order of lexing: the event parser pulls tokens lazily and can emit events before a lexing error further on; here both parsers start from a token list.
- The `indent` field of tokens, which no parser reads.
- The raw event iterator after an error: only its `Iterator` form drops the rest (`crates/tpt-yaml-core/src/stream.rs:1086-1095`), so the comment that it is exhausted after an error (line 281) does not hold of `next_event` itself.
- Floats: reading, printing, comparing and `multipleOf` are uninterpreted; sexagesimal floats too.
- A child id that is not older than its parent: no parsed or stored arena has one, and reading, printing, flattening and comparing such a child gives a fixed result instead of recursing for ever. An edited container may list newer nodes; the claims about an edited document are about its tree and about reading the nodes an edit brought in.
- Printing block scalars in value position and anchors: the printer is modelled, but no round trip is claimed for them.
- `EditableDocument::render` and typed edit values; the editor's claims are about the tree and the dirty set.
- Setting the root of a document without any documents, which panics in the source; parsing always yields one.
- Typed decoding (structs, enums, options); the decoder is modelled for dynamic values.
- The schema compiler, external references, the pattern and format engines, and the final sorting of a report by path and kind.
- FFI, Python, WASM and the command line apart from the line diff.
- ParsersAgree.ParsersCompared: where the event parser stops at an unknown anchor and some alias names the second anchor of a flow key, whether the arena parser accepts the rest of the stream is not characterised; StreamDecoding.DocumentsCompared inherits this.
- EditSource.Open: opens streams without `<<` keys, or with merging off. Expanding a `<<` key makes two mappings share nodes, so there an edit can show at more than one place, and the claims about the edited tree, which ask for a forest, are not made.
- RoundTrip.WriteThenRead: floats, tagged values and collection keys are outside it; floats with an integer's text, tags anywhere, and a collection as the first key of the root mapping are shown not to survive.
- RoundTrip.FloatReadsAsInt: says nothing of floats whose text is not an integer's.
- RoundTrip.CollectionKeyIsLost: says nothing of a collection key further down, or behind the first entry.
- RoundTrip.TagsAreDropped: a tagged value with a `<<` key under merging is outside it.
- LayoutParsing.LayoutParses: says what is accepted and with which value, not that everything else is refused; mappings in which a `<<` key is expanded (see `MergeProperties`), flow collections that the input breaks off, commas in front of a first element, and the event parser's policy for a second anchor on a flow key are outside it.
- BlockScalars.BlockLexes: a last line that the source ends without a line break is outside it.
- WrittenTokens.LineReads: one space between tokens, and plain scalars that start like nothing else; other spacings are not covered.
- BuiltValues.ScalarPrints: floats and timestamps are not claimed to read back, nor are the keys of built mappings, which are printed without quotes where they could be taken for a number or a word.
- SchemaValues.FindingsJudgeValues: whole schemas are given their meaning on values for nodes without aliases, timestamps and floats unlike themselves; at aliases the checks of the single node are (`AliasMeans`).
- Comments.TriviaConserved: which node a comment hangs on is not said.
