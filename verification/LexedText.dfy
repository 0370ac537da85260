/** The tokens of a printed value: what each line scans to, and at which line and column. */
module LexedText {
  import opened Prelude
  import opened Syntax
  import opened Numbers
  import opened Lexing
  import opened Values
  import opened Serializer
  import opened Printer
  import opened ValueText
  import opened QuotedScalars

  // ----- The expected pieces, line by line

  function InlinePieces(v: Value, col: nat): seq<Piece>
    requires Printable(v) && !IsBlock(v)
  {
    match v
    case VSequence(_) => [Piece(LeftBracket, col, col + 1), Piece(RightBracket, col + 1, col + 2)]
    case VMapping(_) => [Piece(LeftBrace, col, col + 1), Piece(RightBrace, col + 1, col + 2)]
    case _ => [Piece(LeafToken(v), col, col + |LeafText(v)|)]
  }

  function DashPieces(indent: nat): seq<Piece> {
    [Piece(SequenceEntry, indent, indent + 1)]
  }

  function KeyPieces(key: Value, indent: nat): seq<Piece>
    requires IsLeaf(key)
  {
    var end := indent + |LeafText(key)|;
    [Piece(LeafToken(key), indent, end), Piece(Colon, end, end + 1)]
  }

  function ValuePieces(v: Value, indent: nat): seq<seq<Piece>>
    requires Printable(v)
    decreases v, 1
  {
    if !IsBlock(v) then [InlinePieces(v, indent)]
    else if v.VSequence? then ItemPieces(v.items, indent)
    else EntryPieces(v.entries, indent)
  }

  /** `at` is where the head of the line ends. */
  function TailPieces(head: seq<Piece>, at: nat, v: Value, indent: nat): seq<seq<Piece>>
    requires Printable(v)
    decreases v, 2
  {
    if IsBlock(v) then [head] + ValuePieces(v, indent + 2) else [head + InlinePieces(v, at + 1)]
  }

  function ItemPieces(items: seq<Value>, indent: nat): seq<seq<Piece>>
    requires forall i | 0 <= i < |items| :: Printable(items[i])
    decreases items, 0
  {
    if items == [] then []
      else TailPieces(DashPieces(indent), indent + 1, items[0], indent) + ItemPieces(items[1..], indent)
  }

  function EntryPieces(entries: seq<(Value, Value)>, indent: nat): seq<seq<Piece>>
    requires forall i | 0 <= i < |entries| :: EntryPrintable(entries[i])
    decreases entries, 0
  {
    if entries == [] then [] else
    var e := entries[0];
    assert e.0 < e && e.1 < e && EntryPrintable(e);
    TailPieces(KeyPieces(e.0, indent), indent + |LeafText(e.0)| + 1, e.1, indent) + EntryPieces(entries[1..], indent)
  }

  // ----- Scanning a printed line

  ghost predicate Clean(text: string) {
    forall k | 0 <= k < |text| :: text[k] != '\n' && text[k] != '\r'
  }

  /** A line without breaks that scans to `pieces`. */
  ghost predicate Scans(alphabet: Alphabet, line: string, pieces: seq<Piece>) {
    var indent := SpacesEnd(line, 0);
    && Clean(line) && indent < |line| && line[indent] != '\t'
    && ScanFrom(alphabet, line, indent) == Ok(LineScan(pieces, None))
  }

  ghost predicate AllScan(alphabet: Alphabet, lines: seq<string>, pieces: seq<seq<Piece>>) {
    |lines| == |pieces| && forall k | 0 <= k < |lines| :: Scans(alphabet, lines[k], pieces[k])
  }

  lemma {:induction false} EscapedClean(s: string)
    ensures Clean(Escaped(s))
  {
    if s != "" {
      EscapedClean(s[1..]);
    }
  }

  lemma LeafClean(v: Value)
    requires IsLeaf(v)
    ensures Clean(LeafText(v)) && LeafText(v) != ""
  {
    if v.VString? {
      EscapedClean(v.s);
    } else {
      PlainLeaf(v);
    }
  }

  lemma InlineClean(v: Value)
    requires Printable(v) && !IsBlock(v)
    ensures Clean(Inline(v)) && Inline(v) != ""
  {
    if IsLeaf(v) {
      LeafClean(v);
    }
  }

  lemma ScanOne(alphabet: Alphabet, line: string, col: nat, piece: Piece)
    requires col < |line| && line[col] != ' ' && PieceAt(alphabet, line, col) == Ok(Inner(piece))
    ensures ScanFrom(alphabet, line, col) == Prepend([piece], ScanFrom(alphabet, line, piece.end))
  {
  }

  lemma ScanInline(alphabet: Alphabet, line: string, col: nat, v: Value)
    requires Printable(v) && !IsBlock(v) && Stands(line, col, Inline(v)) && col + |Inline(v)| == |line|
    ensures col < |line| && line[col] != ' ' && line[col] != '\t'
    ensures ScanFrom(alphabet, line, col) == Ok(LineScan(InlinePieces(v, col), None))
  {
    var pieces := InlinePieces(v, col);
    assert ScanFrom(alphabet, line, |line|) == Ok(LineScan([], None));
    if IsLeaf(v) {
      LeafFound(alphabet, line, col, v);
      ScanOne(alphabet, line, col, pieces[0]);
      assert pieces + [] == pieces;
    } else {
      assert line[col + 0] == Inline(v)[0] && line[col + 1] == Inline(v)[1];
      assert PieceAt(alphabet, line, col) == Ok(Inner(pieces[0]));
      assert PieceAt(alphabet, line, col + 1) == Ok(Inner(pieces[1]));
      ScanOne(alphabet, line, col, pieces[0]);
      ScanOne(alphabet, line, col + 1, pieces[1]);
      assert [pieces[0]] + ([pieces[1]] + []) == pieces;
    }
  }

  lemma PadEnd(line: string, indent: nat, i: nat)
    requires i <= indent < |line| && line[indent] != ' ' && forall k | 0 <= k < indent :: line[k] == ' '
    ensures SpacesEnd(line, i) == indent
    decreases indent - i
  {
    if i < indent {
      PadEnd(line, indent, i + 1);
    }
  }

  /** The head of a printed line scans to `pieces`, whatever follows it after a space. */
  ghost predicate HeadScans(alphabet: Alphabet, line: string, indent: nat, at: nat, pieces: seq<Piece>) {
    && indent < at <= |line| && line[indent] != '\t' && SpacesEnd(line, 0) == indent
    && ScanFrom(alphabet, line, indent) == Prepend(pieces, ScanFrom(alphabet, line, at))
  }

  lemma DashScans(alphabet: Alphabet, line: string, indent: nat)
    requires indent < |line| && (forall k | 0 <= k < indent :: line[k] == ' ') && line[indent] == '-'
      && SpaceOrEnd(line, indent + 1)
    ensures HeadScans(alphabet, line, indent, indent + 1, DashPieces(indent))
  {
    PadEnd(line, indent, 0);
    assert indent == 0 ==> !IsMarker(line);
    ScanOne(alphabet, line, indent, Piece(SequenceEntry, indent, indent + 1));
  }

  lemma KeyScans(alphabet: Alphabet, line: string, indent: nat, key: Value)
    requires IsLeaf(key) && Stands(line, indent, LeafText(key) + ":") && (forall k | 0 <= k < indent :: line[k] == ' ')
    requires SpaceOrEnd(line, indent + |LeafText(key)| + 1)
    ensures HeadScans(alphabet, line, indent, indent + |LeafText(key)| + 1, KeyPieces(key, indent))
  {
    var end := indent + |LeafText(key)|;
    StandsSplit(line, indent, LeafText(key), ":");
    LeafClean(key);
    hide LeafText, ScanFrom, PieceAt, SpacesEnd, Clean, LeafToken, Prepend;
    assert line[end + 0] == ":"[0];
    LeafFound(alphabet, line, indent, key);
    PadEnd(line, indent, 0);
    var pieces := KeyPieces(key, indent);
    ScanOne(alphabet, line, indent, pieces[0]);
    ColonFound(alphabet, line, end);
    ScanOne(alphabet, line, end, pieces[1]);
    PrependTwice(pieces[0], pieces[1], ScanFrom(alphabet, line, end + 1));
  }

  lemma PrependTwice(a: Piece, b: Piece, rest: Result<LineScan, ErrorKind>)
    ensures Prepend([a], Prepend([b], rest)) == Prepend([a, b], rest)
  {
    assert rest.Ok? ==> [a] + ([b] + rest.value.pieces) == [a, b] + rest.value.pieces;
  }

  lemma ColonFound(alphabet: Alphabet, line: string, col: nat)
    requires col < |line| && line[col] == ':' && SpaceOrEnd(line, col + 1)
    ensures PieceAt(alphabet, line, col) == Ok(Inner(Piece(Colon, col, col + 1)))
  {
  }

  /** The line an item or entry starts with. */
  function TailLine(head: string, v: Value): string
    requires Printable(v)
  {
    if IsBlock(v) then head else head + " " + Inline(v)
  }

  lemma {:induction false} ValueScans(alphabet: Alphabet, v: Value, indent: nat)
    requires Printable(v)
    ensures AllScan(alphabet, ValueLines(v, indent), ValuePieces(v, indent))
    decreases v, 1
  {
    if !IsBlock(v) {
      var line := Pad(indent) + Inline(v);
      InlineClean(v);
      ScanInline(alphabet, line, indent, v);
      PadEnd(line, indent, 0);
    } else if v.VSequence? {
      ItemsScan(alphabet, v.items, indent);
    } else {
      EntriesScan(alphabet, v.entries, indent);
    }
  }

  lemma {:induction false} TailScans(alphabet: Alphabet, head: string, pieces: seq<Piece>, v: Value, indent: nat)
    requires Printable(v) && Clean(head) && HeadScans(alphabet, TailLine(head, v), indent, |head|, pieces)
    ensures AllScan(alphabet, TailLines(head, v, indent), TailPieces(pieces, |head|, v, indent))
    decreases v, 2
  {
    hide PieceAt, SpacesEnd, ScanFrom, Printable, Inline, ValueLines, ValuePieces, InlinePieces, Clean;
    var line := TailLine(head, v);
    if IsBlock(v) {
      ValueScans(alphabet, v, indent + 2);
      HeadOnly(alphabet, line, indent, pieces);
    } else {
      InlineTailScans(alphabet, head, pieces, v, indent);
    }
  }

  lemma HeadOnly(alphabet: Alphabet, line: string, indent: nat, pieces: seq<Piece>)
    requires Clean(line) && HeadScans(alphabet, line, indent, |line|, pieces)
    ensures Scans(alphabet, line, pieces)
  {
    hide PieceAt, SpacesEnd;
    assert pieces + [] == pieces;
    assert ScanFrom(alphabet, line, |line|) == Ok(LineScan([], None));
  }

  /** The space between a key or dash and its value is passed over. */
  lemma SpaceSkipped(alphabet: Alphabet, head: string, text: string)
    requires Clean(head) && Clean(text) && text != ""
    ensures var line := head + " " + text;
      Clean(line) && Stands(line, |head| + 1, text)
        && ScanFrom(alphabet, line, |head|) == ScanFrom(alphabet, line, |head| + 1)
  {
    hide ScanFrom, Stands;
    assert Clean(" ");
    hide Clean;
    CleanStands(head, " ");
    CleanStands(head + " ", text);
    ScanSpace(alphabet, head + " " + text, |head|);
  }

  lemma CleanStands(a: string, b: string)
    requires Clean(a) && Clean(b)
    ensures Clean(a + b) && Stands(a + b, |a|, b)
  {
  }

  lemma ScanSpace(alphabet: Alphabet, line: string, col: nat)
    requires col < |line| && line[col] == ' '
    ensures ScanFrom(alphabet, line, col) == ScanFrom(alphabet, line, col + 1)
  {
    hide PieceAt;
  }

  lemma InlineTailScans(alphabet: Alphabet, head: string, pieces: seq<Piece>, v: Value, indent: nat)
    requires Printable(v) && !IsBlock(v) && Clean(head)
      && HeadScans(alphabet, head + " " + Inline(v), indent, |head|, pieces)
    ensures Scans(alphabet, head + " " + Inline(v), pieces + InlinePieces(v, |head| + 1))
  {
    hide PieceAt, SpacesEnd, Printable, Inline, InlinePieces, ScanFrom, Clean, Stands, IsBlock;
    InlineClean(v);
    SpaceSkipped(alphabet, head, Inline(v));
    ScanInline(alphabet, head + " " + Inline(v), |head| + 1, v);
  }

  lemma {:induction false} ItemScans(alphabet: Alphabet, v: Value, indent: nat)
    requires Printable(v)
    ensures AllScan(alphabet, TailLines(Pad(indent) + "-", v, indent),
                    TailPieces(DashPieces(indent), indent + 1, v, indent))
    decreases v, 3
  {
    hide Printable, AllScan, IsBlock, Inline;
    var head := Pad(indent) + "-";
    assert SpaceOrEnd(TailLine(head, v), indent + 1);
    DashScans(alphabet, TailLine(head, v), indent);
    TailScans(alphabet, head, DashPieces(indent), v, indent);
  }

  lemma {:induction false} EntryScans(alphabet: Alphabet, e: (Value, Value), indent: nat)
    requires EntryPrintable(e)
    ensures AllScan(alphabet, TailLines(Pad(indent) + LeafText(e.0) + ":", e.1, indent),
                    TailPieces(KeyPieces(e.0, indent), indent + |LeafText(e.0)| + 1, e.1, indent))
    decreases e.1, 3
  {
    hide Printable, AllScan, IsBlock, Inline, LeafText, KeyPieces;
    var text := LeafText(e.0);
    var head := Pad(indent) + text + ":";
    var line := TailLine(head, e.1);
    LeafClean(e.0);
    assert forall k | 0 <= k < |head| :: line[k] == head[k];
    assert forall k | 0 <= k < |text + ":"| :: line[indent + k] == (text + ":")[k];
    KeyScans(alphabet, line, indent, e.0);
    TailScans(alphabet, head, KeyPieces(e.0, indent), e.1, indent);
  }

  lemma AllScanConcat(alphabet: Alphabet, a: seq<string>, x: seq<seq<Piece>>, b: seq<string>, y: seq<seq<Piece>>)
    requires AllScan(alphabet, a, x) && AllScan(alphabet, b, y)
    ensures AllScan(alphabet, a + b, x + y)
  {
    hide Scans;
  }

  lemma {:induction false} ItemsScan(alphabet: Alphabet, items: seq<Value>, indent: nat)
    requires forall i | 0 <= i < |items| :: Printable(items[i])
    ensures AllScan(alphabet, ItemLines(items, indent), ItemPieces(items, indent))
    decreases items, 0
  {
    if items != [] {
      hide AllScan, TailLines, TailPieces, Printable;
      ItemScans(alphabet, items[0], indent);
      ItemsScan(alphabet, items[1..], indent);
      AllScanConcat(alphabet, TailLines(Pad(indent) + "-", items[0], indent),
                    TailPieces(DashPieces(indent), indent + 1, items[0], indent),
                    ItemLines(items[1..], indent), ItemPieces(items[1..], indent));
    }
  }

  lemma {:induction false} EntriesScan(alphabet: Alphabet, entries: seq<(Value, Value)>, indent: nat)
    requires forall i | 0 <= i < |entries| :: EntryPrintable(entries[i])
    ensures AllScan(alphabet, EntryLines(entries, indent), EntryPieces(entries, indent))
    decreases entries, 0
  {
    hide AllScan, TailLines, TailPieces, Printable, LeafText, KeyPieces, EntryLines, EntryPieces, EntryPrintable;
    if entries == [] {
      NoEntryScans(alphabet, indent);
    } else {
      var e := entries[0];
      FirstEntry(entries, indent);
      EntryScans(alphabet, e, indent);
      EntriesScan(alphabet, entries[1..], indent);
      AllScanConcat(alphabet, TailLines(Pad(indent) + LeafText(e.0) + ":", e.1, indent),
                    TailPieces(KeyPieces(e.0, indent), indent + |LeafText(e.0)| + 1, e.1, indent),
                    EntryLines(entries[1..], indent), EntryPieces(entries[1..], indent));
    }
  }

  lemma NoEntryScans(alphabet: Alphabet, indent: nat)
    ensures AllScan(alphabet, EntryLines([], indent), EntryPieces([], indent))
  {
  }

  lemma FirstEntry(entries: seq<(Value, Value)>, indent: nat)
    requires entries != [] && forall i | 0 <= i < |entries| :: EntryPrintable(entries[i])
    ensures var e := entries[0];
      && e.1 < e && IsLeaf(e.0) && Printable(e.1)
      && EntryLines(entries, indent)
        == TailLines(Pad(indent) + LeafText(e.0) + ":", e.1, indent) + EntryLines(entries[1..], indent)
      && EntryPieces(entries, indent)
         == TailPieces(KeyPieces(e.0, indent), indent + |LeafText(e.0)| + 1, e.1, indent)
           + EntryPieces(entries[1..], indent)
  {
    hide TailLines, TailPieces, LeafText, KeyPieces;
    assert EntryPrintable(entries[0]);
  }
}
