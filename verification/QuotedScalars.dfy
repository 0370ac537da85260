/** Reading a rendered scalar back: quoted ones for every string, and the plain spellings the printer uses. */
module QuotedScalars {
  import opened Prelude
  import opened Syntax
  import opened Numbers
  import opened Lexing
  import opened Resolve
  import opened Values
  import opened Serializer
  import opened Printer
  import opened ValueText

  /** Every escape the printer writes is read back as the character it stands for. */
  lemma {:induction false} DoubleQuotedReads(line: string, i: nat, s: string, value: string)
    requires Stands(line, i, Escaped(s) + "\"")
    ensures Quoted(line, i, '"', value) == Ok((value + s, i + |Escaped(s)| + 1))
    decreases |s|
  {
    hide EscapeOf;
    if s == "" {
      assert (Escaped(s) + "\"")[0] == line[i + 0];
      assert value + s == value;
    } else {
      var head, rest := EscapeOf(s[0]), Escaped(s[1..]);
      assert Escaped(s) + "\"" == head + (rest + "\"");
      StandsSplit(line, i, head, rest + "\"");
      EscapeReads(line, i, s[0], value);
      DoubleQuotedReads(line, i + |head|, s[1..], value + [s[0]]);
      assert value + [s[0]] + s[1..] == value + s;
    }
  }

  lemma EscapeReads(line: string, i: nat, c: char, value: string)
    requires Stands(line, i, EscapeOf(c))
    ensures Quoted(line, i, '"', value) == Quoted(line, i + |EscapeOf(c)|, '"', value + [c])
  {
    assert line[i + 0] == EscapeOf(c)[0];
    assert |EscapeOf(c)| == 2 ==> line[i + 1] == EscapeOf(c)[1];
  }

  // ----- Escapes by code

  function HexDigit(d: nat): char
    requires d < 16
  {
    if d < 10 then '0' + d as char else 'a' + (d - 10) as char
  }

  /** The last `width` hexadecimal digits of a number. */
  function Hex(n: nat, width: nat): (s: string)
    ensures |s| == width
  {
    if width == 0 then "" else Hex(n / 16, width - 1) + [HexDigit(n % 16)]
  }

  function Pow16(width: nat): nat {
    if width == 0 then 1 else 16 * Pow16(width - 1)
  }

  lemma {:induction false} HexReads(n: nat, width: nat)
    requires n < Pow16(width)
    ensures AllDigits(Hex(n, width), 16) && Positional(Hex(n, width), 16) == n
  {
    if width > 0 {
      HexReads(n / 16, width - 1);
      var front, s := Hex(n / 16, width - 1), Hex(n, width);
      assert s[..|s| - 1] == front && DigitOf(HexDigit(n % 16)) == Some(n % 16);
      forall i | 0 <= i < |s| ensures IsDigit(s[i], 16) {
        if i < |front| {
          assert IsDigit(front[i], 16);
        }
      }
    }
  }

  lemma CodeRead(c: char, width: nat)
    requires c as nat < Pow16(width) && width > 0
    ensures CodePoint(Hex(c as nat, width)) == Some(c)
  {
    HexReads(c as nat, width);
    assert IsDigit(Hex(c as nat, width)[0], 16);
    hide Positional, Hex, Pow16;
  }

  /** A character may be written by its code, with two, four or eight digits; a null by `0`. */
  lemma CodeEscapes(line: string, p: nat, c: char)
    ensures Stands(line, p, "\\x" + Hex(c as nat, 2)) && c as nat < 0x100 ==> Escape(line, p) == Some((c, p + 4))
    ensures Stands(line, p, "\\u" + Hex(c as nat, 4)) && c as nat < 0x10000 ==> Escape(line, p) == Some((c, p + 6))
    ensures Stands(line, p, "\\U" + Hex(c as nat, 8)) ==> Escape(line, p) == Some((c, p + 10))
    ensures Stands(line, p, "\\0") ==> Escape(line, p) == Some(('\0', p + 2))
  {
    Pow16s();
    CodeEscape(line, p, 'x', c, 2);
    CodeEscape(line, p, 'u', c, 4);
    CodeEscape(line, p, 'U', c, 8);
    if Stands(line, p, "\\0") {
      assert line[p + 1] == "\\0"[1];
    }
  }

  lemma Pow16s()
    ensures Pow16(2) == 0x100 && Pow16(4) == 0x10000 && Pow16(8) == 0x1_0000_0000
  {
    assert Pow16(2) == 0x100;
    assert Pow16(4) == 0x10000;
    assert Pow16(6) == 0x100_0000;
  }

  lemma CodeEscape(line: string, p: nat, letter: char, c: char, width: nat)
    requires (letter == 'x' && width == 2) || (letter == 'u' && width == 4) || (letter == 'U' && width == 8)
    ensures Stands(line, p, ['\\', letter] + Hex(c as nat, width)) && (c as nat) < Pow16(width) ==>
      Escape(line, p) == Some((c, p + 2 + width))
  {
    hide CodePoint, Hex, Pow16;
    if Stands(line, p, ['\\', letter] + Hex(c as nat, width)) && (c as nat) < Pow16(width) {
      StandsSplit(line, p, ['\\', letter], Hex(c as nat, width));
      assert line[p + 1] == ['\\', letter][1];
      assert line[p + 2..p + 2 + width] == Hex(c as nat, width);
      CodeRead(c, width);
    }
  }

  lemma {:induction false} SingleQuotedReads(line: string, i: nat, s: string, value: string)
    requires Stands(line, i, Doubled(s) + "'")
    requires i + |Doubled(s)| + 1 < |line| ==> line[i + |Doubled(s)| + 1] != '\''
    ensures Quoted(line, i, '\'', value) == Ok((value + s, i + |Doubled(s)| + 1))
    decreases |s|
  {
    var text := Doubled(s) + "'";
    assert line[i] == text[0];
    if s == "" {
      assert value + s == value;
    } else {
      var head := if s[0] == '\'' then "''" else [s[0]];
      assert text == head + (Doubled(s[1..]) + "'");
      StandsSplit(line, i, head, Doubled(s[1..]) + "'");
      assert |head| == 2 ==> line[i + 1] == text[1];
      SingleQuotedReads(line, i + |head|, s[1..], value + [s[0]]);
      assert value + [s[0]] + s[1..] == value + s;
    }
  }

  /** A line that ends inside a single-quoted scalar leaves it unterminated. */
  lemma {:induction false} SingleQuotedUnterminated(line: string, i: nat, s: string, value: string)
    requires Stands(line, i, Doubled(s)) && i + |Doubled(s)| == |line|
    ensures Quoted(line, i, '\'', value) == Err(InvalidScalar)
    decreases |s|
  {
    if s != "" {
      var head := if s[0] == '\'' then "''" else [s[0]];
      assert Doubled(s) == head + Doubled(s[1..]);
      assert line[i] == Doubled(s)[0];
      StandsSplit(line, i, head, Doubled(s[1..]));
      assert |head| == 2 ==> line[i + 1] == Doubled(s)[1];
      SingleQuotedUnterminated(line, i + |head|, s[1..], value + [s[0]]);
    }
  }

  // ----- Plain spellings

  /** Letters, digits and a sign: nothing that ends a plain scalar or starts anything else. */
  predicate PlainChar(c: char) {
    'a' <= c <= 'z' || '0' <= c <= '9' || c == '-'
  }

  predicate PlainWord(text: string) {
    && text != "" && (forall k | 0 <= k < |text| :: PlainChar(text[k]))
    && (text[0] == '-' ==> |text| > 1 && text[1] != '-')
  }

  lemma PlainLeaf(v: Value)
    requires IsLeaf(v) && !v.VString?
    ensures PlainWord(LeafText(v))
  {
    if v.VInt? {
      hide PlainWord;
      PlainInt(v.i);
    }
  }

  lemma PlainInt(i: int)
    ensures PlainWord(IntText(i))
  {
    var digits := Decimal(if i < 0 then -i else i);
    DecimalReads(if i < 0 then -i else i);
    assert IntText(i) == if i < 0 then "-" + digits else digits;
    hide Decimal, IntText;
    PlainDigits(digits);
  }

  lemma PlainDigits(digits: string)
    requires digits != "" && AllDigits(digits, 10)
    ensures PlainWord(digits) && PlainWord("-" + digits)
  {
    assert forall k | 0 <= k < |digits| :: IsDigit(digits[k], 10);
    var text := "-" + digits;
    assert text[1] == digits[0];
    assert forall k | 0 < k < |text| :: text[k] == digits[k - 1];
  }

  lemma {:induction false} PlainReads(line: string, i: nat, end: nat)
    requires i <= end <= |line| && forall k | i <= k < end :: PlainChar(line[k])
    requires end < |line| ==> PlainStops(line, end)
    ensures PlainEnd(line, i) == end
    decreases end - i
  {
    if i < end {
      PlainReads(line, i + 1, end);
    }
  }

  // ----- The token of a leaf

  function LeafToken(v: Value): TokenKind
    requires IsLeaf(v)
  {
    if v.VString? then Scalar(v.s, DoubleQuoted, None) else Scalar(LeafText(v), Plain, None)
  }

  lemma StringFound(alphabet: Alphabet, line: string, col: nat, s: string)
    requires Stands(line, col, "\"" + Escaped(s) + "\"")
    ensures line[col] == '"'
    ensures PieceAt(alphabet, line, col) == Ok(Inner(Piece(Scalar(s, DoubleQuoted, None), col, col + |Escaped(s)| + 2)))
  {
    var q := "\"";
    assert q + Escaped(s) + q == q + (Escaped(s) + q);
    StandsSplit(line, col, q, Escaped(s) + q);
    DoubleQuotedReads(line, col + 1, s, "");
    assert line[col + 0] == q[0];
    assert "" + s == s;
    hide Quoted, Escaped;
    assert col == 0 ==> !IsMarker(line);
  }

  lemma WordFound(alphabet: Alphabet, line: string, col: nat, text: string)
    requires PlainWord(text) && Stands(line, col, text)
    requires var end := col + |text|; end < |line| ==> line[end] == ':' && SpaceOrEnd(line, end + 1)
    ensures line[col] == text[0]
    ensures PieceAt(alphabet, line, col) == Ok(Inner(Piece(Scalar(text, Plain, None), col, col + |text|)))
  {
    var end := col + |text|;
    assert line[col + 0] == text[0];
    forall k | col <= k < end ensures PlainChar(line[k]) {
      assert line[k] == line[col + (k - col)] == text[k - col];
    }
    PlainReads(line, col + 1, end);
    assert line[col..end] == text;
    assert PlainChar(line[end - 1]);
    assert TrimmedEnd(line, col, end) == end;
    assert text[0] == '-' ==> line[col + 1] == text[1] && PlainChar(text[1]);
    hide PlainEnd, TrimmedEnd, Quoted, PlainStops;
    assert line[col] == '-' ==> !SpaceOrEnd(line, col + 1);
    assert col == 0 ==> !IsMarker(line);
  }

  /** A printed leaf at the end of a line, or in front of its colon, is found as one scalar. */
  lemma LeafFound(alphabet: Alphabet, line: string, col: nat, v: Value)
    requires IsLeaf(v) && Stands(line, col, LeafText(v))
    requires var end := col + |LeafText(v)|; end < |line| ==> line[end] == ':' && SpaceOrEnd(line, end + 1)
    ensures col < |line| && line[col] != ' ' && line[col] != '\t'
    ensures PieceAt(alphabet, line, col) == Ok(Inner(Piece(LeafToken(v), col, col + |LeafText(v)|)))
  {
    hide PieceAt;
    if v.VString? {
      StringFound(alphabet, line, col, v.s);
    } else {
      PlainLeaf(v);
      WordFound(alphabet, line, col, LeafText(v));
    }
  }

  // ----- Single quotes and line breaks

  lemma {:induction false} DoubledConcat(a: string, b: string)
    ensures Doubled(a + b) == Doubled(a) + Doubled(b)
  {
    if a == "" {
      assert a + b == b;
    } else {
      assert (a + b)[1..] == a[1..] + b;
      DoubledConcat(a[1..], b);
    }
  }

  lemma {:induction false} DoubledBreaks(s: string)
    ensures '\n' in Doubled(s) <==> '\n' in s
  {
    if s != "" {
      DoubledBreaks(s[1..]);
      assert s == [s[0]] + s[1..];
    }
  }

  /** The string up to its first line break, or all of it. */
  lemma {:induction false} SplitAtBreak(s: string) returns (a: string, b: string)
    ensures s == a + b && '\n' !in a && (b != "" ==> b[0] == '\n')
  {
    if s == "" || s[0] == '\n' {
      a, b := "", s;
    } else {
      a, b := SplitAtBreak(s[1..]);
      a := [s[0]] + a;
    }
  }

  /**
   A single-quoted scalar on its own is scanned as the string it was rendered from exactly when that
   string has no line break; otherwise its first line leaves it unterminated.
   */
  lemma SingleQuotedExactly(alphabet: Alphabet, s: string)
    ensures var source := "'" + Doubled(s) + "'";
      ScanLine(alphabet, source, 0) ==
        if '\n' in s then Err(InvalidScalar)
        else Ok(([Token(Scalar(s, SingleQuoted, None), SpanOf(source, 0, |source|))], |source|))
  {
    hide ScanLine, Doubled, SpanOf;
    DoubledBreaks(s);
    if '\n' in s {
      var a, b := SplitAtBreak(s);
      SingleQuotedBroken(alphabet, s, a, b, "'");
    } else {
      SingleQuotedWhole(alphabet, s);
    }
  }

  lemma SingleQuotedWhole(alphabet: Alphabet, s: string)
    requires '\n' !in Doubled(s)
    ensures var source := "'" + Doubled(s) + "'";
      ScanLine(alphabet, source, 0)
        == Ok(([Token(Scalar(s, SingleQuoted, None), SpanOf(source, 0, |source|))], |source|))
  {
    var source := "'" + Doubled(s) + "'";
    SingleQuotedReads(source, 1, s, "");
    assert "" + s == s;
    assert LineEnd(source, 0) == |source|;
    hide Quoted, Doubled, LineEnd;
    assert source[0..|source|] == source && LineAt(source, 0) == source;
    QuoteFound(alphabet, source, s);
    hide ScanFrom, PieceAt;
    ScanFits(alphabet, source, 0);
    var piece := Piece(Scalar(s, SingleQuoted, None), 0, |source|);
    assert SpacesEnd(source, 0) == 0;
    assert NextLine(source, 0) == |source|;
    assert TokensOf(source, 0, [piece][1..]) == [];
    assert TokensOf(source, 0, [piece]) == [Token(piece.kind, SpanOf(source, 0, |source|))];
  }

  lemma SingleQuotedBroken(alphabet: Alphabet, s: string, a: string, b: string, behind: string)
    requires s == a + b && '\n' !in a && b != "" && b[0] == '\n'
    ensures ScanLine(alphabet, "'" + Doubled(s) + behind, 0) == Err(InvalidScalar)
  {
    var source := "'" + Doubled(s) + behind;
    var cut := BrokenLine(s, a, b, behind);
    var line := "'" + Doubled(cut);
    assert line == LineAt(source, 0);
    SingleQuotedUnterminated(line, 1, cut, "");
    QuoteOpen(alphabet, line);
    hide Doubled, LineAt, ScanFrom;
    assert SpacesEnd(line, 0) == 0;
  }

  /** The first line ends at the break, short of a carriage return in front of it. */
  lemma BrokenLine(s: string, a: string, b: string, behind: string) returns (cut: string)
    requires s == a + b && '\n' !in a && b != "" && b[0] == '\n'
    ensures LineAt("'" + Doubled(s) + behind, 0) == "'" + Doubled(cut)
  {
    var source := "'" + Doubled(s) + behind;
    DoubledConcat(a, b);
    DoubledBreaks(a);
    assert Doubled(b)[0] == '\n';
    hide Doubled;
    assert source == ("'" + Doubled(a)) + (Doubled(b) + behind);
    LineShort(source, "'" + Doubled(a), Doubled(b) + behind);
    cut := if a != "" && a[|a| - 1] == '\r' then a[..|a| - 1] else a;
    CutReturn(a);
  }

  /** A line ends at its break, short of a carriage return in front of it. */
  lemma LineShort(source: string, line: string, rest: string)
    requires source == line + rest && '\n' !in line && rest != "" && rest[0] == '\n'
    ensures LineAt(source, 0) == if line != "" && line[|line| - 1] == '\r' then line[..|line| - 1] else line
  {
    assert source[|line|] == '\n';
    assert forall i | 0 <= i < |line| :: source[i] == line[i];
    assert LineEnd(source, 0) == |line|;
    hide LineEnd;
  }

  lemma QuoteOpen(alphabet: Alphabet, line: string)
    requires line != "" && line[0] == '\'' && Quoted(line, 1, '\'', "") == Err(InvalidScalar)
    ensures ScanFrom(alphabet, line, 0) == Err(InvalidScalar)
  {
    hide Quoted;
    assert PieceAt(alphabet, line, 0) == Err(InvalidScalar);
  }

  lemma QuoteFound(alphabet: Alphabet, line: string, s: string)
    requires |line| > 1 && line[0] == '\'' && Quoted(line, 1, '\'', "") == Ok((s, |line|))
    ensures ScanFrom(alphabet, line, 0) == Ok(LineScan([Piece(Scalar(s, SingleQuoted, None), 0, |line|)], None))
  {
    hide Quoted;
    var piece := Piece(Scalar(s, SingleQuoted, None), 0, |line|);
    assert PieceAt(alphabet, line, 0) == Ok(Inner(piece));
    assert [piece] + [] == [piece];
  }

  /** Dropping a final carriage return before or after doubling quotes is the same. */
  lemma CutReturn(a: string)
    ensures a != "" && a[|a| - 1] == '\r' ==> Doubled(a) == Doubled(a[..|a| - 1]) + "\r"
    ensures a != "" && a[|a| - 1] != '\r' ==> Doubled(a) != "" && Doubled(a)[|Doubled(a)| - 1] != '\r'
  {
    if a != "" {
      var last := a[|a| - 1..];
      assert a == a[..|a| - 1] + last && last[1..] == "";
      DoubledConcat(a[..|a| - 1], last);
      assert Doubled(last) == (if last[0] == '\'' then "''" else [last[0]]) + "";
    }
  }
}
