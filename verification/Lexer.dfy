/** The pull-based tokenizer: one line of tokens at a time, with the scanning loops that fill it. */
module Lexer {
  import opened Prelude
  import opened Syntax
  import opened Numbers
  import Resolve
  import L = Lexing
  import LexedKinds

  // ----- Scanning within a line

  method ReadName(alphabet: L.Alphabet, line: string, start: nat) returns (r: Result<(string, nat), ErrorKind>)
    requires start <= |line|
    ensures var end := L.NameEnd(alphabet, line, start);
      r == if end == start then Err(InvalidAnchor) else Ok((line[start..end], end))
  {
    var p := start;
    while p < |line| && L.NameChar(alphabet, line[p])
      invariant start <= p <= |line| && L.NameEnd(alphabet, line, p) == L.NameEnd(alphabet, line, start)
    {
      p := p + 1;
    }
    if p == start {
      return Err(InvalidAnchor);
    }
    return Ok((line[start..p], p));
  }

  method ReadQuoted(line: string, col: nat, quote: char) returns (r: Result<(string, nat), ErrorKind>)
    requires col < |line|
    ensures r == L.Quoted(line, col + 1, quote, "")
  {
    var value := "";
    var p := col + 1;
    while true
      invariant p <= |line| && L.Quoted(line, p, quote, value) == L.Quoted(line, col + 1, quote, "")
      decreases |line| - p
    {
      if p >= |line| {
        return Err(InvalidScalar);
      }
      var c := line[p];
      if c == quote {
        if quote == '\'' && p + 1 < |line| && line[p + 1] == '\'' {
          value := value + "'";
          p := p + 2;
        } else {
          return Ok((value, p + 1));
        }
      } else if quote == '"' && c == '\\' {
        var escape := L.Escape(line, p);
        if escape.None? {
          return Err(InvalidScalar);
        }
        value := value + [escape.value.0];
        p := escape.value.1;
      } else {
        value := value + [c];
        p := p + 1;
      }
    }
  }

  /** Trailing whitespace belongs to what the scalar covers, but not to its text. */
  method ReadPlain(line: string, col: nat) returns (text: string, end: nat)
    requires col < |line| && !L.PlainStops(line, col)
    ensures end == L.PlainEnd(line, col + 1)
    ensures text == line[col..L.TrimmedEnd(line, col, end)]
  {
    var contentEnd := col;
    end := col;
    while end < |line| && !L.PlainStops(line, end)
      invariant col <= contentEnd <= end <= |line|
      invariant L.PlainEnd(line, end) == L.PlainEnd(line, col)
      invariant contentEnd == L.TrimmedEnd(line, col, end)
    {
      if !IsWhitespace(line[end]) {
        contentEnd := end + 1;
      }
      end := end + 1;
    }
    text := line[col..contentEnd];
  }

  method FindPiece(alphabet: L.Alphabet, line: string, col: nat) returns (r: Result<L.Found, ErrorKind>)
    requires col < |line| && line[col] != ' '
    ensures r == L.PieceAt(alphabet, line, col)
  {
    var c := line[col];
    var single: Option<TokenKind> := None;
    if c == '\t' {
      return Err(TabCharacter);
    } else if c == '#' {
      return Ok(L.Final(L.Piece(Comment(Resolve.TrimStart(line[col + 1..])), col, |line|)));
    } else if col == 0 && L.IsMarker(line) {
      return Ok(L.Inner(L.Piece(if line[0] == '-' then DocumentStart else DocumentEnd, 0, 3)));
    } else if c == '-' && L.SpaceOrEnd(line, col + 1) {
      single := Some(SequenceEntry);
    } else if c == '?' && L.SpaceOrEnd(line, col + 1) {
      single := Some(MappingKey);
    } else if c == '&' || c == '*' || c == '!' {
      var read :- ReadName(alphabet, line, col + 1);
      var (name, end) := read;
      return Ok(L.Inner(L.Piece(if c == '&' then Anchor(name) else if c == '*' then Alias(name)
                                else Tag(name), col, end)));
    } else if c == '%' && col == 0 {
      return Ok(L.Final(L.Piece(Directive(Resolve.TrimEnd(line[1..])), 0, |line|)));
    } else if L.Punctuation(c).Some? {
      single := L.Punctuation(c);
    } else if c == ':' && L.SpaceOrEnd(line, col + 1) {
      single := Some(Colon);
    } else if c == '|' || c == '>' {
      return Ok(L.BlockHeader);
    } else if c == '\'' || c == '"' {
      var read :- ReadQuoted(line, col, c);
      return Ok(L.Inner(L.Piece(Scalar(read.0, if c == '\'' then SingleQuoted else DoubleQuoted, None), col, read.1)));
    } else {
      var text, end := ReadPlain(line, col);
      return Ok(L.Inner(L.Piece(Scalar(text, Plain, None), col, end)));
    }
    return Ok(L.Inner(L.Piece(single.value, col, col + 1)));
  }

  // ----- Block scalars

  method ReadHeader(line: string, col: nat) returns (r: Result<L.Header, ErrorKind>)
    requires col < |line|
    ensures r == L.ReadHeader(line, col + 1, L.Header(L.Clip, None))
  {
    var q := col + 1;
    var chomping, indentation := L.Clip, None;
    while q < |line| && line[q] != ' ' && line[q] != '\t' && line[q] != '#'
      invariant q <= |line|
      invariant L.ReadHeader(line, q, L.Header(chomping, indentation))
        == L.ReadHeader(line, col + 1, L.Header(L.Clip, None))
    {
      if line[q] == '+' {
        chomping := L.Keep;
      } else if line[q] == '-' {
        chomping := L.Strip;
      } else if '1' <= line[q] <= '9' {
        indentation := Some((line[q] - '0') as nat);
      } else {
        return Err(InvalidScalar);
      }
      q := q + 1;
    }
    return Ok(L.Header(chomping, indentation));
  }

  function After(lines: seq<string>, rest: (seq<string>, nat, Option<nat>)): (seq<string>, nat, Option<nat>) {
    (lines + rest.0, rest.1, rest.2)
  }

  lemma AfterOne(lines: seq<string>, line: string, rest: (seq<string>, nat, Option<nat>))
    ensures After(lines, After([line], rest)) == After(lines + [line], rest)
  {
    assert lines + ([line] + rest.0) == lines + [line] + rest.0;
  }

  /** Collects the lines of the scalar and takes their common indentation off. */
  method ScanBlockScalar(source: string, start: nat, col: nat, indent: nat)
    returns (r: Result<(TokenKind, nat), ErrorKind>)
    requires start < |source| && col < |L.LineAt(source, start)|
    ensures r == L.BlockScalarAt(source, start, L.LineAt(source, start), col, indent)
  {
    hide L.NextLine, L.ContentEnd, L.SpacesEnd;
    var line := L.LineAt(source, start);
    var header :- ReadHeader(line, col);
    var base: Option<nat> := if header.indentation.Some? then Some(indent + header.indentation.value) else None;
    ghost var spec := L.BlockLines(source, L.NextLine(source, start), base, indent);
    var lines: seq<string>, current, done := [], L.NextLine(source, start), false;
    assert lines + spec.0 == spec.0;
    while current < |source| && !done
      invariant current <= |source|
      invariant !done ==> spec == After(lines, L.BlockLines(source, current, base, indent))
      invariant done ==> spec == (lines, current, base)
      decreases |source| - current, !done
    {
      var content := source[current..L.ContentEnd(source, current)];
      var leading := L.SpacesEnd(content, 0);
      if leading != |content| && (if base.Some? then leading < base.value else leading <= indent) {
        done := true;
        assert lines + [] == lines;
      } else {
        if leading != |content| && base.None? {
          base := Some(leading);
        }
        AfterOne(lines, content, L.BlockLines(source, L.NextLine(source, current), base, indent));
        lines := lines + [content];
        current := L.NextLine(source, current);
      }
    }
    assert lines + [] == lines;
    var value := L.Dedent(lines, if base.Some? then base.value else indent + 1);
    return Ok((BlockScalar(if line[col] == '|' then Literal else Folded, L.Chomp(value, header.chomping)), current));
  }

  // ----- The tokenizer

  class Lexer {
    const source: string
    const alphabet: L.Alphabet
    var lineStart: nat
    var queue: seq<Token>
    var queuePos: nat
    var eofDone: bool

    ghost predicate Valid()
      reads this
    {
      && lineStart <= |source| && queuePos <= |queue|
      && (forall t | t in queue :: !t.kind.Eof?)
      && (eofDone ==> queuePos == |queue|)
    }

    /** The tokens still to be handed out, or the error scanning will meet. */
    ghost function Unread(): Result<seq<Token>, ErrorKind>
      reads this
      requires Valid()
    {
      if eofDone then Ok([]) else
      var rest :- L.LexFrom(alphabet, source, lineStart);
      Ok(queue[queuePos..] + rest)
    }

    constructor (alphabet: L.Alphabet, source: string)
      ensures Valid() && this.alphabet == alphabet && this.source == source && lineStart == 0
      ensures Unread() == L.Lex(alphabet, source)
    {
      this.alphabet := alphabet;
      this.source := source;
      lineStart, queue, queuePos, eofDone := 0, [], 0, false;
      new;
      var all := L.Lex(alphabet, source);
      assert all.Ok? ==> [] + all.value == all.value;
    }

    /** Scans one physical line, or a block scalar with its lines, into the queue. */
    method ScanLine() returns (r: Result<(), ErrorKind>)
      requires Valid() && !eofDone && queuePos == |queue| && lineStart < |source|
      modifies this`queue, this`queuePos, this`lineStart
      ensures match L.ScanLine(alphabet, source, old(lineStart))
        case Err(e) => r == Err(e) && lineStart == old(lineStart) && queue == old(queue) && queuePos == old(queuePos)
        case Ok(scan) => r.Ok? && queue == scan.0 && lineStart == scan.1 && queuePos == 0
    {
      hide L.ScanFrom, L.PieceAt, L.BlockScalarAt, L.SpanOf;
      var start := lineStart;
      var line := L.LineAt(source, start);
      var indent := L.SpacesEnd(line, 0);
      if indent < |line| && line[indent] == '\t' {
        return Err(TabCharacter);
      }
      var next := L.NextLine(source, start);
      var tokens: seq<Token>;
      if indent == |line| {
        tokens := [Token(BlankLine, L.SpanOf(source, start, start + |line|))];
      } else {
        L.ScanFits(alphabet, line, indent);
        var scan :- ScanPieces(line, indent);
        tokens := L.TokensOf(source, start, scan.pieces);
        if scan.block.Some? {
          var block :- ScanBlockScalar(source, start, scan.block.value, indent);
          tokens := tokens + [Token(block.0, L.SpanOf(source, start + scan.block.value, block.1))];
          next := block.1;
        }
      }
      queue := tokens;
      queuePos := 0;
      lineStart := next;
      return Ok(());
    }

    /** The scanning loop over one line's columns. */
    method ScanPieces(line: string, indent: nat) returns (r: Result<L.LineScan, ErrorKind>)
      requires indent <= |line|
      ensures r == L.ScanFrom(alphabet, line, indent)
    {
      hide L.PieceAt;
      var col := indent;
      var pieces: seq<L.Piece> := [];
      Unprepended(L.ScanFrom(alphabet, line, indent));
      while col < |line|
        invariant indent <= col <= |line|
        invariant L.ScanFrom(alphabet, line, indent) == L.Prepend(pieces, L.ScanFrom(alphabet, line, col))
      {
        if line[col] == ' ' {
          col := col + 1;
          continue;
        }
        var found :- FindPiece(alphabet, line, col);
        match found {
          case BlockHeader =>
            assert pieces + [] == pieces;
            return Ok(L.LineScan(pieces, Some(col)));
          case Final(piece) =>
            return Ok(L.LineScan(pieces + [piece], None));
          case Inner(piece) =>
            PrependTwice(pieces, piece, L.ScanFrom(alphabet, line, piece.end));
            pieces := pieces + [piece];
            col := piece.end;
        }
      }
      assert pieces + [] == pieces;
      return Ok(L.LineScan(pieces, None));
    }

    lemma Unprepended(r: Result<L.LineScan, ErrorKind>)
      ensures L.Prepend([], r) == r
    {
      assert r.Ok? ==> [] + r.value.pieces == r.value.pieces;
    }

    lemma PrependTwice(a: seq<L.Piece>, piece: L.Piece, r: Result<L.LineScan, ErrorKind>)
      ensures L.Prepend(a, L.Prepend([piece], r)) == L.Prepend(a + [piece], r)
    {
      assert r.Ok? ==> a + ([piece] + r.value.pieces) == a + [piece] + r.value.pieces;
    }

    /** Hands out the next token, scanning a line when the queue is empty; none after `Eof`. */
    method NextToken() returns (r: Result<Option<Token>, ErrorKind>)
      requires Valid()
      modifies this
      ensures Valid()
      ensures r.Err? ==> old(Unread()) == Err(r.error)
      ensures r.Ok? && r.value.None? ==> old(Unread()) == Ok([])
      ensures r.Ok? && r.value.Some? ==>
        && (old(Unread()).Err? ==> Unread() == old(Unread()))
        && (old(Unread()).Ok? ==> Unread().Ok? && old(Unread()) == Ok([r.value.value] + Unread().value))
        && (r.value.value.kind.Eof? ==> Unread() == Ok([]))
        && (r.value.value.kind.Eof? <==> eofDone)
      ensures r.Ok? && r.value.Some? && !eofDone ==>
        lineStart > old(lineStart) || (lineStart == old(lineStart) && |queue| - queuePos < old(|queue| - queuePos))
    {
      hide L.ScanLine, L.SpanOf;
      while true
        invariant Valid() && Unread() == old(Unread())
        invariant lineStart > old(lineStart)
          || (lineStart == old(lineStart) && queue == old(queue) && queuePos == old(queuePos))
        decreases |source| - lineStart, |queue| - queuePos
      {
        if queuePos < |queue| {
          var token := queue[queuePos];
          ghost var rest := L.LexFrom(alphabet, source, lineStart);
          assert rest.Ok? ==> queue[queuePos..] + rest.value == [token] + (queue[queuePos + 1..] + rest.value);
          queuePos := queuePos + 1;
          if queuePos == |queue| {
            queue, queuePos := [], 0;
          }
          return Ok(Some(token));
        }
        if eofDone {
          return Ok(None);
        }
        if lineStart >= |source| {
          assert queue[queuePos..] == [];
          Unqueued(L.LexFrom(alphabet, source, lineStart));
          eofDone := true;
          var token := Token(Eof, L.SpanOf(source, |source|, |source|));
          assert [token] + [] == [token];
          return Ok(Some(token));
        }
        LexedKinds.LineWritten(alphabet, source, lineStart);
        assert queue[queuePos..] == [];
        Unqueued(L.LexFrom(alphabet, source, lineStart));
        var _ :- ScanLine();
        assert queue[0..] == queue;
      }
    }

    lemma Unqueued(r: Result<seq<Token>, ErrorKind>)
      ensures r.Ok? ==> [] + r.value == r.value
    {
    }

    /** Drains the tokenizer: the whole source at once. */
    method Lex() returns (r: Result<seq<Token>, ErrorKind>)
      requires Valid() && !eofDone
      modifies this
      ensures r == old(Unread())
    {
      hide L.LexFrom, Unread;
      var tokens: seq<Token> := [];
      Unqueued(Unread());
      while true
        invariant Valid() && !eofDone
        invariant Unread().Err? ==> old(Unread()) == Unread()
        invariant Unread().Ok? ==> old(Unread()) == Ok(tokens + Unread().value)
        decreases |source| - lineStart, |queue| - queuePos
      {
        var token :- NextToken();
        if token.None? {
          assert tokens + [] == tokens;
          return Ok(tokens);
        }
        ghost var rest := Unread();
        assert rest.Ok? ==> tokens + ([token.value] + rest.value) == tokens + [token.value] + rest.value;
        tokens := tokens + [token.value];
        if token.value.kind.Eof? {
          assert tokens + [] == tokens;
          return Ok(tokens);
        }
      }
    }
  }
}
