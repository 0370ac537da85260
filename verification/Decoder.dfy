/** Decoding straight from a live event parser: one value at a time, and document by document. */
module Decoder {
  import opened Prelude
  import opened Syntax
  import opened Events
  import opened Values
  import opened Decoding
  import MI = MachineInvariant
  import EP = EventParser
  import Machine

  /** The whole run a parser is in the middle of: all its events, and the error it will end with. */
  ghost function AllEvents(parser: EP.EventParser): (events: seq<Event<string>>)
    reads parser
    requires parser.Consistent() && MI.Valid(parser.tokens, parser.State())
    ensures parser.delivered <= events
  {
    MI.FinalLogs(parser.Gr(), parser.State());
    MI.Final(parser.Gr(), parser.State()).0.log
  }

  ghost function EndError(parser: EP.EventParser): Option<ErrorKind>
    reads parser
    requires parser.Consistent() && MI.Valid(parser.tokens, parser.State())
  {
    MI.Final(parser.Gr(), parser.State()).1
  }

  /** Pulling an event hands out the next of the run, or reports its end. */
  method Pull(parser: EP.EventParser) returns (r: Result<Option<Event<string>>, ErrorKind>)
    requires parser.Consistent() && MI.Valid(parser.tokens, parser.State())
    modifies parser
    ensures r.Ok? ==>
      && parser.Consistent() && MI.Valid(parser.tokens, parser.State())
      && AllEvents(parser) == old(AllEvents(parser)) && EndError(parser) == old(EndError(parser))
    ensures r.Ok? && r.value.Some? ==>
      && |old(parser.delivered)| < |AllEvents(parser)| && r.value.value == AllEvents(parser)[|old(parser.delivered)|]
      && |parser.delivered| == |old(parser.delivered)| + 1
    ensures r.Ok? && r.value.None? ==>
      |old(parser.delivered)| == |old(AllEvents(parser))| && old(EndError(parser)) == None
    ensures r.Err? ==> |old(parser.delivered)| == |old(AllEvents(parser))| && old(EndError(parser)) == Some(r.error)
  {
    hide MI.Valid;
    ghost var before := AllEvents(parser);
    r := parser.NextEvent();
    if r.Ok? {
      assert parser.delivered <= AllEvents(parser);
      if r.value.None? {
        assert parser.delivered + [] == parser.delivered;
      }
    }
  }

  class Deserializer {
    const parser: EP.EventParser
    var peeked: Option<Event<string>>

    ghost predicate Valid()
      reads this, parser
    {
      && parser.Consistent() && MI.Valid(parser.tokens, parser.State())
      && (peeked.Some? ==> parser.delivered != [] && peeked.value == parser.delivered[|parser.delivered| - 1])
    }

    /** The position of the next event to be decoded; one that is only peeked at is still to come. */
    ghost function At(): nat
      reads this, parser
      requires Valid()
    {
      |parser.delivered| - if peeked.Some? then 1 else 0
    }

    /** The same run is still going on. */
    twostate predicate SameRun()
      reads this, parser
      requires old(Valid())
    {
      Valid() && AllEvents(parser) == old(AllEvents(parser)) && EndError(parser) == old(EndError(parser))
    }

    constructor (parser: EP.EventParser)
      requires parser.Consistent() && MI.Valid(parser.tokens, parser.State())
      ensures this.parser == parser && peeked == None && Valid()
    {
      this.parser := parser;
      peeked := None;
    }

    method Peek() returns (r: Result<Event<string>, DecodeError>)
      requires Valid()
      modifies this, parser
      ensures r.Ok? ==> SameRun() && At() == old(At()) < |AllEvents(parser)| && r.value == AllEvents(parser)[At()]
      ensures r.Err? ==> old(At()) >= |old(AllEvents(parser))| && r.error == Stopped(old(EndError(parser)))
    {
      hide MI.Valid;
      if peeked.None? {
        var pulled := Pull(parser);
        if pulled.Err? {
          return Err(Failed(pulled.error));
        }
        if pulled.value.None? {
          return Err(EndOfEvents);
        }
        peeked := pulled.value;
        assert parser.delivered <= AllEvents(parser);
      }
      return Ok(peeked.value);
    }

    method Next() returns (r: Result<Event<string>, DecodeError>)
      requires Valid()
      modifies this, parser
      ensures r.Ok? ==>
        && SameRun() && old(At()) < |AllEvents(parser)| && r.value == AllEvents(parser)[old(At())]
        && At() == old(At()) + 1 && peeked == None
      ensures r.Err? ==> old(At()) >= |old(AllEvents(parser))| && r.error == Stopped(old(EndError(parser)))
    {
      hide MI.Valid;
      if peeked.Some? {
        var event := peeked.value;
        assert parser.delivered <= AllEvents(parser);
        peeked := None;
        return Ok(event);
      }
      var pulled := Pull(parser);
      if pulled.Err? {
        return Err(Failed(pulled.error));
      }
      if pulled.value.None? {
        return Err(EndOfEvents);
      }
      return Ok(pulled.value.value);
    }

    /** One value; afterwards the parser stands right behind its events, with none held back. */
    method DeserializeAny() returns (r: Result<Value, DecodeError>)
      requires Valid()
      modifies this, parser
      ensures match old(DecodeValue(AllEvents(parser), EndError(parser), At()))
        case Ok((value, end)) => r == Ok(value) && SameRun() && At() == end && peeked == None
        case Err(e) => r == Err(e)
      decreases |AllEvents(parser)| - At(), 0
    {
      hide MI.Valid;
      var event :- Next();
      match event {
        case Scalar(_, value, _, _) => return Ok(FromScalar(value));
        case SequenceStart(_) =>
          var items :- VisitSequence();
          var end := Next();
          assert end == Ok(SequenceEnd);
          return Ok(VSequence(items));
        case MappingStart(_) =>
          var entries :- VisitMapping();
          var end := Next();
          assert end == Ok(MappingEnd);
          return Ok(VMapping(entries));
        case Alias(_, _) => return Err(AliasUnsupported);
        case _ => return Err(NotAValue);
      }
    }

    /** Items as long as there are any; the end of the sequence is only peeked at. */
    method VisitSequence() returns (r: Result<seq<Value>, DecodeError>)
      requires Valid()
      modifies this, parser
      ensures match old(DecodeItems(AllEvents(parser), EndError(parser), At()))
        case Ok((items, end)) => r == Ok(items) && SameRun() && At() == end
        case Err(e) => r == Err(e)
      decreases |AllEvents(parser)| - At(), 1
    {
      hide MI.Valid, DecodeValue;
      var items: seq<Value> := [];
      ghost var all, error, start := AllEvents(parser), EndError(parser), At();
      AfterNone(DecodeItems(all, error, start));
      while true
        invariant Valid() && AllEvents(parser) == all && EndError(parser) == error && start <= At()
        invariant DecodeItems(all, error, start) == After(items, DecodeItems(all, error, At()))
        decreases |all| - At()
      {
        var event :- Peek();
        if event.SequenceEnd? {
          assert items + [] == items;
          return Ok(items);
        }
        ghost var rest := DecodeValue(all, error, At());
        var item :- DeserializeAny();
        AfterOne(items, item, DecodeItems(all, error, rest.value.1));
        items := items + [item];
      }
    }

    /** Keys and values in turn, as long as there is a key. */
    method VisitMapping() returns (r: Result<seq<(Value, Value)>, DecodeError>)
      requires Valid()
      modifies this, parser
      ensures match old(DecodeEntries(AllEvents(parser), EndError(parser), At()))
        case Ok((entries, end)) => r == Ok(entries) && SameRun() && At() == end
        case Err(e) => r == Err(e)
      decreases |AllEvents(parser)| - At(), 1
    {
      hide MI.Valid, DecodeValue;
      var entries: seq<(Value, Value)> := [];
      ghost var all, error, start := AllEvents(parser), EndError(parser), At();
      AfterNone(DecodeEntries(all, error, start));
      while true
        invariant Valid() && AllEvents(parser) == all && EndError(parser) == error && start <= At()
        invariant DecodeEntries(all, error, start) == After(entries, DecodeEntries(all, error, At()))
        decreases |all| - At()
      {
        var event :- Peek();
        if event.MappingEnd? {
          assert entries + [] == entries;
          return Ok(entries);
        }
        ghost var first := DecodeValue(all, error, At());
        var key :- DeserializeAny();
        ghost var second := DecodeValue(all, error, At());
        var value :- DeserializeAny();
        AfterOne(entries, (key, value), DecodeEntries(all, error, second.value.1));
        entries := entries + [(key, value)];
      }
    }
  }

  /** The documents of a stream, decoded one by one; after an error there are no more. */
  class Documents {
    const parser: EP.EventParser
    var streamStarted: bool
    var finished: bool

    ghost predicate Valid()
      reads this, parser
    {
      !finished ==>
        && parser.Consistent() && MI.Valid(parser.tokens, parser.State())
        && (!streamStarted ==> parser.delivered == [])
    }

    /** What iterating from here on yields. */
    ghost function Remaining(): seq<Decoded>
      reads this, parser
      requires Valid()
    {
      if finished then []
      else if !streamStarted then DecodeStream(AllEvents(parser), EndError(parser))
      else DecodeDocuments(AllEvents(parser), EndError(parser), |parser.delivered|)
    }

    constructor (cfg: Config, tokens: seq<Token>)
      ensures Valid() && fresh(parser) && !finished && !streamStarted
      ensures parser.cfg == cfg && parser.tokens == tokens && parser.State() == Machine.InitialMachine(cfg)
    {
      parser := new EP.EventParser(cfg, tokens);
      streamStarted, finished := false, false;
    }

    method EnsureStreamStarted() returns (r: Result<(), DecodeError>)
      requires Valid() && !finished
      modifies this, parser
      ensures r.Ok? ==> Valid() && !finished && streamStarted && Remaining() == old(Remaining())
      ensures r.Err? ==> old(Remaining()) == [Err(r.error)]
    {
      hide MI.Valid, DecodeDocuments;
      if streamStarted {
        return Ok(());
      }
      var pulled := Pull(parser);
      if pulled.Err? {
        return Err(Failed(pulled.error));
      }
      if pulled.value.None? || !pulled.value.value.StreamStart? {
        return Err(NoStreamStart);
      }
      streamStarted := true;
      return Ok(());
    }

    /** The next document's value, the error that ends the iteration, or nothing. */
    method NextDocument() returns (r: Option<Decoded>)
      requires Valid()
      modifies this, parser
      ensures Valid()
      ensures if old(Remaining()) == [] then r == None && finished
              else r == Some(old(Remaining())[0]) && Remaining() == old(Remaining())[1..]
    {
      hide MI.Valid, DecodeValue, DecodeDocuments, DecodeStream;
      if finished {
        return None;
      }
      var started := EnsureStreamStarted();
      if started.Err? {
        finished := true;
        return Some(Err(started.error));
      }
      ghost var all, error, at := AllEvents(parser), EndError(parser), |parser.delivered|;
      var pulled := Pull(parser);
      if pulled.Err? || pulled.value.None? || !pulled.value.value.DocumentStart? {
        NoDocument(all, error, at);
        finished := true;
        return if pulled.Err? then Some(Err(Failed(pulled.error)))
               else if pulled.value.None? || pulled.value.value.StreamEnd? then None
               else Some(Err(NoDocumentStart));
      }
      OneDocument(all, error, at);
      var value := DecodeDocument();
      if value.Err? {
        finished := true;
      }
      return Some(value);
    }

    /** The value and the end of the document whose start has been pulled. */
    method DecodeDocument() returns (r: Decoded)
      requires Valid() && !finished && streamStarted
      modifies parser
      ensures var value := old(DecodeValue(AllEvents(parser), EndError(parser), |parser.delivered|));
        if value.Err? then r == Err(value.error)
        else if value.value.1 >= |old(AllEvents(parser))| then r == Err(Stopped(old(EndError(parser))))
        else if !old(AllEvents(parser))[value.value.1].DocumentEnd? then r == Err(NoDocumentEnd)
        else r == Ok(value.value.0) && Valid() && |parser.delivered| == value.value.1 + 1
             && AllEvents(parser) == old(AllEvents(parser)) && EndError(parser) == old(EndError(parser))
    {
      hide MI.Valid, DecodeValue;
      var deserializer := new Deserializer(parser);
      var value :- deserializer.DeserializeAny();
      var pulled := Pull(parser);
      if pulled.Err? {
        return Err(Failed(pulled.error));
      }
      if pulled.value.None? {
        return Err(EndOfEvents);
      }
      if !pulled.value.value.DocumentEnd? {
        return Err(NoDocumentEnd);
      }
      return Ok(value);
    }

    /** Iterates to the end. */
    method Collect() returns (items: seq<Decoded>)
      requires Valid()
      modifies this, parser
      ensures items == old(Remaining())
    {
      hide MI.Valid, Remaining;
      items := [];
      assert [] + Remaining() == Remaining();
      while true
        invariant Valid() && items + Remaining() == old(Remaining())
        decreases |Remaining()|
      {
        ghost var before := Remaining();
        var item := NextDocument();
        if item.None? {
          assert before == [];
          return items;
        }
        assert before == [item.value] + Remaining();
        assert items + before == items + [item.value] + Remaining();
        items := items + [item.value];
      }
    }
  }

  function After<T>(front: seq<T>, rest: Result<(seq<T>, nat), DecodeError>): Result<(seq<T>, nat), DecodeError> {
    var (items, end) :- rest;
    Ok((front + items, end))
  }

  lemma AfterNone<T>(rest: Result<(seq<T>, nat), DecodeError>)
    ensures After([], rest) == rest
  {
    assert rest.Ok? ==> [] + rest.value.0 == rest.value.0;
  }

  lemma AfterOne<T>(front: seq<T>, item: T, rest: Result<(seq<T>, nat), DecodeError>)
    ensures After(front, After([item], rest)) == After(front + [item], rest)
  {
    assert rest.Ok? ==> front + ([item] + rest.value.0) == front + [item] + rest.value.0;
  }
}
