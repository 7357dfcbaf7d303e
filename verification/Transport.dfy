/** The send path of the HTTP transport (transport.go): which bodies one payload
    turns into and what happens to the dictionary on each kind of reply. */
module Transport {
  import opened Text
  import opened Events
  import opened LineProtocol

  const MAX_DICTIONARY_SERIES: nat := 2048

  /** What came back for one request. */
  datatype Reply =
    | Success              // 2xx
    | NetworkError         // no response
    | TooLarge             // 413
    | UnknownDictionary    // 409 with code unknown_series_dictionary
    | OtherStatus

  datatype Phase = Idle | Waiting(payload: Payload, resync: bool)

  /** The transport between two network events. */
  datatype Sender = Sender(dict: Option<Dict>, phase: Phase)

  function FreshDict(nano: nat): Dict
  {
    Dict(Decimal(nano), 0, [])
  }

  function Ensure(dict: Option<Dict>, nano: nat): Dict
  {
    match dict
    case None => FreshDict(nano)
    case Some(d) => if |d.series| >= MAX_DICTIONARY_SERIES then FreshDict(nano) else d
  }

  /** First request of a send: the sender afterwards and the body. */
  function Begin(s: Sender, p: Payload, fmt: FloatPrinter, nano: nat): (Sender, string)
  {
    var d := Ensure(s.dict, nano);
    (Sender(Some(Grow(d, p, fmt)), Waiting(p, false)), Body(d, p, false, fmt))
  }

  /** A reply: the sender afterwards and the body of a follow-up request, if any. */
  function Answer(s: Sender, reply: Reply, fmt: FloatPrinter, nano: nat): (Sender, Option<string>)
    requires s.phase.Waiting?
  {
    if reply == TooLarge then (Sender(Some(FreshDict(nano)), Idle), None)
    else if reply == UnknownDictionary && !s.phase.resync then
      var d, p := FreshDict(nano), s.phase.payload;
      (Sender(Some(Grow(d, p, fmt)), Waiting(p, true)), Some(Body(d, p, false, fmt)))
    else (Sender(s.dict, Idle), None)
  }

  /** A body of a non-empty payload is never empty. */
  lemma BodyNotEmpty(d: Dict, p: Payload, fmt: FloatPrinter)
    requires !p.Empty()
    ensures Body(d, p, false, fmt) != ""
  {
    hide Grow, DefinitionLines, EventLines, HeaderText;
    var lines := BodyLines(d, p, false, fmt);
    assert lines != [];
  }

  class HTTPTransport {
    var dict: DictionaryState?

    ghost predicate Valid()
      reads this, dict
    {
      dict != null ==> dict.Valid()
    }

    ghost function View(): Option<Dict>
      reads this, dict
    {
      if dict == null then None else Some(dict.View())
    }

    constructor ()
      ensures Valid() && View() == None
    {
      dict := null;
    }

    method ResetDictionary(nano: nat)
      modifies this
      ensures Valid() && dict != null && fresh(dict)
      ensures View() == Some(FreshDict(nano))
    {
      dict := new DictionaryState(nano);
    }

    method EnsureDictionary(nano: nat)
      requires Valid()
      modifies this
      ensures Valid() && dict != null && (dict == old(dict) || fresh(dict))
      ensures View() == Some(Ensure(old(View()), nano))
    {
      if dict == null || |dict.series| >= MAX_DICTIONARY_SERIES {
        ResetDictionary(nano);
      }
    }

    /** One Send. `first` and `second` are the replies the network gives to the
        first and to the follow-up request; `nanos` are the clock readings that
        name new sessions. */
    method Send(p: Payload, fmt: FloatPrinter, first: Reply, second: Reply, nanos: (nat, nat, nat))
      returns (requests: seq<string>, ok: bool)
      requires Valid()
      modifies this, dict
      ensures Valid()
      ensures p.Empty() ==> View() == old(View()) && requests == [] && ok
      ensures !p.Empty() ==>
                var (s1, body) := Begin(Sender(old(View()), Idle), p, fmt, nanos.0);
                var (s2, followUp) := Answer(s1, first, fmt, nanos.1);
                match followUp
                case None => View() == s2.dict && requests == [body] && (ok <==> first == Success)
                case Some(again) =>
                  && View() == Answer(s2, second, fmt, nanos.2).0.dict
                  && Answer(s2, second, fmt, nanos.2).1 == None
                  && requests == [body, again] && (ok <==> second == Success)
    {
      hide Body, Grow, BodyLines, Format;
      if p.Empty() { return [], true; }
      EnsureDictionary(nanos.0);
      BodyNotEmpty(dict.View(), p, fmt);
      var body := dict.Encode(p, false, fmt);
      requests := [body];
      if first == Success { return requests, true; }
      if first == TooLarge {
        ResetDictionary(nanos.1);
        return requests, false;
      }
      if first == UnknownDictionary {
        ResetDictionary(nanos.1);
        BodyNotEmpty(dict.View(), p, fmt);
        var again := dict.Encode(p, false, fmt);
        requests := requests + [again];
        if second == TooLarge {
          ResetDictionary(nanos.2);
        }
        return requests, second == Success;
      }
      return requests, false;
    }
  }

  /** Sessions change for three reasons only: a missing or full dictionary before a
      request, a 413 on any request, and a 409 on the first request. Every other reply,
      lost requests and a 409 on the follow-up included, leaves the grown dictionary as
      it is. */
  lemma SessionChanges(s: Sender, p: Payload, fmt: FloatPrinter, first: Reply, second: Reply, nanos: (nat, nat, nat))
    requires s.dict.Some? ==> s.dict.value.session !in {Decimal(nanos.0), Decimal(nanos.1)}
    requires nanos.0 != nanos.1 && nanos.1 != nanos.2
    ensures var s1 := Begin(s, p, fmt, nanos.0).0;
            && (s.dict.Some? ==>
                  (s1.dict.value.session == s.dict.value.session <==> |s.dict.value.series| < MAX_DICTIONARY_SERIES))
            && (s.dict.None? ==> s1.dict.value.session == Decimal(nanos.0))
            && var s2 := Answer(s1, first, fmt, nanos.1).0;
               (s2.dict.value.session != s1.dict.value.session <==> first == TooLarge || first == UnknownDictionary)
               && (s2.dict.value.session == s1.dict.value.session ==> s2.dict == s1.dict)
               && (first == TooLarge ==> s2.dict.value.series == [] && s2.dict.value.revision == 0)
               && (s2.phase == Waiting(p, true) <==> first == UnknownDictionary)
               && (s2.phase == Idle <==> first != UnknownDictionary)
    ensures first == UnknownDictionary ==>
              var s2 := Answer(Begin(s, p, fmt, nanos.0).0, first, fmt, nanos.1).0;
              var (s3, again) := Answer(s2, second, fmt, nanos.2);
              && (s3.dict.value.session != s2.dict.value.session <==> second == TooLarge)
              && (second != TooLarge ==> s3.dict == s2.dict)
              && (second == TooLarge ==> s3.dict.value.series == [] && s3.dict.value.revision == 0)
              && s3.phase == Idle && again == None
  {
    hide Samples, LearnAll, Format, Body;
    if Decimal(nanos.0) == Decimal(nanos.1) { FormatInjective(nanos.0, nanos.1, 10); }
    if Decimal(nanos.1) == Decimal(nanos.2) { FormatInjective(nanos.1, nanos.2, 10); }
  }

  /** The cap is checked before encoding, so at every point of a send the dictionary
      outgrows it by at most the events of one payload. */
  lemma DictionaryBound(s: Sender, p: Payload, fmt: FloatPrinter, first: Reply, second: Reply, nanos: (nat, nat, nat))
    ensures var s1 := Begin(s, p, fmt, nanos.0).0;
            var s2 := Answer(s1, first, fmt, nanos.1).0;
            && |s1.dict.value.series| <= MAX_DICTIONARY_SERIES - 1 + |Samples(p, fmt)|
            && |s2.dict.value.series| <= MAX_DICTIONARY_SERIES - 1 + |Samples(p, fmt)|
            && (s2.phase.Waiting? ==>
                  |Answer(s2, second, fmt, nanos.2).0.dict.value.series| <= MAX_DICTIONARY_SERIES - 1 + |Samples(p, fmt)|)
  {
    hide Samples, LearnAll, Format;
    LearnAllFacts(Ensure(s.dict, nanos.0).series, Samples(p, fmt));
    LearnAllFacts([], Samples(p, fmt));
  }

  /** A revision is never larger than the number of series behind it. */
  lemma RevisionBound(d: Dict, p: Payload, fmt: FloatPrinter)
    requires d.revision <= |d.series|
    ensures Grow(d, p, fmt).revision <= |Grow(d, p, fmt).series|
    ensures Grow(d, p, fmt).revision == d.revision + 1 <==> Grow(d, p, fmt).series != d.series
  {
    hide Samples, LearnAll;
    LearnAllFacts(d.series, Samples(p, fmt));
  }
}

/** The receiving side, which is not in the repository: the assumed environment.
    One book per session; an unknown session is an empty book at revision 0. */
module Receiver {
  import opened LineParser

  datatype Book = Book(revision: nat, table: Table)

  type Books = map<string, Book>

  function BookOf(books: Books, session: string): Book
  {
    if session in books then books[session] else Book(0, map[])
  }

  /** Same revision and nothing new, or the next revision with definitions;
      anything else is answered 409 unknown_series_dictionary. */
  predicate Accepts(book: Book, m: Message)
  {
    || (m.revision == book.revision && m.definitions == [])
    || (m.revision == book.revision + 1 && m.definitions != [])
  }

  function Learned(book: Book, m: Message): Book
  {
    Book(m.revision, Extend(book.table, m.definitions))
  }
}
