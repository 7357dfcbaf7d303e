/** Sender, network and receiver together. The network may lose, delay, repeat and
    reorder bodies and may report any outcome for any request; the receiver may
    forget any session at any time. */
module DictionaryProtocol {
  import opened Text
  import opened Events
  import opened LineProtocol
  import opened LineParser
  import opened Transport
  import opened Receiver

  /** A body on the network, remembered with the payload it was made for. */
  datatype Packet = Packet(body: string, payload: Payload)

  /** An accepted body: the payload it was made for and what it was read as. */
  datatype Delivery = Delivery(payload: Payload, decoded: Option<seq<Sample>>)

  datatype State = State(
    clock: nat,                               // latest reading used as a session id
    sender: Sender,
    journal: map<string, seq<seq<Series>>>,   // per session, the series list at each revision
    network: set<Packet>,                     // every body ever sent
    books: Books,
    accepted: seq<Delivery>)

  datatype Step =
    | Request(payload: Payload, nano: nat)
    | Respond(reply: Reply, nano: nat)
    | Deliver(packet: Packet)
    | Forget(session: string)

  const Initial: State := State(0, Sender(None, Idle), map[], {}, map[], [])

  /* ---------- transitions ---------- */

  /** What the wire format and the series keys can carry without loss. */
  ghost predicate SafePayload(p: Payload, fmt: FloatPrinter)
  {
    WirePayload(p, fmt) && forall e | e in Samples(p, fmt) :: NulFree(e.series)
  }

  /** The same by the payload's own fields. */
  ghost predicate SafeFields(p: Payload)
  {
    && (forall s | s in PayloadSeries(p) :: WireSafe(s) && NulFree(s))
    && forall u | u in p.uniques :: PlainField(u.uniqueID)
  }

  lemma SafeByFields(p: Payload, fmt: FloatPrinter)
    ensures SafePayload(p, fmt) <==> SafeFields(p)
  {
    WireByFields(p, fmt);
    SampleFields(p, fmt);
    hide Samples, PayloadSeries, WirePayload, PlainField, WireSafe, NulFree;
    if SafePayload(p, fmt) {
      forall s | s in PayloadSeries(p) ensures NulFree(s) { var e :| e in Samples(p, fmt) && e.series == s; }
    }
    if SafeFields(p) {
      forall e | e in Samples(p, fmt) ensures NulFree(e.series) { assert e.series in PayloadSeries(p); }
    }
  }

  ghost predicate SafeDict(d: Dict)
  {
    WireDict(d) && forall s | s in d.series :: NulFree(s)
  }

  lemma GrowKeepsSafe(d: Dict, p: Payload, fmt: FloatPrinter)
    requires SafeDict(d) && SafePayload(p, fmt)
    ensures SafeDict(Grow(d, p, fmt))
  {
    hide SeriesKey, Lookup, WireDict, WirePayload, NulFree, Samples;
    GrowKeepsWire(d, p, fmt);
    LearnAllFacts(d.series, Samples(p, fmt));
  }

  /** Clock readings that name sessions never repeat; payload fields are the ones
      the format can carry. */
  ghost predicate Enabled(st: State, step: Step, fmt: FloatPrinter)
  {
    match step
    case Request(p, nano) => st.sender.phase.Idle? && nano > st.clock && !p.Empty() && SafePayload(p, fmt)
    case Respond(_, nano) => st.sender.phase.Waiting? && nano > st.clock
    case Deliver(packet) => packet in st.network
    case Forget(_) => true
  }

  function Opened(journal: map<string, seq<seq<Series>>>, session: string): map<string, seq<seq<Series>>>
  {
    if session in journal then journal else journal[session := [[]]]
  }

  function Recorded(journal: map<string, seq<seq<Series>>>, d: Dict, after: Dict): map<string, seq<seq<Series>>>
  {
    var base := Opened(journal, d.session);
    if after.series == d.series then base
    else base[d.session := base[d.session] + [after.series]]
  }

  function Next(st: State, step: Step, fmt: FloatPrinter): State
    requires step.Respond? ==> st.sender.phase.Waiting?
  {
    match step
    case Request(p, nano) =>
      var d := Ensure(st.sender.dict, nano);
      var (sender, body) := Begin(st.sender, p, fmt, nano);
      st.(clock := nano, sender := sender,
          journal := Recorded(st.journal, d, Grow(d, p, fmt)),
          network := st.network + {Packet(body, p)})
    case Respond(reply, nano) =>
      var (sender, body) := Answer(st.sender, reply, fmt, nano);
      var p := st.sender.phase.payload;
      if body.Some? then
        st.(clock := nano, sender := sender,
            journal := Recorded(st.journal, FreshDict(nano), Grow(FreshDict(nano), p, fmt)),
            network := st.network + {Packet(body.value, p)})
      else if reply == TooLarge then
        st.(clock := nano, sender := sender, journal := Opened(st.journal, Decimal(nano)))
      else
        st.(clock := nano, sender := sender)
    case Deliver(packet) =>
      (match ParseBody(packet.body)
       case None => st
       case Some(m) =>
         var book := BookOf(st.books, m.session);
         if Accepts(book, m) then
           var learned := Learned(book, m);
           st.(books := st.books[m.session := learned],
               accepted := st.accepted + [Delivery(packet.payload, Resolve(learned.table, m.events))])
         else st)
    case Forget(session) => st.(books := st.books - {session})
  }

  /* ---------- the invariant ---------- */

  ghost predicate Consistent(h: seq<seq<Series>>)
  {
    && h != [] && h[0] == []
    && (forall r | 0 <= r < |h| :: DistinctKeys(h[r]) && forall s | s in h[r] :: WireSafe(s) && NulFree(s))
    && (forall q, r | 0 <= q < r < |h| :: h[q] < h[r])
  }

  ghost predicate JournalOk(st: State)
  {
    && (forall s | s in st.journal :: Consistent(st.journal[s]) && PlainField(s))
    && (forall n | n > st.clock :: Decimal(n) !in st.journal)
  }

  /** The sender's dictionary is the last journal entry of its session. */
  ghost predicate SenderOk(st: State, fmt: FloatPrinter)
  {
    && (st.sender.dict.Some? ==>
          var d := st.sender.dict.value;
          && d.session in st.journal
          && d.revision == |st.journal[d.session]| - 1
          && d.series == st.journal[d.session][d.revision])
    && (st.sender.phase.Waiting? ==> !st.sender.phase.payload.Empty() && SafePayload(st.sender.phase.payload, fmt))
  }

  /** A message carries exactly what the journal gained at its revision. */
  ghost predicate Faithful(m: Message, p: Payload, h: seq<seq<Series>>, fmt: FloatPrinter)
  {
    && m.revision < |h|
    && (m.definitions == []
        || (m.revision > 0 && |h[m.revision - 1]| <= |h[m.revision]|
            && m.definitions == DefinitionPairs(h[m.revision], |h[m.revision - 1]|)))
    && m.events == WireEvents(Samples(p, fmt), h[m.revision])
    && (forall e | e in Samples(p, fmt) :: Finds(h[m.revision], e.series))
  }

  ghost predicate PacketOk(packet: Packet, journal: map<string, seq<seq<Series>>>, fmt: FloatPrinter)
  {
    match ParseBody(packet.body)
    case None => false
    case Some(m) => m.session in journal && Faithful(m, packet.payload, journal[m.session], fmt)
  }

  /** The receiver's table at revision r is the sender's series list at revision r. */
  ghost predicate Mirrors(book: Book, h: seq<seq<Series>>)
  {
    && book.revision < |h|
    && (forall i: nat :: i in book.table <==> i < |h[book.revision]|)
    && Agrees(book.table, h[book.revision], |h[book.revision]|)
  }

  ghost predicate BooksOk(st: State)
  {
    forall s | s in st.books :: s in st.journal && Mirrors(st.books[s], st.journal[s])
  }

  ghost predicate AcceptedOk(st: State, fmt: FloatPrinter)
  {
    forall k | 0 <= k < |st.accepted| ::
      st.accepted[k].decoded == Some(Samples(st.accepted[k].payload, fmt))
  }

  ghost predicate NetworkOk(st: State, fmt: FloatPrinter)
  {
    forall packet | packet in st.network :: PacketOk(packet, st.journal, fmt)
  }

  ghost predicate Inv(st: State, fmt: FloatPrinter)
  {
    && JournalOk(st) && SenderOk(st, fmt)
    && NetworkOk(st, fmt)
    && BooksOk(st) && AcceptedOk(st, fmt)
  }

  /* ---------- every step keeps it ---------- */

  /** The dictionary about to encode: the session's last journal entry, or brand new. */
  ghost predicate Current(d: Dict, journal: map<string, seq<seq<Series>>>)
  {
    if d.session in journal then
      var h := journal[d.session];
      h != [] && d.revision == |h| - 1 && d.series == h[|h| - 1]
    else d.revision == 0 && d.series == []
  }

  ghost predicate Grew(was: map<string, seq<seq<Series>>>, now: map<string, seq<seq<Series>>>)
  {
    forall s | s in was :: s in now && was[s] <= now[s]
  }

  lemma ConsistentSnoc(h: seq<seq<Series>>, series: seq<Series>)
    requires Consistent(h) && h[|h| - 1] < series
    requires DistinctKeys(series) && forall s | s in series :: WireSafe(s) && NulFree(s)
    ensures Consistent(h + [series])
  {
    hide WireSafe, NulFree, DistinctKeys;
    var more := h + [series];
    forall q, r | 0 <= q < r < |more| ensures more[q] < more[r] {
      if r == |h| && q < |h| - 1 { assert h[q] < h[|h| - 1]; }
    }
  }

  lemma RecordedFacts(journal: map<string, seq<seq<Series>>>, d: Dict, p: Payload, fmt: FloatPrinter)
    requires forall s | s in journal :: Consistent(journal[s]) && PlainField(s)
    requires Current(d, journal) && PlainField(d.session) && SafePayload(p, fmt)
    ensures SafeDict(d) && SafeDict(Grow(d, p, fmt))
    ensures var after, now := Grow(d, p, fmt), Recorded(journal, d, Grow(d, p, fmt));
            && Grew(journal, now) && now.Keys == journal.Keys + {d.session}
            && (forall s | s in now :: Consistent(now[s]) && PlainField(s))
            && after.session in now
            && after.revision == |now[after.session]| - 1
            && after.series == now[after.session][after.revision]
            && (after.series != d.series ==> after.revision > 0 && now[after.session][after.revision - 1] == d.series)
  {
    hide WireSafe, NulFree, PlainField, SafePayload, Samples, LearnAll, DistinctKeys;
    LearnAllFacts(d.series, Samples(p, fmt));
    assert SafeDict(d) by {
      assert Consistent([[]]) by { EmptyDistinct(); }
      if d.session in journal { assert d.series == journal[d.session][|journal[d.session]| - 1]; }
      else { EmptyDistinct(); }
    }
    GrowKeepsSafe(d, p, fmt);
    var base, after := Opened(journal, d.session), Grow(d, p, fmt);
    assert Consistent(base[d.session]) by { EmptyDistinct(); }
    assert d.series == base[d.session][|base[d.session]| - 1];
    if after.series != d.series {
      assert d.series < after.series;
      ConsistentSnoc(base[d.session], after.series);
    }
  }

  lemma EmptyDistinct()
    ensures DistinctKeys([])
  {
  }

  lemma PacketStays(packet: Packet, was: map<string, seq<seq<Series>>>, now: map<string, seq<seq<Series>>>,
                    fmt: FloatPrinter)
    requires PacketOk(packet, was, fmt) && Grew(was, now)
    ensures PacketOk(packet, now, fmt)
  {
    hide ParseBody, NulFree, Known, Samples, Agrees;
    var m := ParseBody(packet.body).value;
    assert was[m.session] <= now[m.session];
  }

  lemma MirrorsStays(book: Book, h: seq<seq<Series>>, more: seq<seq<Series>>)
    requires Mirrors(book, h) && h <= more
    ensures Mirrors(book, more)
  {
    assert more[book.revision] == h[book.revision];
  }

  lemma SentIsFaithful(d: Dict, p: Payload, h: seq<seq<Series>>, fmt: FloatPrinter)
    requires SafeDict(d) && SafePayload(p, fmt)
    requires var after := Grow(d, p, fmt);
             && after.revision < |h| && h[after.revision] == after.series
             && (after.series != d.series ==> after.revision > 0 && h[after.revision - 1] == d.series)
    ensures Faithful(Sent(d, p, false, fmt), p, h, fmt)
  {
    AllFound(d, p, fmt);
    hide SafePayload, SafeDict, Samples, LearnAll, Finds;
    LearnAllFacts(d.series, Samples(p, fmt));
  }

  /** The body just made says exactly what the journal gained. */
  lemma NewPacket(journal: map<string, seq<seq<Series>>>, d: Dict, p: Payload, fmt: FloatPrinter)
    requires forall s | s in journal :: Consistent(journal[s]) && PlainField(s)
    requires Current(d, journal) && PlainField(d.session) && SafePayload(p, fmt) && !p.Empty()
    ensures PacketOk(Packet(Body(d, p, false, fmt), p), Recorded(journal, d, Grow(d, p, fmt)), fmt)
  {
    RecordedFacts(journal, d, p, fmt);
    ParsedAsSent(d, p, false, fmt);
    hide PlainField, SafePayload, Samples, Grow, SafeDict, ParseBody, Body, Current, Consistent, Grew, Faithful, Recorded;
    SentIsFaithful(d, p, Recorded(journal, d, Grow(d, p, fmt))[d.session], fmt);
  }

  lemma AllFound(d: Dict, p: Payload, fmt: FloatPrinter)
    requires SafeDict(d) && SafePayload(p, fmt)
    ensures KeysTellApart(d.series, Samples(p, fmt))
    ensures forall e | e in Samples(p, fmt) :: Finds(Grow(d, p, fmt).series, e.series)
  {
    hide WireSafe, NulFree, Samples, LearnAll, Finds, KeysTellApart, WirePayload, DistinctKeys;
    NulFreeTellsApart(d.series, Samples(p, fmt));
    FindsIffTellsApart(d.series, Samples(p, fmt));
  }

  lemma SessionsStayFresh(clock: nat, journal: map<string, seq<seq<Series>>>, nano: nat, session: string)
    requires nano > clock && forall n | n > clock :: Decimal(n) !in journal
    requires session in journal || session == Decimal(nano)
    ensures forall n | n > nano :: Decimal(n) !in journal.Keys + {session}
  {
    forall n | n > nano ensures Decimal(n) !in journal.Keys + {session} {
      if Decimal(n) == Decimal(nano) { FormatInjective(n, nano, 10); }
    }
  }

  lemma BooksStay(books: Books, was: map<string, seq<seq<Series>>>, now: map<string, seq<seq<Series>>>)
    requires forall s | s in books :: s in was && Mirrors(books[s], was[s])
    requires Grew(was, now)
    ensures forall s | s in books :: s in now && Mirrors(books[s], now[s])
  {
    forall s | s in books ensures s in now && Mirrors(books[s], now[s]) {
      MirrorsStays(books[s], was[s], now[s]);
    }
  }

  /** The state after handing the body of a first or follow-up request to the network. */
  function Encoded(st: State, d: Dict, p: Payload, nano: nat, resync: bool, fmt: FloatPrinter): State
  {
    st.(clock := nano, sender := Sender(Some(Grow(d, p, fmt)), Waiting(p, resync)),
        journal := Recorded(st.journal, d, Grow(d, p, fmt)),
        network := st.network + {Packet(Body(d, p, false, fmt), p)})
  }

  lemma EncodedJournalAndSender(st: State, d: Dict, p: Payload, nano: nat, resync: bool, fmt: FloatPrinter)
    requires JournalOk(st) && SafePayload(p, fmt) && !p.Empty() && nano > st.clock
    requires Current(d, st.journal) && (d.session in st.journal || d.session == Decimal(nano))
    ensures PlainField(d.session)
    ensures JournalOk(Encoded(st, d, p, nano, resync, fmt)) && SenderOk(Encoded(st, d, p, nano, resync, fmt), fmt)
    ensures Grew(st.journal, Encoded(st, d, p, nano, resync, fmt).journal)
  {
    assert PlainField(d.session);
    hide PlainField, SafePayload, Samples, Body, Format, Decimal, Grow, Consistent, Recorded, Current, SafeDict, Grew;
    RecordedFacts(st.journal, d, p, fmt);
    SessionsStayFresh(st.clock, st.journal, nano, d.session);
  }

  /** A first or follow-up request keeps the invariant. */
  lemma EncodeKeepsInv(st: State, d: Dict, p: Payload, nano: nat, resync: bool, fmt: FloatPrinter)
    requires Inv(st, fmt) && SafePayload(p, fmt) && !p.Empty() && nano > st.clock
    requires Current(d, st.journal) && (d.session in st.journal || d.session == Decimal(nano))
    ensures Inv(Encoded(st, d, p, nano, resync, fmt), fmt)
  {
    EncodedJournalAndSender(st, d, p, nano, resync, fmt);
    EncodedNetwork(st, d, p, nano, resync, fmt);
    assert AcceptedOk(Encoded(st, d, p, nano, resync, fmt), fmt);
    hide AcceptedOk, NetworkOk, JournalOk, SenderOk, Mirrors, Grew, Recorded, Grow, Body;
    BooksStay(st.books, st.journal, Encoded(st, d, p, nano, resync, fmt).journal);
  }

  lemma EncodedNetwork(st: State, d: Dict, p: Payload, nano: nat, resync: bool, fmt: FloatPrinter)
    requires JournalOk(st) && NetworkOk(st, fmt) && PlainField(d.session) && SafePayload(p, fmt) && !p.Empty()
    requires Current(d, st.journal) && Grew(st.journal, Encoded(st, d, p, nano, resync, fmt).journal)
    ensures NetworkOk(Encoded(st, d, p, nano, resync, fmt), fmt)
  {
    assert forall s | s in st.journal :: Consistent(st.journal[s]) && PlainField(s);
    hide JournalOk, PlainField, SafePayload, Body, Grow, Consistent, PacketOk, Recorded, Current, Grew;
    NewPacket(st.journal, d, p, fmt);
    NetworkStays(st, Encoded(st, d, p, nano, resync, fmt).journal, fmt);
  }

  /** Starting an empty session keeps the invariant. */
  lemma ResetKeepsInv(st: State, nano: nat, fmt: FloatPrinter)
    requires Inv(st, fmt) && nano > st.clock
    ensures Inv(st.(clock := nano, sender := Sender(Some(FreshDict(nano)), Idle),
                    journal := Opened(st.journal, Decimal(nano))), fmt)
  {
    var now := Opened(st.journal, Decimal(nano));
    assert Grew(st.journal, now);
    ResetJournal(st, nano, fmt);
    NetworkStays(st, now, fmt);
    hide Mirrors, JournalOk, SenderOk, NetworkOk, Grew, FreshDict;
    BooksStay(st.books, st.journal, now);
  }

  lemma ResetJournal(st: State, nano: nat, fmt: FloatPrinter)
    requires JournalOk(st) && nano > st.clock
    ensures var st' := st.(clock := nano, sender := Sender(Some(FreshDict(nano)), Idle),
                           journal := Opened(st.journal, Decimal(nano)));
            JournalOk(st') && SenderOk(st', fmt)
  {
    assert PlainField(Decimal(nano));
    assert Consistent([[]]) by { EmptyDistinct(); }
    hide PlainField, Format, Decimal, Consistent;
    SessionsStayFresh(st.clock, st.journal, nano, Decimal(nano));
  }

  lemma NetworkStays(st: State, now: map<string, seq<seq<Series>>>, fmt: FloatPrinter)
    requires NetworkOk(st, fmt) && Grew(st.journal, now)
    ensures forall packet | packet in st.network :: PacketOk(packet, now, fmt)
  {
    hide PacketOk;
    forall packet | packet in st.network ensures PacketOk(packet, now, fmt) {
      PacketStays(packet, st.journal, now, fmt);
    }
  }

  /** A body the receiver accepts reads as its payload and leaves the book a mirror. */
  lemma AcceptedReadsRight(book: Book, m: Message, p: Payload, h: seq<seq<Series>>, fmt: FloatPrinter)
    requires Consistent(h) && Mirrors(book, h) && Faithful(m, p, h, fmt) && Accepts(book, m)
    ensures Mirrors(Learned(book, m), h)
    ensures Resolve(Learned(book, m).table, m.events) == Some(Samples(p, fmt))
  {
    hide WireSafe, NulFree, Samples, Finds, Extend, Resolve, DistinctKeys;
    if m.definitions == [] {
      assert Extend(book.table, []) == book.table by { ExtendNothing(book.table); }
    } else {
      ExtendAgrees(book.table, h[m.revision], |h[m.revision - 1]|);
    }
    ResolveSent(Learned(book, m).table, h[m.revision], Samples(p, fmt));
  }

  lemma ExtendNothing(table: Table)
    ensures Extend(table, []) == table
  {
  }

  lemma EmptyBookMirrors(h: seq<seq<Series>>)
    requires Consistent(h)
    ensures Mirrors(Book(0, map[]), h)
  {
  }

  lemma DeliverKeepsInv(st: State, packet: Packet, fmt: FloatPrinter)
    requires Inv(st, fmt) && packet in st.network
    ensures Inv(Next(st, Deliver(packet), fmt), fmt)
  {
    hide WireSafe, NulFree, Samples, ParseBody, Extend, Resolve, DistinctKeys, Format, Decimal;
    assert PacketOk(packet, st.journal, fmt);
    var m := ParseBody(packet.body).value;
    var book, h := BookOf(st.books, m.session), st.journal[m.session];
    if m.session !in st.books { EmptyBookMirrors(h); }
    assert Mirrors(book, h);
    if Accepts(book, m) {
      hide Mirrors, Faithful, Accepts, PacketOk, Consistent, SenderOk;
      AcceptedReadsRight(book, m, packet.payload, h, fmt);
    }
  }

  lemma StepKeepsInv(st: State, step: Step, fmt: FloatPrinter)
    requires Inv(st, fmt) && Enabled(st, step, fmt)
    ensures Inv(Next(st, step, fmt), fmt)
  {
    hide WireSafe, NulFree, PlainField, SafePayload, Samples, LearnAll, DistinctKeys, ParseBody, Body, Known,
         Format, Decimal, Grow, Mirrors, Consistent, PacketOk, Recorded, Opened;
    match step
    case Request(p, nano) => EncodeKeepsInv(st, Ensure(st.sender.dict, nano), p, nano, false, fmt);
    case Respond(reply, nano) =>
      if reply == TooLarge { ResetKeepsInv(st, nano, fmt); }
      else if reply == UnknownDictionary && !st.sender.phase.resync {
        EncodeKeepsInv(st, FreshDict(nano), st.sender.phase.payload, nano, true, fmt);
      }
    case Deliver(packet) => DeliverKeepsInv(st, packet, fmt);
    case Forget(session) =>
  }

  /* ---------- runs ---------- */

  ghost predicate Run(steps: seq<Step>, states: seq<State>, fmt: FloatPrinter)
  {
    && |states| == |steps| + 1 && states[0] == Initial
    && forall k | 0 <= k < |steps| ::
         Enabled(states[k], steps[k], fmt) && states[k + 1] == Next(states[k], steps[k], fmt)
  }

  lemma {:induction false} RunKeepsInv(steps: seq<Step>, states: seq<State>, fmt: FloatPrinter, k: nat)
    requires Run(steps, states, fmt) && k <= |steps|
    ensures Inv(states[k], fmt)
  {
    hide Inv, Enabled;
    if k == 0 {
      InitialInv(fmt);
    } else {
      RunKeepsInv(steps, states, fmt, k - 1);
      StepKeepsInv(states[k - 1], steps[k - 1], fmt);
    }
  }

  lemma InitialInv(fmt: FloatPrinter)
    ensures Inv(Initial, fmt)
  {
  }

  /** Safety: in every run, whatever is lost, repeated, delayed, forgotten or
      refused, each accepted body was read as exactly its payload's events. */
  lemma AcceptedMeansPayload(steps: seq<Step>, states: seq<State>, fmt: FloatPrinter, k: nat, d: nat)
    requires Run(steps, states, fmt) && k <= |steps| && d < |states[k].accepted|
    ensures states[k].accepted[d].decoded == Some(Samples(states[k].accepted[d].payload, fmt))
    ensures ReadAs(states[k].accepted[d].decoded, states[k].accepted[d].payload, fmt)
  {
    ReadsIsSamples(states[k].accepted[d].decoded, states[k].accepted[d].payload, fmt);
    hide Next, Enabled, Samples, Run, ReadAs;
    RunKeepsInv(steps, states, fmt, k);
  }

  /** In every run the receiver's table for a session holds, at revision r, exactly
      the series the sender's dictionary held when it reached revision r. */
  lemma ReceiverMirrorsSender(steps: seq<Step>, states: seq<State>, fmt: FloatPrinter, k: nat, session: string)
    requires Run(steps, states, fmt) && k <= |steps| && session in states[k].books
    ensures session in states[k].journal && Mirrors(states[k].books[session], states[k].journal[session])
    ensures var d := states[k].sender.dict;
            d.Some? && d.value.session == session ==>
              forall i | i in states[k].books[session].table ::
                i < |d.value.series| && states[k].books[session].table[i] == d.value.series[i]
  {
    var st := states[k];
    hide Next, Enabled, Samples, SafePayload, WireSafe, NulFree, DistinctKeys, Run;
    RunKeepsInv(steps, states, fmt, k);
    if st.sender.dict.Some? && st.sender.dict.value.session == session {
      var h, r := st.journal[session], st.books[session].revision;
      assert r < |h| - 1 ==> h[r] < h[|h| - 1];
    }
  }

  /* ---------- resynchronisation ---------- */

  /** The first request is accepted exactly when the receiver stands at the
      sender's revision. */
  lemma FirstRequestAccepted(s: Sender, p: Payload, fmt: FloatPrinter, nano: nat, books: Books)
    requires !p.Empty() && SafePayload(p, fmt)
    requires s.dict.Some? ==> SafeDict(s.dict.value)
    ensures var d := Ensure(s.dict, nano);
            var body := ParseBody(Begin(s, p, fmt, nano).1);
            body.Some? && body.value.session == d.session
            && (Accepts(BookOf(books, d.session), body.value) <==> BookOf(books, d.session).revision == d.revision)
  {
    var d := Ensure(s.dict, nano);
    EmptyDistinct();
    assert SafeDict(d);
    hide WireSafe, NulFree, SafePayload, Samples, LearnAll, DistinctKeys, ParseBody, Body, Format;
    ParsedAsSent(d, p, false, fmt);
    LearnAllFacts(d.series, Samples(p, fmt));
  }

  /** A receiver in this state accepts the body and reads it as exactly the payload. */
  ghost predicate Understood(books: Books, body: string, p: Payload, fmt: FloatPrinter)
  {
    match ParseBody(body)
    case None => false
    case Some(m) =>
      var book := BookOf(books, m.session);
      Accepts(book, m) && ReadAs(Resolve(Learned(book, m).table, m.events), p, fmt)
  }

  lemma FreshDictAccepted(p: Payload, fmt: FloatPrinter, nano: nat, books: Books)
    requires !p.Empty() && SafePayload(p, fmt) && Decimal(nano) !in books
    ensures var body := ParseBody(Body(FreshDict(nano), p, false, fmt));
            && body.Some? && body.value.session == Decimal(nano)
            && var book := BookOf(books, body.value.session);
               && Accepts(book, body.value)
               && Resolve(Learned(book, body.value).table, body.value.events) == Some(Samples(p, fmt))
  {
    var d := FreshDict(nano);
    EmptyDistinct();
    assert SafeDict(d);
    assert WirePayload(p, fmt);
    hide WireSafe, NulFree, SafePayload, Samples, LearnAll, DistinctKeys, ParseBody, Body, Format, Decimal, Resolve, Extend,
         KeysTellApart, WirePayload, Finds;
    ParsedAsSent(d, p, false, fmt);
    AllFound(d, p, fmt);
    SentResolves(d, p, false, fmt, map[]);
    SamplesNotEmpty(p, fmt);
    LearnAllFacts([], Samples(p, fmt));
    assert Sent(d, p, false, fmt).definitions != [];
  }

  lemma FreshDictUnderstood(p: Payload, fmt: FloatPrinter, nano: nat, books: Books)
    requires !p.Empty() && SafePayload(p, fmt) && Decimal(nano) !in books
    ensures Understood(books, Body(FreshDict(nano), p, false, fmt), p, fmt)
  {
    FreshDictAccepted(p, fmt, nano, books);
    ReadsIsSamples(Some(Samples(p, fmt)), p, fmt);
    hide SafePayload, Samples, ParseBody, Body, Decimal, Resolve, Accepts, Learned, ReadAs, FreshDict;
  }

  /** After a 409 the follow-up request is accepted and understood by a receiver in
      any state whatever, as long as the new session is unknown to it. */
  lemma ResyncSucceeds(s: Sender, p: Payload, fmt: FloatPrinter, nano: nat, books: Books)
    requires s.phase == Waiting(p, false) && !p.Empty() && SafePayload(p, fmt)
    requires Decimal(nano) !in books
    ensures var body := Answer(s, UnknownDictionary, fmt, nano).1;
            body.Some? && Understood(books, body.value, p, fmt)
  {
    hide Understood, SafePayload, Body, Grow, Decimal;
    FreshDictUnderstood(p, fmt, nano, books);
  }

  /** A body with forced definitions is accepted exactly one revision behind the one it
      carries: with no new series, a receiver in step with the sender refuses it. */
  lemma ForcedBodyAccepted(d: Dict, p: Payload, fmt: FloatPrinter, book: Book)
    requires !p.Empty() && SafeDict(d) && SafePayload(p, fmt)
    ensures var body := ParseBody(Body(d, p, true, fmt));
            body.Some? && (Accepts(book, body.value) <==> book.revision + 1 == Grow(d, p, fmt).revision)
    ensures Grow(d, p, fmt).series == d.series && book.revision == d.revision ==>
              !Accepts(book, ParseBody(Body(d, p, true, fmt)).value)
  {
    assert WirePayload(p, fmt);
    hide WireSafe, NulFree, SafePayload, Samples, LearnAll, DistinctKeys, ParseBody, Body, WirePayload;
    ParsedAsSent(d, p, true, fmt);
    SamplesNotEmpty(p, fmt);
    LearnAllFacts(d.series, Samples(p, fmt));
    assert Known(Grow(d, p, fmt).series, Samples(p, fmt)[0].series);
  }

  /** No pair of replies makes one send issue a third request. */
  lemma AtMostTwoRequests(s: Sender, p: Payload, fmt: FloatPrinter, first: Reply, second: Reply, nanos: (nat, nat, nat))
    ensures var s1 := Begin(s, p, fmt, nanos.0).0;
            var s2 := Answer(s1, first, fmt, nanos.1).0;
            s2.phase.Waiting? ==>
              Answer(s2, second, fmt, nanos.2).1 == None && Answer(s2, second, fmt, nanos.2).0.phase.Idle?
  {
  }

  /** One whole send against the receiver: request, delivery, the receiver's verdict as
      reply, and after a 409 the follow-up request, delivery and reply. */
  function Exchange(p: Payload, st: State, fmt: FloatPrinter, nanos: (nat, nat, nat)): seq<Step>
    requires st.sender.phase.Idle?
  {
    var first := Request(p, nanos.0);
    var s1 := Next(st, first, fmt);
    var deliver := Deliver(Packet(Begin(st.sender, p, fmt, nanos.0).1, p));
    var s2 := Next(s1, deliver, fmt);
    if |s2.accepted| > |st.accepted| then [first, deliver, Respond(Success, nanos.1)]
    else
      [first, deliver, Respond(UnknownDictionary, nanos.1),
       Deliver(Packet(Body(FreshDict(nanos.1), p, false, fmt), p)), Respond(Success, nanos.2)]
  }

  /** The states passed when these steps are taken from st. */
  ghost predicate Takes(st: State, steps: seq<Step>, end: State, fmt: FloatPrinter)
    decreases |steps|
  {
    if steps == [] then end == st
    else Enabled(st, steps[0], fmt) && Takes(Next(st, steps[0], fmt), steps[1..], end, fmt)
  }

  /** What delivering a body does to the accepted list. */
  lemma DeliverAppends(st: State, packet: Packet, fmt: FloatPrinter)
    ensures var st' := Next(st, Deliver(packet), fmt);
            && st'.sender == st.sender && st'.clock == st.clock && st'.network == st.network && st'.journal == st.journal
            && (st'.accepted != st.accepted ==>
                  |st'.accepted| == |st.accepted| + 1 && st.accepted <= st'.accepted
                  && st'.accepted[|st.accepted|].payload == packet.payload)
            && (st'.accepted == st.accepted ==> st'.books == st.books)
            && (Understood(st.books, packet.body, packet.payload, fmt) ==>
                  st'.accepted == st.accepted + [Delivery(packet.payload, Some(Samples(packet.payload, fmt)))])
  {
    hide ParseBody, Resolve, Extend, Samples, ReadAs;
    match ParseBody(packet.body)
    case None =>
    case Some(m) =>
      ReadsIsSamples(Resolve(Learned(BookOf(st.books, m.session), m).table, m.events), packet.payload, fmt);
  }

  lemma {:induction false} OneOf(end: State, st: State, p: Payload, fmt: FloatPrinter)
    requires Inv(end, fmt) && |end.accepted| == |st.accepted| + 1 && st.accepted <= end.accepted
    requires end.accepted[|st.accepted|].payload == p
    ensures end.accepted == st.accepted + [Delivery(p, Some(Samples(p, fmt)))]
  {
    hide Samples, JournalOk, SenderOk, NetworkOk, BooksOk;
    assert end.accepted == st.accepted + [end.accepted[|st.accepted|]];
  }

  lemma UnknownSession(st: State, nano: nat, fmt: FloatPrinter)
    requires Inv(st, fmt) && nano > st.clock
    ensures Decimal(nano) !in st.books
  {
    hide SenderOk, NetworkOk, AcceptedOk, Mirrors, Consistent, Format;
  }

  /** From every reachable idle state one send whose bodies arrive ends, after at most
      two requests, with the payload accepted once and read exactly. */
  lemma SendSucceeds(steps: seq<Step>, states: seq<State>, fmt: FloatPrinter, p: Payload, nanos: (nat, nat, nat))
    returns (end: State)
    requires Run(steps, states, fmt)
    requires states[|steps|].sender.phase.Idle? && !p.Empty() && SafePayload(p, fmt)
    requires states[|steps|].clock < nanos.0 < nanos.1 < nanos.2
    ensures var st := states[|steps|];
            && Takes(st, Exchange(p, st, fmt, nanos), end, fmt)
            && end.sender.phase.Idle?
            && |end.accepted| == |st.accepted| + 1 && st.accepted <= end.accepted
            && end.accepted[|st.accepted|].payload == p && ReadAs(end.accepted[|st.accepted|].decoded, p, fmt)
  {
    var st := states[|steps|];
    hide Run, SafePayload, Samples, Body, Grow, Inv, Understood;
    RunKeepsInv(steps, states, fmt, |steps|);
    end := SendSucceedsFrom(st, fmt, p, nanos);
    ReadsIsSamples(Some(Samples(p, fmt)), p, fmt);
    hide ReadAs, Takes;
  }

  lemma SendSucceedsFrom(st: State, fmt: FloatPrinter, p: Payload, nanos: (nat, nat, nat)) returns (end: State)
    requires Inv(st, fmt) && st.sender.phase.Idle? && !p.Empty() && SafePayload(p, fmt)
    requires st.clock < nanos.0 < nanos.1 < nanos.2
    ensures Takes(st, Exchange(p, st, fmt, nanos), end, fmt)
    ensures end.sender.phase.Idle? && end.accepted == st.accepted + [Delivery(p, Some(Samples(p, fmt)))]
  {
    hide SafePayload, Samples, Body, Grow, Inv, Understood, Recorded, Opened, ParseBody, Accepts, Learned, Ensure, Takes;
    var first := Request(p, nanos.0);
    var s1 := Next(st, first, fmt);
    StepKeepsInv(st, first, fmt);
    var packet := Packet(Begin(st.sender, p, fmt, nanos.0).1, p);
    var s2 := Next(s1, Deliver(packet), fmt);
    StepKeepsInv(s1, Deliver(packet), fmt);
    DeliverAppends(s1, packet, fmt);
    assert s2.sender.phase == Waiting(p, false) && s1.accepted == st.accepted;
    if |s2.accepted| > |st.accepted| {
      OneOf(s2, st, p, fmt);
      end := Next(s2, Respond(Success, nanos.1), fmt);
      TakesThree(st, first, Deliver(packet), Respond(Success, nanos.1), s1, s2, end, fmt);
    } else {
      var r1, r2 := Respond(UnknownDictionary, nanos.1), Respond(Success, nanos.2);
      var s3 := Next(s2, r1, fmt);
      StepKeepsInv(s2, r1, fmt);
      var again := Packet(Body(FreshDict(nanos.1), p, false, fmt), p);
      UnknownSession(s2, nanos.1, fmt);
      FreshDictUnderstood(p, fmt, nanos.1, s2.books);
      var s4 := Next(s3, Deliver(again), fmt);
      DeliverAppends(s3, again, fmt);
      end := Next(s4, r2, fmt);
      TakesThree(s2, r1, Deliver(again), r2, s3, s4, end, fmt);
      TakesMore(st, first, Deliver(packet), [r1, Deliver(again), r2], s1, s2, end, fmt);
      assert Exchange(p, st, fmt, nanos) == [first, Deliver(packet)] + [r1, Deliver(again), r2];
    }
  }

  lemma TakesMore(st: State, a: Step, b: Step, rest: seq<Step>, s1: State, s2: State, end: State, fmt: FloatPrinter)
    requires Enabled(st, a, fmt) && s1 == Next(st, a, fmt) && Enabled(s1, b, fmt) && s2 == Next(s1, b, fmt)
    requires Takes(s2, rest, end, fmt)
    ensures Takes(st, [a, b] + rest, end, fmt)
  {
    hide Enabled, Next;
    assert ([a, b] + rest)[1..] == [b] + rest && ([b] + rest)[1..] == rest;
    assert Takes(s1, [b] + rest, end, fmt);
  }

  lemma TakesThree(st: State, a: Step, b: Step, c: Step, s1: State, s2: State, end: State, fmt: FloatPrinter)
    requires Enabled(st, a, fmt) && s1 == Next(st, a, fmt) && Enabled(s1, b, fmt) && s2 == Next(s1, b, fmt)
    requires Enabled(s2, c, fmt) && end == Next(s2, c, fmt)
    ensures Takes(st, [a, b, c], end, fmt)
  {
    hide Enabled, Next;
    assert [c][1..] == [];
    assert Takes(s2, [c], end, fmt);
    TakesMore(st, a, b, [c], s1, s2, end, fmt);
    assert [a, b] + [c] == [a, b, c];
  }

  lemma SamplesNotEmpty(p: Payload, fmt: FloatPrinter)
    requires !p.Empty()
    ensures Samples(p, fmt) != [] && Samples(p, fmt)[0] in Samples(p, fmt)
  {
  }
}
