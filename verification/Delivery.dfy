/** From the worker's batches to the wire: what the worker builds is what the
    transport can carry, and the dictionary bound that follows. */
module Delivery {
  import opened Text
  import opened Events
  import opened Aggregation
  import opened LineProtocol
  import opened LineParser
  import opened Transport
  import Totals
  import DictionaryProtocol
  import Retry
  import Worker

  /** An event whose metric and labels the wire and the keys can carry and whose
      unique id, if it has one, is a decimal numeral. */
  predicate CleanEvent(e: Event)
  {
    WireSafe(e.series) && NulFree(e.series) && (e.uniqueID == "" || AllDigits(e.uniqueID))
  }

  lemma {:induction false} CountersComeFromEvents(es: seq<Event>)
    ensures forall c | c in CountersOf(es) :: exists e :: e in es && e.series == c.series
    ensures |CountersOf(es)| + |ValuesOf(es)| + |UniquesOf(es)| <= |es|
  {
    if es != [] {
      var init, last := es[..|es| - 1], es[|es| - 1];
      CountersComeFromEvents(init);
      assert es == init + [last];
      assert forall e | e in init :: e in es;
      hide UniqueKey;
      forall c | c in CountersOf(es) ensures exists e :: e in es && e.series == c.series {
        if c.series == last.series { assert last in es; }
        else { OlderCounter(CountersOf(init), last, c); }
      }
    }
  }

  /** Adding an event changes no counter of another series. */
  lemma OlderCounter(cs: seq<CounterEvent>, e: Event, c: CounterEvent)
    requires c in AddCounter(cs, e) || c in cs
    requires c.series != e.series
    ensures c in cs
  {
  }

  lemma {:induction false} OthersComeFromEvents(es: seq<Event>)
    ensures forall v | v in ValuesOf(es) :: exists e :: e in es && e.series == v.series
    ensures forall u | u in UniquesOf(es) :: 
              u.uniqueID != "" && exists e :: e in es && e.series == u.series && e.uniqueID == u.uniqueID
  {
    if es != [] {
      var init, last := es[..|es| - 1], es[|es| - 1];
      OthersComeFromEvents(init);
      assert es == init + [last];
      assert last in es && forall e | e in init :: e in es;
      hide UniqueKey;
    }
  }

  /** A batch of clean events makes a payload the protocol carries without loss. */
  lemma CleanBatchIsSafe(es: seq<Event>, id: string, fmt: FloatPrinter)
    requires forall e | e in es :: CleanEvent(e)
    ensures DictionaryProtocol.SafePayload(PayloadOf(es, id), fmt) && DictionaryProtocol.SafeFields(PayloadOf(es, id))
  {
    BatchIsSafe(es, id, fmt);
    DictionaryProtocol.SafeByFields(PayloadOf(es, id), fmt);
  }

  lemma BatchIsSafe(es: seq<Event>, id: string, fmt: FloatPrinter)
    requires forall e | e in es :: CleanEvent(e)
    ensures DictionaryProtocol.SafePayload(PayloadOf(es, id), fmt)
  {
    CountersComeFromEvents(es);
    OthersComeFromEvents(es);
    hide WireSafe, NulFree, CountersOf, ValuesOf, UniquesOf, FormatInt;
    var p := PayloadOf(es, id);
    forall e | e in Samples(p, fmt) ensures WireSample(e) && NulFree(e.series) {
      if e in CounterSamples(p.counters) {
        var i :| 0 <= i < |p.counters| && CounterSamples(p.counters)[i] == e;
        assert p.counters[i] in p.counters;
        FormatIntPlain(Round(p.counters[i].value));
      } else if e in ValueSamples(p.values, fmt) {
        var i :| 0 <= i < |p.values| && ValueSamples(p.values, fmt)[i] == e;
        assert p.values[i] in p.values;
      } else {
        var i :| 0 <= i < |p.uniques| && UniqueSamples(p.uniques)[i] == e;
        assert p.uniques[i] in p.uniques;
        DigitsArePlain(p.uniques[i].uniqueID);
      }
    }
  }

  lemma DigitsArePlain(s: string)
    requires AllDigits(s)
    ensures PlainField(s)
  {
  }

  /** Serving worker batches, the dictionary stays below 2560 series. */
  lemma DictionaryStaysSmall(s: Sender, es: seq<Event>, id: string, fmt: FloatPrinter, first: Reply, second: Reply,
                              nanos: (nat, nat, nat))
    requires |es| <= Worker.MAX_BATCH
    ensures var s1 := Begin(s, PayloadOf(es, id), fmt, nanos.0).0;
            var s2 := Answer(s1, first, fmt, nanos.1).0;
            && |s1.dict.value.series| < 2560 && |s2.dict.value.series| < 2560
            && (s2.phase.Waiting? ==> |Answer(s2, second, fmt, nanos.2).0.dict.value.series| < 2560)
  {
    CountersComeFromEvents(es);
    hide CountersOf, ValuesOf, UniquesOf, LearnAll, Format;
    DictionaryBound(s, PayloadOf(es, id), fmt, first, second, nanos);
  }

  /* ---------- from a worker run to accepted bodies ---------- */

  /** The batch ids in use are those of payloads 1 to issued. */
  lemma BuiltIsNumbered(session: string, inputs: seq<Worker.Input>, id: string) returns (n: nat)
    requires id in Worker.RunOf(session, inputs).sender.built
    ensures 1 <= n <= Worker.RunOf(session, inputs).sender.issued && Retry.BatchID(session, n) == id
    ensures !Worker.RunOf(session, inputs).sender.built[id].Empty()
  {
    hide Worker.RunOf, Worker.CutOk, Retry.QueueOk, Retry.PlacesOk, Retry.LogOk, Retry.GateOk, Retry.BatchID;
    Worker.RunKeepsOk(session, inputs);
    n :| 1 <= n <= Worker.RunOf(session, inputs).sender.issued && Retry.BatchID(session, n) == id;
  }

  /** If every dequeued event is clean, every payload the worker ever builds is one the
      protocol carries without loss. */
  lemma WorkerPayloadsAreSafe(session: string, inputs: seq<Worker.Input>, id: string, fmt: FloatPrinter)
    requires forall e | e in Worker.Dequeued(inputs) :: CleanEvent(e)
    requires id in Worker.RunOf(session, inputs).sender.built
    ensures DictionaryProtocol.SafePayload(Worker.RunOf(session, inputs).sender.built[id], fmt)
    ensures DictionaryProtocol.SafeFields(Worker.RunOf(session, inputs).sender.built[id])
    ensures !Worker.RunOf(session, inputs).sender.built[id].Empty()
  {
    hide Worker.RunOf, Worker.Dequeued, DictionaryProtocol.SafePayload, Retry.BatchID, PayloadOf;
    var n := BuiltIsNumbered(session, inputs, id);
    var chunk := Worker.PayloadsWellFormed(session, inputs, n);
    FlushedAreDequeued(session, inputs, chunk);
    forall e | e in chunk ensures CleanEvent(e) {
      var d :| d in Worker.Dequeued(inputs) && d.series == e.series && d.uniqueID == e.uniqueID;
      assert CleanEvent(d);
    }
    CleanBatchIsSafe(chunk, id, fmt);
    DictionaryProtocol.SafeByFields(PayloadOf(chunk, id), fmt);
    hide DictionaryProtocol.SafeFields;
  }

  /** Every event of a flushed batch has the series and id of a dequeued one. */
  lemma FlushedAreDequeued(session: string, inputs: seq<Worker.Input>, chunk: seq<Event>)
    requires chunk in Worker.RunOf(session, inputs).flushed
    ensures forall e | e in chunk ::
              exists d :: d in Worker.Dequeued(inputs) && d.series == e.series && d.uniqueID == e.uniqueID
  {
    hide Worker.RunOf, Worker.Dequeued, Worker.ShippedOk, Totals.ConvertAll;
    Worker.RunKeepsOk(session, inputs);
    var st := Worker.RunOf(session, inputs);
    var k :| 0 <= k < |st.flushed| && st.flushed[k] == chunk;
    Worker.InFlatten(st.flushed, k);
    Totals.ConvertedFrom(Worker.Dequeued(inputs));
    assert forall e | e in chunk :: e in Worker.Flatten(st.flushed) + st.batch;
  }

  /** A transport run fed only with payloads from `built`, under the same conditions on
      clock and network as any run but with nothing assumed about what payloads hold. */
  ghost predicate FedRun(steps: seq<DictionaryProtocol.Step>, states: seq<DictionaryProtocol.State>,
                         built: map<string, Payload>, fmt: FloatPrinter)
  {
    && |states| == |steps| + 1 && states[0] == DictionaryProtocol.Initial
    && forall k | 0 <= k < |steps| ::
         FedEnabled(states[k], steps[k], built) && states[k + 1] == DictionaryProtocol.Next(states[k], steps[k], fmt)
  }

  predicate FedEnabled(st: DictionaryProtocol.State, step: DictionaryProtocol.Step, built: map<string, Payload>)
  {
    match step
    case Request(p, nano) =>
      st.sender.phase.Idle? && nano > st.clock && p.batchID in built && built[p.batchID] == p
    case Respond(_, nano) => st.sender.phase.Waiting? && nano > st.clock
    case Deliver(packet) => packet in st.network
    case Forget(_) => true
  }

  lemma FedStepEnabled(st: DictionaryProtocol.State, step: DictionaryProtocol.Step, session: string,
                       inputs: seq<Worker.Input>, fmt: FloatPrinter)
    requires forall e | e in Worker.Dequeued(inputs) :: CleanEvent(e)
    requires FedEnabled(st, step, Worker.RunOf(session, inputs).sender.built)
    ensures DictionaryProtocol.Enabled(st, step, fmt)
  {
    hide Worker.RunOf, Worker.Dequeued, DictionaryProtocol.SafePayload, CleanEvent;
    if step.Request? { WorkerPayloadsAreSafe(session, inputs, step.payload.batchID, fmt); }
  }

  /** End to end: clean events through any worker run, its payloads through any transport
      run. Every body the receiver accepts was read as exactly the samples of a payload
      the worker built, which is the aggregation of one batch of the event stream. */
  lemma CleanEventsArriveExactly(session: string, inputs: seq<Worker.Input>, steps: seq<DictionaryProtocol.Step>,
                                 states: seq<DictionaryProtocol.State>, fmt: FloatPrinter, k: nat, d: nat)
    returns (chunk: seq<Event>)
    requires forall e | e in Worker.Dequeued(inputs) :: CleanEvent(e)
    requires FedRun(steps, states, Worker.RunOf(session, inputs).sender.built, fmt)
    requires k <= |steps| && d < |states[k].accepted|
    ensures var p := states[k].accepted[d].payload;
            && chunk in Worker.RunOf(session, inputs).flushed && p == PayloadOf(chunk, p.batchID)
            && ReadAs(states[k].accepted[d].decoded, p, fmt)
  {
    hide Worker.RunOf, Worker.Dequeued, CleanEvent, FedEnabled, DictionaryProtocol.Next, DictionaryProtocol.Enabled,
         Samples, PayloadOf, Retry.BatchID, ReadAs;
    var built := Worker.RunOf(session, inputs).sender.built;
    forall j | 0 <= j < |steps| ensures DictionaryProtocol.Enabled(states[j], steps[j], fmt) {
      FedStepEnabled(states[j], steps[j], session, inputs, fmt);
    }
    assert DictionaryProtocol.Run(steps, states, fmt);
    DictionaryProtocol.AcceptedMeansPayload(steps, states, fmt, k, d);
    AcceptedWereFed(steps, states, built, fmt, k);
    var p := states[k].accepted[d].payload;
    var n := BuiltIsNumbered(session, inputs, p.batchID);
    chunk := Worker.PayloadsWellFormed(session, inputs, n);
  }

  /** Whatever waits, travels or was accepted is one of the payloads fed in. */
  ghost predicate Fed(st: DictionaryProtocol.State, built: map<string, Payload>)
  {
    && (st.sender.phase.Waiting? ==> From(st.sender.phase.payload, built))
    && (forall packet | packet in st.network :: From(packet.payload, built))
    && (forall k | 0 <= k < |st.accepted| :: From(st.accepted[k].payload, built))
  }

  predicate From(p: Payload, built: map<string, Payload>)
  {
    p.batchID in built && built[p.batchID] == p
  }

  lemma FedStep(st: DictionaryProtocol.State, step: DictionaryProtocol.Step, built: map<string, Payload>, fmt: FloatPrinter)
    requires Fed(st, built) && FedEnabled(st, step, built)
    ensures Fed(DictionaryProtocol.Next(st, step, fmt), built)
  {
    hide Body, Grow, ParseBody, Resolve, DictionaryProtocol.Recorded, DictionaryProtocol.Opened, Ensure, From;
    if step.Request? { assert From(step.payload, built) by { FromFed(step.payload, built); } }
  }

  lemma FromFed(p: Payload, built: map<string, Payload>)
    requires p.batchID in built && built[p.batchID] == p
    ensures From(p, built)
  {
  }

  lemma {:induction false} AcceptedWereFed(steps: seq<DictionaryProtocol.Step>, states: seq<DictionaryProtocol.State>,
                                           built: map<string, Payload>, fmt: FloatPrinter, k: nat)
    requires FedRun(steps, states, built, fmt) && k <= |steps|
    ensures Fed(states[k], built)
  {
    hide FedEnabled, DictionaryProtocol.Next;
    if k > 0 {
      AcceptedWereFed(steps, states, built, fmt, k - 1);
      FedStep(states[k - 1], steps[k - 1], built, fmt);
    }
  }
}
