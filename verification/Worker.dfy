/** The worker goroutine (client.go, run): dequeues events, turns totals into deltas,
    cuts the stream into batches, builds payloads and hands them to the sender. */
module Worker {
  import opened Events
  import opened Aggregation
  import opened Totals
  import Backoff
  import Retry
  import Client
  import BatchBuilder

  const MAX_BATCH: nat := 512
  const RETRY_FLUSH_MAX_SENDS: nat := 1

  /** One iteration of the select loop. `ignoreBackoff` is the final pass of Close. */
  datatype Input =
    | Dequeue(e: Event, idle: nat, env: Retry.Env)
    | Tick(idle: nat, env: Retry.Env, ignoreBackoff: bool, envs: nat -> Retry.Env)

  /** `flushed` remembers every batch handed to flush, `sent` those that became payloads. */
  datatype State = State(
    batch: seq<Event>,
    totals: Baselines,
    sender: Retry.State,
    flushed: seq<seq<Event>>,
    sent: seq<seq<Event>>)

  const Initial: State := State([], map[], Retry.Initial, [], [])

  predicate Shippable(chunk: seq<Event>)
  {
    !PayloadOf(chunk, "").Empty()
  }

  function FlushBatch(st: State, session: string, idle: nat, env: Retry.Env): State
  {
    if st.batch == [] then st
    else State(
      [], st.totals,
      Retry.Next(st.sender, session, Retry.FlushBatch(idle, PayloadOf(st.batch, ""), env)),
      st.flushed + [st.batch],
      if !st.sender.stopped && Shippable(st.batch) then st.sent + [st.batch] else st.sent)
  }

  function Next(st: State, session: string, input: Input): State
  {
    match input
    case Dequeue(e, idle, env) =>
      var (totals, kept) := Convert(st.totals, e);
      if kept.None? then st.(totals := totals)
      else
        var st' := st.(totals := totals, batch := st.batch + [kept.value]);
        if |st'.batch| >= MAX_BATCH then FlushBatch(st', session, idle, env) else st'
    case Tick(idle, env, ignoreBackoff, envs) =>
      var st' := FlushBatch(st, session, idle, env);
      st'.(sender := Retry.Next(st'.sender, session, Retry.RetryPass(0, ignoreBackoff, RETRY_FLUSH_MAX_SENDS, envs)))
  }

  function RunOf(session: string, inputs: seq<Input>): State
  {
    if inputs == [] then Initial
    else Next(RunOf(session, inputs[..|inputs| - 1]), session, inputs[|inputs| - 1])
  }

  /** The events dequeued so far. */
  function Dequeued(inputs: seq<Input>): seq<Event>
  {
    if inputs == [] then []
    else
      var init, last := Dequeued(inputs[..|inputs| - 1]), inputs[|inputs| - 1];
      if last.Dequeue? then init + [last.e] else init
  }

  /* ---------- the worker object ---------- */

  class Worker {
    const hash: BatchBuilder.Hasher
    const client: Client.Client
    var batch: seq<Event>
    var totals: Baselines
    ghost var flushed: seq<seq<Event>>
    ghost var sent: seq<seq<Event>>

    ghost function View(): State
      reads this, client
    {
      State(batch, totals, client.View(), flushed, sent)
    }

    constructor (session: string, hash: BatchBuilder.Hasher)
      ensures View() == Initial && fresh(client) && client.session == session && this.hash == hash
    {
      client := new Client.Client(session);
      this.hash := hash;
      batch, totals, flushed, sent := [], map[], [], [];
    }

    /** The event is turned into a counter delta in place, or dropped. */
    method ApplyTotal(ev: Event, limit: nat) returns (keep: bool, ev': Event)
      modifies `totals
      ensures var (totals', kept) := Totals.ApplyTotal(old(totals), ev, limit);
              totals == totals' && (keep <==> kept.Some?) && (keep ==> ev' == kept.value)
    {
      ev' := ev;
      if limit == 0 { return false, ev; }
      var key := BatchBuilder.BuildSeriesKey(ev.series.metric, ev.series.labels);
      assert key == SeriesKey(ev.series);
      if key !in totals {
        if |totals| >= limit { return false, ev; }
        totals := totals[key := ev.value];
        return false, ev;
      }
      var prev := totals[key];
      if ev.value < prev {
        totals := totals[key := ev.value];
        return false, ev;
      }
      var delta := ev.value - prev;
      if delta <= 0.0 {
        totals := totals[key := ev.value];
        return false, ev;
      }
      totals := totals[key := ev.value];
      ev' := ev.(kind := CounterKind, value := delta);
      keep := true;
    }

    method Flush(idle: nat, env: Retry.Env)
      modifies this, client
      ensures View() == FlushBatch(old(View()), client.session, idle, env)
    {
      if |batch| == 0 { return; }
      flushed := flushed + [batch];
      client.clock := client.clock + idle;
      if !client.stopSending {
        var payload := BatchBuilder.BuildPayload(batch, hash, "");
        if payload.Some? {
          sent := sent + [batch];
          client.Flush(payload.value, env);
        }
      }
      batch := [];
    }

    method Step(input: Input)
      modifies this, client
      ensures View() == Next(old(View()), client.session, input)
    {
      match input
      case Dequeue(e, idle, env) =>
        var ev := e;
        if e.kind == TotalKind {
          var keep;
          keep, ev := ApplyTotal(e, MAX_TOTAL_SERIES);
          if !keep { return; }
        }
        batch := batch + [ev];
        if |batch| >= MAX_BATCH { Flush(idle, env); }
      case Tick(idle, env, ignoreBackoff, envs) =>
        Flush(idle, env);
        client.FlushRetryQueue(ignoreBackoff, RETRY_FLUSH_MAX_SENDS, envs);
    }
  }

  /* ---------- batches are the stream, cut up ---------- */

  function Flatten(chunks: seq<seq<Event>>): seq<Event>
  {
    if chunks == [] then [] else Flatten(chunks[..|chunks| - 1]) + chunks[|chunks| - 1]
  }

  lemma FlattenSnoc(chunks: seq<seq<Event>>, chunk: seq<Event>)
    ensures Flatten(chunks + [chunk]) == Flatten(chunks) + chunk
  {
    assert (chunks + [chunk])[..|chunks|] == chunks;
  }

  function ShippableOf(chunks: seq<seq<Event>>): seq<seq<Event>>
  {
    if chunks == [] then []
    else
      var init, last := ShippableOf(chunks[..|chunks| - 1]), chunks[|chunks| - 1];
      if Shippable(last) then init + [last] else init
  }

  lemma ShippableSnoc(chunks: seq<seq<Event>>, chunk: seq<Event>)
    ensures ShippableOf(chunks + [chunk]) == ShippableOf(chunks) + if Shippable(chunk) then [chunk] else []
  {
    hide Shippable;
    assert (chunks + [chunk])[..|chunks|] == chunks;
  }

  /** Flushed batches and the pending one are the converted stream, in order, in
      pieces of 1 to 512 events. */
  ghost predicate CutOk(st: State, es: seq<Event>)
  {
    && (st.totals, Flatten(st.flushed) + st.batch) == ConvertAll(es)
    && |st.batch| <= MAX_BATCH
    && (forall k | 0 <= k < |st.flushed| :: 1 <= |st.flushed[k]| <= MAX_BATCH)
  }

  /** Payload n is the aggregation of the n-th shipped batch; as long as sending goes
      on every batch with something in it is shipped. */
  ghost predicate ShippedOk(st: State, session: string)
  {
    && Retry.Inv(st.sender, session, {})
    && st.sender.issued == |st.sent|
    && (forall k | 0 <= k < |st.sent| :: PayloadIs(st.sender, session, k, st.sent[k]))
    && (forall k | 0 <= k < |st.sent| :: st.sent[k] in st.flushed)
    && (!st.sender.stopped ==> st.sent == ShippableOf(st.flushed))
  }

  /** The payload after the first k is the aggregation of the chunk. */
  ghost predicate PayloadIs(sender: Retry.State, session: string, k: nat, chunk: seq<Event>)
  {
    var id := Retry.BatchID(session, k + 1);
    id in sender.built && sender.built[id] == PayloadOf(chunk, id)
  }

  /* ---------- every step keeps both ---------- */

  lemma SendKeepsBuilt(st: Retry.State, p: Payload, attempt: nat, env: Retry.Env)
    requires attempt >= 1
    ensures var st' := Retry.SendPayload(st, p, attempt, env);
            st'.built == st.built && st'.issued == st.issued && (st.stopped ==> st'.stopped)
  {
    hide Backoff.Capped;
  }

  lemma {:induction false} PassKeepsBuilt(st: Retry.State, i: nat, done: nat, limit: nat, reading: int,
                                          ignoreBackoff: bool, envs: nat -> Retry.Env)
    ensures var st' := Retry.Pass(st, i, done, limit, reading, ignoreBackoff, envs);
            st'.built == st.built && st'.issued == st.issued && (st.stopped ==> st'.stopped)
    decreases if done < limit then limit - done else 0, if i < |st.queue| then |st.queue| - i else 0
  {
    hide Retry.SendPayload;
    if i < |st.queue| && done < limit {
      if !ignoreBackoff && st.queue[i].due > reading {
        PassKeepsBuilt(st, i + 1, done, limit, reading, ignoreBackoff, envs);
      } else {
        var after := Retry.Retake(st, i, envs(done));
        SendKeepsBuilt(st.(queue := Retry.Without(st.queue, i)), st.queue[i].payload, st.queue[i].attempts + 1, envs(done));
        PassKeepsBuilt(after, i, done + 1, limit, after.now, ignoreBackoff, envs);
      }
    }
  }

  /** What a flush does to the sender's record of built payloads. */
  lemma FlushBuilds(st: Retry.State, session: string, idle: nat, content: Payload, env: Retry.Env)
    ensures var st' := Retry.Next(st, session, Retry.FlushBatch(idle, content, env));
            var id := Retry.BatchID(session, st.issued + 1);
            && (st.stopped ==> st'.stopped)
            && if st.stopped || content.Empty() then st'.built == st.built && st'.issued == st.issued
               else st'.built == st.built[id := content.(batchID := id)] && st'.issued == st.issued + 1
  {
    hide Retry.SendPayload, Retry.BatchID;
    if !st.stopped && !content.Empty() {
      var ready := st.(now := st.now + idle);
      var p := content.(batchID := Retry.BatchID(session, st.issued + 1));
      SendKeepsBuilt(ready.(issued := ready.issued + 1, built := ready.built[p.batchID := p]), p, 1, env);
    }
  }

  lemma FlushKeepsCut(st: State, session: string, idle: nat, env: Retry.Env, es: seq<Event>)
    requires CutOk(st, es)
    ensures CutOk(FlushBatch(st, session, idle, env), es)
    ensures |FlushBatch(st, session, idle, env).batch| == 0
  {
    hide ConvertAll, Retry.Next, Flatten, Shippable;
    FlattenSnoc(st.flushed, st.batch);
    assert Flatten(st.flushed) + st.batch + [] == Flatten(st.flushed) + st.batch;
  }

  lemma FlushKeepsShipped(st: State, session: string, idle: nat, env: Retry.Env)
    requires ShippedOk(st, session)
    ensures ShippedOk(FlushBatch(st, session, idle, env), session)
  {
    hide Retry.Inv, Retry.Next, Retry.BatchID, ShippableOf, PayloadOf, PayloadIs;
    if st.batch != [] {
      var content := PayloadOf(st.batch, "");
      var sender := Retry.Next(st.sender, session, Retry.FlushBatch(idle, content, env));
      Retry.StepKeepsInv(st.sender, session, Retry.FlushBatch(idle, content, env));
      FlushBuilds(st.sender, session, idle, content, env);
      ShippableSnoc(st.flushed, st.batch);
      FreshNumber(st.sender, session);
      forall k | 0 <= k < |st.sent| ensures PayloadIs(sender, session, k, st.sent[k]) {
        StillPayload(st.sender, sender, session, k, st.sent[k],
                     content.(batchID := Retry.BatchID(session, st.sender.issued + 1)));
      }
      if !st.sender.stopped && Shippable(st.batch) {
        NewPayload(st.sender, sender, session, st.batch);
      }
    }
  }

  lemma FreshNumber(st: Retry.State, session: string)
    requires Retry.Inv(st, session, {})
    ensures Retry.BatchID(session, st.issued + 1) !in st.built
  {
    Retry.FreshID(st, session);
  }

  lemma StillPayload(st: Retry.State, st': Retry.State, session: string, k: nat, chunk: seq<Event>, p: Payload)
    requires PayloadIs(st, session, k, chunk)
    requires var next := Retry.BatchID(session, st.issued + 1);
             next !in st.built && (st'.built == st.built || st'.built == st.built[next := p])
    ensures PayloadIs(st', session, k, chunk)
  {
    hide Retry.BatchID, PayloadOf;
  }

  lemma NewPayload(st: Retry.State, st': Retry.State, session: string, chunk: seq<Event>)
    requires var id := Retry.BatchID(session, st.issued + 1);
             st'.built == st.built[id := PayloadOf(chunk, "").(batchID := id)]
    ensures PayloadIs(st', session, st.issued, chunk)
  {
    hide Retry.BatchID, CountersOf, ValuesOf, UniquesOf;
  }

  lemma RetryKeepsShipped(st: State, session: string, ignoreBackoff: bool, envs: nat -> Retry.Env)
    requires ShippedOk(st, session)
    ensures var step := Retry.RetryPass(0, ignoreBackoff, RETRY_FLUSH_MAX_SENDS, envs);
            ShippedOk(st.(sender := Retry.Next(st.sender, session, step)), session)
  {
    var step := Retry.RetryPass(0, ignoreBackoff, RETRY_FLUSH_MAX_SENDS, envs);
    Retry.StepKeepsInv(st.sender, session, step);
    var limit := if |st.sender.queue| > RETRY_FLUSH_MAX_SENDS then RETRY_FLUSH_MAX_SENDS else |st.sender.queue|;
    PassKeepsBuilt(st.sender.(now := st.sender.now + 0), 0, 0, limit, st.sender.now, ignoreBackoff, envs);
    SenderAdvances(st, Retry.Next(st.sender, session, step), session);
  }

  lemma SenderAdvances(st: State, sender: Retry.State, session: string)
    requires ShippedOk(st, session) && Retry.Inv(sender, session, {})
    requires sender.built == st.sender.built && sender.issued == st.sender.issued
    requires st.sender.stopped ==> sender.stopped
    ensures ShippedOk(st.(sender := sender), session)
  {
    hide Retry.Inv, ShippableOf, PayloadOf, Retry.BatchID;
    forall k | 0 <= k < |st.sent| ensures PayloadIs(sender, session, k, st.sent[k]) {
      assert PayloadIs(st.sender, session, k, st.sent[k]);
    }
  }

  lemma StepKeepsOk(st: State, session: string, input: Input, es: seq<Event>)
    requires CutOk(st, es) && |st.batch| < MAX_BATCH && ShippedOk(st, session)
    ensures var st', es' := Next(st, session, input), if input.Dequeue? then es + [input.e] else es;
            CutOk(st', es') && |st'.batch| < MAX_BATCH && ShippedOk(st', session)
  {
    hide ShippedOk, FlushBatch, Retry.Next, Convert;
    match input
    case Dequeue(e, idle, env) =>
      assert (es + [e])[..|es + [e]| - 1] == es;
      var (totals, kept) := Convert(st.totals, e);
      if kept.None? {
        SameShipped(st, st.(totals := totals), session);
      } else {
        var st' := st.(totals := totals, batch := st.batch + [kept.value]);
        assert Flatten(st.flushed) + st'.batch == Flatten(st.flushed) + st.batch + [kept.value];
        assert CutOk(st', es + [e]);
        hide CutOk;
        SameShipped(st, st', session);
        if |st'.batch| >= MAX_BATCH {
          FlushKeepsCut(st', session, idle, env, es + [e]);
          FlushKeepsShipped(st', session, idle, env);
        }
      }
    case Tick(idle, env, ignoreBackoff, envs) =>
      FlushKeepsCut(st, session, idle, env, es);
      FlushKeepsShipped(st, session, idle, env);
      RetryKeepsShipped(FlushBatch(st, session, idle, env), session, ignoreBackoff, envs);
  }

  lemma SameShipped(st: State, st': State, session: string)
    requires ShippedOk(st, session) && st' == st.(batch := st'.batch, totals := st'.totals)
    ensures ShippedOk(st', session)
  {
    hide Retry.Inv, ShippableOf;
  }

  lemma InitialOk(session: string)
    ensures CutOk(Initial, []) && ShippedOk(Initial, session)
  {
    Retry.RunKeepsInv(session, []);
    assert Retry.RunOf(session, []) == Retry.Initial;
    hide Retry.Inv;
    assert Flatten([]) + [] == [];
  }

  lemma {:induction false} RunKeepsOk(session: string, inputs: seq<Input>)
    ensures var st := RunOf(session, inputs);
            CutOk(st, Dequeued(inputs)) && |st.batch| < MAX_BATCH && ShippedOk(st, session)
  {
    hide Next, CutOk, ShippedOk;
    if inputs == [] {
      InitialOk(session);
    } else {
      var init, last := inputs[..|inputs| - 1], inputs[|inputs| - 1];
      RunKeepsOk(session, init);
      StepKeepsOk(RunOf(session, init), session, last, Dequeued(init));
    }
  }

  /* ---------- what each iteration does ---------- */

  /** A non-empty batch takes time, and if sending goes on and it carries something,
      the next payload is its aggregation and is handed over at once. */
  ghost predicate HandsOver(st: Retry.State, session: string, chunk: seq<Event>, idle: nat, env: Retry.Env,
                            after: Retry.State)
  {
    var ready := st.(now := st.now + idle);
    if chunk == [] then after == st
    else if st.stopped || !Carries(chunk) then after == ready
    else
      var id := Retry.BatchID(session, st.issued + 1);
      var p := Payload(id, CountersOf(chunk), ValuesOf(chunk), UniquesOf(chunk));
      Retry.Handed(ready.(issued := st.issued + 1, built := st.built[id := p]), st.queue, p, 0, env, after)
  }

  /** The pending batch `chunk` of `before` is gone, flushed and accounted for. */
  ghost predicate Empties(before: State, chunk: seq<Event>, after: State)
  {
    && after.batch == []
    && after.flushed == before.flushed + (if chunk == [] then [] else [chunk])
    && after.sent == before.sent + (if !before.sender.stopped && Carries(chunk) then [chunk] else [])
  }

  lemma FlushHandsOver(st: State, session: string, idle: nat, env: Retry.Env)
    ensures var after := FlushBatch(st, session, idle, env);
            && Empties(st, st.batch, after) && after.totals == st.totals
            && HandsOver(st.sender, session, st.batch, idle, env, after.sender)
  {
    hide Retry.Handed, Retry.BatchID, Retry.Flush, CountersOf, ValuesOf, UniquesOf, Carries;
    PayloadIfCarries(st.batch, "");
    if st.batch == [] { assert !Carries(st.batch) by { NothingCarries(); } }
    else {
      var content := PayloadOf(st.batch, "");
      Retry.FlushHands(st.sender.(now := st.sender.now + idle), session, content, env);
      assert forall id :: content.(batchID := id) == PayloadOf(st.batch, id);
    }
  }

  lemma NothingCarries()
    ensures !Carries([])
  {
  }

  /** In every run a tick leaves no pending batch: what was pending is handed over as
      one payload, its first Send starting in that step if the gate is open; then the
      first due entry of the retry queue, if there is one, is handed over. */
  lemma TickFlushes(session: string, inputs: seq<Input>) returns (mid: Retry.State)
    requires inputs != [] && inputs[|inputs| - 1].Tick?
    ensures var before, after := RunOf(session, inputs[..|inputs| - 1]), RunOf(session, inputs);
            var tick := inputs[|inputs| - 1];
            && Empties(before, before.batch, after) && after.totals == before.totals
            && HandsOver(before.sender, session, before.batch, tick.idle, tick.env, mid)
            && Retry.Retries(mid, tick.ignoreBackoff, tick.envs(0), after.sender)
  {
    hide HandsOver, FlushBatch, Retry.Retries, Retry.FlushRetryQueue, Carries;
    var before, tick := RunOf(session, inputs[..|inputs| - 1]), inputs[|inputs| - 1];
    FlushHandsOver(before, session, tick.idle, tick.env);
    mid := FlushBatch(before, session, tick.idle, tick.env).sender;
    Retry.PassRetries(mid, tick.ignoreBackoff, tick.envs);
    assert mid.(now := mid.now + 0) == mid;
  }

  /** In every run a dequeued event that is not a Total joins the pending batch as it is;
      a Total joins it as a positive delta or not at all. The 512th event, and nothing
      before it, has the batch handed over. */
  lemma DequeueJoins(session: string, inputs: seq<Input>) returns (kept: seq<Event>)
    requires inputs != [] && inputs[|inputs| - 1].Dequeue?
    ensures var e := inputs[|inputs| - 1].e;
            if e.kind != TotalKind then kept == [e]
            else kept == [] || (|kept| == 1 && kept[0].value > 0.0
                                && kept[0] == Event(CounterKind, e.series, kept[0].value, e.uniqueID, e.timestamp))
    ensures var before, after, last := RunOf(session, inputs[..|inputs| - 1]), RunOf(session, inputs), inputs[|inputs| - 1];
            if kept == [] || |before.batch| + 1 < 512 then
              && after.batch == before.batch + kept && after.sender == before.sender
              && after.flushed == before.flushed && after.sent == before.sent
            else
              && Empties(before, before.batch + kept, after)
              && HandsOver(before.sender, session, before.batch + kept, last.idle, last.env, after.sender)
  {
    hide HandsOver, FlushBatch, Carries, SeriesKey;
    var before, last := RunOf(session, inputs[..|inputs| - 1]), inputs[|inputs| - 1];
    var (totals, k) := Convert(before.totals, last.e);
    kept := if k.Some? then [k.value] else [];
    if kept == [] { assert before.batch + kept == before.batch; }
    FlushHandsOver(before.(totals := totals, batch := before.batch + kept), session, last.idle, last.env);
  }

  /** The batches, flushed or pending, hold every dequeued event exactly once and in
      order, Totals as their rises. */
  lemma BatchesAreStream(session: string, inputs: seq<Input>) returns (from: seq<nat>)
    ensures var st := RunOf(session, inputs);
            Converted(Dequeued(inputs), Flatten(st.flushed) + st.batch, from)
  {
    hide RunOf, Dequeued, ShippedOk, Converted, Flatten, ConvertAll;
    RunKeepsOk(session, inputs);
    from := ConvertedShape(Dequeued(inputs));
  }

  /* ---------- conservation from the queue to the payloads ---------- */

  function SumOfAll(chunks: seq<seq<Event>>, s: Series): real
  {
    if chunks == [] then 0.0 else SumOfAll(chunks[..|chunks| - 1], s) + SumOf(chunks[|chunks| - 1], s)
  }

  lemma {:induction false} SumOfFlatten(chunks: seq<seq<Event>>, s: Series)
    ensures SumOfAll(chunks, s) == SumOf(Flatten(chunks), s)
  {
    if chunks != [] {
      SumOfFlatten(chunks[..|chunks| - 1], s);
      SumOfConcat(Flatten(chunks[..|chunks| - 1]), chunks[|chunks| - 1], s);
    }
  }

  /** A batch that yields no payload holds no counter value. */
  lemma {:induction false} SumOfShippable(chunks: seq<seq<Event>>, s: Series)
    ensures SumOfAll(ShippableOf(chunks), s) == SumOfAll(chunks, s)
  {
    if chunks != [] {
      hide SumOf, CountersOf, ValuesOf, UniquesOf;
      var init, last := chunks[..|chunks| - 1], chunks[|chunks| - 1];
      SumOfShippable(init, s);
      if Shippable(last) {
        assert (ShippableOf(init) + [last])[..|ShippableOf(init)|] == ShippableOf(init);
      } else {
        CountersConserve(last, s);
      }
    }
  }

  /** Counter value of a series over the first n payloads ever built. */
  ghost function BuiltAmount(sender: Retry.State, session: string, n: nat, s: Series): real
    requires forall k | 1 <= k <= n :: Retry.BatchID(session, k) in sender.built
  {
    if n == 0 then 0.0
    else BuiltAmount(sender, session, n - 1, s) + Amount(sender.built[Retry.BatchID(session, n)].counters, s)
  }

  lemma {:induction false} BuiltIsSent(st: State, session: string, n: nat, s: Series)
    requires ShippedOk(st, session) && n <= |st.sent|
    ensures forall k | 1 <= k <= n :: Retry.BatchID(session, k) in st.sender.built
    ensures BuiltAmount(st.sender, session, n, s) == SumOfAll(st.sent[..n], s)
  {
    hide Retry.Inv, Retry.BatchID, ShippableOf, SumOf, CountersOf, ValuesOf, UniquesOf, Amount;
    assert forall k | 0 <= k < |st.sent| :: PayloadIs(st.sender, session, k, st.sent[k]);
    forall k | 1 <= k <= n ensures Retry.BatchID(session, k) in st.sender.built {
      assert PayloadIs(st.sender, session, k - 1, st.sent[k - 1]);
    }
    if n > 0 {
      BuiltIsSent(st, session, n - 1, s);
      assert st.sent[..n][..n - 1] == st.sent[..n - 1];
      assert PayloadIs(st.sender, session, n - 1, st.sent[n - 1]);
      CountersConserve(st.sent[n - 1], s);
    }
  }

  /** As long as sending has not stopped, for every series the counters of all
      payloads ever built plus the pending batch are exactly the dequeued Count
      deltas plus, for a tracked series, the rises of its Total samples. */
  lemma CountersConserved(session: string, inputs: seq<Input>, s: Series)
    requires OwnsKey(Dequeued(inputs), s)
    requires !RunOf(session, inputs).sender.stopped
    ensures var st, es := RunOf(session, inputs), Dequeued(inputs);
            && (forall k | 1 <= k <= st.sender.issued :: Retry.BatchID(session, k) in st.sender.built)
            && BuiltAmount(st.sender, session, st.sender.issued, s) + SumOf(st.batch, s)
               == SumOf(es, s) + (if SeriesKey(s) in st.totals then Rises(SamplesOf(es, s)) else 0.0)
  {
    hide RunOf, Dequeued, OwnsKey, SeriesKey, SumOf, Rises, SamplesOf, ConvertAll, Flatten, ShippableOf, Retry.Inv,
         Retry.BatchID, PayloadIs, SumOfAll, BuiltAmount;
    var st, es := RunOf(session, inputs), Dequeued(inputs);
    RunKeepsOk(session, inputs);
    ConversionAccount(es, s);
    BuiltIsSent(st, session, |st.sent|, s);
    assert st.sent[..|st.sent|] == st.sent;
    SumOfShippable(st.flushed, s);
    SumOfFlatten(st.flushed, s);
    SumOfConcat(Flatten(st.flushed), st.batch, s);
  }

  /** After a tick nothing is pending: the payloads alone account for everything. */
  lemma TickAccountsForAll(session: string, inputs: seq<Input>, s: Series)
    requires OwnsKey(Dequeued(inputs), s) && inputs != [] && inputs[|inputs| - 1].Tick?
    requires !RunOf(session, inputs).sender.stopped
    ensures var st, es := RunOf(session, inputs), Dequeued(inputs);
            && (forall k | 1 <= k <= st.sender.issued :: Retry.BatchID(session, k) in st.sender.built)
            && BuiltAmount(st.sender, session, st.sender.issued, s)
               == SumOf(es, s) + (if SeriesKey(s) in st.totals then Rises(SamplesOf(es, s)) else 0.0)
            && BuiltValues(st.sender, session, st.sender.issued) == ValuesOf(es)
  {
    hide RunOf, Dequeued, OwnsKey, SeriesKey, Rises, SamplesOf, Retry.BatchID, BuiltAmount, BuiltValues, HandsOver,
         Retry.Retries;
    var mid := TickFlushes(session, inputs);
    CountersConserved(session, inputs, s);
    ValuesConserved(session, inputs);
    assert RunOf(session, inputs).batch == [];
    assert BuiltValues(RunOf(session, inputs).sender, session, RunOf(session, inputs).sender.issued) + []
        == BuiltValues(RunOf(session, inputs).sender, session, RunOf(session, inputs).sender.issued);
  }

  /** Value samples of the first n payloads ever built, in order. */
  ghost function BuiltValues(sender: Retry.State, session: string, n: nat): seq<ValueEvent>
    requires forall k | 1 <= k <= n :: Retry.BatchID(session, k) in sender.built
  {
    if n == 0 then []
    else BuiltValues(sender, session, n - 1) + sender.built[Retry.BatchID(session, n)].values
  }

  lemma {:induction false} ValuesOfFlatten(chunks: seq<seq<Event>>)
    ensures ValuesOf(Flatten(ShippableOf(chunks))) == ValuesOf(Flatten(chunks))
  {
    if chunks != [] {
      hide ValuesOf, CountersOf, UniquesOf, Shippable;
      var init, last := chunks[..|chunks| - 1], chunks[|chunks| - 1];
      ValuesOfFlatten(init);
      ValuesForwarded(Flatten(init), last, Event(ValueKind, Series("", []), 0.0, "", 0));
      if Shippable(last) {
        FlattenSnoc(ShippableOf(init), last);
        ValuesForwarded(Flatten(ShippableOf(init)), last, Event(ValueKind, Series("", []), 0.0, "", 0));
      } else { NotShippable(last); }
    }
  }

  lemma NotShippable(chunk: seq<Event>)
    requires !Shippable(chunk)
    ensures ValuesOf(chunk) == []
  {
  }

  lemma {:induction false} BuiltValuesAreSent(st: State, session: string, n: nat)
    requires ShippedOk(st, session) && n <= |st.sent|
    ensures forall k | 1 <= k <= n :: Retry.BatchID(session, k) in st.sender.built
    ensures BuiltValues(st.sender, session, n) == ValuesOf(Flatten(st.sent[..n]))
  {
    hide Retry.Inv, Retry.BatchID, ShippableOf, CountersOf, UniquesOf;
    assert forall k | 0 <= k < |st.sent| :: PayloadIs(st.sender, session, k, st.sent[k]);
    forall k | 1 <= k <= n ensures Retry.BatchID(session, k) in st.sender.built {
      assert PayloadIs(st.sender, session, k - 1, st.sent[k - 1]);
    }
    if n > 0 {
      BuiltValuesAreSent(st, session, n - 1);
      assert st.sent[..n][..n - 1] == st.sent[..n - 1];
      assert PayloadIs(st.sender, session, n - 1, st.sent[n - 1]);
      ValuesForwarded(Flatten(st.sent[..n - 1]), st.sent[n - 1], Event(ValueKind, Series("", []), 0.0, "", 0));
    }
  }

  /** As long as sending has not stopped, the value samples of all payloads in order,
      and then those pending, are exactly the dequeued Value events in order. */
  lemma ValuesConserved(session: string, inputs: seq<Input>)
    requires !RunOf(session, inputs).sender.stopped
    ensures var st := RunOf(session, inputs);
            && (forall k | 1 <= k <= st.sender.issued :: Retry.BatchID(session, k) in st.sender.built)
            && BuiltValues(st.sender, session, st.sender.issued) + ValuesOf(st.batch) == ValuesOf(Dequeued(inputs))
  {
    hide RunOf, Dequeued, ConvertAll, Flatten, ShippableOf, Retry.Inv, Retry.BatchID, PayloadIs, BuiltValues, ValuesOf;
    var st, es := RunOf(session, inputs), Dequeued(inputs);
    RunKeepsOk(session, inputs);
    OthersPass(es);
    BuiltValuesAreSent(st, session, |st.sent|);
    assert st.sent[..|st.sent|] == st.sent;
    ValuesOfFlatten(st.flushed);
    ValuesForwarded(Flatten(st.flushed), st.batch, Event(ValueKind, Series("", []), 0.0, "", 0));
  }

  /** As long as sending has not stopped, a flushed batch that carries anything has
      become a payload. */
  lemma FlushedIsBuilt(session: string, inputs: seq<Input>, chunk: seq<Event>) returns (n: nat)
    requires !RunOf(session, inputs).sender.stopped
    requires chunk in RunOf(session, inputs).flushed && Carries(chunk)
    ensures 1 <= n <= RunOf(session, inputs).sender.issued
    ensures var id, built := Retry.BatchID(session, n), RunOf(session, inputs).sender.built;
            id in built && built[id] == PayloadOf(chunk, id)
  {
    hide RunOf, CutOk, Carries, Retry.Inv, Retry.BatchID, PayloadOf;
    var st := RunOf(session, inputs);
    RunKeepsOk(session, inputs);
    PayloadIfCarries(chunk, "");
    InShippable(st.flushed, chunk);
    var k :| 0 <= k < |st.sent| && st.sent[k] == chunk;
    assert PayloadIs(st.sender, session, k, st.sent[k]);
    n := k + 1;
  }

  lemma {:induction false} InShippable(chunks: seq<seq<Event>>, chunk: seq<Event>)
    requires chunk in chunks && Shippable(chunk)
    ensures chunk in ShippableOf(chunks)
  {
    hide Shippable;
    var init, last := chunks[..|chunks| - 1], chunks[|chunks| - 1];
    assert chunks == init + [last];
    if chunk != last { InShippable(init, chunk); }
  }

  /** As long as sending has not stopped, every dequeued unique event with an id is in
      the pending batch or in a flushed one whose payload holds its key. */
  lemma UniquesConserved(session: string, inputs: seq<Input>, e: Event) returns (chunk: seq<Event>, n: nat)
    requires !RunOf(session, inputs).sender.stopped
    requires e in Dequeued(inputs) && e.kind == UniqueKind && e.uniqueID != ""
    ensures e in chunk
    ensures var st, key := RunOf(session, inputs), UniqueKey(e.series, e.uniqueID);
            || (n == 0 && chunk == st.batch && SeenUnique(UniquesOf(st.batch), key))
            || (1 <= n <= st.sender.issued && chunk in st.flushed
                && Retry.BatchID(session, n) in st.sender.built
                && SeenUnique(st.sender.built[Retry.BatchID(session, n)].uniques, key))
  {
    hide RunOf, Dequeued, Converted, Retry.BatchID, UniqueKey, SeenUnique, UniquesOf;
    var st := RunOf(session, inputs);
    var from := BatchesAreStream(session, inputs);
    InStream(Dequeued(inputs), Flatten(st.flushed) + st.batch, from, e);
    if e in st.batch {
      chunk, n := st.batch, 0;
    } else {
      chunk := ChunkOf(st.flushed, e);
      assert Carries(chunk);
      n := FlushedIsBuilt(session, inputs, chunk);
    }
    UniquesAreLeading(chunk);
  }

  /** Events that are not Totals are kept. */
  lemma InStream(es: seq<Event>, out: seq<Event>, from: seq<nat>, e: Event)
    requires Converted(es, out, from) && e in es && e.kind != TotalKind
    ensures e in out
  {
    var i :| 0 <= i < |es| && es[i] == e;
    hide Stored;
    assert i in from || Droppable(es, i);
    var k :| 0 <= k < |from| && from[k] == i;
    assert Becomes(es, from[k], out[k]);
  }

  lemma {:induction false} ChunkOf(chunks: seq<seq<Event>>, e: Event) returns (chunk: seq<Event>)
    requires e in Flatten(chunks)
    ensures chunk in chunks && e in chunk
  {
    var init, last := chunks[..|chunks| - 1], chunks[|chunks| - 1];
    if e in last { chunk := last; }
    else { chunk := ChunkOf(init, e); }
  }

  /** In every run each payload is the aggregation of one batch of at most 512 events
      without Totals, and holds no two counters of one series. */
  lemma PayloadsWellFormed(session: string, inputs: seq<Input>, n: nat)
    returns (chunk: seq<Event>)
    requires 1 <= n <= RunOf(session, inputs).sender.issued
    ensures chunk in RunOf(session, inputs).flushed && 1 <= |chunk| <= MAX_BATCH
    ensures forall e | e in chunk :: e.kind != TotalKind
    ensures var id := Retry.BatchID(session, n);
            && id in RunOf(session, inputs).sender.built
            && RunOf(session, inputs).sender.built[id] == PayloadOf(chunk, id)
            && forall i, j | 0 <= i < j < |CountersOf(chunk)| :: CountersOf(chunk)[i].series != CountersOf(chunk)[j].series
  {
    hide RunOf, Dequeued, Retry.Inv, Retry.BatchID, CountersOf, ValuesOf, UniquesOf, ShippableOf, ConvertAll;
    var st, es := RunOf(session, inputs), Dequeued(inputs);
    RunKeepsOk(session, inputs);
    chunk := st.sent[n - 1];
    assert PayloadIs(st.sender, session, n - 1, chunk);
    forall i, j | 0 <= i < j < |CountersOf(chunk)| ensures CountersOf(chunk)[i].series != CountersOf(chunk)[j].series {
      OneCounterPerSeries(chunk, i, j);
    }
    NoTotals(es);
    var k :| 0 <= k < |st.flushed| && st.flushed[k] == chunk;
    InFlatten(st.flushed, k);
    forall e | e in chunk ensures e.kind != TotalKind { assert e in Flatten(st.flushed) + st.batch; }
  }

  lemma {:induction false} InFlatten(chunks: seq<seq<Event>>, k: nat)
    requires k < |chunks|
    ensures forall e | e in chunks[k] :: e in Flatten(chunks)
  {
    if k < |chunks| - 1 { InFlatten(chunks[..|chunks| - 1], k); }
  }
}
