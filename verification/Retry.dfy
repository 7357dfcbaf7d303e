/** The sending half of the client (client.go): attempt budget, bounded retry queue,
    client-wide backoff gate and the permanent stop, as a machine over clock
    readings and transport outcomes. */
module Retry {
  import opened Text
  import opened Events
  import opened Backoff

  const MAX_QUEUE: nat := 128
  const MAX_ATTEMPTS: nat := 8

  /** How one Transport.Send ends, after error classification. */
  datatype Reply = Ok | StopIngest | Transient | Permanent

  datatype Entry = Entry(payload: Payload, attempts: nat, due: int)

  /** One call of Transport.Send. */
  datatype Attempt = Attempt(payload: Payload, start: int, reply: Reply)

  datatype Fate =
    | Delivered
    | RefusedForGood      // the transport asked the client to stop
    | NotRetryable
    | BudgetExhausted
    | QueueFull
    | AfterStop           // taken out of the queue when sending had stopped

  /** The client, plus the history of what it did: every Send, every payload built
      and where each one ended. */
  datatype State = State(
    now: int,
    backoffAttempt: nat,
    gate: Option<int>,
    stopped: bool,
    issued: nat,
    queue: seq<Entry>,
    log: seq<Attempt>,
    built: map<string, Payload>,
    fates: map<string, Fate>)

  /** One send's surroundings: how long each stretch takes, what the jitter readings
      are and how the transport answers. */
  datatype Env = Env(
    wait: nat, travel: nat, settle: nat, requeue: nat, pause: nat,
    gateReading: nat, retryReading: nat, reply: Reply)

  const Initial: State := State(0, 0, None, false, 0, [], [], map[], map[])

  function BatchID(session: string, n: nat): string
  {
    session + "-" + Format(n, 36)
  }

  /** The id is the session, a dash, and the number in base 36. */
  lemma BatchIDNumeral(session: string, n: nat)
    ensures var id := BatchID(session, n);
            |id| > |session| + 1 && id[..|session| + 1] == session + "-" && Value(id[|session| + 1..], 36) == n
  {
    ValueOfFormat(n, 36);
    assert BatchID(session, n)[|session| + 1..] == Format(n, 36);
  }

  lemma BatchIDInjective(session: string, a: nat, b: nat)
    requires BatchID(session, a) == BatchID(session, b)
    ensures a == b
  {
    var prefix := session + "-";
    assert BatchID(session, a)[|prefix|..] == Format(a, 36);
    assert BatchID(session, b)[|prefix|..] == Format(b, 36);
    FormatInjective(a, b, 36);
  }

  /* ---------- the machine ---------- */

  /** enqueueRetryAt: budget first, then room. */
  function EnqueueAt(st: State, p: Payload, attempts: nat, due: int): State
  {
    if attempts >= MAX_ATTEMPTS then st.(fates := st.fates[p.batchID := BudgetExhausted])
    else if |st.queue| >= MAX_QUEUE then st.(fates := st.fates[p.batchID := QueueFull])
    else st.(queue := st.queue + [Entry(p, attempts, due)])
  }

  predicate GateClosed(st: State)
  {
    st.gate.Some? && st.now < st.gate.value
  }

  function NoteTransient(st: State, env: Env): State
  {
    var now := st.now + env.settle;
    st.(now := now, backoffAttempt := st.backoffAttempt + 1,
        gate := Some(now + Capped(st.backoffAttempt + 1, GATE_MAX_DELAY) + env.gateReading % GATE_JITTER))
  }

  function AfterReply(st: State, p: Payload, attempt: nat, env: Env): State
  {
    match env.reply
    case Ok => st.(backoffAttempt := 0, gate := None, fates := st.fates[p.batchID := Delivered])
    case StopIngest => st.(stopped := true, fates := st.fates[p.batchID := RefusedForGood])
    case Permanent => st.(fates := st.fates[p.batchID := NotRetryable])
    case Transient =>
      var noted := NoteTransient(st, env);
      var later := noted.(now := noted.now + env.requeue);
      EnqueueAt(later, p, attempt,
                later.now + Capped(attempt, RETRY_MAX_DELAY) + env.retryReading % RETRY_JITTER)
  }

  /** sendPayload. Its early return on an empty payload never fires: only non-empty
      payloads are built, and BuiltOk keeps it so. */
  function SendPayload(st: State, p: Payload, attempt: nat, env: Env): State
    requires attempt >= 1
  {
    if st.stopped then st.(fates := st.fates[p.batchID := AfterStop])
    else
      var ready := st.(now := st.now + env.wait);
      if GateClosed(ready) then EnqueueAt(ready, p, attempt - 1, ready.gate.value)
      else
        var sent := ready.(log := ready.log + [Attempt(p, ready.now, env.reply)], now := ready.now + env.travel);
        AfterReply(sent, p, attempt, env)
  }

  /** flush: build with a fresh id, then send; nothing once stopped. */
  function Flush(st: State, session: string, content: Payload, env: Env): State
  {
    if st.stopped || content.Empty() then st
    else
      var p := content.(batchID := BatchID(session, st.issued + 1));
      SendPayload(st.(issued := st.issued + 1, built := st.built[p.batchID := p]), p, 1, env)
  }

  /** The loop of flushRetryQueue from position i, `done` sends into the pass, with
      the clock reading the due times are compared to. */
  function Pass(st: State, i: nat, done: nat, limit: nat, reading: int, ignoreBackoff: bool, envs: nat -> Env): State
    decreases if done < limit then limit - done else 0, if i < |st.queue| then |st.queue| - i else 0
  {
    if i >= |st.queue| || done >= limit then st
    else if !ignoreBackoff && st.queue[i].due > reading then
      Pass(st, i + 1, done, limit, reading, ignoreBackoff, envs)
    else
      var after := Retake(st, i, envs(done));
      Pass(after, i, done + 1, limit, after.now, ignoreBackoff, envs)
  }

  function Without(queue: seq<Entry>, i: nat): seq<Entry>
    requires i < |queue|
  {
    queue[..i] + queue[i + 1..]
  }

  /** Take entry i out of the queue, send it, read the clock. */
  function Retake(st: State, i: nat, env: Env): State
    requires i < |st.queue|
  {
    var item := st.queue[i];
    var sent := SendPayload(st.(queue := Without(st.queue, i)), item.payload, item.attempts + 1, env);
    sent.(now := sent.now + env.pause)
  }

  function FlushRetryQueue(st: State, ignoreBackoff: bool, limit: nat, envs: nat -> Env): State
  {
    if st.stopped then st
    else Pass(st, 0, 0, if limit > 0 && |st.queue| > limit then limit else |st.queue|, st.now, ignoreBackoff, envs)
  }

  /* ---------- steps and runs ---------- */

  datatype Step =
    | FlushBatch(idle: nat, content: Payload, env: Env)
    | RetryPass(idle: nat, ignoreBackoff: bool, limit: nat, envs: nat -> Env)

  function Next(st: State, session: string, step: Step): State
  {
    match step
    case FlushBatch(idle, content, env) => Flush(st.(now := st.now + idle), session, content, env)
    case RetryPass(idle, ignore, limit, envs) => FlushRetryQueue(st.(now := st.now + idle), ignore, limit, envs)
  }

  function RunOf(session: string, steps: seq<Step>): State
  {
    if steps == [] then Initial
    else Next(RunOf(session, steps[..|steps| - 1]), session, steps[|steps| - 1])
  }

  /* ---------- histories ---------- */

  /** How often a batch was handed to the transport. */
  function Sends(log: seq<Attempt>, id: string): nat
  {
    if log == [] then 0
    else Sends(log[..|log| - 1], id) + if log[|log| - 1].payload.batchID == id then 1 else 0
  }

  /** How the latest Send of a batch ended; None if it was never sent. */
  function LastReply(log: seq<Attempt>, id: string): Option<Reply>
  {
    if log == [] then None
    else if log[|log| - 1].payload.batchID == id then Some(log[|log| - 1].reply)
    else LastReply(log[..|log| - 1], id)
  }

  /** Start times of the transient failures since the last success. */
  function Streak(log: seq<Attempt>): seq<int>
  {
    if log == [] then []
    else
      var init, last := Streak(log[..|log| - 1]), log[|log| - 1];
      match last.reply
      case Ok => []
      case Transient => init + [last.start]
      case _ => init
  }

  lemma SendsSnoc(log: seq<Attempt>, a: Attempt, id: string)
    ensures Sends(log + [a], id) == Sends(log, id) + if a.payload.batchID == id then 1 else 0
    ensures LastReply(log + [a], id) == if a.payload.batchID == id then Some(a.reply) else LastReply(log, id)
    ensures Streak(log + [a]) == match a.reply
                                 case Ok => []
                                 case Transient => Streak(log) + [a.start]
                                 case _ => Streak(log)
  {
    assert (log + [a])[..|log + [a]| - 1] == log;
  }

  /* ---------- the invariant ---------- */

  ghost predicate EntryOk(e: Entry, st: State)
  {
    var id := e.payload.batchID;
    && id in st.built && st.built[id] == e.payload
    && e.attempts == Sends(st.log, id) && e.attempts < MAX_ATTEMPTS
    && Unsettled(LastReply(st.log, id))
  }

  /** Never sent, or last refused with an error worth retrying. */
  predicate Unsettled(last: Option<Reply>)
  {
    last == None || last == Some(Transient)
  }

  ghost predicate QueueOk(st: State)
  {
    && |st.queue| <= MAX_QUEUE
    && (forall k | 0 <= k < |st.queue| :: EntryOk(st.queue[k], st))
    && (forall j, k | 0 <= j < k < |st.queue| :: st.queue[j].payload.batchID != st.queue[k].payload.batchID)
  }

  ghost predicate Queued(queue: seq<Entry>, id: string)
  {
    exists k :: 0 <= k < |queue| && queue[k].payload.batchID == id
  }

  /** What each ending says about the sends before it: how many there were and how the
      latest one went. */
  predicate FateOk(fate: Fate, sends: nat, last: Option<Reply>)
  {
    && sends <= MAX_ATTEMPTS
    && match fate
       case Delivered => last == Some(Ok)
       case RefusedForGood => last == Some(StopIngest)
       case NotRetryable => last == Some(Permanent)
       case BudgetExhausted => sends == MAX_ATTEMPTS && last == Some(Transient)
       case QueueFull => sends <= 1 && Unsettled(last)
       case AfterStop => Unsettled(last)
  }

  /** Every built payload is in the air, queued or ended, and in one of these only. */
  ghost predicate PlacesOk(st: State, air: set<string>)
  {
    && (forall id :: id in st.built <==> id in air || id in st.fates || Queued(st.queue, id))
    && (forall id | id in air :: id !in st.fates && !Queued(st.queue, id))
    && (forall id | id in st.fates ::
          !Queued(st.queue, id) && FateOk(st.fates[id], Sends(st.log, id), LastReply(st.log, id)))
  }

  ghost predicate LogOk(st: State)
  {
    && (forall k | 0 <= k < |st.log| ::
          st.log[k].payload.batchID in st.built && st.built[st.log[k].payload.batchID] == st.log[k].payload)
    && (forall k | 0 <= k < |st.log| :: st.log[k].reply == StopIngest ==> st.stopped && k == |st.log| - 1)
  }

  ghost predicate Spaced(streak: seq<int>)
  {
    forall k | 0 < k < |streak| :: streak[k] >= streak[k - 1] + Capped(k, GATE_MAX_DELAY)
  }

  ghost predicate GateOk(st: State)
  {
    var streak := Streak(st.log);
    && st.backoffAttempt == |streak| && Spaced(streak)
    && (st.gate.None? <==> streak == [])
    && (streak != [] ==> st.gate.value >= streak[|streak| - 1] + Capped(|streak|, GATE_MAX_DELAY))
  }

  ghost predicate BuiltOk(st: State, session: string)
  {
    && (forall n | 1 <= n <= st.issued :: BatchID(session, n) in st.built)
    && (forall id | id in st.built :: st.built[id].batchID == id && !st.built[id].Empty()
          && exists n :: 1 <= n <= st.issued && BatchID(session, n) == id)
  }

  ghost predicate Inv(st: State, session: string, air: set<string>)
  {
    QueueOk(st) && PlacesOk(st, air) && LogOk(st) && GateOk(st) && BuiltOk(st, session)
  }

  /* ---------- every step keeps it ---------- */

  /** A payload that has just been built or taken out of the queue. */
  ghost predicate InAir(st: State, p: Payload, sends: nat, last: Option<Reply>)
  {
    && p.batchID in st.built && st.built[p.batchID] == p
    && Sends(st.log, p.batchID) == sends && LastReply(st.log, p.batchID) == last
  }

  lemma FateKeepsInv(st: State, session: string, p: Payload, fate: Fate)
    requires Inv(st, session, {p.batchID}) && FateOk(fate, Sends(st.log, p.batchID), LastReply(st.log, p.batchID))
    ensures Inv(st.(fates := st.fates[p.batchID := fate]), session, {})
  {
    hide LastReply, Sends, Streak, BuiltOk, GateOk, LogOk, FateOk, Queued;
    var st' := st.(fates := st.fates[p.batchID := fate]);
    SameControl(st, st', session);
  }

  /** Built payloads, log and gate do not look at queue, fates or clock. */
  lemma SameControl(st: State, st': State, session: string)
    requires BuiltOk(st, session) && GateOk(st) && LogOk(st)
    requires st' == st.(queue := st'.queue, fates := st'.fates, now := st'.now)
    ensures BuiltOk(st', session) && GateOk(st') && LogOk(st')
  {
  }

  lemma EnqueueKeepsInv(st: State, session: string, p: Payload, attempts: nat, due: int, last: Option<Reply>)
    requires Inv(st, session, {p.batchID}) && InAir(st, p, attempts, last) && attempts <= MAX_ATTEMPTS
    requires Unsettled(last) && (attempts == MAX_ATTEMPTS ==> last == Some(Transient))
    requires |st.queue| < MAX_QUEUE || attempts <= 1
    ensures Inv(EnqueueAt(st, p, attempts, due), session, {})
  {
    hide QueueOk, PlacesOk, GateOk, BuiltOk, LogOk, LastReply, Sends, Streak;
    if attempts >= MAX_ATTEMPTS { FateKeepsInv(st, session, p, BudgetExhausted); }
    else if |st.queue| >= MAX_QUEUE { FateKeepsInv(st, session, p, QueueFull); }
    else {
      SameControl(st, st.(queue := st.queue + [Entry(p, attempts, due)]), session);
      assert !Queued(st.queue, p.batchID) by { AirNotQueued(st, p.batchID); }
      EnqueuedQueue(st, p, attempts, due, last);
      EnqueuedPlaces(st, p, attempts, due);
    }
  }

  lemma AirNotQueued(st: State, id: string)
    requires PlacesOk(st, {id})
    ensures !Queued(st.queue, id)
  {
  }

  lemma EnqueuedQueue(st: State, p: Payload, attempts: nat, due: int, last: Option<Reply>)
    requires QueueOk(st) && !Queued(st.queue, p.batchID) && InAir(st, p, attempts, last) && Unsettled(last)
    requires attempts < MAX_ATTEMPTS && |st.queue| < MAX_QUEUE
    ensures QueueOk(st.(queue := st.queue + [Entry(p, attempts, due)]))
  {
    hide LastReply, Sends;
    var st' := st.(queue := st.queue + [Entry(p, attempts, due)]);
    forall k | 0 <= k < |st'.queue| ensures EntryOk(st'.queue[k], st') {
      if k < |st.queue| { assert EntryOk(st.queue[k], st); }
    }
  }

  lemma EnqueuedPlaces(st: State, p: Payload, attempts: nat, due: int)
    requires PlacesOk(st, {p.batchID})
    ensures PlacesOk(st.(queue := st.queue + [Entry(p, attempts, due)]), {})
  {
    hide LastReply, Sends, FateOk, Queued;
    var st' := st.(queue := st.queue + [Entry(p, attempts, due)]);
    forall id ensures Queued(st'.queue, id) <==> Queued(st.queue, id) || id == p.batchID {
      QueuedSnoc(st.queue, Entry(p, attempts, due), id);
    }
  }

  lemma QueuedSnoc(queue: seq<Entry>, e: Entry, id: string)
    ensures Queued(queue + [e], id) <==> Queued(queue, id) || id == e.payload.batchID
  {
    var more := queue + [e];
    assert more[|queue|] == e;
    if Queued(queue, id) {
      var k :| 0 <= k < |queue| && queue[k].payload.batchID == id;
      assert more[k] == queue[k];
    }
  }

  /** State after a Send's reply has touched log, stop flag and gate, before the
      payload's fate is settled. */
  function Recorded(st: State, p: Payload, env: Env): State
  {
    var sent := st.(log := st.log + [Attempt(p, st.now, env.reply)], now := st.now + env.travel);
    match env.reply
    case Ok => sent.(backoffAttempt := 0, gate := None)
    case StopIngest => sent.(stopped := true)
    case Permanent => sent
    case Transient => var noted := NoteTransient(sent, env); noted.(now := noted.now + env.requeue)
  }

  lemma RecordedGate(st: State, p: Payload, env: Env)
    requires GateOk(st) && !GateClosed(st)
    ensures GateOk(Recorded(st, p, env))
  {
    hide Streak, LastReply, Sends, Capped;
    SendsSnoc(st.log, Attempt(p, st.now, env.reply), p.batchID);
  }

  lemma RecordedLog(st: State, p: Payload, env: Env)
    requires LogOk(st) && !st.stopped && p.batchID in st.built && st.built[p.batchID] == p
    ensures LogOk(Recorded(st, p, env))
  {
  }

  lemma RecordedQueue(st: State, p: Payload, env: Env)
    requires QueueOk(st) && !Queued(st.queue, p.batchID)
    ensures QueueOk(Recorded(st, p, env))
  {
    hide LastReply, Sends, Streak;
    var st' := Recorded(st, p, env);
    forall k | 0 <= k < |st.queue| ensures EntryOk(st'.queue[k], st') {
      assert EntryOk(st.queue[k], st);
      SendsSnoc(st.log, Attempt(p, st.now, env.reply), st.queue[k].payload.batchID);
    }
  }

  lemma RecordedKeepsInv(st: State, session: string, p: Payload, sends: nat, last: Option<Reply>, env: Env)
    requires Inv(st, session, {p.batchID}) && InAir(st, p, sends, last) && !st.stopped && !GateClosed(st)
    ensures Inv(Recorded(st, p, env), session, {p.batchID})
    ensures InAir(Recorded(st, p, env), p, sends + 1, Some(env.reply))
  {
    RecordedGate(st, p, env);
    RecordedLog(st, p, env);
    RecordedQueue(st, p, env);
    RecordedPlaces(st, p, env);
    SendsSnoc(st.log, Attempt(p, st.now, env.reply), p.batchID);
    hide LastReply, Sends, Streak, Format, BatchID, GateOk, LogOk, QueueOk, PlacesOk, GateClosed, Capped;
  }

  lemma RecordedPlaces(st: State, p: Payload, env: Env)
    requires PlacesOk(st, {p.batchID})
    ensures PlacesOk(Recorded(st, p, env), {p.batchID})
  {
    hide LastReply, Sends, FateOk, Queued, Capped;
    forall id | id != p.batchID
      ensures Sends(Recorded(st, p, env).log, id) == Sends(st.log, id)
      ensures LastReply(Recorded(st, p, env).log, id) == LastReply(st.log, id)
    {
      SendsSnoc(st.log, Attempt(p, st.now, env.reply), id);
    }
  }

  lemma WaitKeepsInv(st: State, session: string, air: set<string>, delta: nat)
    requires Inv(st, session, air)
    ensures Inv(st.(now := st.now + delta), session, air)
  {
    hide LastReply, Sends, Streak, Format, BatchID, FateOk;
    var st' := st.(now := st.now + delta);
    SameControl(st, st', session);
    forall k | 0 <= k < |st'.queue| ensures EntryOk(st'.queue[k], st') { assert EntryOk(st.queue[k], st); }
  }

  /** One sendPayload keeps the books: the payload leaves the air for exactly one
      place, and a retried one is never refused for lack of room. */
  lemma SendKeepsInv(st: State, session: string, p: Payload, attempt: nat, last: Option<Reply>, env: Env)
    requires Inv(st, session, {p.batchID}) && 1 <= attempt <= MAX_ATTEMPTS && InAir(st, p, attempt - 1, last)
    requires Unsettled(last)
    requires |st.queue| < MAX_QUEUE || attempt == 1
    ensures Inv(SendPayload(st, p, attempt, env), session, {})
  {
    hide LastReply, Sends, Streak, Format, BatchID, Inv, Capped;
    if st.stopped { FateKeepsInv(st, session, p, AfterStop); }
    else {
      WaitKeepsInv(st, session, {p.batchID}, env.wait);
      var ready := st.(now := st.now + env.wait);
      if GateClosed(ready) { EnqueueKeepsInv(ready, session, p, attempt - 1, ready.gate.value, last); }
      else {
        RecordedKeepsInv(ready, session, p, attempt - 1, last, env);
        var recorded := Recorded(ready, p, env);
        match env.reply
        case Ok => FateKeepsInv(recorded, session, p, Delivered);
        case StopIngest => FateKeepsInv(recorded, session, p, RefusedForGood);
        case Permanent => FateKeepsInv(recorded, session, p, NotRetryable);
        case Transient =>
          EnqueueKeepsInv(recorded, session, p, attempt,
                          recorded.now + Capped(attempt, RETRY_MAX_DELAY) + env.retryReading % RETRY_JITTER,
                          Some(Transient));
      }
    }
  }

  /** Taking an entry out of the queue puts its payload in the air. */
  lemma TakeKeepsInv(st: State, session: string, i: nat)
    requires Inv(st, session, {}) && i < |st.queue|
    ensures var st' := st.(queue := Without(st.queue, i));
            var e := st.queue[i];
            Inv(st', session, {e.payload.batchID})
            && InAir(st', e.payload, e.attempts, LastReply(st.log, e.payload.batchID))
            && Unsettled(LastReply(st.log, e.payload.batchID))
            && e.attempts < MAX_ATTEMPTS && |st'.queue| < MAX_QUEUE
  {
    assert EntryOk(st.queue[i], st) && |st.queue| <= MAX_QUEUE;
    hide LastReply, Sends, Streak, QueueOk, PlacesOk, GateOk, BuiltOk, LogOk;
    SameControl(st, st.(queue := Without(st.queue, i)), session);
    TakenQueue(st, i);
    TakenPlaces(st, i);
  }

  lemma TakenQueue(st: State, i: nat)
    requires QueueOk(st) && i < |st.queue|
    ensures var st' := st.(queue := Without(st.queue, i));
            QueueOk(st') && !Queued(st'.queue, st.queue[i].payload.batchID)
  {
    hide LastReply, Sends;
    var st', e := st.(queue := Without(st.queue, i)), st.queue[i];
    forall k | 0 <= k < |st'.queue|
      ensures EntryOk(st'.queue[k], st') && st'.queue[k].payload.batchID != e.payload.batchID
    {
      assert EntryOk(st.queue[if k < i then k else k + 1], st);
    }
  }

  lemma TakenPlaces(st: State, i: nat)
    requires PlacesOk(st, {}) && QueueOk(st) && i < |st.queue|
    ensures PlacesOk(st.(queue := Without(st.queue, i)), {st.queue[i].payload.batchID})
  {
    TakenQueue(st, i);
    assert Queued(st.queue, st.queue[i].payload.batchID);
    hide LastReply, Sends, FateOk, Queued, QueueOk, Without;
    forall id
      ensures Queued(st.queue, id) <==> Queued(Without(st.queue, i), id) || id == st.queue[i].payload.batchID
    {
      QueuedWithout(st.queue, i, id);
    }
  }

  lemma QueuedWithout(queue: seq<Entry>, i: nat, id: string)
    requires i < |queue|
    ensures Queued(queue, id) <==> Queued(Without(queue, i), id) || id == queue[i].payload.batchID
  {
    var rest := Without(queue, i);
    if Queued(queue, id) && id != queue[i].payload.batchID {
      var k :| 0 <= k < |queue| && queue[k].payload.batchID == id;
      assert rest[if k < i then k else k - 1] == queue[k];
    }
    if Queued(rest, id) {
      var k :| 0 <= k < |rest| && rest[k].payload.batchID == id;
      assert queue[if k < i then k else k + 1] == rest[k];
    }
  }

  lemma RetakeKeepsInv(st: State, session: string, i: nat, env: Env)
    requires Inv(st, session, {}) && i < |st.queue|
    ensures Inv(Retake(st, i, env), session, {})
  {
    hide Inv, LastReply, Sends, SendPayload, InAir;
    TakeKeepsInv(st, session, i);
    var item := st.queue[i];
    var taken := st.(queue := Without(st.queue, i));
    SendKeepsInv(taken, session, item.payload, item.attempts + 1, LastReply(st.log, item.payload.batchID), env);
    WaitKeepsInv(SendPayload(taken, item.payload, item.attempts + 1, env), session, {}, env.pause);
  }

  lemma {:induction false} PassKeepsInv(st: State, session: string, i: nat, done: nat, limit: nat, reading: int,
                                        ignoreBackoff: bool, envs: nat -> Env)
    requires Inv(st, session, {})
    ensures Inv(Pass(st, i, done, limit, reading, ignoreBackoff, envs), session, {})
    decreases if done < limit then limit - done else 0, if i < |st.queue| then |st.queue| - i else 0
  {
    hide Inv, Retake;
    if i < |st.queue| && done < limit {
      if !ignoreBackoff && st.queue[i].due > reading {
        PassKeepsInv(st, session, i + 1, done, limit, reading, ignoreBackoff, envs);
      } else {
        var after := Retake(st, i, envs(done));
        RetakeKeepsInv(st, session, i, envs(done));
        PassKeepsInv(after, session, i, done + 1, limit, after.now, ignoreBackoff, envs);
      }
    }
  }

  /** A freshly built payload has an id never used before. */
  lemma BuildKeepsInv(st: State, session: string, content: Payload)
    requires Inv(st, session, {}) && !content.Empty()
    ensures var p := content.(batchID := BatchID(session, st.issued + 1));
            var st' := st.(issued := st.issued + 1, built := st.built[p.batchID := p]);
            p.batchID !in st.built && Inv(st', session, {p.batchID}) && InAir(st', p, 0, None)
  {
    var p := content.(batchID := BatchID(session, st.issued + 1));
    var st' := st.(issued := st.issued + 1, built := st.built[p.batchID := p]);
    hide LastReply, Sends, BatchID, BuiltOk, QueueOk, PlacesOk, GateOk, LogOk;
    FreshID(st, session);
    BuiltStep(st, session, p);
    BuildControl(st, st', p);
    NeverSent(st, p.batchID);
    BuildQueue(st, st', p);
    BuildPlaces(st, st', p);
  }

  lemma BuildControl(st: State, st': State, p: Payload)
    requires GateOk(st) && LogOk(st) && p.batchID !in st.built
    requires st' == st.(issued := st.issued + 1, built := st.built[p.batchID := p])
    ensures GateOk(st') && LogOk(st')
  {
    hide Streak, Capped, Spaced;
  }

  lemma BuildPlaces(st: State, st': State, p: Payload)
    requires PlacesOk(st, {}) && p.batchID !in st.built
    requires st' == st.(issued := st.issued + 1, built := st.built[p.batchID := p])
    ensures PlacesOk(st', {p.batchID})
  {
    hide LastReply, Sends, Queued, FateOk;
  }

  lemma BuildQueue(st: State, st': State, p: Payload)
    requires QueueOk(st) && p.batchID !in st.built
    requires st' == st.(issued := st.issued + 1, built := st.built[p.batchID := p])
    ensures QueueOk(st')
  {
    hide LastReply, Sends;
    forall k | 0 <= k < |st.queue| ensures EntryOk(st'.queue[k], st') { assert EntryOk(st.queue[k], st); }
  }

  lemma FreshID(st: State, session: string)
    requires BuiltOk(st, session)
    ensures BatchID(session, st.issued + 1) !in st.built
  {
    hide BatchID;
    var id := BatchID(session, st.issued + 1);
    if id in st.built {
      var n :| 1 <= n <= st.issued && BatchID(session, n) == id;
      BatchIDInjective(session, n, st.issued + 1);
    }
  }

  lemma BuiltStep(st: State, session: string, p: Payload)
    requires BuiltOk(st, session) && p.batchID == BatchID(session, st.issued + 1) && !p.Empty()
    ensures BuiltOk(st.(issued := st.issued + 1, built := st.built[p.batchID := p]), session)
  {
    hide BatchID;
    forall id | id in st.built || id == p.batchID ensures exists n :: 1 <= n <= st.issued + 1 && BatchID(session, n) == id {
      if id in st.built {
        var n :| 1 <= n <= st.issued && BatchID(session, n) == id;
        assert 1 <= n <= st.issued + 1;
      }
    }
  }

  lemma NeverSent(st: State, id: string)
    requires LogOk(st) && id !in st.built
    ensures Sends(st.log, id) == 0 && LastReply(st.log, id) == None
  {
    SendsZero(st.log, id);
  }

  lemma {:induction false} SendsZero(log: seq<Attempt>, id: string)
    requires forall k | 0 <= k < |log| :: log[k].payload.batchID != id
    ensures Sends(log, id) == 0 && LastReply(log, id) == None
  {
    if log != [] { SendsZero(log[..|log| - 1], id); }
  }

  lemma StepKeepsInv(st: State, session: string, step: Step)
    requires Inv(st, session, {})
    ensures Inv(Next(st, session, step), session, {})
  {
    hide Inv, SendPayload, Pass, InAir, BatchID;
    match step
    case FlushBatch(idle, content, env) =>
      WaitKeepsInv(st, session, {}, idle);
      var ready := st.(now := st.now + idle);
      if !ready.stopped && !content.Empty() {
        var p := content.(batchID := BatchID(session, ready.issued + 1));
        BuildKeepsInv(ready, session, content);
        SendKeepsInv(ready.(issued := ready.issued + 1, built := ready.built[p.batchID := p]), session, p, 1, None, env);
      }
    case RetryPass(idle, ignore, limit, envs) =>
      WaitKeepsInv(st, session, {}, idle);
      var ready := st.(now := st.now + idle);
      PassKeepsInv(ready, session, 0, 0, if limit > 0 && |ready.queue| > limit then limit else |ready.queue|,
                   ready.now, ignore, envs);
  }

  lemma {:induction false} RunKeepsInv(session: string, steps: seq<Step>)
    ensures Inv(RunOf(session, steps), session, {})
  {
    if steps != [] {
      hide Inv, Next;
      var init := steps[..|steps| - 1];
      RunKeepsInv(session, init);
      StepKeepsInv(RunOf(session, init), session, steps[|steps| - 1]);
    }
  }

  /* ---------- what this means for every run ---------- */

  /** In every run a queued entry's attempts are the Sends made for its payload, at
      most 7; nothing is sent more than 8 times; a Send always carries the payload
      built under its id. */
  lemma AttemptAccounting(session: string, steps: seq<Step>, k: nat, id: string)
    ensures var st := RunOf(session, steps);
            && (k < |st.queue| ==> st.queue[k].attempts == Sends(st.log, st.queue[k].payload.batchID) <= 7)
            && Sends(st.log, id) <= MAX_ATTEMPTS
            && (k < |st.log| ==> var p := st.log[k].payload; p.batchID in st.built && st.built[p.batchID] == p && !p.Empty())
  {
    hide RunOf, LastReply, Sends;
    RunKeepsInv(session, steps);
    var st := RunOf(session, steps);
    if k < |st.queue| { assert EntryOk(st.queue[k], st); }
    if id !in st.built { NeverSent(st, id); }
    else if id in st.fates { assert FateOk(st.fates[id], Sends(st.log, id), LastReply(st.log, id)); }
    else {
      var j :| 0 <= j < |st.queue| && st.queue[j].payload.batchID == id;
      assert EntryOk(st.queue[j], st);
    }
  }

  /** In every run each payload built so far is either queued, at one position, or
      has ended, and its Sends account for that: it is Delivered exactly when its latest
      Send succeeded, and is only still queued when no Send settled it; the queue holds
      at most 128. */
  lemma PayloadsConserved(session: string, steps: seq<Step>, n: nat)
    requires 1 <= n <= RunOf(session, steps).issued
    ensures var st, id := RunOf(session, steps), BatchID(session, n);
            && id in st.built && st.built[id].batchID == id
            && (Queued(st.queue, id) <==> id !in st.fates)
            && (Queued(st.queue, id) ==> Unsettled(LastReply(st.log, id)))
            && (LastReply(st.log, id) == Some(Ok) <==> id in st.fates && st.fates[id] == Delivered)
            && (forall j, k | 0 <= j < k < |st.queue| ::
                  st.queue[j].payload.batchID == id ==> st.queue[k].payload.batchID != id)
            && (id in st.fates ==> FateOk(st.fates[id], Sends(st.log, id), LastReply(st.log, id)))
            && |st.queue| <= MAX_QUEUE
  {
    hide RunOf, LastReply, Sends, BatchID;
    RunKeepsInv(session, steps);
    var st, id := RunOf(session, steps), BatchID(session, n);
    if Queued(st.queue, id) {
      var k :| 0 <= k < |st.queue| && st.queue[k].payload.batchID == id;
      assert EntryOk(st.queue[k], st);
    }
  }

  /** An entry taken out for retry has left room for itself. */
  lemma RetakeNeverLosesToFullQueue(st: State, i: nat, env: Env)
    requires i < |st.queue| <= MAX_QUEUE
    requires st.queue[i].payload.batchID !in st.fates
    ensures var id, st' := st.queue[i].payload.batchID, Retake(st, i, env);
            id in st'.fates ==> st'.fates[id] != QueueFull
  {
    hide Capped;
  }

  lemma {:induction false} StreakSpan(streak: seq<int>, k: nat)
    requires Spaced(streak) && k < |streak|
    ensures streak[k] >= streak[0] + GateTotal(k)
  {
    hide Capped;
    if k > 0 { StreakSpan(streak, k - 1); }
  }

  /** In every run the backoff counter is the number of transient failures since the
      last success, and six or more of them in a row span at least 31 seconds plus
      30 for each one past the sixth. */
  lemma OutageSpan(session: string, steps: seq<Step>)
    ensures var st := RunOf(session, steps);
            var streak := Streak(st.log);
            && st.backoffAttempt == |streak|
            && (|streak| >= 6 ==>
                  streak[|streak| - 1] - streak[0] >= 31 * SECOND + 30 * SECOND * (|streak| - 6))
  {
    hide RunOf, LastReply, Sends, Streak, GateTotal, QueueOk, PlacesOk, LogOk, BuiltOk, Capped;
    RunKeepsInv(session, steps);
    var streak := Streak(RunOf(session, steps).log);
    if |streak| >= 6 {
      StreakSpan(streak, |streak| - 1);
      GateTotalClosed(|streak| - 1);
    }
  }

  /** A Send starts if and only if sending has not stopped and the gate is open by
      then; a deferred payload keeps its attempt count. */
  lemma GateRespected(st: State, p: Payload, attempt: nat, env: Env)
    requires attempt >= 1
    ensures var st' := SendPayload(st, p, attempt, env);
            && st.log <= st'.log && |st'.log| <= |st.log| + 1
            && (st'.log != st.log <==> !st.stopped && (st.gate.None? || st.now + env.wait >= st.gate.value))
            && (st'.log != st.log ==>
                  var a := st'.log[|st.log|];
                  a.payload == p && a.start >= st.now && (st.gate.Some? ==> a.start >= st.gate.value))
            && (st'.log == st.log && !st.stopped && attempt <= MAX_ATTEMPTS && |st.queue| < MAX_QUEUE ==>
                  st'.queue == st.queue + [Entry(p, attempt - 1, st.gate.value)])
  {
    hide Capped;
  }

  /** A transient failure always closes the gate, for 1 to 35 seconds after the reply.
      Below the budget and with room it puts the payload back, due after the doubled and
      capped delay of its attempt plus jitter, within 9 seconds; otherwise the payload
      ends for the reason that applies, the budget first. */
  lemma TransientFailureSchedules(st: State, p: Payload, attempt: nat, env: Env)
    requires attempt >= 1 && !st.stopped && env.reply == Transient
    requires st.gate.Some? ==> st.now + env.wait >= st.gate.value
    ensures var st' := SendPayload(st, p, attempt, env);
            var replied, n := st.now + env.wait + env.travel, |st.queue|;
            && st'.gate.Some?
            && replied + Capped(st.backoffAttempt + 1, GATE_MAX_DELAY) <= st'.gate.value < st'.now + 35 * SECOND
            && (if attempt >= MAX_ATTEMPTS then st'.queue == st.queue && st'.fates == st.fates[p.batchID := BudgetExhausted]
                else if n >= MAX_QUEUE then st'.queue == st.queue && st'.fates == st.fates[p.batchID := QueueFull]
                else
                  && |st'.queue| == n + 1 && st'.queue[..n] == st.queue && st'.fates == st.fates
                  && st'.queue[n].payload == p && st'.queue[n].attempts == attempt
                  && replied + Capped(attempt, RETRY_MAX_DELAY) <= st'.queue[n].due < st'.now + 9 * SECOND)
  {
    DelayBounds(attempt, attempt, env.retryReading);
    DelayBounds(st.backoffAttempt + 1, st.backoffAttempt + 1, env.gateReading);
    hide Capped;
  }

  /** Once a stop has occurred inside a pass, the rest of the pass sends nothing, and
      each entry it still takes out ends as AfterStop. */
  lemma {:induction false} StopInsidePass(st: State, i: nat, done: nat, limit: nat, reading: int, ignoreBackoff: bool,
                                          envs: nat -> Env, id: string)
    requires st.stopped
    ensures var st' := Pass(st, i, done, limit, reading, ignoreBackoff, envs);
            && st'.stopped && st'.log == st.log
            && (Queued(st.queue, id) ==> Queued(st'.queue, id) || (id in st'.fates && st'.fates[id] == AfterStop))
            && (id in st.fates && st.fates[id] == AfterStop ==> id in st'.fates && st'.fates[id] == AfterStop)
    decreases if done < limit then limit - done else 0, if i < |st.queue| then |st.queue| - i else 0
  {
    hide Queued;
    if i < |st.queue| && done < limit {
      if !ignoreBackoff && st.queue[i].due > reading {
        StopInsidePass(st, i + 1, done, limit, reading, ignoreBackoff, envs, id);
      } else {
        var after := Retake(st, i, envs(done));
        QueuedWithout(st.queue, i, id);
        StopInsidePass(after, i, done + 1, limit, after.now, ignoreBackoff, envs, id);
      }
    }
  }

  /** Once sending has stopped no run ever sends or builds again. */
  lemma {:induction false} StoppedForever(session: string, steps: seq<Step>, more: seq<Step>)
    requires RunOf(session, steps).stopped
    ensures var st, st' := RunOf(session, steps), RunOf(session, steps + more);
            st'.stopped && st'.log == st.log && st'.built == st.built && st'.fates == st.fates
  {
    if more == [] { assert steps + more == steps; }
    else {
      StoppedForever(session, steps, more[..|more| - 1]);
      var all := steps + more;
      assert all[..|all| - 1] == steps + more[..|more| - 1];
    }
  }

  /** In every run a stop reply is the last Send there is. */
  lemma StopIsLast(session: string, steps: seq<Step>, k: nat)
    requires k < |RunOf(session, steps).log| && RunOf(session, steps).log[k].reply == StopIngest
    ensures RunOf(session, steps).stopped && k == |RunOf(session, steps).log| - 1
  {
    hide RunOf, QueueOk, PlacesOk, BuiltOk, GateOk;
    RunKeepsInv(session, steps);
  }

  /* ---------- what handing over a payload amounts to ---------- */

  /** The payload ends this way, and the queue is `rest`. */
  ghost predicate Ends(st: State, rest: seq<Entry>, p: Payload, fate: Fate, after: State)
  {
    after.queue == rest && after.fates == st.fates[p.batchID := fate]
  }

  /** Last in the queue with this many sends behind it; or out, when the budget of 8 is
      spent or, next, when 128 are waiting already. */
  ghost predicate PutLast(st: State, rest: seq<Entry>, p: Payload, attempts: nat, due: int, after: State)
  {
    if attempts >= 8 then Ends(st, rest, p, BudgetExhausted, after)
    else if |rest| >= 128 then Ends(st, rest, p, QueueFull, after)
    else after.fates == st.fates && after.queue == rest + [Entry(p, attempts, due)]
  }

  /** From st to after a payload sent `made` times before, the queue being `rest`, was
      handed over: it was sent, once, if and only if the gate was open after the wait,
      and everything else follows from the reply. */
  ghost predicate Handed(st: State, rest: seq<Entry>, p: Payload, made: nat, env: Env, after: State)
  {
    var at := st.now + env.wait;
    && after.built == st.built && after.issued == st.issued && after.now >= st.now
    && if st.stopped then
         after.stopped && after.log == st.log && SameGate(st, after) && Ends(st, rest, p, AfterStop, after)
       else if st.gate.Some? && at < st.gate.value then
         && !after.stopped && after.log == st.log && SameGate(st, after)
         && PutLast(st, rest, p, made, st.gate.value, after)
       else
         && after.log == st.log + [Attempt(p, at, env.reply)] && after.now >= at + env.travel
         && (after.stopped <==> env.reply == StopIngest)
         && match env.reply
            case Ok => after.backoffAttempt == 0 && after.gate == None && Ends(st, rest, p, Delivered, after)
            case StopIngest => SameGate(st, after) && Ends(st, rest, p, RefusedForGood, after)
            case Permanent => SameGate(st, after) && Ends(st, rest, p, NotRetryable, after)
            case Transient =>
              var noted := at + env.travel + env.settle;
              var delay := Capped(made + 1, 8 * SECOND) + env.retryReading % SECOND;
              && after.backoffAttempt == st.backoffAttempt + 1
              && after.gate == Some(noted + Capped(after.backoffAttempt, 30 * SECOND) + env.gateReading % (5 * SECOND))
              && PutLast(st, rest, p, made + 1, noted + env.requeue + delay, after)
  }

  ghost predicate SameGate(st: State, after: State)
  {
    after.gate == st.gate && after.backoffAttempt == st.backoffAttempt
  }

  lemma SendHands(st: State, p: Payload, attempt: nat, env: Env)
    requires attempt >= 1
    ensures Handed(st, st.queue, p, attempt - 1, env, SendPayload(st, p, attempt, env))
  {
    hide Capped;
  }

  lemma TakeHands(st: State, i: nat, env: Env)
    requires i < |st.queue|
    ensures var e := st.queue[i];
            Handed(st, st.queue[..i] + st.queue[i + 1..], e.payload, e.attempts, env, Retake(st, i, env))
  {
    var e := st.queue[i];
    SendHands(st.(queue := Without(st.queue, i)), e.payload, e.attempts + 1, env);
    hide SendPayload, Capped;
  }

  /** A flush either does nothing, sending having stopped or the batch being empty of
      content, or builds the next payload and hands it over in the same step. */
  ghost predicate Flushes(st: State, session: string, content: Payload, env: Env, after: State)
  {
    if st.stopped || content.Empty() then after == st
    else
      var n := st.issued + 1;
      var p := content.(batchID := BatchID(session, n));
      Handed(st.(issued := n, built := st.built[p.batchID := p]), st.queue, p, 0, env, after)
  }

  lemma FlushHands(st: State, session: string, content: Payload, env: Env)
    ensures Flushes(st, session, content, env, Flush(st, session, content, env))
  {
    if !st.stopped && !content.Empty() {
      var n := st.issued + 1;
      var p := content.(batchID := BatchID(session, n));
      SendHands(st.(issued := n, built := st.built[p.batchID := p]), p, 1, env);
    }
    hide SendPayload, Handed, BatchID;
  }

  /* ---------- the shape of a retry pass ---------- */

  /** One entry taken out during a pass: where it stood in the queue at that moment, at
      which position of the queue before the pass its payload was, and what came of it. */
  datatype Take = Take(origin: nat, position: nat, after: State)

  function Origins(takes: seq<Take>): set<nat>
  {
    set t | t in takes :: t.origin
  }

  /** The entries at positions below n outside `touched`, in order. */
  function Untouched(q: seq<Entry>, touched: set<nat>, n: nat): seq<Entry>
    requires n <= |q|
  {
    if n == 0 then []
    else Untouched(q, touched, n - 1) + if n - 1 in touched then [] else [q[n - 1]]
  }

  /** Every entry of `tail` holds the payload of its own touched position of q. */
  ghost predicate PutBack(tail: seq<Entry>, origin: seq<nat>, q: seq<Entry>, touched: set<nat>)
  {
    && |origin| == |tail|
    && (forall k | 0 <= k < |tail| ::
          origin[k] in touched && origin[k] < |q| && tail[k].payload == q[origin[k]].payload)
    && (forall k, l | 0 <= k < l < |origin| :: origin[k] != origin[l])
  }

  /** Taking e made at most one Send: of its payload, and not before e was due. */
  ghost predicate SentFor(st: State, after: State, e: Entry, ignoreBackoff: bool)
  {
    || after.log == st.log
    || (&& |after.log| == |st.log| + 1 && st.log <= after.log
        && after.log[|st.log|].payload == e.payload
        && (ignoreBackoff || e.due <= after.log[|st.log|].start))
  }

  /** The takes lead from st to end: each takes out an entry that is due as it stands
      at that moment, unless backoff is ignored, and hands its payload over. */
  ghost predicate Leads(st: State, takes: seq<Take>, q: seq<Entry>, done: nat, reading: int, ignoreBackoff: bool,
                        envs: nat -> Env, end: State)
    decreases |takes|
  {
    if takes == [] then end == st
    else
      var i, o := takes[0].position, takes[0].origin;
      && i < |st.queue| && o < |q| && st.queue[i].payload == q[o].payload
      && (ignoreBackoff || st.queue[i].due <= reading <= st.now)
      && var e, after := st.queue[i], takes[0].after;
         && Handed(st, st.queue[..i] + st.queue[i + 1..], e.payload, e.attempts, envs(done), after)
         && SentFor(st, after, e, ignoreBackoff)
         && Leads(after, takes[1..], q, done + 1, after.now, ignoreBackoff, envs, end)
  }

  lemma RetakeFacts(st: State, i: nat, env: Env, ignoreBackoff: bool) returns (put: seq<Entry>)
    requires i < |st.queue| && (ignoreBackoff || st.queue[i].due <= st.now)
    ensures var after := Retake(st, i, env);
            && after.queue == Without(st.queue, i) + put && |put| <= 1
            && (forall e | e in put :: e.payload == st.queue[i].payload)
            && after.now >= st.now && SentFor(st, after, st.queue[i], ignoreBackoff)
  {
    hide Capped;
    var after, rest := Retake(st, i, env), Without(st.queue, i);
    put := after.queue[|rest|..];
  }

  lemma {:induction false} UntouchedSame(q: seq<Entry>, a: set<nat>, b: set<nat>, n: nat)
    requires n <= |q| && forall p | 0 <= p < n :: p in a <==> p in b
    ensures Untouched(q, a, n) == Untouched(q, b, n)
  {
    if n > 0 { UntouchedSame(q, a, b, n - 1); }
  }

  lemma {:induction false} UntouchedRest(q: seq<Entry>, touched: set<nat>, j: nat, n: nat)
    requires j <= n <= |q| && forall p | p in touched :: p < j
    ensures Untouched(q, touched, n) == Untouched(q, touched, j) + q[j..n]
    decreases n
  {
    if j < n {
      UntouchedRest(q, touched, j, n - 1);
      assert q[j..n] == q[j..n - 1] + [q[n - 1]];
    }
  }

  /** Where a pass stands in the queue it started from: positions below j have been
      passed, those in `touched` taken out, and `added` is what was put back. */
  ghost predicate Stands(st: State, i: nat, q: seq<Entry>, j: nat, touched: set<nat>, added: seq<Entry>, origin: seq<nat>)
  {
    && j <= |q| && (forall p | p in touched :: p < j)
    && st.queue == Untouched(q, touched, j) + q[j..] + added
    && PutBack(added, origin, q, touched)
    && i >= |Untouched(q, touched, j)| && (j < |q| ==> i == |Untouched(q, touched, j)|)
  }

  lemma SkipStands(st: State, i: nat, q: seq<Entry>, j: nat, touched: set<nat>, added: seq<Entry>, origin: seq<nat>)
    requires Stands(st, i, q, j, touched, added, origin) && j < |q|
    ensures Stands(st, i + 1, q, j + 1, touched, added, origin)
    ensures i < |st.queue| && st.queue[i] == q[j]
  {
    hide PutBack;
    assert q[j..] == [q[j]] + q[j + 1..];
    assert Untouched(q, touched, j + 1) == Untouched(q, touched, j) + [q[j]];
  }

  lemma TakeQueue(u: seq<Entry>, e: Entry, rest: seq<Entry>, added: seq<Entry>, put: seq<Entry>)
    ensures Without(u + ([e] + rest) + added, |u|) + put == u + rest + (added + put)
  {
  }

  lemma RetakeQueue(u: seq<Entry>, none: seq<Entry>, added: seq<Entry>, k: nat, put: seq<Entry>)
    requires k < |added| && none == []
    ensures Without(u + none + added, |u| + k) + put == u + none + (added[..k] + added[k + 1..] + put)
    ensures (u + none + added)[|u| + k] == added[k]
  {
    assert u + none == u;
    assert (u + added)[..|u| + k] == u + added[..k] && (u + added)[|u| + k + 1..] == added[k + 1..];
  }

  lemma UntouchedTaken(q: seq<Entry>, touched: set<nat>, j: nat)
    requires j < |q| && forall p | p in touched :: p < j
    ensures Untouched(q, touched + {j}, j + 1) == Untouched(q, touched, j)
  {
    UntouchedSame(q, touched, touched + {j}, j);
  }

  /** Taking the entry at position j of the old queue. */
  lemma TakeStands(st: State, after: State, i: nat, q: seq<Entry>, j: nat, touched: set<nat>, added: seq<Entry>,
                   origin: seq<nat>, put: seq<Entry>) returns (origin': seq<nat>)
    requires Stands(st, i, q, j, touched, added, origin) && j < |q| && i < |st.queue|
    requires after.queue == Without(st.queue, i) + put && |put| <= 1
    requires forall e | e in put :: e.payload == st.queue[i].payload
    ensures Stands(after, i, q, j + 1, touched + {j}, added + put, origin')
  {
    hide PutBack, Without, Untouched;
    SkipStands(st, i, q, j, touched, added, origin);
    UntouchedTaken(q, touched, j);
    origin' := if put == [] then origin else origin + [j];
    TakeQueue(Untouched(q, touched, j), q[j], q[j + 1..], added, put);
    assert q[j..] == [q[j]] + q[j + 1..];
    PutBackMore(added, origin, q, touched, j, put);
  }

  lemma PutBackMore(added: seq<Entry>, origin: seq<nat>, q: seq<Entry>, touched: set<nat>, j: nat, put: seq<Entry>)
    requires PutBack(added, origin, q, touched) && j < |q| && forall p | p in touched :: p < j
    requires |put| <= 1 && forall e | e in put :: e.payload == q[j].payload
    ensures PutBack(added + put, if put == [] then origin else origin + [j], q, touched + {j})
  {
    if put != [] { assert put[0] in put; }
  }

  lemma PutBackAt(added: seq<Entry>, origin: seq<nat>, q: seq<Entry>, touched: set<nat>, k: nat)
    requires PutBack(added, origin, q, touched) && k < |added|
    ensures |origin| == |added| && origin[k] in touched && origin[k] < |q|
    ensures added[k].payload == q[origin[k]].payload
  {
  }

  /** Taking an entry this pass has put back before. */
  lemma RetakeStands(st: State, after: State, i: nat, q: seq<Entry>, touched: set<nat>, added: seq<Entry>,
                     origin: seq<nat>, put: seq<Entry>) returns (added': seq<Entry>, origin': seq<nat>)
    requires Stands(st, i, q, |q|, touched, added, origin) && i < |st.queue|
    requires after.queue == Without(st.queue, i) + put && |put| <= 1
    requires forall e | e in put :: e.payload == st.queue[i].payload
    ensures Stands(after, i, q, |q|, touched, added', origin')
    ensures var k := i - |Untouched(q, touched, |q|)|;
            0 <= k < |origin| && origin[k] in touched && origin[k] < |q| && st.queue[i].payload == q[origin[k]].payload
  {
    hide Without, Untouched;
    var u := Untouched(q, touched, |q|);
    var k := i - |u|;
    PutBackAt(added, origin, q, touched, i - |u|);
    hide PutBack;
    RetakeQueue(u, q[|q|..], added, k, put);
    added' := added[..k] + added[k + 1..] + put;
    origin' := origin[..k] + origin[k + 1..] + if put == [] then [] else [origin[k]];
    PutBackAgain(added, origin, q, touched, k, put);
  }

  lemma PutBackAgain(added: seq<Entry>, origin: seq<nat>, q: seq<Entry>, touched: set<nat>, k: nat, put: seq<Entry>)
    requires PutBack(added, origin, q, touched) && k < |added|
    requires |put| <= 1 && forall e | e in put :: e.payload == added[k].payload
    ensures PutBack(added[..k] + added[k + 1..] + put,
                    origin[..k] + origin[k + 1..] + (if put == [] then [] else [origin[k]]), q, touched)
  {
    var more := added[..k] + added[k + 1..] + put;
    var from := origin[..k] + origin[k + 1..] + (if put == [] then [] else [origin[k]]);
    if put != [] { assert put[0] in put; }
    forall l | 0 <= l < |more|
      ensures from[l] in touched && from[l] < |q| && more[l].payload == q[from[l]].payload
    {
      var was := if l < k then l else if l < |added| - 1 then l + 1 else k;
      assert from[l] == origin[was] && more[l].payload == added[was].payload;
    }
  }

  lemma OriginsFirst(t: Take, takes: seq<Take>)
    ensures Origins([t] + takes) == {t.origin} + Origins(takes)
  {
  }

  lemma SkipLate(st: State, i: nat, q: seq<Entry>, touched: set<nat>, added: seq<Entry>, origin: seq<nat>)
    requires Stands(st, i, q, |q|, touched, added, origin)
    ensures Stands(st, i + 1, q, |q|, touched, added, origin)
  {
  }

  lemma AllPassed(st: State, i: nat, q: seq<Entry>, j: nat, touched: set<nat>, added: seq<Entry>, origin: seq<nat>)
    requires Stands(st, i, q, j, touched, added, origin) && i >= |st.queue|
    ensures j == |q|
  {
  }

  lemma EndStands(st: State, i: nat, q: seq<Entry>, j: nat, touched: set<nat>, added: seq<Entry>, origin: seq<nat>)
    requires Stands(st, i, q, j, touched, added, origin)
    ensures st.queue == Untouched(q, touched + Origins([]), |q|) + added
    ensures PutBack(added, origin, q, touched + Origins([]))
  {
    hide PutBack;
    UntouchedRest(q, touched, j, |q|);
    assert q[j..|q|] == q[j..];
    assert touched + Origins([]) == touched;
  }

  /** What a pass does, from any point inside it. */
  lemma {:induction false} PassShape(q: seq<Entry>, j: nat, touched: set<nat>, added: seq<Entry>, origin: seq<nat>,
      st: State, i: nat, done: nat, limit: nat, reading: int, ignoreBackoff: bool, envs: nat -> Env)
    returns (takes: seq<Take>, tail: seq<Entry>, origin': seq<nat>)
    requires j <= |q| && Stands(st, i, q, j, touched, added, origin) && done <= limit && reading <= st.now
    requires forall p | p in touched :: p < j
    ensures var end := Pass(st, i, done, limit, reading, ignoreBackoff, envs);
            && Leads(st, takes, q, done, reading, ignoreBackoff, envs, end) && |takes| <= limit - done
            && end.queue == Untouched(q, touched + Origins(takes), |q|) + tail
            && PutBack(tail, origin', q, touched + Origins(takes))
            && end.now >= st.now
            && (forall o | o in Origins(takes) :: o in touched || j <= o < |q|)
            && (forall p | j <= p < |q| && !ignoreBackoff && q[p].due > end.now :: p !in Origins(takes))
            && (forall p | j <= p < |q| && (ignoreBackoff || q[p].due <= reading) && p !in Origins(takes) ::
                  |takes| == limit - done && forall o | o in Origins(takes) :: o < p)
    decreases limit - done, if i < |st.queue| then |st.queue| - i else 0, 1
  {
    hide Stands, Retake, Without, PutBack, SentFor, Untouched, Leads;
    if i >= |st.queue| || done >= limit {
      takes, tail, origin' := [], added, origin;
      EndStands(st, i, q, j, touched, added, origin);
      if i >= |st.queue| { AllPassed(st, i, q, j, touched, added, origin); }
      LeadsNowhere(st, q, done, reading, ignoreBackoff, envs);
    } else if !ignoreBackoff && st.queue[i].due > reading {
      var j' := j;
      if j < |q| {
        SkipStands(st, i, q, j, touched, added, origin);
        j' := j + 1;
      } else {
        SkipLate(st, i, q, touched, added, origin);
      }
      takes, tail, origin' := PassShape(q, j', touched, added, origin, st, i + 1, done, limit, reading, ignoreBackoff, envs);
    } else {
      takes, tail, origin' := PassShapeTake(q, j, touched, added, origin, st, i, done, limit, reading, ignoreBackoff, envs);
    }
  }

  lemma LeadsNowhere(st: State, q: seq<Entry>, done: nat, reading: int, ignoreBackoff: bool, envs: nat -> Env)
    ensures Leads(st, [], q, done, reading, ignoreBackoff, envs, st)
  {
  }

  lemma LeadsFirst(st: State, t: Take, takes: seq<Take>, q: seq<Entry>, done: nat, reading: int, ignoreBackoff: bool,
                   envs: nat -> Env, end: State)
    requires t.position < |st.queue| && t.origin < |q| && st.queue[t.position].payload == q[t.origin].payload
    requires ignoreBackoff || st.queue[t.position].due <= reading <= st.now
    requires var after := Retake(st, t.position, envs(done));
             && t.after == after && SentFor(st, after, st.queue[t.position], ignoreBackoff)
             && Leads(after, takes, q, done + 1, after.now, ignoreBackoff, envs, end)
    ensures Leads(st, [t] + takes, q, done, reading, ignoreBackoff, envs, end)
  {
    TakeHands(st, t.position, envs(done));
    hide Retake, SentFor, Handed;
    assert ([t] + takes)[1..] == takes;
  }

  /** The branch of PassShape that takes entry i out and sends it. */
  lemma {:induction false} PassShapeTake(q: seq<Entry>, j: nat, touched: set<nat>, added: seq<Entry>, origin: seq<nat>,
      st: State, i: nat, done: nat, limit: nat, reading: int, ignoreBackoff: bool, envs: nat -> Env)
    returns (takes: seq<Take>, tail: seq<Entry>, origin': seq<nat>)
    requires j <= |q| && Stands(st, i, q, j, touched, added, origin) && done < limit && reading <= st.now
    requires forall p | p in touched :: p < j
    requires i < |st.queue| && (ignoreBackoff || st.queue[i].due <= reading)
    ensures var end := Pass(st, i, done, limit, reading, ignoreBackoff, envs);
            && Leads(st, takes, q, done, reading, ignoreBackoff, envs, end) && |takes| <= limit - done
            && end.queue == Untouched(q, touched + Origins(takes), |q|) + tail
            && PutBack(tail, origin', q, touched + Origins(takes))
            && end.now >= st.now
            && (forall o | o in Origins(takes) :: o in touched || j <= o < |q|)
            && (forall p | j <= p < |q| && !ignoreBackoff && q[p].due > end.now :: p !in Origins(takes))
            && (forall p | j <= p < |q| && (ignoreBackoff || q[p].due <= reading) && p !in Origins(takes) ::
                  |takes| == limit - done && forall o | o in Origins(takes) :: o < p)
    decreases limit - done, if i < |st.queue| then |st.queue| - i else 0, 0
  {
    hide Stands, Retake, Without, PutBack, SentFor, Untouched, Leads, Origins;
    var after := Retake(st, i, envs(done));
    var put := RetakeFacts(st, i, envs(done), ignoreBackoff);
    var o: nat;
    if j < |q| {
      SkipStands(st, i, q, j, touched, added, origin);
      o := j;
      var from := TakeStands(st, after, i, q, j, touched, added, origin, put);
      takes, tail, origin' := PassShape(q, j + 1, touched + {j}, added + put, from,
                                        after, i, done + 1, limit, after.now, ignoreBackoff, envs);
    } else {
      var left, from := RetakeStands(st, after, i, q, touched, added, origin, put);
      o := OriginAt(st, i, q, touched, origin);
      takes, tail, origin' := PassShape(q, |q|, touched, left, from,
                                        after, i, done + 1, limit, after.now, ignoreBackoff, envs);
    }
    assert touched + ({o} + Origins(takes)) == touched + {o} + Origins(takes);
    LeadsFirst(st, Take(o, i, after), takes, q, done, reading, ignoreBackoff, envs,
               Pass(st, i, done, limit, reading, ignoreBackoff, envs));
    OriginsFirst(Take(o, i, after), takes);
    takes := [Take(o, i, after)] + takes;
  }

  lemma OriginAt(st: State, i: nat, q: seq<Entry>, touched: set<nat>, origin: seq<nat>) returns (o: nat)
    requires var k := i - |Untouched(q, touched, |q|)|;
             && 0 <= k < |origin| && origin[k] in touched && origin[k] < |q|
             && i < |st.queue| && st.queue[i].payload == q[origin[k]].payload
    ensures o in touched && o < |q| && st.queue[i].payload == q[o].payload && touched + {o} == touched
  {
    o := origin[i - |Untouched(q, touched, |q|)|];
  }

  /** Position of the first entry a pass may take, or the queue's length. */
  function FirstDue(queue: seq<Entry>, reading: int, ignoreBackoff: bool, i: nat): (r: nat)
    requires i <= |queue|
    ensures i <= r <= |queue|
    ensures forall k | i <= k < r :: !ignoreBackoff && queue[k].due > reading
    ensures r < |queue| ==> ignoreBackoff || queue[r].due <= reading
    decreases |queue| - i
  {
    if i == |queue| || ignoreBackoff || queue[i].due <= reading then i
    else FirstDue(queue, reading, ignoreBackoff, i + 1)
  }

  lemma {:induction false} PassTakesFirstDue(st: State, i: nat, reading: int, ignoreBackoff: bool, envs: nat -> Env)
    requires i <= |st.queue|
    ensures var d := FirstDue(st.queue, reading, ignoreBackoff, i);
            Pass(st, i, 0, 1, reading, ignoreBackoff, envs) == if d < |st.queue| then Retake(st, d, envs(0)) else st
    decreases |st.queue| - i
  {
    hide Retake;
    if i < |st.queue| && !ignoreBackoff && st.queue[i].due > reading {
      PassTakesFirstDue(st, i + 1, reading, ignoreBackoff, envs);
    }
  }

  /** With the configured limit of one, a pass retries exactly the first due entry if
      there is one and does nothing otherwise; so nothing is ever dropped for having
      been taken out after a stop. */
  lemma ConfiguredPass(st: State, ignoreBackoff: bool, envs: nat -> Env)
    requires !st.stopped
    ensures var d := FirstDue(st.queue, st.now, ignoreBackoff, 0);
            FlushRetryQueue(st, ignoreBackoff, 1, envs) == if d < |st.queue| then Retake(st, d, envs(0)) else st
    ensures Retries(st, ignoreBackoff, envs(0), FlushRetryQueue(st, ignoreBackoff, 1, envs))
    ensures forall id | id in FlushRetryQueue(st, ignoreBackoff, 1, envs).fates ::
              FlushRetryQueue(st, ignoreBackoff, 1, envs).fates[id] == AfterStop ==>
                id in st.fates && st.fates[id] == AfterStop
  {
    hide Retake, Retries;
    if |st.queue| > 0 { PassTakesFirstDue(st, 0, st.now, ignoreBackoff, envs); }
    PassRetries(st, ignoreBackoff, envs);
    var d := FirstDue(st.queue, st.now, ignoreBackoff, 0);
    if d < |st.queue| { TakenBeforeStop(st, d, envs(0)); }
  }

  lemma TakenBeforeStop(st: State, i: nat, env: Env)
    requires i < |st.queue| && !st.stopped
    ensures var fates := Retake(st, i, env).fates;
            forall id | id in fates && fates[id] == AfterStop :: id in st.fates && st.fates[id] == AfterStop
  {
    hide Capped;
  }

  predicate Due(st: State, i: nat, ignoreBackoff: bool)
    requires i < |st.queue|
  {
    ignoreBackoff || st.queue[i].due <= st.now
  }

  /** Nothing happens when no entry is due; otherwise the first due one is taken out and
      handed over. */
  ghost predicate Retries(st: State, ignoreBackoff: bool, env: Env, after: State)
  {
    if st.stopped || forall i | 0 <= i < |st.queue| :: !Due(st, i, ignoreBackoff) then after == st
    else
      exists d: nat | d < |st.queue| && Due(st, d, ignoreBackoff) && forall i | 0 <= i < d :: !Due(st, i, ignoreBackoff) ::
        Handed(st, st.queue[..d] + st.queue[d + 1..], st.queue[d].payload, st.queue[d].attempts, env, after)
  }

  lemma PassRetries(st: State, ignoreBackoff: bool, envs: nat -> Env)
    ensures Retries(st, ignoreBackoff, envs(0), FlushRetryQueue(st, ignoreBackoff, 1, envs))
  {
    hide Handed, Retake;
    if !st.stopped && |st.queue| > 0 {
      PassTakesFirstDue(st, 0, st.now, ignoreBackoff, envs);
      var d := FirstDue(st.queue, st.now, ignoreBackoff, 0);
      if d < |st.queue| {
        TakeHands(st, d, envs(0));
        assert Due(st, d, ignoreBackoff);
      }
    }
  }

  lemma {:induction false} OriginsBound(takes: seq<Take>)
    ensures |Origins(takes)| <= |takes|
  {
    if takes == [] { assert Origins(takes) == {}; }
    else {
      OriginsBound(takes[1..]);
      OriginsFirst(takes[0], takes[1..]);
      assert [takes[0]] + takes[1..] == takes;
    }
  }

  /** The whole pass, with backoff respected or ignored. It is a run of at most `limit`
      takes, each of an entry that is due as it stands when taken, and each sending at
      most once and not before. The queue afterwards is exactly the untouched entries,
      all of them and in their old order, and then entries put back, no two of them for
      one position and each holding the payload of a position that was taken. An entry due
      at the start stays untouched only if the limit is used up on entries before it. */
  lemma RetryPassShape(st: State, ignoreBackoff: bool, limit: nat, envs: nat -> Env)
    returns (takes: seq<Take>, tail: seq<Entry>, origin: seq<nat>)
    ensures var q, end, touched := st.queue, FlushRetryQueue(st, ignoreBackoff, limit, envs), Origins(takes);
            && Leads(st, takes, q, 0, st.now, ignoreBackoff, envs, end)
            && |touched| <= |takes| <= |q| && (limit > 0 ==> |takes| <= limit)
            && end.queue == Untouched(q, touched, |q|) + tail
            && PutBack(tail, origin, q, touched)
            && (forall p | 0 <= p < |q| && !ignoreBackoff && q[p].due > end.now :: p !in touched)
            && (forall p | 0 <= p < |q| && !st.stopped && (ignoreBackoff || q[p].due <= st.now) && p !in touched ::
                  |takes| == (if 0 < limit < |q| then limit else |q|) && forall o | o in touched :: o < p)
  {
    hide Leads, PutBack, Pass, Stands, Retake;
    var q := st.queue;
    PassBegins(st);
    if st.stopped {
      takes, tail, origin := [], [], [];
      LeadsNowhere(st, q, 0, st.now, ignoreBackoff, envs);
      EndStands(st, 0, q, 0, {}, [], []);
      assert {} + Origins([]) == Origins([]);
    } else {
      var actual := if 0 < limit < |q| then limit else |q|;
      takes, tail, origin := PassShape(q, 0, {}, [], [], st, 0, 0, actual, st.now, ignoreBackoff, envs);
      assert {} + Origins(takes) == Origins(takes);
    }
    OriginsBound(takes);
  }

  /** In every run: a pass that finds the gate open sends the first due entry, and on
      success its payload is delivered, leaves the queue and ends the outage. */
  lemma RetryDelivers(session: string, steps: seq<Step>, idle: nat, ignoreBackoff: bool, envs: nat -> Env, d: nat)
    requires var st := RunOf(session, steps); !st.stopped && d < |st.queue|
    requires var st := RunOf(session, steps);
             && (ignoreBackoff || st.queue[d].due <= st.now + idle)
             && (forall i | 0 <= i < d :: !ignoreBackoff && st.queue[i].due > st.now + idle)
             && (st.gate.Some? ==> st.gate.value <= st.now + idle + envs(0).wait)
    requires envs(0).reply == Ok
    ensures var st, after := RunOf(session, steps), RunOf(session, steps + [RetryPass(idle, ignoreBackoff, 1, envs)]);
            var p := st.queue[d].payload;
            && after.log == st.log + [Attempt(p, st.now + idle + envs(0).wait, Ok)]
            && after.fates == st.fates[p.batchID := Delivered] && !Queued(after.queue, p.batchID)
            && after.queue == st.queue[..d] + st.queue[d + 1..]
            && after.backoffAttempt == 0 && after.gate == None
  {
    hide LastReply, Sends, PlacesOk, LogOk, GateOk, BuiltOk, EntryOk, Queued, FlushRetryQueue;
    var all := steps + [RetryPass(idle, ignoreBackoff, 1, envs)];
    assert all[..|all| - 1] == steps;
    RunKeepsInv(session, steps);
    var st := RunOf(session, steps);
    TakenQueue(st, d);
    hide RunOf, QueueOk;
    var ready := st.(now := st.now + idle);
    forall i | 0 <= i < d ensures !Due(ready, i, ignoreBackoff) { assert ready.queue[i] == st.queue[i]; }
    FirstDueDelivers(ready, ignoreBackoff, envs, d);
  }

  lemma FirstDueDelivers(st: State, ignoreBackoff: bool, envs: nat -> Env, d: nat)
    requires !st.stopped && d < |st.queue| && Due(st, d, ignoreBackoff)
    requires forall i | 0 <= i < d :: !Due(st, i, ignoreBackoff)
    requires (st.gate.Some? ==> st.gate.value <= st.now + envs(0).wait) && envs(0).reply == Ok
    ensures var after, p := FlushRetryQueue(st, ignoreBackoff, 1, envs), st.queue[d].payload;
            && after.log == st.log + [Attempt(p, st.now + envs(0).wait, Ok)]
            && after.fates == st.fates[p.batchID := Delivered]
            && after.queue == st.queue[..d] + st.queue[d + 1..]
            && after.backoffAttempt == 0 && after.gate == None
  {
    PassRetries(st, ignoreBackoff, envs);
    hide FlushRetryQueue;
  }

  lemma PassBegins(st: State)
    ensures Stands(st, 0, st.queue, 0, {}, [], [])
  {
    assert [] + st.queue[0..] + [] == st.queue;
  }
}
