/** The client object whose worker sends, defers and retries payloads (client.go).
    Each method does to the fields what the machine of module Retry does to a state. */
module Client {
  import opened Text
  import opened Events
  import opened Backoff
  import opened Retry

  class Client {
    const session: string
    var transientBackoffAttempt: nat
    var nextSendAttempt: Option<int>
    var stopSending: bool
    var batchSeq: nat
    var retryQueue: seq<Entry>
    var clock: int                        // the wall clock, moved on by the surroundings
    ghost var log: seq<Attempt>
    ghost var built: map<string, Payload>
    ghost var fates: map<string, Fate>

    ghost function View(): State
      reads this
    {
      State(clock, transientBackoffAttempt, nextSendAttempt, stopSending, batchSeq, retryQueue, log, built, fates)
    }

    constructor (session: string)
      ensures View() == Initial && this.session == session
    {
      this.session := session;
      transientBackoffAttempt, nextSendAttempt, stopSending, batchSeq := 0, None, false, 0;
      retryQueue, clock := [], 0;
      log, built, fates := [], map[], map[];
    }

    method EnqueueRetryAt(p: Payload, attempts: nat, due: int) returns (queued: bool)
      modifies `retryQueue, `fates
      ensures View() == EnqueueAt(old(View()), p, attempts, due)
      ensures queued <==> attempts < MAX_ATTEMPTS && |old(retryQueue)| < MAX_QUEUE
    {
      if attempts >= MAX_ATTEMPTS {
        fates := fates[p.batchID := BudgetExhausted];
        return false;
      }
      if |retryQueue| >= MAX_QUEUE {
        fates := fates[p.batchID := QueueFull];
        return false;
      }
      retryQueue := retryQueue + [Entry(p, attempts, due)];
      return true;
    }

    method EnqueueRetry(p: Payload, attempt: nat, env: Env) returns (queued: bool)
      modifies `retryQueue, `fates, `clock
      ensures var later := old(View()).(now := old(clock) + env.requeue);
              View() == EnqueueAt(later, p, attempt,
                later.now + Capped(attempt, RETRY_MAX_DELAY) + env.retryReading % RETRY_JITTER)
    {
      clock := clock + env.requeue;
      var delay := RetryDelay(attempt, env.retryReading);
      queued := EnqueueRetryAt(p, attempt, clock + delay);
    }

    method DeferForClientBackoff(p: Payload, attempt: nat) returns (deferred: bool)
      requires attempt >= 1
      modifies `retryQueue, `fates
      ensures deferred <==> GateClosed(old(View()))
      ensures View() == if deferred then EnqueueAt(old(View()), p, attempt - 1, old(nextSendAttempt).value) else old(View())
    {
      if nextSendAttempt.None? || !(clock < nextSendAttempt.value) { return false; }
      var lastAttempt := if attempt - 1 < 0 then 0 else attempt - 1;
      var _ := EnqueueRetryAt(p, lastAttempt, nextSendAttempt.value);
      return true;
    }

    method NoteTransientFailure(env: Env)
      modifies `transientBackoffAttempt, `nextSendAttempt, `clock
      ensures View() == NoteTransient(old(View()), env)
    {
      transientBackoffAttempt := transientBackoffAttempt + 1;
      clock := clock + env.settle;
      var delay := ClientBackoffDelay(transientBackoffAttempt, env.gateReading);
      nextSendAttempt := Some(clock + delay);
    }

    method ResetTransientBackoff()
      modifies `transientBackoffAttempt, `nextSendAttempt
      ensures View() == old(View()).(backoffAttempt := 0, gate := None)
    {
      transientBackoffAttempt := 0;
      nextSendAttempt := None;
    }

    /** Transport.Send: the surroundings answer and time passes. */
    method TransportSend(p: Payload, env: Env) returns (reply: Reply)
      modifies `log, `clock
      ensures reply == env.reply
      ensures View() == old(View()).(log := old(log) + [Attempt(p, old(clock), env.reply)], now := old(clock) + env.travel)
    {
      log := log + [Attempt(p, clock, env.reply)];
      clock := clock + env.travel;
      reply := env.reply;
    }

    method Send(p: Payload, attempt: nat, env: Env)
      requires attempt >= 1
      modifies this
      ensures View() == SendPayload(old(View()), p, attempt, env)
    {
      hide Capped;
      if stopSending {
        fates := fates[p.batchID := AfterStop];
        return;
      }
      clock := clock + env.wait;
      var deferred := DeferForClientBackoff(p, attempt);
      if deferred { return; }
      var reply := TransportSend(p, env);
      if reply != Ok {
        if reply == StopIngest {
          stopSending := true;
          fates := fates[p.batchID := RefusedForGood];
          return;
        }
        if reply == Transient {
          NoteTransientFailure(env);
          var _ := EnqueueRetry(p, attempt, env);
          return;
        }
        fates := fates[p.batchID := NotRetryable];
        return;
      }
      ResetTransientBackoff();
      fates := fates[p.batchID := Delivered];
    }

    method NextBatchID() returns (id: string)
      modifies `batchSeq
      ensures batchSeq == old(batchSeq) + 1 && id == BatchID(session, batchSeq)
    {
      batchSeq := batchSeq + 1;
      id := session + "-" + Format(batchSeq, 36);
    }

    method Flush(content: Payload, env: Env)
      modifies this
      ensures View() == Retry.Flush(old(View()), session, content, env)
    {
      if stopSending || content.Empty() { return; }
      var id := NextBatchID();
      var p := content.(batchID := id);
      built := built[id := p];
      Send(p, 1, env);
    }

    method FlushRetryQueue(ignoreBackoff: bool, maxSends: nat, envs: nat -> Env)
      modifies this
      ensures View() == Retry.FlushRetryQueue(old(View()), ignoreBackoff, maxSends, envs)
    {
      if |retryQueue| == 0 || stopSending { return; }
      var processLimit := |retryQueue|;
      if maxSends > 0 && processLimit > maxSends {
        processLimit := maxSends;
      }
      RunPass(processLimit, ignoreBackoff, envs);
    }

    method RunPass(processLimit: nat, ignoreBackoff: bool, envs: nat -> Env)
      modifies this
      ensures View() == Pass(old(View()), 0, 0, processLimit, old(clock), ignoreBackoff, envs)
    {
      hide Retake, SendPayload;
      var reading := clock;
      var i, processed := 0, 0;
      ghost var goal := Pass(View(), 0, 0, processLimit, reading, ignoreBackoff, envs);
      while i < |retryQueue| && processed < processLimit
        invariant 0 <= i && 0 <= processed
        invariant Pass(View(), i, processed, processLimit, reading, ignoreBackoff, envs) == goal
        decreases processLimit - processed, |retryQueue| - i
      {
        if !ignoreBackoff && retryQueue[i].due > reading {
          i := i + 1;
        } else {
          RetakeEntry(i, envs(processed));
          processed := processed + 1;
          reading := clock;
        }
      }
    }

    /** Remove before sending, so that a failed resend can append at the tail. */
    method RetakeEntry(i: nat, env: Env)
      requires i < |retryQueue|
      modifies this
      ensures View() == Retake(old(View()), i, env)
    {
      var item := retryQueue[i];
      retryQueue := retryQueue[..i] + retryQueue[i + 1..];
      Send(item.payload, item.attempts + 1, env);
      clock := clock + env.pause;
    }
  }
}
