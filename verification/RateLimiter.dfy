/** The lock-free value limiter (value_rate_limiter.go): window and count share one
    64-bit word that threads update by load and compare-and-swap. */
module RateLimiter {

  const MAX_PER_SECOND: nat := 20_000
  const COUNT_RANGE: nat := 0x1_0000
  const WORD_RANGE: nat := 0x1_0000_0000_0000_0000
  const SECOND_RANGE: nat := 0x1_0000_0000_0000   // 2^48: seconds that survive the shift

  function Window(word: nat): nat { word / COUNT_RANGE }

  function Count(word: nat): nat { word % COUNT_RANGE }

  /** `window<<16 | 1` in 64 bits. */
  function FirstOf(second: nat): nat
  {
    (second * COUNT_RANGE) % WORD_RANGE + 1
  }

  datatype Decision = Refuse | Try(next: nat)

  /** One pass of the loop body on a loaded word. */
  function Decide(word: nat, second: nat): Decision
  {
    if Window(word) > second then Refuse
    else if Window(word) < second then Try(FirstOf(second))
    else if Count(word) >= MAX_PER_SECOND then Refuse
    else Try(word + 1)
  }

  /** The word from which on a call for this second is always refused. */
  function Ceiling(second: nat): nat { second * COUNT_RANGE + MAX_PER_SECOND }

  lemma FirstOfFits(second: nat)
    requires second < SECOND_RANGE
    ensures FirstOf(second) == second * COUNT_RANGE + 1
    ensures Window(FirstOf(second)) == second && Count(FirstOf(second)) == 1
  {
  }

  /** In range, a swap starts or continues the caller's window, never carries into
      the window bits, and strictly raises the word. */
  lemma SwapFacts(word: nat, second: nat)
    requires second < SECOND_RANGE && Count(word) <= MAX_PER_SECOND
    requires Decide(word, second).Try?
    ensures var next := Decide(word, second).next;
            && word < next <= Ceiling(second) && next < WORD_RANGE
            && Window(next) == second && Count(next) <= MAX_PER_SECOND
            && Count(next) == (if Window(word) == second then Count(word) + 1 else 1)
  {
    FirstOfFits(second);
    assert word == Window(word) * COUNT_RANGE + Count(word);
  }

  /* ---------- one thread among others ---------- */

  class ValueRateLimiter {
    var state: nat

    ghost predicate Valid()
      reads this
    {
      state < WORD_RANGE && Count(state) <= MAX_PER_SECOND
    }

    constructor ()
      ensures Valid() && state == 0
    {
      state := 0;
    }

    /** Any number of swaps by other threads: the word never goes down. */
    method Interfere()
      requires Valid()
      modifies this
      ensures Valid() && state >= old(state)
    {
      var word: nat :| state <= word < WORD_RANGE && Count(word) <= MAX_PER_SECOND;
      state := word;
    }

    /** The call ends whatever the other threads do; `seen` is the word at the one
        moment that decides it. */
    method AllowAt(second: nat) returns (ok: bool, ghost seen: nat)
      requires Valid() && second < SECOND_RANGE
      modifies this
      ensures Valid()
      ensures old(state) <= seen <= state
      ensures ok <==> Decide(seen, second).Try?
      ensures ok ==> state == Decide(seen, second).next
    {
      Interfere();
      while true
        invariant Valid() && old(state) <= state
        decreases if state < Ceiling(second) then Ceiling(second) - state else 0
      {
        var word := state;
        seen := word;
        Interfere();
        var currentWindow := word / COUNT_RANGE;
        if currentWindow > second { return false, seen; }
        if currentWindow < second {
          SwapFacts(word, second);
          if state == word {
            state := FirstOf(second);
            return true, seen;
          }
          continue;
        }
        var count := word % COUNT_RANGE;
        if count >= MAX_PER_SECOND { return false, seen; }
        SwapFacts(word, second);
        if state == word {
          state := word + 1;
          return true, seen;
        }
      }
    }
  }

  /* ---------- many threads, every interleaving ---------- */

  /** Where a thread is: outside, about to load, or holding a loaded word. `entry` is
      the word when its call began and `failures` counts its lost swaps. */
  datatype Thread =
    | Outside
    | Loading(second: nat, entry: nat, failures: nat)
    | Loaded(second: nat, entry: nat, failures: nat, seen: nat)

  datatype State = State(word: nat, threads: map<nat, Thread>, admitted: multiset<nat>)

  datatype Step = Call(id: nat, second: nat) | Load(id: nat) | Finish(id: nat)

  const Initial: State := State(0, map[], multiset{})

  function ThreadOf(st: State, id: nat): Thread
  {
    if id in st.threads then st.threads[id] else Outside
  }

  predicate Enabled(st: State, step: Step)
  {
    match step
    case Call(id, second) => ThreadOf(st, id).Outside?
    case Load(id) => ThreadOf(st, id).Loading?
    case Finish(id) => ThreadOf(st, id).Loaded?
  }

  function Next(st: State, step: Step): State
    requires Enabled(st, step)
  {
    match step
    case Call(id, second) => st.(threads := st.threads[id := Loading(second, st.word, 0)])
    case Load(id) =>
      var t := st.threads[id];
      st.(threads := st.threads[id := Loaded(t.second, t.entry, t.failures, st.word)])
    case Finish(id) =>
      var t := st.threads[id];
      match Decide(t.seen, t.second)
      case Refuse => st.(threads := st.threads[id := Outside])
      case Try(next) =>
        if st.word == t.seen then
          State(next, st.threads[id := Outside], st.admitted + multiset{t.second})
        else st.(threads := st.threads[id := Loading(t.second, t.entry, t.failures + 1)])
  }

  ghost predicate Run(steps: seq<Step>, states: seq<State>)
  {
    && |states| == |steps| + 1 && states[0] == Initial
    && forall k | 0 <= k < |steps| :: Enabled(states[k], steps[k]) && states[k + 1] == Next(states[k], steps[k])
  }

  ghost predicate InRange(steps: seq<Step>)
  {
    forall k | 0 <= k < |steps| :: steps[k].Call? ==> steps[k].second < SECOND_RANGE
  }

  /** A thread's lost swaps are paid for by growth of the word since its call began,
      and it can only lose one below its ceiling. */
  predicate ThreadOk(t: Thread, word: nat)
  {
    && (!t.Outside? ==> t.second < SECOND_RANGE && t.entry + t.failures <= word
                        && (t.failures == 0 || t.entry + t.failures <= Ceiling(t.second)))
    && (t.Loaded? ==> t.entry + t.failures <= t.seen <= word && Count(t.seen) <= MAX_PER_SECOND)
  }

  ghost predicate Inv(st: State)
  {
    && st.word < WORD_RANGE && Count(st.word) <= MAX_PER_SECOND
    && (forall id | id in st.threads :: ThreadOk(st.threads[id], st.word))
    && st.admitted[Window(st.word)] == Count(st.word)
    && (forall s: nat :: st.admitted[s] <= MAX_PER_SECOND)
    && (forall s: nat | s > Window(st.word) :: st.admitted[s] == 0)
  }

  lemma StepKeepsInv(st: State, step: Step)
    requires Inv(st) && Enabled(st, step)
    requires step.Call? ==> step.second < SECOND_RANGE
    ensures Inv(Next(st, step)) && st.word <= Next(st, step).word
    ensures Next(st, step).admitted != st.admitted ==> st.word < Next(st, step).word
  {
    if step.Finish? {
      var t := st.threads[step.id];
      assert ThreadOk(t, st.word);
      if Decide(t.seen, t.second).Try? { SwapKeepsInv(st, step.id); }
    }
  }

  lemma SwapKeepsInv(st: State, id: nat)
    requires Inv(st) && id in st.threads && st.threads[id].Loaded?
    requires Decide(st.threads[id].seen, st.threads[id].second).Try?
    ensures var st' := Next(st, Finish(id)); Inv(st') && st.word <= st'.word
    ensures Next(st, Finish(id)).admitted != st.admitted ==> st.word < Next(st, Finish(id)).word
  {
    var t, st' := st.threads[id], Next(st, Finish(id));
    assert ThreadOk(t, st.word);
    SwapFacts(t.seen, t.second);
    hide Decide, Window, Count, Ceiling, FirstOf;
    if st.word == t.seen {
      WindowsGrow(st.word, st'.word);
      forall s: nat ensures st'.admitted[s] == st.admitted[s] + if s == t.second then 1 else 0 {}
    }
  }

  lemma WindowsGrow(a: nat, b: nat)
    requires a <= b
    ensures Window(a) <= Window(b)
  {
  }

  lemma {:induction false} RunKeepsInv(steps: seq<Step>, states: seq<State>, k: nat)
    requires Run(steps, states) && InRange(steps) && k <= |steps|
    ensures Inv(states[k])
  {
    hide Inv, Next, Enabled;
    if k == 0 { InitialInv(); }
    else {
      RunKeepsInv(steps, states, k - 1);
      StepKeepsInv(states[k - 1], steps[k - 1]);
    }
  }

  lemma InitialInv()
    ensures Inv(Initial)
  {
  }

  /** For any threads and any interleaving at most 20,000 calls are admitted for each
      second, and the low bits always count the current window's admissions. */
  lemma AdmissionBound(steps: seq<Step>, states: seq<State>, k: nat, second: nat)
    requires Run(steps, states) && InRange(steps) && k <= |steps|
    ensures states[k].admitted[second] <= MAX_PER_SECOND
    ensures states[k].admitted[Window(states[k].word)] == Count(states[k].word)
  {
    RunKeepsInv(steps, states, k);
  }

  /** A call loses at most Ceiling(second) minus the word it started from many swaps,
      so it ends however the other threads interfere. */
  lemma CallLosesBoundedly(steps: seq<Step>, states: seq<State>, k: nat, id: nat)
    requires Run(steps, states) && InRange(steps) && k <= |steps|
    requires id in states[k].threads && !states[k].threads[id].Outside?
    ensures var t := states[k].threads[id];
            t.failures == 0 || t.failures <= Ceiling(t.second) - t.entry
  {
    RunKeepsInv(steps, states, k);
    assert ThreadOk(states[k].threads[id], states[k].word);
  }

  /* ---------- which sets of seconds keep the limit ---------- */

  ghost predicate CallsIn(steps: seq<Step>, seconds: iset<nat>)
  {
    forall k | 0 <= k < |steps| :: steps[k].Call? ==> steps[k].second in seconds
  }

  /** The window a call for an out-of-range second leaves behind. */
  function Wrapped(second: nat): nat { second % SECOND_RANGE }

  lemma FirstOfWraps(second: nat)
    ensures FirstOf(second) == Wrapped(second) * COUNT_RANGE + 1
    ensures Window(FirstOf(second)) == Wrapped(second) && Count(FirstOf(second)) == 1
    ensures FirstOf(second) < WORD_RANGE
  {
    var q := second / SECOND_RANGE;
    assert second * COUNT_RANGE == q * WORD_RANGE + Wrapped(second) * COUNT_RANGE;
    Remainder(q, WORD_RANGE, Wrapped(second) * COUNT_RANGE);
    Remainder(Wrapped(second), COUNT_RANGE, 1);
  }

  lemma Remainder(q: nat, n: nat, r: nat)
    requires r < n
    ensures (q * n + r) % n == r && (q * n + r) / n == q
  {
    var m, d := (q * n + r) % n, (q * n + r) / n;
    assert (d - q) * n == r - m;
    assert d - q >= 1 ==> (d - q) * n >= n;
    assert d - q <= -1 ==> (d - q) * n + n <= 0;
  }

  /** No call used with s can bring the stored window back to s or below it. */
  ghost predicate Harmless(s: nat, seconds: iset<nat>)
  {
    s < SECOND_RANGE && forall x | x in seconds :: x < SECOND_RANGE || Wrapped(x) > s
  }

  /** The account of one second: nothing before its window, the count during it. */
  ghost predicate SecondOk(st: State, s: nat, seconds: iset<nat>)
  {
    && st.word < WORD_RANGE && Count(st.word) <= MAX_PER_SECOND
    && (forall id | id in st.threads && !st.threads[id].Outside? :: st.threads[id].second in seconds)
    && st.admitted[s] <= MAX_PER_SECOND
    && (Window(st.word) < s ==> st.admitted[s] == 0)
    && (Window(st.word) == s ==> st.admitted[s] == Count(st.word))
  }

  /** Every step keeps the account of s, and past its window s is never admitted again. */
  lemma StepKeepsSecond(st: State, step: Step, s: nat, seconds: iset<nat>)
    requires SecondOk(st, s, seconds) && Enabled(st, step) && Harmless(s, seconds)
    requires step.Call? ==> step.second in seconds
    ensures SecondOk(Next(st, step), s, seconds)
    ensures Window(st.word) > s ==>
              Window(Next(st, step).word) > s && Next(st, step).admitted[s] == st.admitted[s]
  {
    if step.Finish? {
      var t := st.threads[step.id];
      if Decide(t.seen, t.second).Try? && st.word == t.seen {
        SwapWindow(st.word, t.second);
        hide Decide, FirstOf, Window, Count, Wrapped;
      }
    }
  }

  /** A successful swap, in or out of range. */
  lemma SwapWindow(word: nat, second: nat)
    requires word < WORD_RANGE && Count(word) <= MAX_PER_SECOND && Decide(word, second).Try?
    ensures var next := Decide(word, second).next;
            && next < WORD_RANGE && Count(next) <= MAX_PER_SECOND
            && Window(next) == Wrapped(second)
            && (second < SECOND_RANGE ==> Window(word) <= second && Wrapped(second) == second)
            && (Count(next) == if Window(word) == second then Count(word) + 1 else 1)
  {
    FirstOfWraps(second);
    if Window(word) == second {
      Remainder(Window(word), COUNT_RANGE, Count(word) + 1);
      assert word + 1 == Window(word) * COUNT_RANGE + (Count(word) + 1);
    }
  }

  lemma {:induction false} RunKeepsSecond(steps: seq<Step>, states: seq<State>, k: nat, s: nat, seconds: iset<nat>)
    requires Run(steps, states) && CallsIn(steps, seconds) && Harmless(s, seconds) && k <= |steps|
    ensures SecondOk(states[k], s, seconds)
  {
    hide SecondOk, Next, Enabled, Harmless;
    if k == 0 { InitialSecond(s, seconds); }
    else {
      RunKeepsSecond(steps, states, k - 1, s, seconds);
      StepKeepsSecond(states[k - 1], steps[k - 1], s, seconds);
    }
  }

  lemma InitialSecond(s: nat, seconds: iset<nat>)
    ensures SecondOk(Initial, s, seconds)
  {
    assert Window(0) == 0 && Count(0) == 0;
  }

  /** Once the stored window has passed s, every later call for s is refused. */
  lemma {:induction false} PassedIsRefused(steps: seq<Step>, states: seq<State>, j: nat, k: nat, s: nat, seconds: iset<nat>)
    requires Run(steps, states) && CallsIn(steps, seconds) && Harmless(s, seconds) && j <= k <= |steps|
    requires Window(states[j].word) > s
    ensures Window(states[k].word) > s && states[k].admitted[s] == states[j].admitted[s]
  {
    hide SecondOk, Next, Enabled, Harmless, Window;
    if j < k {
      PassedIsRefused(steps, states, j, k - 1, s, seconds);
      RunKeepsSecond(steps, states, k - 1, s, seconds);
      StepKeepsSecond(states[k - 1], steps[k - 1], s, seconds);
    }
  }

  /** Between these states a call for s ends without being admitted. */
  predicate Unserved(st: State, after: State, id: nat, s: nat)
  {
    && !ThreadOf(st, id).Outside? && ThreadOf(st, id).second == s
    && ThreadOf(after, id).Outside? && after.admitted == st.admitted
  }

  predicate Refuses(states: seq<State>, k: nat, id: nat, s: nat)
  {
    k + 1 < |states| && Unserved(states[k], states[k + 1], id, s)
  }

  /** The machine does so on the word the call has loaded, and at no other point. */
  lemma RefusalDecided(st: State, step: Step, id: nat, s: nat)
    requires Enabled(st, step) && Unserved(st, Next(st, step), id, s)
    ensures step == Finish(id) && st.threads[id].Loaded? && Decide(st.threads[id].seen, s).Refuse?
  {
    forall second: nat ensures st.admitted + multiset{second} != st.admitted {
      assert (st.admitted + multiset{second})[second] == st.admitted[second] + 1;
    }
  }

  /** A caller can see why: the limit is used up, or a later second has been served. */
  ghost predicate Justified(st: State, s: nat)
  {
    st.admitted[s] >= MAX_PER_SECOND || LaterServed(st, s)
  }

  ghost predicate LaterServed(st: State, s: nat)
  {
    exists y: nat :: s < y < SECOND_RANGE && st.admitted[y] > 0
  }

  /** The word claims no more than what was admitted. */
  ghost predicate Backed(st: State, word: nat, s: nat)
  {
    && word < WORD_RANGE
    && (Window(word) > s ==> LaterServed(st, s))
    && (Window(word) == s ==> Count(word) <= st.admitted[s])
  }

  /** No call used with s can bring the stored window to s or past it. */
  ghost predicate StaysBehind(s: nat, seconds: iset<nat>)
  {
    s < SECOND_RANGE && forall x | x in seconds :: x < SECOND_RANGE || Wrapped(x) < s
  }

  ghost predicate BackedInv(st: State, s: nat, seconds: iset<nat>)
  {
    && Count(st.word) <= MAX_PER_SECOND && Backed(st, st.word, s)
    && forall id | id in st.threads && !st.threads[id].Outside? ::
         && st.threads[id].second in seconds
         && (st.threads[id].Loaded? ==> Backed(st, st.threads[id].seen, s))
  }

  lemma StaysBacked(st: State, after: State, word: nat, s: nat)
    requires Backed(st, word, s) && st.admitted <= after.admitted
    ensures Backed(after, word, s)
  {
    if LaterServed(st, s) {
      var y: nat :| s < y < SECOND_RANGE && st.admitted[y] > 0;
      assert after.admitted[y] > 0;
    }
  }

  lemma SwapBacked(st: State, after: State, second: nat, s: nat, seconds: iset<nat>)
    requires Backed(st, st.word, s) && Count(st.word) <= MAX_PER_SECOND
    requires StaysBehind(s, seconds) && second in seconds && Decide(st.word, second).Try?
    requires after.word == Decide(st.word, second).next && after.admitted == st.admitted + multiset{second}
    ensures Backed(after, after.word, s) && Count(after.word) <= MAX_PER_SECOND
  {
    SwapWindow(st.word, second);
    hide Decide, FirstOf, Window, Count, Wrapped;
    if s < second < SECOND_RANGE { assert after.admitted[second] > 0; }
  }

  lemma StepKeepsBacked(st: State, step: Step, s: nat, seconds: iset<nat>)
    requires BackedInv(st, s, seconds) && Enabled(st, step) && StaysBehind(s, seconds)
    requires step.Call? ==> step.second in seconds
    ensures BackedInv(Next(st, step), s, seconds)
  {
    var after := Next(st, step);
    assert st.admitted <= after.admitted;
    hide Backed, StaysBehind, Decide, Count;
    forall word | Backed(st, word, s) ensures Backed(after, word, s) { StaysBacked(st, after, word, s); }
    if step.Finish? {
      var t := st.threads[step.id];
      if Decide(t.seen, t.second).Try? && st.word == t.seen { SwapBacked(st, after, t.second, s, seconds); }
    }
  }

  lemma {:induction false} RunKeepsBacked(steps: seq<Step>, states: seq<State>, k: nat, s: nat, seconds: iset<nat>)
    requires Run(steps, states) && CallsIn(steps, seconds) && StaysBehind(s, seconds) && k <= |steps|
    ensures BackedInv(states[k], s, seconds)
  {
    hide BackedInv, Next, Enabled, StaysBehind;
    if k == 0 { InitialBacked(s, seconds); }
    else {
      RunKeepsBacked(steps, states, k - 1, s, seconds);
      StepKeepsBacked(states[k - 1], steps[k - 1], s, seconds);
    }
  }

  lemma InitialBacked(s: nat, seconds: iset<nat>)
    ensures BackedInv(Initial, s, seconds)
  {
    assert Window(0) == 0 && Count(0) == 0;
  }

  ghost predicate WordsFit(st: State)
  {
    && st.word < WORD_RANGE && Count(st.word) <= MAX_PER_SECOND
    && forall id | id in st.threads && st.threads[id].Loaded? :: st.threads[id].seen < WORD_RANGE
  }

  lemma {:induction false} RunKeepsFit(steps: seq<Step>, states: seq<State>, k: nat)
    requires Run(steps, states) && k <= |steps|
    ensures WordsFit(states[k])
  {
    if k == 0 { assert Count(0) == 0; }
    else {
      RunKeepsFit(steps, states, k - 1);
      var st, step := states[k - 1], steps[k - 1];
      if step.Finish? {
        var t := st.threads[step.id];
        if Decide(t.seen, t.second).Try? && st.word == t.seen { SwapWindow(st.word, t.second); }
      }
      hide Decide, Count;
    }
  }

  /** From 2^48 on no call is refused. */
  lemma BeyondRangeNeverRefused(steps: seq<Step>, states: seq<State>, k: nat, id: nat, s: nat)
    requires Run(steps, states) && k < |steps| && s >= SECOND_RANGE
    ensures !Refuses(states, k, id, s)
  {
    RunKeepsFit(steps, states, k);
    if Refuses(states, k, id, s) {
      RefusalDecided(states[k], steps[k], id, s);
      WindowInRange(states[k].threads[id].seen);
    }
  }

  /* ---------- runs of one thread ---------- */

  /** One thread calling for these seconds, one after the other. */
  function SoloSteps(calls: seq<nat>): seq<Step>
  {
    if calls == [] then []
    else SoloSteps(calls[..|calls| - 1]) + [Call(0, calls[|calls| - 1]), Load(0), Finish(0)]
  }

  /** The word after those calls, and who was admitted. */
  function SoloResult(calls: seq<nat>): (nat, multiset<nat>)
  {
    if calls == [] then (0, multiset{})
    else
      var (word, admitted) := SoloResult(calls[..|calls| - 1]);
      var second := calls[|calls| - 1];
      match Decide(word, second)
      case Refuse => (word, admitted)
      case Try(next) => (next, admitted + multiset{second})
  }

  /** Where the n-th call stands in `states`: before it starts, and when it has loaded. */
  ghost predicate SoloAt(calls: seq<nat>, states: seq<State>, n: nat)
    requires n <= |calls| && |states| == 3 * |calls| + 1
  {
    var result, st := SoloResult(calls[..n]), states[3 * n];
    && (st.word, st.admitted) == result && ThreadOf(st, 0).Outside?
    && (n < |calls| ==>
          var loaded := states[3 * n + 2];
          && loaded.admitted == result.1 && loaded.word == result.0
          && ThreadOf(loaded, 0) == Loaded(calls[n], result.0, 0, result.0))
  }

  /** A thread alone: its call ends as Decide says. */
  lemma SoloCall(s0: State, second: nat) returns (s1: State, s2: State, s3: State)
    requires ThreadOf(s0, 0).Outside?
    ensures Enabled(s0, Call(0, second)) && s1 == Next(s0, Call(0, second))
    ensures Enabled(s1, Load(0)) && s2 == Next(s1, Load(0))
    ensures Enabled(s2, Finish(0)) && s3 == Next(s2, Finish(0))
    ensures ThreadOf(s2, 0) == Loaded(second, s0.word, 0, s0.word) && s2.word == s0.word && s2.admitted == s0.admitted
    ensures ThreadOf(s3, 0).Outside?
    ensures (s3.word, s3.admitted) ==
            match Decide(s0.word, second)
            case Refuse => (s0.word, s0.admitted)
            case Try(next) => (next, s0.admitted + multiset{second})
  {
    hide Decide;
    s1 := Next(s0, Call(0, second));
    s2 := Next(s1, Load(0));
    s3 := Next(s2, Finish(0));
  }

  lemma SoloAtInit(init: seq<nat>, second: nat, before: seq<State>, more: seq<State>)
    requires |before| == 3 * |init| + 1 && |more| == 3
    requires forall n | 0 <= n <= |init| :: SoloAt(init, before, n)
    ensures forall n | 0 <= n < |init| :: SoloAt(init + [second], before + more, n)
  {
    hide SoloResult;
    var calls := init + [second];
    forall n | 0 <= n < |init| ensures SoloAt(calls, before + more, n) {
      assert SoloAt(init, before, n) && calls[..n] == init[..n];
    }
  }

  /** They are a run of the machine with that result. */
  lemma {:induction false} SoloRun(calls: seq<nat>) returns (states: seq<State>)
    ensures Run(SoloSteps(calls), states) && |SoloSteps(calls)| == 3 * |calls|
    ensures forall n | 0 <= n <= |calls| :: SoloAt(calls, states, n)
    ensures forall n | 0 <= n < |calls| :: SoloSteps(calls)[3 * n + 2] == Finish(0)
  {
    if calls == [] {
      states := [Initial];
    } else {
      hide Next, Enabled, Decide;
      var init, second := calls[..|calls| - 1], calls[|calls| - 1];
      var before := SoloRun(init);
      assert SoloAt(init, before, |init|) && init[..|init|] == init;
      var s1, s2, s3 := SoloCall(before[|SoloSteps(init)|], second);
      states := before + [s1, s2, s3];
      ExtendRun(SoloSteps(init), before, [Call(0, second), Load(0), Finish(0)], [s1, s2, s3]);
      SoloAtInit(init, second, before, [s1, s2, s3]);
      hide Run;
      assert calls == init + [second];
      assert SoloAt(calls, states, |calls|) by { assert calls[..|calls|] == calls; }
      assert SoloAt(calls, states, |init|) by { assert calls[..|init|] == init; }
    }
  }

  /** One more call, for s, that is refused: the run and the step it happens at. */
  lemma SoloRefusal(calls: seq<nat>, s: nat) returns (steps: seq<Step>, states: seq<State>, k: nat)
    requires Decide(SoloResult(calls).0, s).Refuse?
    ensures Run(steps, states) && k < |steps| && Refuses(states, k, 0, s)
    ensures states[k].admitted == SoloResult(calls).1 && steps == SoloSteps(calls + [s])
  {
    var all := calls + [s];
    states := SoloRun(all);
    steps, k := SoloSteps(all), 3 * |calls| + 2;
    assert SoloAt(all, states, |calls|) && all[..|calls|] == calls;
    assert SoloAt(all, states, |all|) && all[..|all|] == all && all[..|all| - 1] == calls;
  }

  lemma ExtendRun(steps: seq<Step>, states: seq<State>, more: seq<Step>, after: seq<State>)
    requires Run(steps, states) && |more| == 3 && |after| == 3
    requires Enabled(states[|states| - 1], more[0]) && after[0] == Next(states[|states| - 1], more[0])
    requires Enabled(after[0], more[1]) && after[1] == Next(after[0], more[1])
    requires Enabled(after[1], more[2]) && after[2] == Next(after[1], more[2])
    ensures Run(steps + more, states + after)
  {
    hide Next, Enabled;
    var all, ss := steps + more, states + after;
    forall k | 0 <= k < |all| ensures Enabled(ss[k], all[k]) && ss[k + 1] == Next(ss[k], all[k]) {
      if k >= |steps| { assert all[k] == more[k - |steps|]; }
      else { assert all[k] == steps[k] && ss[k] == states[k] && ss[k + 1] == states[k + 1]; }
    }
  }

  lemma {:induction false} SoloCallsIn(calls: seq<nat>, seconds: iset<nat>)
    requires forall c | c in calls :: c in seconds
    ensures CallsIn(SoloSteps(calls), seconds)
  {
    if calls != [] {
      assert calls[|calls| - 1] in calls;
      SoloCallsIn(calls[..|calls| - 1], seconds);
    }
  }

  function Repeat(second: nat, n: nat): (r: seq<nat>)
    ensures forall c | c in r :: c == second
  {
    if n == 0 then [] else Repeat(second, n - 1) + [second]
  }

  /** Past 2^48 the stored window stays behind every caller: all n calls are admitted. */
  lemma {:induction false} BeyondRangeUnlimited(second: nat, n: nat)
    requires SECOND_RANGE <= second
    ensures SoloResult(Repeat(second, n)).0 < WORD_RANGE && SoloResult(Repeat(second, n)).1[second] == n
  {
    if n > 0 {
      BeyondRangeUnlimited(second, n - 1);
      RepeatLength(second, n - 1);
      RepeatLength(second, n);
      assert Repeat(second, n)[..n - 1] == Repeat(second, n - 1);
      FirstOfWraps(second);
      WindowInRange(SoloResult(Repeat(second, n - 1)).0);
      hide Window, FirstOf, Wrapped, Repeat;
    }
  }

  lemma WindowInRange(word: nat)
    requires word < WORD_RANGE
    ensures Window(word) < SECOND_RANGE
  {
  }

  lemma {:induction false} RepeatLength(second: nat, n: nat)
    ensures |Repeat(second, n)| == n
  {
    if n > 0 { RepeatLength(second, n - 1); }
  }

  /** From the start, the first n <= 20,000 calls of an in-range second are admitted. */
  lemma {:induction false} FillsUp(second: nat, n: nat)
    requires second < SECOND_RANGE && n <= MAX_PER_SECOND
    ensures SoloResult(Repeat(second, n)).1[second] == n
    ensures SoloResult(Repeat(second, n)).0 == if n == 0 then 0 else second * COUNT_RANGE + n
  {
    if n > 0 {
      FillsUp(second, n - 1);
      RepeatLength(second, n - 1);
      RepeatLength(second, n);
      assert Repeat(second, n)[..n - 1] == Repeat(second, n - 1);
      FirstOfFits(second);
      Remainder(second, COUNT_RANGE, n - 1);
      hide Repeat, FirstOf;
      assert n > 1 ==> Decide(second * COUNT_RANGE + (n - 1), second) == Try(second * COUNT_RANGE + n);
    }
  }

  /** 20,000 calls for s, one call for an out-of-range x that wraps to s or below, and
      one more call for s: 20,001 calls for s are admitted. */
  lemma WrappedCallReopens(s: nat, x: nat)
    requires s < SECOND_RANGE <= x && Wrapped(x) <= s
    ensures SoloResult(Repeat(s, MAX_PER_SECOND) + [x, s]).1[s] == MAX_PER_SECOND + 1
  {
    var full := Repeat(s, MAX_PER_SECOND);
    FillsUp(s, MAX_PER_SECOND);
    hide Repeat;
    var two, one := full + [x, s], full + [x];
    assert two[..|two| - 1] == one && one[..|one| - 1] == full;
    FirstOfWraps(x);
    Remainder(s, COUNT_RANGE, MAX_PER_SECOND);
    assert SoloResult(one).0 == FirstOf(x) && SoloResult(one).1[s] == MAX_PER_SECOND;
  }

  /** Let callers use the seconds of a set. The limit holds for a second s of the set,
      in every run of any threads, if and only if s is below 2^48 and every second of
      the set is below 2^48 or wraps to a window after s. */
  lemma LimitHoldsExactly(s: nat, seconds: iset<nat>)
    requires s in seconds && forall x | x in seconds :: x < WORD_RANGE
    ensures (s < SECOND_RANGE && forall x | x in seconds :: x < SECOND_RANGE || Wrapped(x) > s) <==>
            forall steps: seq<Step>, states: seq<State> | Run(steps, states) && CallsIn(steps, seconds) ::
              states[|steps|].admitted[s] <= MAX_PER_SECOND
  {
    hide Next, Enabled, SoloSteps, SoloResult, Wrapped;
    if Harmless(s, seconds) {
      forall steps: seq<Step>, states: seq<State> | Run(steps, states) && CallsIn(steps, seconds)
        ensures states[|steps|].admitted[s] <= MAX_PER_SECOND
      {
        RunKeepsSecond(steps, states, |steps|, s, seconds);
      }
    } else {
      var calls := Overrun(s, seconds);
      var states := SoloRun(calls);
      assert SoloAt(calls, states, |calls|) && calls[..|calls|] == calls;
      SoloCallsIn(calls, seconds);
      assert Run(SoloSteps(calls), states) && CallsIn(SoloSteps(calls), seconds);
    }
  }

  lemma Overrun(s: nat, seconds: iset<nat>) returns (calls: seq<nat>)
    requires s in seconds && !Harmless(s, seconds)
    ensures forall c | c in calls :: c in seconds
    ensures SoloResult(calls).1[s] == MAX_PER_SECOND + 1
  {
    hide SoloResult, Wrapped;
    if s >= SECOND_RANGE {
      calls := Repeat(s, MAX_PER_SECOND + 1);
      BeyondRangeUnlimited(s, MAX_PER_SECOND + 1);
    } else {
      var x :| x in seconds && !(x < SECOND_RANGE || Wrapped(x) > s);
      calls := Repeat(s, MAX_PER_SECOND) + [x, s];
      WrappedCallReopens(s, x);
    }
  }

  /** A call for an out-of-range x that wraps to s, and n more for s. */
  lemma {:induction false} FillsAfter(x: nat, s: nat, n: nat)
    requires s < SECOND_RANGE <= x && Wrapped(x) == s && n < MAX_PER_SECOND
    ensures var (word, admitted) := SoloResult([x] + Repeat(s, n));
            && word == s * COUNT_RANGE + (n + 1)
            && forall y: nat :: admitted[y] == if y == s then n else if y == x then 1 else 0
  {
    if n == 0 { FirstAlone(x); assert [x] + Repeat(s, 0) == [x]; FirstOfWraps(x); }
    else {
      FillsAfter(x, s, n - 1);
      assert [x] + Repeat(s, n) == [x] + Repeat(s, n - 1) + [s];
      SoloSnoc([x] + Repeat(s, n - 1), s);
      Remainder(s, COUNT_RANGE, n);
      assert Decide(s * COUNT_RANGE + n, s) == Try(s * COUNT_RANGE + (n + 1));
      hide Repeat, FirstOf, SoloResult, Decide, Wrapped;
    }
  }

  lemma SoloSnoc(calls: seq<nat>, second: nat)
    ensures SoloResult(calls + [second]) ==
            match Decide(SoloResult(calls).0, second)
            case Refuse => SoloResult(calls)
            case Try(next) => (next, SoloResult(calls).1 + multiset{second})
  {
    assert (calls + [second])[..|calls|] == calls;
  }

  /** The first call ever made, at a second that does not fit. */
  lemma FirstAlone(x: nat)
    requires x >= SECOND_RANGE
    ensures SoloResult([x]) == (FirstOf(x), multiset{x})
  {
    assert [x][..0] == [] && SoloResult([]) == (0, multiset{});
    assert Decide(0, x) == Try(FirstOf(x));
    assert multiset{} + multiset{x} == multiset{x};
  }

  /** Calls after which s is refused for no reason a caller could see. */
  lemma Choked(s: nat, seconds: iset<nat>) returns (calls: seq<nat>)
    requires s in seconds && s < SECOND_RANGE && !StaysBehind(s, seconds)
    ensures forall c | c in calls :: c in seconds
    ensures var (word, admitted) := SoloResult(calls);
            && Decide(word, s).Refuse? && admitted[s] < MAX_PER_SECOND
            && forall y: nat | s < y < SECOND_RANGE :: admitted[y] == 0
  {
    hide SoloResult, Wrapped, FirstOf;
    var x :| x in seconds && !(x < SECOND_RANGE || Wrapped(x) < s);
    FirstOfWraps(x);
    if Wrapped(x) > s {
      calls := [x];
      FirstAlone(x);
    } else {
      calls := [x] + Repeat(s, MAX_PER_SECOND - 1);
      FillsAfter(x, s, MAX_PER_SECOND - 1);
      Remainder(s, COUNT_RANGE, MAX_PER_SECOND);
    }
  }

  /** Let callers use the seconds of a set. Each call for a second s of the set that
      ends without being admitted, in every run of any threads, finds 20,000 admissions
      at s or one at a later in-range second, if and only if s is not below 2^48 or every
      second of the set is below 2^48 or wraps to a window before s. */
  lemma RefusalsJustifiedExactly(s: nat, seconds: iset<nat>)
    requires s in seconds && forall x | x in seconds :: x < WORD_RANGE
    ensures (s >= SECOND_RANGE || forall x | x in seconds :: x < SECOND_RANGE || Wrapped(x) < s) <==>
            forall steps: seq<Step>, states: seq<State>, k: nat, id: nat |
              Run(steps, states) && CallsIn(steps, seconds) && Refuses(states, k, id, s) ::
              Justified(states[k], s)
  {
    hide Next, Enabled, Unserved, Justified, CallsIn, SoloSteps, SoloResult, Wrapped, Decide;
    if s >= SECOND_RANGE || StaysBehind(s, seconds) {
      forall steps: seq<Step>, states: seq<State>, k: nat, id: nat |
          Run(steps, states) && CallsIn(steps, seconds) && Refuses(states, k, id, s)
        ensures Justified(states[k], s)
      {
        if s >= SECOND_RANGE { BeyondRangeNeverRefused(steps, states, k, id, s); }
        else { RefusalJustified(steps, states, k, id, s, seconds); }
      }
    } else {
      var calls := Choked(s, seconds);
      var steps, states, k := SoloRefusal(calls, s);
      SoloCallsIn(calls + [s], seconds);
      assert !Justified(states[k], s) by { NotJustified(states[k], s); }
    }
  }

  lemma NotJustified(st: State, s: nat)
    requires st.admitted[s] < MAX_PER_SECOND && forall y: nat | s < y < SECOND_RANGE :: st.admitted[y] == 0
    ensures !Justified(st, s)
  {
  }

  lemma RefusalJustified(steps: seq<Step>, states: seq<State>, k: nat, id: nat, s: nat, seconds: iset<nat>)
    requires Run(steps, states) && CallsIn(steps, seconds) && StaysBehind(s, seconds)
    requires Refuses(states, k, id, s)
    ensures Justified(states[k], s)
  {
    RefusalDecided(states[k], steps[k], id, s);
    RunKeepsBacked(steps, states, k, s, seconds);
    hide Run, CallsIn, StaysBehind, Window, Count;
    assert Backed(states[k], states[k].threads[id].seen, s);
  }

  /** In every run, over a set of seconds, both hold for each of its seconds if and only
      if all of them are below 2^48. */
  lemma LimiterExact(seconds: iset<nat>)
    requires forall x | x in seconds :: x < WORD_RANGE
    ensures (forall x | x in seconds :: x < SECOND_RANGE) <==>
            forall s, steps: seq<Step>, states: seq<State> | s in seconds && Run(steps, states) && CallsIn(steps, seconds) ::
              && states[|steps|].admitted[s] <= MAX_PER_SECOND
              && forall k: nat, id: nat | Refuses(states, k, id, s) :: Justified(states[k], s)
  {
    hide Next, Enabled, Unserved, Justified, CallsIn, Wrapped;
    if forall x | x in seconds :: x < SECOND_RANGE {
      forall s, steps: seq<Step>, states: seq<State> | s in seconds && Run(steps, states) && CallsIn(steps, seconds)
        ensures states[|steps|].admitted[s] <= MAX_PER_SECOND
        ensures forall k: nat, id: nat | Refuses(states, k, id, s) :: Justified(states[k], s)
      {
        LimitHoldsExactly(s, seconds);
        RefusalsJustifiedExactly(s, seconds);
      }
    } else {
      var x :| x in seconds && x >= SECOND_RANGE;
      LimitHoldsExactly(x, seconds);
    }
  }

  /** -1, what a clock just before 1970 reads, as the 64-bit word it is converted to. */
  const MINUS_ONE: nat := WORD_RANGE - 1

  /** A call at -1 with an old window stores the last window there is. No second s below
      that one is admitted again, in any continuation by any threads over a set of
      seconds, if and only if every second of the set is below 2^48 or wraps to a
      window after s. */
  lemma MinusOneSilences(s: nat, seconds: iset<nat>)
    requires s in seconds && MINUS_ONE in seconds && s < SECOND_RANGE - 1
    ensures (forall x | x in seconds :: x < SECOND_RANGE || Wrapped(x) > s) <==>
            forall steps: seq<Step>, states: seq<State>, j: nat, k: nat |
              Run(steps, states) && CallsIn(steps, seconds) && j <= k <= |steps| && states[j].word == FirstOf(MINUS_ONE) ::
              states[k].admitted[s] == states[j].admitted[s]
  {
    hide Next, Enabled, CallsIn, FirstOf, SoloSteps, SoloResult, SoloAt, Wrapped;
    if Harmless(s, seconds) {
      forall steps: seq<Step>, states: seq<State>, j: nat, k: nat |
          Run(steps, states) && CallsIn(steps, seconds) && j <= k <= |steps| && states[j].word == FirstOf(MINUS_ONE)
        ensures states[k].admitted[s] == states[j].admitted[s]
      {
        FirstOfWraps(MINUS_ONE);
        assert Wrapped(MINUS_ONE) == SECOND_RANGE - 1 by { LastWindow(); }
        PassedIsRefused(steps, states, j, k, s, seconds);
      }
    } else {
      var x :| x in seconds && !(x < SECOND_RANGE || Wrapped(x) > s);
      var steps, states := Reopened(s, x, seconds);
      assert states[|steps|].admitted[s] != states[3].admitted[s];
    }
  }

  lemma LastWindow()
    ensures Wrapped(MINUS_ONE) == SECOND_RANGE - 1
  {
  }

  /** -1, then a second that wraps back to s or before, then s: admitted. */
  lemma Reopened(s: nat, x: nat, seconds: iset<nat>) returns (steps: seq<Step>, states: seq<State>)
    requires s in seconds && x in seconds && MINUS_ONE in seconds
    requires s < SECOND_RANGE - 1 && SECOND_RANGE <= x && Wrapped(x) <= s
    ensures Run(steps, states) && CallsIn(steps, seconds) && |steps| == 9
    ensures states[3].word == FirstOf(MINUS_ONE) && states[3].admitted[s] == 0 && states[9].admitted[s] == 1
  {
    var calls := [MINUS_ONE, x, s];
    steps := SoloSteps(calls);
    states := SoloRun(calls);
    SoloCallsIn(calls, seconds);
    assert SoloAt(calls, states, 1) && SoloAt(calls, states, 3);
    FirstAlone(MINUS_ONE);
    assert calls[..1] == [MINUS_ONE] && calls[..3] == calls;
    ReopenedResult(s, x);
  }

  lemma ReopenedResult(s: nat, x: nat)
    requires s < SECOND_RANGE - 1 && SECOND_RANGE <= x && Wrapped(x) <= s
    ensures SoloResult([MINUS_ONE, x, s]).1[s] == 1
  {
    FirstAlone(MINUS_ONE);
    FirstOfWraps(MINUS_ONE);
    FirstOfWraps(x);
    var one, two, three := [MINUS_ONE], [MINUS_ONE, x], [MINUS_ONE, x, s];
    assert three[..2] == two && two[..1] == one;
    hide FirstOf, Wrapped;
    assert SoloResult(two).0 == FirstOf(x) && SoloResult(two).1[s] == 0;
    assert Decide(FirstOf(x), s).Try?;
  }

  /* ---------- alone ---------- */

  /** How many of the calls are for s with none for a later second before them. */
  function Timely(calls: seq<nat>, s: nat): nat
  {
    if calls == [] then 0
    else
      var init := calls[..|calls| - 1];
      Timely(init, s) + if calls[|calls| - 1] == s && (forall c | c in init :: c <= s) then 1 else 0
  }

  function Latest(calls: seq<nat>): (m: nat)
    ensures forall c | c in calls :: c <= m
    ensures m == 0 || m in calls
  {
    if calls == [] then 0
    else
      var m, last := Latest(calls[..|calls| - 1]), calls[|calls| - 1];
      assert calls == calls[..|calls| - 1] + [last];
      if last > m then last else m
  }

  function Limited(n: nat): nat { if n < MAX_PER_SECOND then n else MAX_PER_SECOND }

  /** Run one after the other, in-range calls in any order: each second admits exactly
      its first 20,000 calls that no later second precedes. */
  lemma {:induction false} AloneAdmitsExactly(calls: seq<nat>)
    requires forall c | c in calls :: c < SECOND_RANGE
    ensures forall s :: SoloResult(calls).1[s] == Limited(Timely(calls, s))
    ensures SoloResult(calls).0 == Latest(calls) * COUNT_RANGE + Limited(Timely(calls, Latest(calls)))
  {
    if calls != [] {
      var init, last := calls[..|calls| - 1], calls[|calls| - 1];
      assert last in calls && forall c | c in init :: c in calls;
      AloneAdmitsExactly(init);
      NoneLater(init, last);
      FirstOfFits(last);
      Remainder(Latest(init), COUNT_RANGE, Limited(Timely(init, Latest(init))));
      hide FirstOf, Window, Count;
    }
  }

  /** A second past all calls has had none. */
  lemma {:induction false} NoneLater(calls: seq<nat>, s: nat)
    ensures s !in calls ==> Timely(calls, s) == 0
  {
    if calls != [] { NoneLater(calls[..|calls| - 1], s); }
  }

  /** While the clock does not go back, every second admits min(its calls, 20,000). */
  lemma SteadyClockAdmits(calls: seq<nat>, s: nat)
    requires forall c | c in calls :: c < SECOND_RANGE
    requires forall i, j | 0 <= i < j < |calls| :: calls[i] <= calls[j]
    ensures SoloResult(calls).1[s] == Limited(multiset(calls)[s])
  {
    AloneAdmitsExactly(calls);
    AllTimely(calls, s);
  }

  lemma {:induction false} AllTimely(calls: seq<nat>, s: nat)
    requires forall i, j | 0 <= i < j < |calls| :: calls[i] <= calls[j]
    ensures Timely(calls, s) == multiset(calls)[s]
  {
    if calls != [] {
      var init := calls[..|calls| - 1];
      AllTimely(init, s);
      assert calls == init + [calls[|calls| - 1]];
    }
  }
}
