/** What a batch of events amounts to, said on event lists alone: the meaning the
    batch builder has to implement whatever its hash function does. */
module Aggregation {
  import opened Text
  import opened Events
  import UniqueId

  const MAX_SERIES_PER_BATCH: nat := 2048

  function Min(a: nat, b: nat): nat { if a < b then a else b }

  function Max(a: int, b: int): int { if a < b then b else a }

  /* ---------- the fold ---------- */

  function CounterOf(e: Event): CounterEvent { CounterEvent(e.series, e.value, e.timestamp) }

  function Merge(c: CounterEvent, e: Event): CounterEvent
  {
    CounterEvent(c.series, c.value + e.value, Max(c.timestamp, e.timestamp))
  }

  /** First of the leading n counters with this series, or n. */
  function Slot(cs: seq<CounterEvent>, s: Series, n: nat): (i: nat)
    requires n <= |cs|
    ensures i <= n
    ensures i < n ==> cs[i].series == s
    ensures forall j | 0 <= j < i :: cs[j].series != s
  {
    if n == 0 then 0
    else
      var i := Slot(cs, s, n - 1);
      if i < n - 1 then i else if cs[n - 1].series == s then n - 1 else n
  }

  function AddCounter(cs: seq<CounterEvent>, e: Event): seq<CounterEvent>
  {
    var n := Min(|cs|, MAX_SERIES_PER_BATCH);
    var i := Slot(cs, e.series, n);
    if i < n then cs[i := Merge(cs[i], e)] else cs + [CounterOf(e)]
  }

  function CountersOf(es: seq<Event>): seq<CounterEvent>
  {
    if es == [] then []
    else
      var init, last := CountersOf(es[..|es| - 1]), es[|es| - 1];
      if last.kind == CounterKind then AddCounter(init, last) else init
  }

  function ValuesOf(es: seq<Event>): seq<ValueEvent>
  {
    if es == [] then []
    else
      var init, last := ValuesOf(es[..|es| - 1]), es[|es| - 1];
      if last.kind == ValueKind then init + [ValueEvent(last.series, last.value, last.timestamp)] else init
  }

  lemma ValuesOfOne(e: Event)
    ensures ValuesOf([e]) == if e.kind == ValueKind then [ValueEvent(e.series, e.value, e.timestamp)] else []
  {
    assert [e][..0] == [];
  }

  /** Value samples are forwarded one by one and in order, whatever is between them:
      ValuesOf is the list homomorphism with this value on single events. */
  lemma {:induction false} ValuesForwarded(a: seq<Event>, b: seq<Event>, e: Event)
    ensures ValuesOf(a + b) == ValuesOf(a) + ValuesOf(b)
    ensures ValuesOf([e]) == if e.kind == ValueKind then [ValueEvent(e.series, e.value, e.timestamp)] else []
  {
    ValuesOfOne(e);
    if b == [] { assert a + b == a; }
    else {
      ValuesForwarded(a, b[..|b| - 1], e);
      assert (a + b)[..|a + b| - 1] == a + b[..|b| - 1];
    }
  }

  function UniqueOf(e: Event): UniqueEvent { UniqueEvent(e.series, e.uniqueID, e.timestamp) }

  function UniqueKey(s: Series, id: string): string { SeriesKey(s) + "\U{0001}" + id }

  predicate SeenUnique(us: seq<UniqueEvent>, key: string)
  {
    exists k | 0 <= k < |us| :: UniqueKey(us[k].series, us[k].uniqueID) == key
  }

  function AddUnique(us: seq<UniqueEvent>, e: Event): seq<UniqueEvent>
  {
    if e.uniqueID == "" || SeenUnique(us, UniqueKey(e.series, e.uniqueID)) then us else us + [UniqueOf(e)]
  }

  function UniquesOf(es: seq<Event>): seq<UniqueEvent>
  {
    if es == [] then []
    else
      var init, last := UniquesOf(es[..|es| - 1]), es[|es| - 1];
      if last.kind == UniqueKind then AddUnique(init, last) else init
  }

  /** The payload of a batch. */
  function PayloadOf(es: seq<Event>, batchID: string): Payload
  {
    Payload(batchID, CountersOf(es), ValuesOf(es), UniquesOf(es))
  }

  /* ---------- the declarative meaning of the counters ---------- */

  /** Counter series in order of first occurrence. */
  function DistinctSeries(es: seq<Event>): seq<Series>
  {
    if es == [] then []
    else
      var init, last := DistinctSeries(es[..|es| - 1]), es[|es| - 1];
      if last.kind == CounterKind && last.series !in init then init + [last.series] else init
  }

  function Lead(es: seq<Event>): seq<Series>
  {
    DistinctSeries(es)[..Min(|DistinctSeries(es)|, MAX_SERIES_PER_BATCH)]
  }

  predicate CountsFor(e: Event, s: Series) { e.kind == CounterKind && e.series == s }

  function SumOf(es: seq<Event>, s: Series): real
  {
    if es == [] then 0.0
    else SumOf(es[..|es| - 1], s) + if CountsFor(es[|es| - 1], s) then es[|es| - 1].value else 0.0
  }

  /** Newest timestamp among the counter events of a series. */
  function Newest(es: seq<Event>, s: Series): Option<int>
  {
    if es == [] then None
    else
      var init, last := Newest(es[..|es| - 1], s), es[|es| - 1];
      if !CountsFor(last, s) then init
      else match init
        case None => Some(last.timestamp)
        case Some(t) => Some(Max(t, last.timestamp))
  }

  /** Counter events of series outside `lead`, each on its own, in order. */
  function Singles(es: seq<Event>, lead: seq<Series>): seq<CounterEvent>
  {
    if es == [] then []
    else
      var init, last := Singles(es[..|es| - 1], lead), es[|es| - 1];
      if last.kind == CounterKind && last.series !in lead
      then init + [CounterEvent(last.series, last.value, last.timestamp)] else init
  }

  ghost predicate Describes(cs: seq<CounterEvent>, es: seq<Event>)
  {
    var lead := Lead(es);
    && |lead| <= |cs|
    && (forall i | 0 <= i < |lead| ::
          cs[i].series == lead[i] && cs[i].value == SumOf(es, lead[i])
          && Newest(es, lead[i]) == Some(cs[i].timestamp))
    && cs[|lead|..] == Singles(es, lead)
  }

  ghost predicate Unrepeated<T>(xs: seq<T>)
  {
    forall i, j | 0 <= i < j < |xs| :: xs[i] != xs[j]
  }

  lemma {:induction false} DistinctFacts(es: seq<Event>)
    ensures Unrepeated(DistinctSeries(es))
    ensures forall e | e in es && e.kind == CounterKind :: e.series in DistinctSeries(es)
    ensures |DistinctSeries(es)| <= |es|
    ensures |DistinctSeries(es)| <= MAX_SERIES_PER_BATCH ==> Singles(es, DistinctSeries(es)) == []
  {
    if es != [] {
      var init, last := es[..|es| - 1], es[|es| - 1];
      DistinctFacts(init);
      assert es == init + [last];
      var d, d' := DistinctSeries(init), DistinctSeries(es);
      if |d'| <= MAX_SERIES_PER_BATCH { KnownHaveNoSingles(init, d'); }
    }
  }

  lemma {:induction false} KnownHaveNoSingles(es: seq<Event>, lead: seq<Series>)
    requires forall e | e in es && e.kind == CounterKind :: e.series in lead
    ensures Singles(es, lead) == []
  {
    if es != [] {
      KnownHaveNoSingles(es[..|es| - 1], lead);
      assert es[|es| - 1] in es;
    }
  }

  lemma {:induction false} UnseenAddsNothing(es: seq<Event>, s: Series)
    requires s !in DistinctSeries(es)
    ensures SumOf(es, s) == 0.0 && Newest(es, s) == None
  {
    if es != [] {
      UnseenAddsNothing(es[..|es| - 1], s);
      DistinctFacts(es);
      assert es[|es| - 1] in es;
    }
  }

  /** t is the timestamp of a counter event of s, and none is newer. */
  ghost predicate IsNewest(es: seq<Event>, s: Series, t: int)
  {
    && (exists e :: e in es && e.kind == CounterKind && e.series == s && e.timestamp == t)
    && forall e | e in es && e.kind == CounterKind && e.series == s :: e.timestamp <= t
  }

  lemma {:induction false} NewestIsNewest(es: seq<Event>, s: Series)
    ensures Newest(es, s).Some? ==> IsNewest(es, s, Newest(es, s).value)
    ensures Newest(es, s).None? ==> forall e | e in es :: !CountsFor(e, s)
  {
    if es != [] {
      var init, last := es[..|es| - 1], es[|es| - 1];
      NewestIsNewest(init, s);
      assert es == init + [last];
      assert last in es && forall e | e in init :: e in es;
    }
  }

  /** The built counters are exactly: one sum with the newest timestamp for each of
      the first 2048 series in order of first occurrence, then every counter event
      of later series by itself. */
  lemma CountersDescribed(es: seq<Event>)
    ensures Describes(CountersOf(es), es)
    ensures forall i | 0 <= i < |Lead(es)| :: IsNewest(es, Lead(es)[i], CountersOf(es)[i].timestamp)
  {
    CountersDescribedBy(es);
    hide CountersOf, Lead, Newest, IsNewest, SumOf, Singles;
    forall i | 0 <= i < |Lead(es)| ensures IsNewest(es, Lead(es)[i], CountersOf(es)[i].timestamp) {
      NewestIsNewest(es, Lead(es)[i]);
    }
  }

  lemma {:induction false} CountersDescribedBy(es: seq<Event>)
    ensures Describes(CountersOf(es), es)
  {
    if es != [] {
      var init, last := es[..|es| - 1], es[|es| - 1];
      CountersDescribedBy(init);
      if last.kind == CounterKind { CounterStep(init, last); }
    }
  }

  lemma CounterStep(init: seq<Event>, e: Event)
    requires Describes(CountersOf(init), init) && e.kind == CounterKind
    ensures Describes(AddCounter(CountersOf(init), e), init + [e])
  {
    var es, cs, lead := init + [e], CountersOf(init), Lead(init);
    assert es[..|es| - 1] == init;
    DistinctFacts(init);
    var n := Min(|cs|, MAX_SERIES_PER_BATCH);
    if |lead| < MAX_SERIES_PER_BATCH { assert DistinctSeries(init) == lead; }
    assert n == |lead|;
    var i := Slot(cs, e.series, n);
    if i < n { MergeStep(init, e, i); }
    else if n < MAX_SERIES_PER_BATCH { NewSeriesStep(init, e); }
    else { SingleStep(init, e); }
  }

  lemma MergeStep(init: seq<Event>, e: Event, i: nat)
    requires Describes(CountersOf(init), init) && e.kind == CounterKind
    requires i < |Lead(init)| && Lead(init)[i] == e.series
    ensures var cs := CountersOf(init); Describes(cs[i := Merge(cs[i], e)], init + [e])
  {
    var es, lead := init + [e], Lead(init);
    assert es[..|es| - 1] == init;
    DistinctFacts(init);
    assert e.series in DistinctSeries(init) by { assert DistinctSeries(init)[i] == e.series; }
    assert Lead(es) == lead;
    assert e.series in lead;
    assert Unrepeated(lead);
    hide DistinctSeries, Lead, CountersOf, Unrepeated;
    var cs := CountersOf(init);
    var cs' := cs[i := Merge(cs[i], e)];
    assert cs'[|lead|..] == cs[|lead|..];
    forall j | 0 <= j < |lead|
      ensures cs'[j].series == lead[j] && cs'[j].value == SumOf(es, lead[j]) && Newest(es, lead[j]) == Some(cs'[j].timestamp)
    {
      if j != i { OtherIndex(lead, i, j); }
    }
  }

  lemma OtherIndex<T>(xs: seq<T>, i: nat, j: nat)
    requires Unrepeated(xs) && i < |xs| && j < |xs| && i != j
    ensures xs[i] != xs[j]
  {
  }

  lemma NewSeriesStep(init: seq<Event>, e: Event)
    requires Describes(CountersOf(init), init) && e.kind == CounterKind
    requires |DistinctSeries(init)| < MAX_SERIES_PER_BATCH && e.series !in DistinctSeries(init)
    ensures Describes(CountersOf(init) + [CounterOf(e)], init + [e])
  {
    var es, lead := init + [e], DistinctSeries(init);
    assert es[..|es| - 1] == init;
    DistinctFacts(init);
    DistinctFacts(es);
    UnseenAddsNothing(init, e.series);
    assert Lead(init) == lead && Lead(es) == DistinctSeries(es) == lead + [e.series];
    assert forall j | 0 <= j < |lead| :: lead[j] in lead;
    hide DistinctSeries, Lead, CountersOf;
    var cs := CountersOf(init);
    var cs' := cs + [CounterOf(e)];
    assert |cs| == |lead| by { assert cs[|lead|..] == []; }
    forall j | 0 <= j < |lead| + 1
      ensures var s := (lead + [e.series])[j];
              cs'[j].series == s && cs'[j].value == SumOf(es, s) && Newest(es, s) == Some(cs'[j].timestamp)
    {
      if j < |lead| { assert cs'[j] == cs[j] && lead[j] != e.series; }
    }
    assert cs'[|lead| + 1..] == [];
  }

  lemma SingleStep(init: seq<Event>, e: Event)
    requires Describes(CountersOf(init), init) && e.kind == CounterKind
    requires |Lead(init)| == MAX_SERIES_PER_BATCH && e.series !in Lead(init)
    ensures Describes(CountersOf(init) + [CounterOf(e)], init + [e])
  {
    var es, lead := init + [e], Lead(init);
    assert es[..|es| - 1] == init;
    assert Lead(es) == lead;
    hide DistinctSeries, Lead, CountersOf;
    var cs := CountersOf(init);
    var cs' := cs + [CounterOf(e)];
    forall j | 0 <= j < |lead|
      ensures cs'[j].series == lead[j] && cs'[j].value == SumOf(es, lead[j]) && Newest(es, lead[j]) == Some(cs'[j].timestamp)
    {
      assert cs'[j] == cs[j] && lead[j] != e.series;
    }
    assert cs'[|lead|..] == cs[|lead|..] + [CounterOf(e)];
  }

  /** A batch makes a payload exactly when it holds a counter, a value, or a unique
      event with an id. */
  ghost predicate Carries(es: seq<Event>)
  {
    exists e :: e in es && (e.kind == CounterKind || e.kind == ValueKind || (e.kind == UniqueKind && e.uniqueID != ""))
  }

  lemma {:induction false} PayloadIfCarries(es: seq<Event>, batchID: string)
    ensures PayloadOf(es, batchID).Empty() <==> !Carries(es)
  {
    if es != [] {
      var init, last := es[..|es| - 1], es[|es| - 1];
      PayloadIfCarries(init, batchID);
      assert es == init + [last];
      assert last in es && forall e | e in init :: e in es;
      hide UniqueKey;
      assert UniquesOf(init) == [] ==> forall key :: !SeenUnique(UniquesOf(init), key);
    }
  }

  /* ---------- conservation ---------- */

  /** Counter value of a series summed over a payload's counters. */
  function Amount(cs: seq<CounterEvent>, s: Series): real
  {
    if cs == [] then 0.0
    else Amount(cs[..|cs| - 1], s) + if cs[|cs| - 1].series == s then cs[|cs| - 1].value else 0.0
  }

  lemma {:induction false} AmountUpdate(cs: seq<CounterEvent>, i: nat, c: CounterEvent, s: Series)
    requires i < |cs| && c.series == cs[i].series
    ensures Amount(cs[i := c], s) == Amount(cs, s) + if c.series == s then c.value - cs[i].value else 0.0
  {
    var init := cs[..|cs| - 1];
    if i < |cs| - 1 {
      AmountUpdate(init, i, c, s);
      assert cs[i := c][..|cs| - 1] == init[i := c];
    } else {
      assert cs[i := c][..|cs| - 1] == init;
    }
  }

  /** Nothing is lost or invented: per series, the built counters add up to the
      counter events of the batch, below and above the cap. */
  lemma {:induction false} CountersConserve(es: seq<Event>, s: Series)
    ensures Amount(CountersOf(es), s) == SumOf(es, s)
  {
    if es != [] {
      var init, last := es[..|es| - 1], es[|es| - 1];
      CountersConserve(init, s);
      if last.kind == CounterKind {
        var cs := CountersOf(init);
        var n := Min(|cs|, MAX_SERIES_PER_BATCH);
        var i := Slot(cs, last.series, n);
        if i < n { AmountUpdate(cs, i, Merge(cs[i], last), s); }
        else { assert (cs + [CounterOf(last)])[..|cs|] == cs; }
      }
    }
  }

  /** A batch within the cap never yields two counters of one series. */
  lemma OneCounterPerSeries(es: seq<Event>, i: nat, j: nat)
    requires |es| <= MAX_SERIES_PER_BATCH && i < j < |CountersOf(es)|
    ensures CountersOf(es)[i].series != CountersOf(es)[j].series
  {
    CountersDescribed(es);
    DistinctFacts(es);
    assert Lead(es) == DistinctSeries(es);
    hide CountersOf, DistinctSeries, Singles;
    assert |CountersOf(es)[|Lead(es)|..]| == 0;
  }

  lemma {:induction false} SumOfConcat(a: seq<Event>, b: seq<Event>, s: Series)
    ensures SumOf(a + b, s) == SumOf(a, s) + SumOf(b, s)
  {
    if b == [] { assert a + b == a; }
    else {
      SumOfConcat(a, b[..|b| - 1], s);
      assert (a + b)[..|a + b| - 1] == a + b[..|b| - 1];
    }
  }

  /* ---------- the meaning of the uniques ---------- */

  predicate UniqueInput(e: Event) { e.kind == UniqueKind && e.uniqueID != "" }

  predicate SameUnique(a: Event, b: Event)
  {
    UniqueKey(a.series, a.uniqueID) == UniqueKey(b.series, b.uniqueID)
  }

  /** Event i is the first of its key. */
  predicate Leading(es: seq<Event>, i: nat)
    requires i < |es|
  {
    UniqueInput(es[i]) && forall j | 0 <= j < i :: UniqueInput(es[j]) ==> !SameUnique(es[j], es[i])
  }

  /** Positions of the first occurrences, in order. */
  function LeadingIndices(es: seq<Event>): (r: seq<nat>)
    ensures forall k | 0 <= k < |r| :: r[k] < |es| && Leading(es, r[k])
    ensures forall k, l | 0 <= k < l < |r| :: r[k] < r[l]
    ensures forall i | 0 <= i < |es| && Leading(es, i) :: i in r
  {
    if es == [] then []
    else
      var n := |es| - 1;
      var init := LeadingIndices(es[..n]);
      assert forall i | 0 <= i < n :: Leading(es[..n], i) == Leading(es, i);
      if Leading(es, n) then init + [n] else init
  }

  /** The built uniques are the first occurrences of each key, in order, each with
      its own timestamp. */
  lemma {:induction false} UniquesAreLeading(es: seq<Event>)
    ensures |UniquesOf(es)| == |LeadingIndices(es)|
    ensures forall k | 0 <= k < |UniquesOf(es)| ::
              var e := es[LeadingIndices(es)[k]];
              UniquesOf(es)[k] == UniqueEvent(e.series, e.uniqueID, e.timestamp)
    ensures forall e | e in es && UniqueInput(e) :: SeenUnique(UniquesOf(es), UniqueKey(e.series, e.uniqueID))
  {
    hide UniqueKey;
    if es != [] {
      var n := |es| - 1;
      var init, last := es[..n], es[n];
      UniquesAreLeading(init);
      assert es == init + [last];
      assert UniquesOf(init) <= UniquesOf(es);
      if UniqueInput(last) { LastIsLeading(es); }
      StillSeen(UniquesOf(init), UniquesOf(es), init);
    }
  }

  lemma StillSeen(us: seq<UniqueEvent>, more: seq<UniqueEvent>, es: seq<Event>)
    requires us <= more
    requires forall e | e in es && UniqueInput(e) :: SeenUnique(us, UniqueKey(e.series, e.uniqueID))
    ensures forall e | e in es && UniqueInput(e) :: SeenUnique(more, UniqueKey(e.series, e.uniqueID))
  {
    hide UniqueKey;
    forall e | e in es && UniqueInput(e) ensures SeenUnique(more, UniqueKey(e.series, e.uniqueID)) {
      var k :| 0 <= k < |us| && UniqueKey(us[k].series, us[k].uniqueID) == UniqueKey(e.series, e.uniqueID);
      assert more[k] == us[k];
    }
  }

  lemma LastIsLeading(es: seq<Event>)
    requires es != [] && UniqueInput(es[|es| - 1])
    requires var init := es[..|es| - 1];
             && |UniquesOf(init)| == |LeadingIndices(init)|
             && (forall k | 0 <= k < |UniquesOf(init)| ::
                   var e := es[LeadingIndices(init)[k]];
                   UniquesOf(init)[k] == UniqueEvent(e.series, e.uniqueID, e.timestamp))
             && (forall e | e in init && UniqueInput(e) :: SeenUnique(UniquesOf(init), UniqueKey(e.series, e.uniqueID)))
    ensures var last := es[|es| - 1];
            && SeenUnique(UniquesOf(es), UniqueKey(last.series, last.uniqueID))
            && (SeenUnique(UniquesOf(es[..|es| - 1]), UniqueKey(last.series, last.uniqueID)) <==> !Leading(es, |es| - 1))
  {
    hide UniqueKey;
    var n := |es| - 1;
    var init, last := es[..n], es[n];
    var us, idx, key := UniquesOf(init), LeadingIndices(init), UniqueKey(last.series, last.uniqueID);
    if SeenUnique(us, key) {
      var k :| 0 <= k < |us| && UniqueKey(us[k].series, us[k].uniqueID) == key;
      assert es[idx[k]] == init[idx[k]];
      assert SameUnique(es[idx[k]], last) && UniqueInput(es[idx[k]]);
    } else {
      forall j | 0 <= j < n && UniqueInput(es[j]) ensures !SameUnique(es[j], last) {
        assert es[j] in init;
      }
      assert UniquesOf(es) == us + [UniqueOf(last)];
      assert UniquesOf(es)[|us|] == UniqueOf(last);
    }
  }

  /** On NUL-free series and ids the dedup key separates series and id. */
  lemma UniqueKeyInjective(a: Series, b: Series, x: string, y: string)
    requires NulFree(a) && NulFree(b) && NUL !in x && NUL !in y
    requires UniqueKey(a, x) == UniqueKey(b, y)
    ensures a == b && x == y
  {
    SplitKey(a, x);
    SplitKey(b, y);
    var ra, rb := Parts(a) + ["\U{0001}" + x], Parts(b) + ["\U{0001}" + y];
    assert ra == rb;
    assert ra[..|ra| - 1] == Parts(a) && rb[..|rb| - 1] == Parts(b);
    assert ra[|ra| - 1] == rb[|rb| - 1];
    assert ("\U{0001}" + x)[1..] == x && ("\U{0001}" + y)[1..] == y;
    assert SeriesKey(a) == SeriesKey(b);
    KeyInjective(a, b);
  }

  lemma SplitKey(s: Series, x: string)
    requires NulFree(s) && NUL !in x
    ensures Split(UniqueKey(s, x), NUL) == Parts(s) + ["\U{0001}" + x]
  {
    var tail := "\U{0001}" + x;
    SplitTerminatedRest(Parts(s), tail, NUL);
    SplitLast(tail, NUL);
    assert UniqueKey(s, x) == SeriesKey(s) + tail;
  }

  lemma {:induction false} SplitTerminatedRest(parts: seq<string>, rest: string, c: char)
    requires forall p | p in parts :: c !in p
    ensures Split(Terminated(parts, c) + rest, c) == parts + Split(rest, c)
  {
    hide Split;
    if parts == [] {
      assert Terminated(parts, c) + rest == rest;
    } else {
      SplitTerminatedRest(parts[1..], rest, c);
      SplitFirst(parts[0], c, Terminated(parts[1..], c) + rest);
      assert Terminated(parts, c) + rest == parts[0] + [c] + (Terminated(parts[1..], c) + rest);
    }
  }

  /** Two unique events collapse exactly when metric, labels and the number their id
      denotes agree. */
  lemma DedupByMeaning(a: Event, b: Event, x: UniqueId.RawId, y: UniqueId.RawId)
    requires NulFree(a.series) && NulFree(b.series)
    requires UniqueId.Representable(x) && UniqueId.Representable(y)
    requires UniqueId.Canonical(x) == Some(a.uniqueID) && UniqueId.Canonical(y) == Some(b.uniqueID)
    ensures SameUnique(a, b) <==> a.series == b.series && UniqueId.Denotation(x) == UniqueId.Denotation(y)
  {
    UniqueId.SameTextIffSameNumber(x, y);
    CanonicalHasNoNul(x, a.uniqueID);
    CanonicalHasNoNul(y, b.uniqueID);
    hide NulFree, UniqueId.Canonical, UniqueId.Denotation, UniqueKey;
    if SameUnique(a, b) { UniqueKeyInjective(a.series, b.series, a.uniqueID, b.uniqueID); }
  }

  lemma CanonicalHasNoNul(x: UniqueId.RawId, id: string)
    requires UniqueId.Canonical(x) == Some(id)
    ensures NUL !in id
  {
    hide Format;
  }
}
