/** Turning monotonic totals into counter deltas (client.go, applyTotal). */
module Totals {
  import opened Text
  import opened Events
  import opened Aggregation

  const MAX_TOTAL_SERIES: nat := 2048

  type Baselines = map<string, real>

  /** The new baselines and the counter delta to keep, if any. */
  function ApplyTotal(totals: Baselines, e: Event, limit: nat): (Baselines, Option<Event>)
  {
    var key := SeriesKey(e.series);
    if limit == 0 then (totals, None)
    else if key !in totals then (if |totals| >= limit then totals else totals[key := e.value], None)
    else if e.value <= totals[key] then (totals[key := e.value], None)
    else (totals[key := e.value], Some(e.(kind := CounterKind, value := e.value - totals[key])))
  }

  /** What a dequeued event becomes on its way into the batch. */
  function Convert(totals: Baselines, e: Event): (Baselines, Option<Event>)
  {
    if e.kind == TotalKind then ApplyTotal(totals, e, MAX_TOTAL_SERIES) else (totals, Some(e))
  }

  /** Baselines after a stream of events, and the events that reach the batch. */
  function ConvertAll(es: seq<Event>): (Baselines, seq<Event>)
  {
    if es == [] then (map[], [])
    else
      var (totals, out) := ConvertAll(es[..|es| - 1]);
      var (totals', e) := Convert(totals, es[|es| - 1]);
      (totals', if e.Some? then out + [e.value] else out)
  }

  /* ---------- the independent account ---------- */

  /** The Total samples of one series, in order. */
  function SamplesOf(es: seq<Event>, s: Series): seq<real>
  {
    if es == [] then []
    else
      var init, last := SamplesOf(es[..|es| - 1], s), es[|es| - 1];
      if last.kind == TotalKind && last.series == s then init + [last.value] else init
  }

  function Rise(from: real, to: real): real { if to > from then to - from else 0.0 }

  /** Sum of all rises (falls) between neighbouring samples. */
  function Rises(xs: seq<real>): real
  {
    if |xs| < 2 then 0.0 else Rises(xs[..|xs| - 1]) + Rise(xs[|xs| - 2], xs[|xs| - 1])
  }

  function Falls(xs: seq<real>): real
  {
    if |xs| < 2 then 0.0 else Falls(xs[..|xs| - 1]) + Rise(xs[|xs| - 1], xs[|xs| - 2])
  }

  /** latest = first + rises - falls */
  lemma {:induction false} Telescopes(xs: seq<real>)
    requires xs != []
    ensures xs[|xs| - 1] == xs[0] + Rises(xs) - Falls(xs)
  {
    if |xs| > 1 { Telescopes(xs[..|xs| - 1]); }
  }

  /** No Total of another series shares the key of s. */
  ghost predicate OwnsKey(es: seq<Event>, s: Series)
  {
    forall e | e in es && e.kind == TotalKind && SeriesKey(e.series) == SeriesKey(s) :: e.series == s
  }

  /** It is enough that s and the series of all Totals are free of NUL bytes. */
  lemma NulFreeOwnsKey(es: seq<Event>, s: Series)
    requires NulFree(s) && forall e | e in es && e.kind == TotalKind :: NulFree(e.series)
    ensures OwnsKey(es, s)
  {
    hide SeriesKey, NulFree;
    forall e | e in es && e.kind == TotalKind && SeriesKey(e.series) == SeriesKey(s) ensures e.series == s {
      KeyInjective(e.series, s);
    }
  }

  /** The books of one series: `counted` is the sum of its Count deltas and xs its
      Total samples. A tracked series stores its latest sample and has contributed its
      rises; an untracked one was refused because the table was full, and contributed
      nothing. */
  ghost predicate Account(totals: Baselines, out: seq<Event>, counted: real, xs: seq<real>, s: Series)
  {
    && |totals| <= MAX_TOTAL_SERIES
    && (forall e | e in out :: e.kind != TotalKind)
    && (if SeriesKey(s) in totals
        then xs != [] && totals[SeriesKey(s)] == xs[|xs| - 1] && SumOf(out, s) == counted + Rises(xs)
        else (xs == [] || |totals| >= MAX_TOTAL_SERIES) && SumOf(out, s) == counted)
  }

  lemma SumOfSnoc(out: seq<Event>, e: Event, s: Series)
    ensures SumOf(out + [e], s) == SumOf(out, s) + if CountsFor(e, s) then e.value else 0.0
  {
    assert (out + [e])[..|out + [e]| - 1] == out;
  }

  lemma RisesSnoc(xs: seq<real>, x: real)
    ensures Rises(xs + [x]) == Rises(xs) + if xs == [] then 0.0 else Rise(xs[|xs| - 1], x)
  {
    assert (xs + [x])[..|xs|] == xs;
  }

  lemma CountStep(totals: Baselines, out: seq<Event>, counted: real, xs: seq<real>, s: Series, e: Event)
    requires Account(totals, out, counted, xs, s) && e.kind != TotalKind
    ensures Account(totals, out + [e], counted + (if CountsFor(e, s) then e.value else 0.0), xs, s)
  {
    hide SeriesKey, SumOf, Rises;
    SumOfSnoc(out, e, s);
  }

  lemma OwnTotalStep(totals: Baselines, out: seq<Event>, counted: real, xs: seq<real>, e: Event)
    requires Account(totals, out, counted, xs, e.series) && e.kind == TotalKind
    ensures var (totals', kept) := ApplyTotal(totals, e, MAX_TOTAL_SERIES);
            Account(totals', if kept.Some? then out + [kept.value] else out, counted, xs + [e.value], e.series)
  {
    hide SeriesKey, SumOf, Rises;
    var key := SeriesKey(e.series);
    RisesSnoc(xs, e.value);
    if key in totals {
      assert (totals[key := e.value]).Keys == totals.Keys;
      SumOfSnoc(out, e.(kind := CounterKind, value := e.value - totals[key]), e.series);
    } else {
      assert (totals[key := e.value]).Keys == totals.Keys + {key};
      NoRises(xs, e.value);
    }
  }

  lemma NoRises(xs: seq<real>, x: real)
    ensures xs == [] ==> Rises(xs + [x]) == 0.0
  {
  }

  lemma OtherTotalStep(totals: Baselines, out: seq<Event>, counted: real, xs: seq<real>, s: Series, e: Event)
    requires Account(totals, out, counted, xs, s) && e.kind == TotalKind
    requires SeriesKey(e.series) != SeriesKey(s)
    ensures var (totals', kept) := ApplyTotal(totals, e, MAX_TOTAL_SERIES);
            Account(totals', if kept.Some? then out + [kept.value] else out, counted, xs, s)
  {
    hide SeriesKey, SumOf, Rises;
    var key := SeriesKey(e.series);
    if key in totals {
      assert (totals[key := e.value]).Keys == totals.Keys;
      SumOfSnoc(out, e.(kind := CounterKind, value := e.value - totals[key]), s);
    } else {
      assert (totals[key := e.value]).Keys == totals.Keys + {key};
    }
  }

  /** Per series, what reaches the batch is the Count deltas plus, for a tracked
      series, the rises of its Total samples; no event keeps the type Total. */
  lemma {:induction false} ConversionAccount(es: seq<Event>, s: Series)
    requires OwnsKey(es, s)
    ensures Account(ConvertAll(es).0, ConvertAll(es).1, SumOf(es, s), SamplesOf(es, s), s)
  {
    hide SeriesKey;
    if es == [] {
    } else {
      var init, last := es[..|es| - 1], es[|es| - 1];
      assert last in es && forall e | e in init :: e in es;
      ConversionAccount(init, s);
      hide Account, ApplyTotal, Rises;
      var (totals, out) := ConvertAll(init);
      if last.kind != TotalKind { CountStep(totals, out, SumOf(init, s), SamplesOf(init, s), s, last); }
      else if last.series == s { OwnTotalStep(totals, out, SumOf(init, s), SamplesOf(init, s), last); }
      else { OtherTotalStep(totals, out, SumOf(init, s), SamplesOf(init, s), s, last); }
    }
  }

  /** No event reaches the batch as a Total, whatever its series. */
  lemma {:induction false} NoTotals(es: seq<Event>)
    ensures forall e | e in ConvertAll(es).1 :: e.kind != TotalKind
  {
    hide SeriesKey;
    if es != [] { NoTotals(es[..|es| - 1]); }
  }

  /** Every event that reaches the batch has the series and id of a dequeued one. */
  lemma {:induction false} ConvertedFrom(es: seq<Event>)
    ensures forall e | e in ConvertAll(es).1 :: exists d :: d in es && d.series == e.series && d.uniqueID == e.uniqueID
  {
    hide SeriesKey;
    if es != [] {
      var init, last := es[..|es| - 1], es[|es| - 1];
      ConvertedFrom(init);
      assert last in es && forall d | d in init :: d in es;
    }
  }

  /** Deltas are strictly positive and a refused or first sample yields none. */
  lemma OnlyPositiveDeltas(totals: Baselines, e: Event)
    ensures var (totals', out) := ApplyTotal(totals, e, MAX_TOTAL_SERIES);
            && (out.Some? ==> out.value.value > 0.0 && out.value.kind == CounterKind && out.value.series == e.series)
            && (out.Some? ==> SeriesKey(e.series) in totals && e.value == totals[SeriesKey(e.series)] + out.value.value)
            && totals.Keys <= totals'.Keys
  {
  }

  /** For a tracked series the emitted deltas, less the resets, lead from the first
      sample to the stored one. */
  lemma TotalsTelescope(es: seq<Event>, s: Series)
    requires OwnsKey(es, s) && SeriesKey(s) in ConvertAll(es).0
    ensures var xs := SamplesOf(es, s);
            xs != [] && ConvertAll(es).0[SeriesKey(s)]
                        == xs[0] + (SumOf(ConvertAll(es).1, s) - SumOf(es, s)) - Falls(xs)
  {
    hide SeriesKey, ConvertAll, SumOf, Rises, Falls, SamplesOf;
    ConversionAccount(es, s);
    Telescopes(SamplesOf(es, s));
  }

  /* ---------- what becomes of each event ---------- */

  /** The latest Total sample under this key. */
  function Stored(es: seq<Event>, key: string): Option<real>
  {
    if es == [] then None
    else
      var last := es[|es| - 1];
      if last.kind == TotalKind && SeriesKey(last.series) == key then Some(last.value)
      else Stored(es[..|es| - 1], key)
  }

  function TotalKeys(es: seq<Event>): set<string>
  {
    set e | e in es && e.kind == TotalKind :: SeriesKey(e.series)
  }

  /** Event i of the stream reaches the batch as x: unchanged, or, for a Total, as its
      rise over the sample before it, with its own series, id and timestamp. */
  ghost predicate Becomes(es: seq<Event>, i: nat, x: Event)
    requires i < |es|
  {
    var e := es[i];
    if e.kind != TotalKind then x == e
    else
      var before := Stored(es[..i], SeriesKey(e.series));
      && before.Some? && e.value > before.value
      && x == Event(CounterKind, e.series, e.value - before.value, e.uniqueID, e.timestamp)
  }

  /** Event i of the stream may be left out: a Total that is the first of its key, or no
      rise, or comes when 2048 keys have been seen. */
  ghost predicate Droppable(es: seq<Event>, i: nat)
    requires i < |es|
  {
    var before := Stored(es[..i], SeriesKey(es[i].series));
    && es[i].kind == TotalKind
    && (before.None? || es[i].value <= before.value || |TotalKeys(es[..i])| >= 2048)
  }

  /** out holds the events at the positions `from`, in order, and no others. */
  ghost predicate Converted(es: seq<Event>, out: seq<Event>, from: seq<nat>)
  {
    && |from| == |out|
    && (forall k | 0 <= k < |from| :: from[k] < |es| && Becomes(es, from[k], out[k]))
    && (forall j, k | 0 <= j < k < |from| :: from[j] < from[k])
    && (forall i | 0 <= i < |es| :: i in from || Droppable(es, i))
  }

  /** The baselines are the latest samples, of all keys as long as there is room. */
  ghost predicate Tracks(totals: Baselines, es: seq<Event>)
  {
    && totals.Keys <= TotalKeys(es) && |totals| <= MAX_TOTAL_SERIES
    && (|totals| < MAX_TOTAL_SERIES ==> totals.Keys == TotalKeys(es))
    && (forall key | key in totals :: Stored(es, key) == Some(totals[key]))
  }

  lemma {:induction false} StoredAmong(es: seq<Event>, key: string)
    ensures Stored(es, key).Some? <==> key in TotalKeys(es)
  {
    hide SeriesKey;
    if es != [] {
      var init, last := es[..|es| - 1], es[|es| - 1];
      StoredAmong(init, key);
      assert es == init + [last];
      assert TotalKeys(es) == TotalKeys(init) + if last.kind == TotalKind then {SeriesKey(last.series)} else {};
    }
  }

  lemma StoredSnoc(init: seq<Event>, e: Event, key: string)
    ensures Stored(init + [e], key)
         == if e.kind == TotalKind && SeriesKey(e.series) == key then Some(e.value) else Stored(init, key)
  {
    assert (init + [e])[..|init|] == init;
  }

  lemma KeysSnoc(init: seq<Event>, e: Event)
    ensures TotalKeys(init + [e]) == TotalKeys(init) + if e.kind == TotalKind then {SeriesKey(e.series)} else {}
  {
    hide SeriesKey;
  }

  lemma PutTracks(totals: Baselines, init: seq<Event>, e: Event)
    requires Tracks(totals, init) && e.kind == TotalKind
    requires SeriesKey(e.series) in totals || |totals| < MAX_TOTAL_SERIES
    ensures Tracks(totals[SeriesKey(e.series) := e.value], init + [e])
  {
    hide SeriesKey, TotalKeys, Stored;
    var key := SeriesKey(e.series);
    var totals' := totals[key := e.value];
    KeysSnoc(init, e);
    assert totals'.Keys == totals.Keys + {key};
    assert |totals'.Keys| == |totals'| && |totals.Keys| == |totals|;
    if key in totals { assert totals'.Keys == totals.Keys; }
    forall k | k in totals' ensures Stored(init + [e], k) == Some(totals'[k]) { StoredSnoc(init, e, k); }
  }

  lemma LeaveTracks(totals: Baselines, init: seq<Event>, e: Event)
    requires Tracks(totals, init)
    requires e.kind == TotalKind ==> SeriesKey(e.series) !in totals && |totals| == MAX_TOTAL_SERIES
    ensures Tracks(totals, init + [e])
  {
    hide SeriesKey, TotalKeys, Stored;
    KeysSnoc(init, e);
    forall k | k in totals ensures Stored(init + [e], k) == Some(totals[k]) { StoredSnoc(init, e, k); }
  }

  lemma TracksStep(totals: Baselines, init: seq<Event>, e: Event)
    requires Tracks(totals, init)
    ensures Tracks(Convert(totals, e).0, init + [e])
  {
    hide SeriesKey, TotalKeys, Stored;
    if e.kind == TotalKind && (SeriesKey(e.series) in totals || |totals| < MAX_TOTAL_SERIES) {
      PutTracks(totals, init, e);
    } else {
      LeaveTracks(totals, init, e);
    }
    hide Tracks;
  }

  lemma LastBecomes(totals: Baselines, init: seq<Event>, e: Event)
    requires Tracks(totals, init)
    ensures var es, kept := init + [e], Convert(totals, e).1;
            if kept.Some? then Becomes(es, |init|, kept.value) else Droppable(es, |init|)
  {
    hide SeriesKey;
    var es, key := init + [e], SeriesKey(e.series);
    assert es[..|init|] == init;
    StoredAmong(init, key);
    if e.kind == TotalKind && key !in totals && |totals| >= MAX_TOTAL_SERIES {
      SubsetSize(totals.Keys, TotalKeys(init));
      assert |totals.Keys| == |totals|;
    }
  }

  lemma {:induction false} SubsetSize(a: set<string>, b: set<string>)
    requires a <= b
    ensures |a| <= |b|
  {
    if a != {} {
      var x :| x in a;
      SubsetSize(a - {x}, b - {x});
    }
  }

  lemma EarlierStays(init: seq<Event>, e: Event, i: nat, x: Event)
    requires i < |init|
    ensures Becomes(init + [e], i, x) <==> Becomes(init, i, x)
    ensures Droppable(init + [e], i) <==> Droppable(init, i)
  {
    assert (init + [e])[..i] == init[..i];
  }

  lemma ConvertedSnoc(init: seq<Event>, e: Event, out: seq<Event>, from: seq<nat>, kept: Option<Event>)
    returns (from': seq<nat>)
    requires Converted(init, out, from)
    requires var es := init + [e];
             if kept.Some? then Becomes(es, |init|, kept.value) else Droppable(es, |init|)
    ensures Converted(init + [e], if kept.Some? then out + [kept.value] else out, from')
  {
    hide Becomes, Droppable;
    var es := init + [e];
    from' := if kept.Some? then from + [|init|] else from;
    forall k | 0 <= k < |from| ensures Becomes(es, from[k], out[k]) {
      EarlierStays(init, e, from[k], out[k]);
    }
    forall i | 0 <= i < |es| ensures i in from' || Droppable(es, i) {
      if i < |init| { EarlierStays(init, e, i, e); }
      else if kept.Some? { assert from'[|from|] == i; }
    }
  }

  /** Every event of a stream reaches the batch exactly once and in order, Totals as
      their rises, except the Totals that yield no rise or find the table full. */
  lemma {:induction false} ConvertedShape(es: seq<Event>) returns (from: seq<nat>)
    ensures Converted(es, ConvertAll(es).1, from) && Tracks(ConvertAll(es).0, es)
  {
    if es == [] { from := []; }
    else {
      hide Converted, Tracks, Convert, Becomes, Droppable;
      var init, last := es[..|es| - 1], es[|es| - 1];
      var before := ConvertedShape(init);
      assert es == init + [last];
      var (totals, out) := ConvertAll(init);
      TracksStep(totals, init, last);
      LastBecomes(totals, init, last);
      from := ConvertedSnoc(init, last, out, before, Convert(totals, last).1);
    }
  }

  /** The events of one kind, in order. */
  function Only(es: seq<Event>, kind: Kind): seq<Event>
  {
    if es == [] then []
    else
      var init, last := Only(es[..|es| - 1], kind), es[|es| - 1];
      if last.kind == kind then init + [last] else init
  }

  /** Value and Unique events pass unchanged and in order, so values and uniques of the
      converted stream are those of the stream itself. */
  lemma {:induction false} OthersPass(es: seq<Event>)
    ensures Only(ConvertAll(es).1, ValueKind) == Only(es, ValueKind)
    ensures Only(ConvertAll(es).1, UniqueKind) == Only(es, UniqueKind)
    ensures ValuesOf(ConvertAll(es).1) == ValuesOf(es)
    ensures UniquesOf(ConvertAll(es).1) == UniquesOf(es)
  {
    if es != [] {
      var init, last := es[..|es| - 1], es[|es| - 1];
      OthersPass(init);
      var (totals, out) := ConvertAll(init);
      var (_, kept) := Convert(totals, last);
      KeptKind(totals, last);
      hide Convert, AddUnique;
      if kept.Some? {
        var more := out + [kept.value];
        assert more[..|more| - 1] == out;
      }
    }
  }

  lemma KeptKind(totals: Baselines, e: Event)
    ensures var kept := Convert(totals, e).1;
            if e.kind == TotalKind then kept.Some? ==> kept.value.kind == CounterKind else kept == Some(e)
  {
  }
}
