/** The incremental dictionary encoder of line protocol v4 (line_protocol_v4.go). */
module LineProtocol {
  import opened Text
  import opened Events

  /* ---------- what a payload says ---------- */

  /** One event as the wire carries it: series, printed value, timestamp. */
  datatype Sample = Sample(kind: char, series: Series, text: string, timestamp: int)

  /** math.Round: nearest integer, halves away from zero. */
  function Round(x: real): int
  {
    if x >= 0.0 then (x + 0.5).Floor else -((0.5 - x).Floor)
  }

  /** Within half a unit, and on an exact half away from zero: this fixes the value. */
  lemma RoundIsNearest(x: real, n: int)
    ensures n == Round(x) <==>
            && -0.5 <= n as real - x <= 0.5
            && (n as real - x == 0.5 ==> x >= 0.0)
            && (n as real - x == -0.5 ==> x < 0.0)
  {
    if x >= 0.0 {
      var f := (x + 0.5).Floor;
      assert f as real <= x + 0.5 < f as real + 1.0;
    } else {
      var f := (0.5 - x).Floor;
      assert f as real <= 0.5 - x < f as real + 1.0;
    }
  }

  function CounterSample(c: CounterEvent): Sample
  {
    Sample('c', c.series, FormatInt(Round(c.value)), c.timestamp)
  }

  function ValueSample(v: ValueEvent, fmt: FloatPrinter): Sample
  {
    Sample('v', v.series, fmt(v.value), v.timestamp)
  }

  function UniqueSample(u: UniqueEvent): Sample
  {
    Sample('u', u.series, u.uniqueID, u.timestamp)
  }

  function CounterSamples(cs: seq<CounterEvent>): (r: seq<Sample>)
    ensures |r| == |cs| && forall i | 0 <= i < |cs| :: r[i] == CounterSample(cs[i])
  {
    seq(|cs|, i requires 0 <= i < |cs| => CounterSample(cs[i]))
  }

  function ValueSamples(vs: seq<ValueEvent>, fmt: FloatPrinter): (r: seq<Sample>)
    ensures |r| == |vs| && forall i | 0 <= i < |vs| :: r[i] == ValueSample(vs[i], fmt)
  {
    seq(|vs|, i requires 0 <= i < |vs| => ValueSample(vs[i], fmt))
  }

  function UniqueSamples(us: seq<UniqueEvent>): (r: seq<Sample>)
    ensures |r| == |us| && forall i | 0 <= i < |us| :: r[i] == UniqueSample(us[i])
  {
    seq(|us|, i requires 0 <= i < |us| => UniqueSample(us[i]))
  }

  /** The meaning of a payload: its events in wire order. */
  function Samples(p: Payload, fmt: FloatPrinter): seq<Sample>
  {
    CounterSamples(p.counters) + ValueSamples(p.values, fmt) + UniqueSamples(p.uniques)
  }

  /* ---------- the same, by the payload's own fields ---------- */

  /** A counter was read: its text is the plain numeral of the integer nearest to its
      value, an exact half going away from zero. */
  ghost predicate ReadsCounter(e: Sample, c: CounterEvent)
  {
    && e.kind == 'c' && e.series == c.series && e.timestamp == c.timestamp
    && ParseInt(e.text).Some? && e.text == FormatInt(ParseInt(e.text).value)
    && var gap := ParseInt(e.text).value as real - c.value;
       -0.5 <= gap <= 0.5 && (gap == 0.5 ==> c.value >= 0.0) && (gap == -0.5 ==> c.value < 0.0)
  }

  ghost predicate ReadsCounters(es: seq<Sample>, cs: seq<CounterEvent>)
  {
    |es| == |cs| && forall i | 0 <= i < |cs| :: ReadsCounter(es[i], cs[i])
  }

  ghost predicate ReadsValues(es: seq<Sample>, vs: seq<ValueEvent>, fmt: FloatPrinter)
  {
    && |es| == |vs|
    && forall i | 0 <= i < |vs| :: es[i] == Sample('v', vs[i].series, fmt(vs[i].value), vs[i].timestamp)
  }

  ghost predicate ReadsUniques(es: seq<Sample>, us: seq<UniqueEvent>)
  {
    |es| == |us| && forall i | 0 <= i < |us| :: es[i] == Sample('u', us[i].series, us[i].uniqueID, us[i].timestamp)
  }

  /** Exactly the payload's events were read: counters, values, uniques, each in order. */
  ghost predicate Reads(es: seq<Sample>, p: Payload, fmt: FloatPrinter)
  {
    var c, v := |p.counters|, |p.values|;
    && c + v <= |es|
    && ReadsCounters(es[..c], p.counters) && ReadsValues(es[c..c + v], p.values, fmt)
    && ReadsUniques(es[c + v..], p.uniques)
  }

  ghost predicate ReadAs(read: Option<seq<Sample>>, p: Payload, fmt: FloatPrinter)
  {
    read.Some? && Reads(read.value, p, fmt)
  }

  lemma ReadsCounterIsSample(e: Sample, c: CounterEvent)
    ensures ReadsCounter(e, c) <==> e == CounterSample(c)
  {
    ParseIntOfFormatInt(Round(c.value));
    RoundIsNearest(c.value, Round(c.value));
    if ReadsCounter(e, c) { RoundIsNearest(c.value, ParseInt(e.text).value); }
    hide ParseInt, FormatInt, Round;
  }

  lemma ReadsCountersIsSamples(es: seq<Sample>, cs: seq<CounterEvent>)
    ensures ReadsCounters(es, cs) <==> es == CounterSamples(cs)
  {
    hide ReadsCounter, CounterSample;
    forall i | 0 <= i < |es| && i < |cs| ensures ReadsCounter(es[i], cs[i]) <==> es[i] == CounterSample(cs[i]) {
      ReadsCounterIsSample(es[i], cs[i]);
    }
  }

  /** Samples is the one list that is read so. */
  lemma ReadsIsSamples(read: Option<seq<Sample>>, p: Payload, fmt: FloatPrinter)
    ensures ReadAs(read, p, fmt) <==> read == Some(Samples(p, fmt))
  {
    var c, v, all := |p.counters|, |p.values|, Samples(p, fmt);
    ReadsCountersIsSamples(CounterSamples(p.counters), p.counters);
    assert all[..c] == CounterSamples(p.counters) && all[c..c + v] == ValueSamples(p.values, fmt)
        && all[c + v..] == UniqueSamples(p.uniques);
    hide ReadsCounters, CounterSamples;
    assert Reads(all, p, fmt);
    if ReadAs(read, p, fmt) {
      var es := read.value;
      ReadsCountersIsSamples(es[..c], p.counters);
      assert es[c..c + v] == ValueSamples(p.values, fmt) && es[c + v..] == UniqueSamples(p.uniques);
      assert es == es[..c] + es[c..c + v] + es[c + v..];
    }
  }

  function PayloadSeries(p: Payload): set<Series>
  {
    (set c: CounterEvent | c in p.counters :: c.series)
    + (set v: ValueEvent | v in p.values :: v.series)
    + (set u: UniqueEvent | u in p.uniques :: u.series)
  }

  /** The series and texts of the samples, by the payload's fields. */
  lemma SampleFields(p: Payload, fmt: FloatPrinter)
    ensures PayloadSeries(p) == set e: Sample | e in Samples(p, fmt) :: e.series
    ensures (forall u | u in p.uniques :: PlainField(u.uniqueID)) <==> forall e | e in Samples(p, fmt) :: PlainField(e.text)
  {
    CounterFields(p.counters);
    ValueFields(p.values, fmt);
    UniqueFields(p.uniques);
    var cs, vs, us := CounterSamples(p.counters), ValueSamples(p.values, fmt), UniqueSamples(p.uniques);
    assert (set e: Sample | e in cs + vs + us :: e.series)
        == (set e: Sample | e in cs :: e.series) + (set e: Sample | e in vs :: e.series) + (set e: Sample | e in us :: e.series);
    assert forall e | e in Samples(p, fmt) :: e in cs || e in vs || e in us;
    hide PlainField;
  }

  lemma CounterFields(cs: seq<CounterEvent>)
    ensures (set c: CounterEvent | c in cs :: c.series) == set e: Sample | e in CounterSamples(cs) :: e.series
    ensures forall e | e in CounterSamples(cs) :: PlainField(e.text)
  {
    hide FormatInt, Round;
    var es := CounterSamples(cs);
    assert forall i | 0 <= i < |cs| :: es[i] in es && cs[i] in cs;
    forall i | 0 <= i < |cs| ensures PlainField(es[i].text) { FormatIntPlain(Round(cs[i].value)); }
  }

  lemma ValueFields(vs: seq<ValueEvent>, fmt: FloatPrinter)
    ensures (set v: ValueEvent | v in vs :: v.series) == set e: Sample | e in ValueSamples(vs, fmt) :: e.series
    ensures forall e | e in ValueSamples(vs, fmt) :: PlainField(e.text)
  {
    var es := ValueSamples(vs, fmt);
    assert forall i | 0 <= i < |vs| :: es[i] in es && vs[i] in vs;
  }

  lemma UniqueFields(us: seq<UniqueEvent>)
    ensures (set u: UniqueEvent | u in us :: u.series) == set e: Sample | e in UniqueSamples(us) :: e.series
    ensures (forall u | u in us :: PlainField(u.uniqueID)) <==> forall e | e in UniqueSamples(us) :: PlainField(e.text)
  {
    hide PlainField;
    var es := UniqueSamples(us);
    assert forall i | 0 <= i < |us| :: es[i] in es && us[i] in us;
  }

  /* ---------- the dictionary as a value ---------- */

  datatype Dict = Dict(session: string, revision: nat, series: seq<Series>)

  /** Id of the first series with this key, or |series| when there is none. */
  function Lookup(series: seq<Series>, key: string): (id: nat)
    ensures id <= |series|
    ensures id < |series| ==> SeriesKey(series[id]) == key
    ensures forall j | 0 <= j < id :: SeriesKey(series[j]) != key
  {
    if series == [] || SeriesKey(series[0]) == key then 0 else 1 + Lookup(series[1..], key)
  }

  predicate Known(series: seq<Series>, s: Series)
  {
    Lookup(series, SeriesKey(s)) < |series|
  }

  function Learn(series: seq<Series>, s: Series): seq<Series>
  {
    if Known(series, s) then series else series + [s]
  }

  function LearnAll(series: seq<Series>, samples: seq<Sample>): seq<Series>
  {
    if samples == [] then series
    else Learn(LearnAll(series, samples[..|samples| - 1]), samples[|samples| - 1].series)
  }

  /** Dense ids: no two dictionary entries share a key. */
  ghost predicate DistinctKeys(series: seq<Series>)
  {
    forall i, j | 0 <= i < j < |series| :: SeriesKey(series[i]) != SeriesKey(series[j])
  }

  /** Ids are final: growing the dictionary never moves a known series. */
  lemma LookupStable(series: seq<Series>, more: seq<Series>, key: string)
    requires series <= more && Lookup(series, key) < |series|
    ensures Lookup(more, key) == Lookup(series, key)
  {
    hide SeriesKey;
    var i, j := Lookup(series, key), Lookup(more, key);
    assert forall k | 0 <= k < |series| :: more[k] == series[k];
    assert SeriesKey(more[i]) == key;
    assert i <= j;
  }

  lemma LearnFacts(series: seq<Series>, s: Series)
    ensures series <= Learn(series, s) && Known(Learn(series, s), s)
    ensures |Learn(series, s)| <= |series| + 1
    ensures DistinctKeys(series) ==> DistinctKeys(Learn(series, s))
    ensures Lookup(Learn(series, s), SeriesKey(s)) == Lookup(series, SeriesKey(s))
  {
    hide SeriesKey;
    var more, key := Learn(series, s), SeriesKey(s);
    var i, j := Lookup(series, key), Lookup(more, key);
    if i < |series| { LookupStable(series, more, key); }
    else {
      assert more[i] == s;
      assert forall k | 0 <= k < |series| :: more[k] == series[k];
      assert i <= j;
    }
  }

  /** Encoding only appends to the dictionary, every event's series ends up known,
      each event adds at most one series and every addition is an event's series. */
  lemma {:induction false} LearnAllFacts(series: seq<Series>, samples: seq<Sample>)
    ensures series <= LearnAll(series, samples)
    ensures |LearnAll(series, samples)| <= |series| + |samples|
    ensures DistinctKeys(series) ==> DistinctKeys(LearnAll(series, samples))
    ensures forall e | e in samples :: Known(LearnAll(series, samples), e.series)
    ensures forall s | s in LearnAll(series, samples) :: s in series || exists e | e in samples :: e.series == s
  {
    hide SeriesKey, Lookup;
    if samples != [] {
      var init, last := samples[..|samples| - 1], samples[|samples| - 1];
      var before := LearnAll(series, init);
      LearnAllFacts(series, init);
      LearnFacts(before, last.series);
      assert samples == init + [last];
      forall e | e in samples ensures Known(LearnAll(series, samples), e.series) {
        if e in init { LookupStable(before, Learn(before, last.series), SeriesKey(e.series)); }
      }
    }
  }

  /** Dictionary after encoding a payload: revision moves by one exactly when
      some series is new. */
  function Grow(d: Dict, p: Payload, fmt: FloatPrinter): Dict
  {
    var series := LearnAll(d.series, Samples(p, fmt));
    Dict(d.session, if |series| > |d.series| then d.revision + 1 else d.revision, series)
  }

  /* ---------- the body as text ---------- */

  function HeaderText(session: string, revision: nat): string
  {
    "H|4|s|" + session + "|" + Decimal(revision)
  }

  function LabelsText(labels: seq<string>): string
  {
    if labels == [] then ""
    else (if labels[0] == "" then "" else "|" + labels[0]) + LabelsText(labels[1..])
  }

  function DefinitionText(id: nat, s: Series): string
  {
    "S|" + Decimal(id) + "|" + s.metric + LabelsText(s.labels)
  }

  function EventText(e: Sample, id: nat): string
  {
    [e.kind] + "|" + Decimal(id) + "|" + e.text + "|" + FormatInt(e.timestamp)
  }

  /** Definition lines of the ids from `from` on. */
  function DefinitionLines(series: seq<Series>, from: nat): (lines: seq<string>)
    requires from <= |series|
    ensures |lines| == |series| - from
    ensures forall k | 0 <= k < |lines| :: lines[k] == DefinitionText(from + k, series[from + k])
  {
    seq(|series| - from, k requires 0 <= k < |series| - from => DefinitionText(from + k, series[from + k]))
  }

  function EventLines(samples: seq<Sample>, series: seq<Series>): (lines: seq<string>)
    ensures |lines| == |samples|
    ensures forall k | 0 <= k < |lines| ::
              lines[k] == EventText(samples[k], Lookup(series, SeriesKey(samples[k].series)))
  {
    seq(|samples|, k requires 0 <= k < |samples| =>
      EventText(samples[k], Lookup(series, SeriesKey(samples[k].series))))
  }

  /** First id a body defines: all of them when forced, otherwise the new ones. */
  function DefinedFrom(d: Dict, p: Payload, force: bool, fmt: FloatPrinter): (from: nat)
    ensures from <= |Grow(d, p, fmt).series|
  {
    LearnAllFacts(d.series, Samples(p, fmt));
    if force then 0 else |d.series|
  }

  function BodyLines(d: Dict, p: Payload, force: bool, fmt: FloatPrinter): seq<string>
  {
    var after := Grow(d, p, fmt);
    [HeaderText(after.session, after.revision)]
    + DefinitionLines(after.series, DefinedFrom(d, p, force, fmt))
    + EventLines(Samples(p, fmt), after.series)
  }

  function Body(d: Dict, p: Payload, force: bool, fmt: FloatPrinter): string
  {
    if p.Empty() then "" else Terminated(BodyLines(d, p, force, fmt), '\n')
  }

  /* ---------- the encoder ---------- */

  datatype EncodedEvent = EncodedEvent(
    kind: char, seriesID: nat, intValue: int, floatValue: real, uniqueID: string, timestamp: int)

  function PrintedValue(ev: EncodedEvent, fmt: FloatPrinter): string
  {
    if ev.kind == 'c' then FormatInt(ev.intValue)
    else if ev.kind == 'v' then fmt(ev.floatValue)
    else if ev.kind == 'u' then ev.uniqueID
    else ""
  }

  ghost predicate Encodes(ev: EncodedEvent, e: Sample, series: seq<Series>, fmt: FloatPrinter)
  {
    && ev.kind == e.kind && ev.timestamp == e.timestamp
    && PrintedValue(ev, fmt) == e.text
    && Known(series, e.series)
    && ev.seriesID == Lookup(series, SeriesKey(e.series))
  }

  class DictionaryState {
    const sessionID: string
    var revision: nat
    var seriesMap: map<string, nat>
    var series: seq<Series>

    /** seriesMap and series are inverse to each other. */
    ghost predicate Valid()
      reads this
    {
      && (forall i | 0 <= i < |series| ::
            SeriesKey(series[i]) in seriesMap && seriesMap[SeriesKey(series[i])] == i)
      && (forall key | key in seriesMap ::
            seriesMap[key] < |series| && SeriesKey(series[seriesMap[key]]) == key)
    }

    ghost function View(): Dict
      reads this
    {
      Dict(sessionID, revision, series)
    }

    constructor (nano: nat)
      ensures Valid()
      ensures View() == Dict(Decimal(nano), 0, [])
    {
      sessionID := Decimal(nano);
      revision := 0;
      seriesMap := map[];
      series := [];
    }

    lemma ValidFacts()
      requires Valid()
      ensures DistinctKeys(series)
      ensures forall key :: key in seriesMap <==> Lookup(series, key) < |series|
      ensures forall key | key in seriesMap :: seriesMap[key] == Lookup(series, key)
    {
      forall key ensures key in seriesMap <==> Lookup(series, key) < |series|
                 ensures key in seriesMap ==> seriesMap[key] == Lookup(series, key)
      {
        var id := Lookup(series, key);
        assert key in seriesMap ==> id <= seriesMap[key];
      }
    }

    method GetSeriesID(s: Series, newSeriesIDs: seq<nat>) returns (id: nat, newIDs: seq<nat>)
      requires Valid()
      modifies this`seriesMap, this`series
      ensures Valid()
      ensures series == Learn(old(series), s)
      ensures id == Lookup(series, SeriesKey(s))
      ensures newIDs == if Known(old(series), s) then newSeriesIDs else newSeriesIDs + [|old(series)|]
    {
      hide SeriesKey;
      ValidFacts();
      LearnFacts(series, s);
      var key := SeriesKey(s);
      if key in seriesMap {
        return seriesMap[key], newSeriesIDs;
      }
      id := |series|;
      seriesMap := seriesMap[key := id];
      series := series + [s];
      newIDs := newSeriesIDs + [id];
    }

    /** First half of encoding: intern every event's series, collecting the
        events with their ids and the ids that are new. */
    method Intern(p: Payload, fmt: FloatPrinter) returns (events: seq<EncodedEvent>, newIDs: seq<nat>)
      requires Valid()
      modifies this`seriesMap, this`series
      ensures Valid()
      ensures Progress(old(series), Samples(p, fmt), series, events, newIDs, fmt)
    {
      ghost var before := series;
      ghost var cs, vs := CounterSamples(p.counters), ValueSamples(p.values, fmt);
      assert [] + cs == cs;
      events, newIDs := InternCounters(p.counters, [], [], before, [], fmt);
      events, newIDs := InternValues(p.values, events, newIDs, before, cs, fmt);
      events, newIDs := InternUniques(p.uniques, events, newIDs, before, cs + vs, fmt);
    }

    method InternCounters(list: seq<CounterEvent>, was: seq<EncodedEvent>, wasNew: seq<nat>,
                           ghost before: seq<Series>, ghost done: seq<Sample>, ghost fmt: FloatPrinter)
      returns (events: seq<EncodedEvent>, newIDs: seq<nat>)
      requires Valid() && Progress(before, done, series, was, wasNew, fmt)
      modifies this`seriesMap, this`series
      ensures Valid() && Progress(before, done + CounterSamples(list), series, events, newIDs, fmt)
    {
      events, newIDs := was, wasNew;
      ghost var all := CounterSamples(list);
      assert done + all[..0] == done;
      for i := 0 to |list|
        invariant Valid() && Progress(before, done + all[..i], series, events, newIDs, fmt)
      {
        var c := list[i];
        var ev := EncodedEvent('c', 0, Round(c.value), 0.0, "", c.timestamp);
        events, newIDs := Append(c.series, ev, events, newIDs, before, done + all[..i], all[i], fmt);
        ExtendPrefix(done, all, i);
      }
      assert all[..|all|] == all;
    }

    method InternValues(list: seq<ValueEvent>, was: seq<EncodedEvent>, wasNew: seq<nat>,
                           ghost before: seq<Series>, ghost done: seq<Sample>, ghost fmt: FloatPrinter)
      returns (events: seq<EncodedEvent>, newIDs: seq<nat>)
      requires Valid() && Progress(before, done, series, was, wasNew, fmt)
      modifies this`seriesMap, this`series
      ensures Valid() && Progress(before, done + ValueSamples(list, fmt), series, events, newIDs, fmt)
    {
      events, newIDs := was, wasNew;
      ghost var all := ValueSamples(list, fmt);
      assert done + all[..0] == done;
      for i := 0 to |list|
        invariant Valid() && Progress(before, done + all[..i], series, events, newIDs, fmt)
      {
        var v := list[i];
        var ev := EncodedEvent('v', 0, 0, v.value, "", v.timestamp);
        events, newIDs := Append(v.series, ev, events, newIDs, before, done + all[..i], all[i], fmt);
        ExtendPrefix(done, all, i);
      }
      assert all[..|all|] == all;
    }

    method InternUniques(list: seq<UniqueEvent>, was: seq<EncodedEvent>, wasNew: seq<nat>,
                           ghost before: seq<Series>, ghost done: seq<Sample>, ghost fmt: FloatPrinter)
      returns (events: seq<EncodedEvent>, newIDs: seq<nat>)
      requires Valid() && Progress(before, done, series, was, wasNew, fmt)
      modifies this`seriesMap, this`series
      ensures Valid() && Progress(before, done + UniqueSamples(list), series, events, newIDs, fmt)
    {
      events, newIDs := was, wasNew;
      ghost var all := UniqueSamples(list);
      assert done + all[..0] == done;
      for i := 0 to |list|
        invariant Valid() && Progress(before, done + all[..i], series, events, newIDs, fmt)
      {
        var u := list[i];
        var ev := EncodedEvent('u', 0, 0, 0.0, u.uniqueID, u.timestamp);
        events, newIDs := Append(u.series, ev, events, newIDs, before, done + all[..i], all[i], fmt);
        ExtendPrefix(done, all, i);
      }
      assert all[..|all|] == all;
    }

    /** One turn of the event loops. */
    method Append(s: Series, ev: EncodedEvent, events: seq<EncodedEvent>, newIDs: seq<nat>,
                  ghost before: seq<Series>, ghost done: seq<Sample>, ghost e: Sample, ghost fmt: FloatPrinter)
      returns (events': seq<EncodedEvent>, newIDs': seq<nat>)
      requires Valid()
      requires s == e.series && ev.kind == e.kind && ev.timestamp == e.timestamp && PrintedValue(ev, fmt) == e.text
      requires Progress(before, done, series, events, newIDs, fmt)
      modifies this`seriesMap, this`series
      ensures Valid()
      ensures Progress(before, done + [e], series, events', newIDs', fmt)
    {
      hide SeriesKey, Lookup;
      ghost var was := series;
      LearnFacts(series, s);
      var id;
      id, newIDs' := GetSeriesID(s, newIDs);
      events' := events + [ev.(seriesID := id)];
      ProgressStep(before, done, was, events, newIDs, e, ev.(seriesID := id), fmt);
    }

    method Encode(p: Payload, force: bool, fmt: FloatPrinter) returns (body: string)
      requires Valid()
      modifies this
      ensures Valid()
      ensures View() == if p.Empty() then old(View()) else Grow(old(View()), p, fmt)
      ensures body == Body(old(View()), p, force, fmt)
    {
      if p.Empty() { return ""; }
      ghost var before := series;
      var events, newIDs := Intern(p, fmt);
      var seriesChanged := newIDs != [];
      if seriesChanged { revision := revision + 1; }
      assert View() == Grow(old(View()), p, fmt);
      var sendDefinitions := force || seriesChanged;
      var header := HeaderText(sessionID, revision);
      var definitions := "";
      if sendDefinitions {
        definitions := WriteDefinitions(series, force, newIDs, |before|);
      }
      var lines := WriteEvents(events, series, Samples(p, fmt), fmt);
      body := header + "\n" + definitions + lines;
      AssembleBody(old(View()), p, force, fmt, definitions, lines);
    }
  }

  ghost predicate Progress(before: seq<Series>, done: seq<Sample>, series: seq<Series>,
                           events: seq<EncodedEvent>, newIDs: seq<nat>, fmt: FloatPrinter)
  {
    && series == LearnAll(before, done)
    && |events| == |done|
    && (forall k | 0 <= k < |done| :: Encodes(events[k], done[k], series, fmt))
    && |before| + |newIDs| == |series|
    && (forall k | 0 <= k < |newIDs| :: newIDs[k] == |before| + k)
  }

  lemma ExtendPrefix<T>(done: seq<T>, all: seq<T>, i: nat)
    requires i < |all|
    ensures done + all[..i] + [all[i]] == done + all[..i + 1]
  {
  }

  lemma EncodesStep(done: seq<Sample>, series: seq<Series>, events: seq<EncodedEvent>, s: Series, fmt: FloatPrinter)
    requires |events| == |done| && forall k | 0 <= k < |done| :: Encodes(events[k], done[k], series, fmt)
    ensures forall k | 0 <= k < |done| :: Encodes(events[k], done[k], Learn(series, s), fmt)
  {
    hide SeriesKey, Lookup;
    LearnFacts(series, s);
    forall k | 0 <= k < |done| ensures Encodes(events[k], done[k], Learn(series, s), fmt) {
      assert Encodes(events[k], done[k], series, fmt);
      LookupStable(series, Learn(series, s), SeriesKey(done[k].series));
    }
  }

  lemma ProgressStep(before: seq<Series>, done: seq<Sample>, series: seq<Series>, events: seq<EncodedEvent>,
                     newIDs: seq<nat>, e: Sample, ev: EncodedEvent, fmt: FloatPrinter)
    requires Progress(before, done, series, events, newIDs, fmt)
    requires ev.kind == e.kind && ev.timestamp == e.timestamp && PrintedValue(ev, fmt) == e.text
    requires ev.seriesID == Lookup(series, SeriesKey(e.series))
    ensures Progress(before, done + [e], Learn(series, e.series), events + [ev],
                     if Known(series, e.series) then newIDs else newIDs + [|series|], fmt)
  {
    hide SeriesKey, Lookup;
    var all, more, evs := done + [e], Learn(series, e.series), events + [ev];
    assert more == LearnAll(before, all) by { assert all[..|all| - 1] == done; }
    LearnFacts(series, e.series);
    EncodesStep(done, series, events, e.series, fmt);
    forall k | 0 <= k < |all| ensures Encodes(evs[k], all[k], more, fmt) {
      if k < |done| {
        assert evs[k] == events[k] && all[k] == done[k];
      }
    }
    var ids := if Known(series, e.series) then newIDs else newIDs + [|series|];
    assert forall k | 0 <= k < |ids| :: ids[k] == |before| + k;
  }

  lemma AssembleBody(d: Dict, p: Payload, force: bool, fmt: FloatPrinter, definitions: string, lines: string)
    requires !p.Empty()
    requires var after := Grow(d, p, fmt);
             && definitions == Terminated(DefinitionLines(after.series, DefinedFrom(d, p, force, fmt)), '\n')
             && lines == Terminated(EventLines(Samples(p, fmt), after.series), '\n')
    ensures var after := Grow(d, p, fmt);
            Body(d, p, force, fmt) == HeaderText(after.session, after.revision) + "\n" + definitions + lines
  {
    var after := Grow(d, p, fmt);
    var header := [HeaderText(after.session, after.revision)];
    var defs := DefinitionLines(after.series, DefinedFrom(d, p, force, fmt));
    TerminatedConcat(header + defs, EventLines(Samples(p, fmt), after.series), '\n');
    TerminatedConcat(header, defs, '\n');
    assert Terminated(header, '\n') == header[0] + "\n";
  }

  method WriteDefinitions(series: seq<Series>, force: bool, newIDs: seq<nat>, ghost known: nat) returns (text: string)
    requires known + |newIDs| == |series| && forall k | 0 <= k < |newIDs| :: newIDs[k] == known + k
    ensures text == Terminated(DefinitionLines(series, if force then 0 else known), '\n')
  {
    hide DefinitionText;
    text := "";
    if force {
      ghost var defs := DefinitionLines(series, 0);
      for id := 0 to |series|
        invariant text == Terminated(defs[..id], '\n')
      {
        TerminatedSnoc(defs[..id], defs[id], '\n');
        assert defs[..id] + [defs[id]] == defs[..id + 1];
        var line := WriteSeriesDefinition(id, series[id]);
        text := text + line;
      }
      assert defs[..|defs|] == defs;
    } else {
      ghost var defs := DefinitionLines(series, known);
      for k := 0 to |newIDs|
        invariant text == Terminated(defs[..k], '\n')
      {
        TerminatedSnoc(defs[..k], defs[k], '\n');
        assert defs[..k] + [defs[k]] == defs[..k + 1];
        var line := WriteSeriesDefinition(newIDs[k], series[newIDs[k]]);
        text := text + line;
      }
      assert defs[..|defs|] == defs;
    }
  }

  method WriteEvents(events: seq<EncodedEvent>, ghost series: seq<Series>, ghost all: seq<Sample>, fmt: FloatPrinter)
    returns (text: string)
    requires |events| == |all| && forall k | 0 <= k < |all| :: Encodes(events[k], all[k], series, fmt)
    ensures text == Terminated(EventLines(all, series), '\n')
  {
    hide EventText, SeriesKey, Lookup, Known;
    text := "";
    ghost var lines := EventLines(all, series);
    for k := 0 to |events|
      invariant text == Terminated(lines[..k], '\n')
    {
      assert Encodes(events[k], all[k], series, fmt);
      var line := WriteEvent(events[k], fmt, all[k]);
      TerminatedSnoc(lines[..k], lines[k], '\n');
      assert lines[..k] + [lines[k]] == lines[..k + 1];
      text := text + line;
    }
    assert lines[..|lines|] == lines;
  }

  method WriteEvent(ev: EncodedEvent, fmt: FloatPrinter, ghost e: Sample) returns (text: string)
    requires ev.kind == e.kind && ev.timestamp == e.timestamp && PrintedValue(ev, fmt) == e.text
    ensures text == EventText(e, ev.seriesID) + "\n"
  {
    text := [ev.kind] + "|" + Decimal(ev.seriesID) + "|";
    text := text + PrintedValue(ev, fmt);
    text := text + "|" + FormatInt(ev.timestamp) + "\n";
  }

  method WriteSeriesDefinition(id: nat, s: Series) returns (text: string)
    ensures text == DefinitionText(id, s) + "\n"
  {
    text := "S|" + Decimal(id) + "|" + s.metric;
    ghost var head := text;
    for k := 0 to |s.labels|
      invariant text + LabelsText(s.labels[k..]) == head + LabelsText(s.labels)
    {
      var lbl := s.labels[k];
      assert s.labels[k..][1..] == s.labels[k + 1..];
      if lbl != "" {
        text := text + "|" + lbl;
      }
    }
    text := text + "\n";
  }
}
