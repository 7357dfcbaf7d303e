/** Reading a v4 body back: the in-repository definition parser (transport.go) and
    the meaning a receiver gives to a body. */
module LineParser {
  import opened Text
  import opened Events
  import opened LineProtocol

  datatype WireEvent = WireEvent(kind: char, id: nat, text: string, timestamp: int)

  datatype Line =
    | Header(session: string, revision: nat)
    | Definition(id: nat, series: Series)
    | Occurrence(event: WireEvent)
    | Malformed

  datatype Message = Message(
    session: string, revision: nat, definitions: seq<(nat, Series)>, events: seq<WireEvent>)

  type Table = map<nat, Series>

  /* ---------- lines ---------- */

  function NonEmpty(parts: seq<string>): seq<string>
  {
    if parts == [] then []
    else if parts[0] == "" then NonEmpty(parts[1..])
    else [parts[0]] + NonEmpty(parts[1..])
  }

  function ParseDefinition(line: string): Series
  {
    var parts := Split(line, '|');
    if |parts| < 3 then Series("", []) else Series(parts[2], NonEmpty(parts[3..]))
  }

  method ParseSeriesDefinitionLine(line: string) returns (metric: string, labels: seq<string>)
    ensures Series(metric, labels) == ParseDefinition(line)
  {
    var parts := Split(line, '|');
    if |parts| < 3 { return "", []; }
    metric := parts[2];
    labels := [];
    for i := 3 to |parts|
      invariant labels + NonEmpty(parts[i..]) == NonEmpty(parts[3..])
    {
      assert parts[i..][1..] == parts[i + 1..];
      if |parts[i]| != 0 {
        labels := labels + [parts[i]];
      }
    }
  }

  function ParseLine(line: string): Line
  {
    var parts := Split(line, '|');
    if parts[0] == "H" then
      if |parts| == 5 && parts[1] == "4" && parts[2] == "s" && AllDigits(parts[4])
      then Header(parts[3], Value(parts[4], 10)) else Malformed
    else if parts[0] == "S" then
      if |parts| >= 3 && AllDigits(parts[1])
      then Definition(Value(parts[1], 10), ParseDefinition(line)) else Malformed
    else if |parts| == 4 && |parts[0]| == 1 && AllDigits(parts[1]) && ParseInt(parts[3]).Some?
    then Occurrence(WireEvent(parts[0][0], Value(parts[1], 10), parts[2], ParseInt(parts[3]).value))
    else Malformed
  }

  lemma {:induction false} NonEmptyFacts(parts: seq<string>)
    ensures forall l | l in NonEmpty(parts) :: l != "" && l in parts
    ensures (forall l | l in parts :: l != "") ==> NonEmpty(parts) == parts
  {
    if parts != [] {
      NonEmptyFacts(parts[1..]);
      assert parts[0] in parts && forall l | l in parts[1..] :: l in parts;
      assert parts == [parts[0]] + parts[1..];
    }
  }

  lemma {:induction false} SplitLabels(head: string, labels: seq<string>)
    requires '|' !in head && forall l | l in labels :: '|' !in l
    ensures Split(head + LabelsText(labels), '|') == [head] + NonEmpty(labels)
    decreases |labels|
  {
    hide Split, IndexOf, LabelsText;
    LabelsTextStep(labels);
    if labels == [] {
      assert head + LabelsText(labels) == head;
      SplitLast(head, '|');
    } else if labels[0] == "" {
      SplitLabels(head, labels[1..]);
    } else {
      SplitLabels(labels[0], labels[1..]);
      SplitFirst(head, '|', labels[0] + LabelsText(labels[1..]));
      Regroup(head, ['|'], labels[0] + LabelsText(labels[1..]));
    }
  }

  lemma LabelsTextStep(labels: seq<string>)
    ensures labels == [] ==> LabelsText(labels) == ""
    ensures labels != [] && labels[0] == "" ==> LabelsText(labels) == LabelsText(labels[1..])
    ensures labels != [] && labels[0] != "" ==> LabelsText(labels) == ['|'] + (labels[0] + LabelsText(labels[1..]))
  {
  }

  lemma Regroup<T>(a: seq<T>, b: seq<T>, c: seq<T>)
    ensures a + b + c == a + (b + c)
  {
  }

  /** Fields of a definition line. */
  lemma DefinitionFields(id: nat, s: Series)
    requires '|' !in s.metric && forall l | l in s.labels :: '|' !in l
    ensures Split(DefinitionText(id, s), '|') == ["S", Decimal(id), s.metric] + NonEmpty(s.labels)
  {
    hide Split, IndexOf, Format, LabelsText, NonEmpty;
    var tail := s.metric + LabelsText(s.labels);
    SplitLabels(s.metric, s.labels);
    SplitFirst(Decimal(id), '|', tail);
    var middle := Decimal(id) + ['|'] + tail;
    SplitFirst("S", '|', middle);
    assert DefinitionText(id, s) == "S" + ['|'] + middle;
  }

  lemma ParsedDefinitionIsClean(line: string)
    ensures var s := ParseDefinition(line);
            '|' !in s.metric && forall l | l in s.labels :: l != "" && '|' !in l
  {
    hide Split;
    var parts := Split(line, '|');
    if |parts| >= 3 { NonEmptyFacts(parts[3..]); }
  }

  /** The in-repository parser inverts the writer exactly on series whose metric
      has no '|' and whose labels are non-empty and free of '|'. */
  lemma DefinitionRoundTrip(id: nat, s: Series)
    ensures ParseDefinition(DefinitionText(id, s)) == s <==>
            '|' !in s.metric && forall l | l in s.labels :: l != "" && '|' !in l
  {
    hide Split, DefinitionText;
    ParsedDefinitionIsClean(DefinitionText(id, s));
    if '|' !in s.metric && forall l | l in s.labels :: l != "" && '|' !in l {
      DefinitionFields(id, s);
      NonEmptyFacts(s.labels);
    }
  }

  lemma HeaderFields(session: string, revision: nat)
    requires '|' !in session
    ensures ParseLine(HeaderText(session, revision)) == Header(session, revision)
    ensures Split(HeaderText(session, revision), '|') == ["H", "4", "s", session, Decimal(revision)]
  {
    hide Split, IndexOf, Format, Value;
    var r4 := Decimal(revision);
    var r3 := session + ['|'] + r4;
    var r2 := "s" + ['|'] + r3;
    var r1 := "4" + ['|'] + r2;
    SplitLast(r4, '|');
    SplitFirst(session, '|', r4);
    SplitFirst("s", '|', r3);
    SplitFirst("4", '|', r2);
    SplitFirst("H", '|', r1);
    assert HeaderText(session, revision) == "H" + ['|'] + r1;
    ValueOfFormat(revision, 10);
  }

  lemma DefinitionLine(id: nat, s: Series)
    requires WireSafe(s)
    ensures ParseLine(DefinitionText(id, s)) == Definition(id, s)
  {
    DefinitionFields(id, s);
    DefinitionRoundTrip(id, s);
    ValueOfFormat(id, 10);
  }

  predicate WireSample(e: Sample)
  {
    e.kind in ['c', 'v', 'u'] && WireSafe(e.series) && PlainField(e.text)
  }

  lemma EventFields(e: Sample, id: nat)
    requires e.kind in ['c', 'v', 'u'] && '|' !in e.text
    ensures Split(EventText(e, id), '|') == [[e.kind], Decimal(id), e.text, FormatInt(e.timestamp)]
    ensures ParseLine(EventText(e, id)) == Occurrence(WireEvent(e.kind, id, e.text, e.timestamp))
  {
    hide Split, IndexOf, Format, Value, ParseInt, FormatInt;
    FormatIntPlain(e.timestamp);
    var r3 := FormatInt(e.timestamp);
    var r2 := e.text + ['|'] + r3;
    var r1 := Decimal(id) + ['|'] + r2;
    SplitLast(r3, '|');
    SplitFirst(e.text, '|', r3);
    SplitFirst(Decimal(id), '|', r2);
    SplitFirst([e.kind], '|', r1);
    assert EventText(e, id) == [e.kind] + ['|'] + r1;
    ValueOfFormat(id, 10);
    ParseIntOfFormatInt(e.timestamp);
  }

  /* ---------- bodies ---------- */

  function Gather(lines: seq<string>, m: Message): Option<Message>
  {
    if lines == [] then Some(m)
    else if lines[0] == "" then Gather(lines[1..], m)
    else match ParseLine(lines[0])
      case Definition(id, s) => Gather(lines[1..], m.(definitions := m.definitions + [(id, s)]))
      case Occurrence(e) => Gather(lines[1..], m.(events := m.events + [e]))
      case _ => None
  }

  function ParseBody(body: string): Option<Message>
  {
    var lines := Split(body, '\n');
    match ParseLine(lines[0])
    case Header(session, revision) => Gather(lines[1..], Message(session, revision, [], []))
    case _ => None
  }

  function Extend(table: Table, definitions: seq<(nat, Series)>): Table
    decreases |definitions|
  {
    if definitions == [] then table
    else Extend(table[definitions[0].0 := definitions[0].1], definitions[1..])
  }

  /** The events a message stands for, given the series the receiver knows. */
  function Resolve(table: Table, events: seq<WireEvent>): Option<seq<Sample>>
  {
    if events == [] then Some([])
    else
      var e := events[0];
      var rest := Resolve(table, events[1..]);
      if e.id in table && rest.Some?
      then Some([Sample(e.kind, table[e.id], e.text, e.timestamp)] + rest.value)
      else None
  }

  function Decode(body: string, table: Table): Option<seq<Sample>>
  {
    match ParseBody(body)
    case None => None
    case Some(m) => Resolve(Extend(table, m.definitions), m.events)
  }

  /* ---------- what an encoded body parses to ---------- */

  function DefinitionPairs(series: seq<Series>, from: nat): (r: seq<(nat, Series)>)
    requires from <= |series|
    ensures |r| == |series| - from && forall k | 0 <= k < |r| :: r[k] == (from + k, series[from + k])
  {
    seq(|series| - from, k requires 0 <= k < |series| - from => (from + k, series[from + k]))
  }

  function WireEvents(samples: seq<Sample>, series: seq<Series>): (r: seq<WireEvent>)
    ensures |r| == |samples|
    ensures forall k | 0 <= k < |r| :: r[k] == WireEvent(samples[k].kind,
              Lookup(series, SeriesKey(samples[k].series)), samples[k].text, samples[k].timestamp)
  {
    seq(|samples|, k requires 0 <= k < |samples| => WireEvent(samples[k].kind,
      Lookup(series, SeriesKey(samples[k].series)), samples[k].text, samples[k].timestamp))
  }

  lemma EventTails(samples: seq<Sample>, series: seq<Series>)
    requires samples != []
    ensures EventLines(samples, series)[1..] == EventLines(samples[1..], series)
    ensures WireEvents(samples, series)[1..] == WireEvents(samples[1..], series)
  {
    hide SeriesKey, Lookup, EventText;
  }

  lemma GatherEventStep(e: Sample, id: nat, rest: seq<string>, m: Message)
    requires WireSample(e)
    ensures Gather([EventText(e, id)] + rest, m)
         == Gather(rest, m.(events := m.events + [WireEvent(e.kind, id, e.text, e.timestamp)]))
  {
    EventFields(e, id);
    EventTextNotBlank(e, id);
    hide EventText, ParseLine;
    assert ([EventText(e, id)] + rest)[1..] == rest;
  }

  lemma {:induction false} GatherEvents(samples: seq<Sample>, series: seq<Series>, m: Message)
    requires forall e | e in samples :: WireSample(e)
    ensures Gather(EventLines(samples, series) + [""], m)
         == Some(m.(events := m.events + WireEvents(samples, series)))
  {
    hide SeriesKey, Lookup, EventText, ParseLine, WireSample, WireEvents;
    if samples == [] {
      assert ([""])[1..] == [];
      assert EventLines(samples, series) + [""] == [""];
      assert m.events + WireEvents(samples, series) == m.events;
    } else {
      hide Gather;
      var e, id := samples[0], Lookup(series, SeriesKey(samples[0].series));
      var m1 := m.(events := m.events + [WireEvent(e.kind, id, e.text, e.timestamp)]);
      var rest, more := EventLines(samples[1..], series), WireEvents(samples[1..], series);
      EventTails(samples, series);
      assert WireSample(samples[0]);
      GatherEventStep(e, id, rest + [""], m);
      assert EventLines(samples, series) + [""] == [EventText(e, id)] + (rest + [""]);
      GatherEvents(samples[1..], series, m1);
      assert m1.events + more == m.events + WireEvents(samples, series);
    }
  }

  lemma EventTextNotBlank(e: Sample, id: nat)
    ensures EventText(e, id) != ""
  {
  }

  lemma DefinitionTextNotBlank(id: nat, s: Series)
    ensures DefinitionText(id, s) != ""
  {
  }

  lemma {:induction false} GatherDefinitions(series: seq<Series>, from: nat, rest: seq<string>, m: Message)
    requires from <= |series|
    requires forall s | s in series[from..] :: WireSafe(s)
    ensures Gather(DefinitionLines(series, from) + rest, m)
         == Gather(rest, m.(definitions := m.definitions + DefinitionPairs(series, from)))
    decreases |series| - from
  {
    hide WireSafe, DefinitionText, ParseLine;
    var lines := DefinitionLines(series, from) + rest;
    if from == |series| {
      assert lines == rest;
      assert m.definitions + DefinitionPairs(series, from) == m.definitions;
    } else {
      var s := series[from];
      assert s in series[from..];
      DefinitionLine(from, s);
      DefinitionTextNotBlank(from, s);
      assert lines[0] == DefinitionText(from, s);
      assert lines[1..] == DefinitionLines(series, from + 1) + rest;
      assert forall x | x in series[from + 1..] :: x in series[from..];
      GatherDefinitions(series, from + 1, rest, m.(definitions := m.definitions + [(from, s)]));
      assert m.definitions + [(from, s)] + DefinitionPairs(series, from + 1)
          == m.definitions + DefinitionPairs(series, from);
    }
  }

  /** The message an encoder with these inputs puts on the wire. */
  function Sent(d: Dict, p: Payload, force: bool, fmt: FloatPrinter): Message
  {
    var after := Grow(d, p, fmt);
    Message(after.session, after.revision,
            DefinitionPairs(after.series, DefinedFrom(d, p, force, fmt)),
            WireEvents(Samples(p, fmt), after.series))
  }

  /** Every field of the payload is free of '|' and newline and no label is empty. */
  ghost predicate WirePayload(p: Payload, fmt: FloatPrinter)
  {
    forall e | e in Samples(p, fmt) :: WireSample(e)
  }

  ghost predicate WireDict(d: Dict)
  {
    && PlainField(d.session)
    && DistinctKeys(d.series)
    && forall s | s in d.series :: WireSafe(s)
  }

  lemma GrowKeepsWire(d: Dict, p: Payload, fmt: FloatPrinter)
    requires WireDict(d) && WirePayload(p, fmt)
    ensures WireDict(Grow(d, p, fmt))
  {
    hide SeriesKey, Lookup, WireSafe, NulFree, Samples;
    LearnAllFacts(d.series, Samples(p, fmt));
  }

  lemma {:induction false} LinesArePlain(labels: seq<string>)
    requires forall l | l in labels :: '\n' !in l
    ensures '\n' !in LabelsText(labels)
  {
    if labels != [] { LinesArePlain(labels[1..]); }
  }

  lemma BodyLinesArePlain(d: Dict, p: Payload, force: bool, fmt: FloatPrinter)
    requires WireDict(d) && WirePayload(p, fmt)
    ensures forall line | line in BodyLines(d, p, force, fmt) :: '\n' !in line
  {
    GrowKeepsWire(d, p, fmt);
    hide WireSafe, WireSample, Samples, LearnAll, DefinitionText, EventText, Lookup, SeriesKey, DistinctKeys;
    var after, from := Grow(d, p, fmt), DefinedFrom(d, p, force, fmt);
    assert '\n' !in HeaderText(after.session, after.revision);
    DefinitionLinesArePlain(after.series, from);
    EventLinesArePlain(Samples(p, fmt), after.series);
  }

  lemma DefinitionLinesArePlain(series: seq<Series>, from: nat)
    requires from <= |series| && forall s | s in series :: WireSafe(s)
    ensures forall line | line in DefinitionLines(series, from) :: '\n' !in line
  {
    var defs := DefinitionLines(series, from);
    forall line | line in defs ensures '\n' !in line {
      var k :| 0 <= k < |defs| && defs[k] == line;
      assert WireSafe(series[from + k]);
      LinesArePlain(series[from + k].labels);
    }
  }

  lemma EventLinesArePlain(samples: seq<Sample>, series: seq<Series>)
    requires forall e | e in samples :: WireSample(e)
    ensures forall line | line in EventLines(samples, series) :: '\n' !in line
  {
    hide WireSample, Lookup, SeriesKey, EventText;
    var lines := EventLines(samples, series);
    forall line | line in lines ensures '\n' !in line {
      var k :| 0 <= k < |lines| && lines[k] == line;
      assert samples[k] in samples;
      EventIsPlain(samples[k], Lookup(series, SeriesKey(samples[k].series)));
    }
  }

  lemma EventIsPlain(e: Sample, id: nat)
    requires WireSample(e)
    ensures '\n' !in EventText(e, id)
  {
    FormatIntPlain(e.timestamp);
  }

  /** An encoded body parses to exactly the intended message. */
  lemma ParsedAsSent(d: Dict, p: Payload, force: bool, fmt: FloatPrinter)
    requires !p.Empty() && WireDict(d) && WirePayload(p, fmt)
    ensures ParseBody(Body(d, p, force, fmt)) == Some(Sent(d, p, force, fmt))
  {
    hide SeriesKey, Lookup, WireSafe, NulFree, Samples, HeaderText, ParseLine, Split, Gather, Terminated, LearnAll, Grow;
    var lines := BodyLines(d, p, force, fmt);
    var after, from := Grow(d, p, fmt), DefinedFrom(d, p, force, fmt);
    var events := EventLines(Samples(p, fmt), after.series);
    BodyLinesArePlain(d, p, force, fmt);
    GrowKeepsWire(d, p, fmt);
    SplitTerminated(lines, '\n');
    HeaderFields(after.session, after.revision);
    var m := Message(after.session, after.revision, [], []);
    assert (lines + [""])[0] == HeaderText(after.session, after.revision);
    assert (lines + [""])[1..] == DefinitionLines(after.series, from) + (events + [""]);
    GatherDefinitions(after.series, from, events + [""], m);
    assert m.definitions + DefinitionPairs(after.series, from) == DefinitionPairs(after.series, from);
    var m1 := m.(definitions := DefinitionPairs(after.series, from));
    GatherEvents(Samples(p, fmt), after.series, m1);
    assert m1.events + WireEvents(Samples(p, fmt), after.series) == WireEvents(Samples(p, fmt), after.series);
  }

  /** Only new series are defined, under the next ids and once each, all of them when
      forced; the revision says whether there were any. */
  lemma OnlyNewDefinitions(d: Dict, p: Payload, force: bool, fmt: FloatPrinter)
    requires !p.Empty() && WireDict(d) && WirePayload(p, fmt)
    ensures var body, after := ParseBody(Body(d, p, force, fmt)), Grow(d, p, fmt).series;
            var from := if force then 0 else |d.series|;
            && body.Some? && body.value.session == d.session
            && body.value.revision == d.revision + (if |after| > |d.series| then 1 else 0)
            && |body.value.definitions| == |after| - from
            && (forall k | 0 <= k < |after| - from :: body.value.definitions[k] == (from + k, after[from + k]))
            && |body.value.events| == |p.counters| + |p.values| + |p.uniques|
  {
    ParsedAsSent(d, p, force, fmt);
    hide ParseBody, Body, LearnAll, WirePayload, WireDict;
  }

  /** Two counters, one of a series that was sent before. */
  lemma BodyExample(fmt: FloatPrinter)
    ensures var known, other := Series("requests", ["env=prod"]), Series("latency_ms", ["env=prod"]);
            var p := Payload("id", [CounterEvent(known, 2.0, 1001), CounterEvent(other, 122.5, 1001)], [], []);
            Body(Dict("5", 1, [known]), p, false, fmt)
            == "H|4|s|5|2\n" + "S|1|latency_ms|env=prod\n" + "c|0|2|1001\n" + "c|1|123|1001\n"
  {
    var known, other := Series("requests", ["env=prod"]), Series("latency_ms", ["env=prod"]);
    var p := Payload("id", [CounterEvent(known, 2.0, 1001), CounterEvent(other, 122.5, 1001)], [], []);
    var d, e1, e2 := Dict("5", 1, [known]), Sample('c', known, "2", 1001), Sample('c', other, "123", 1001);
    ExampleNumerals();
    assert Samples(p, fmt) == [e1, e2];
    ExampleKeys(known, other);
    ExampleSeries(known, other, e1, e2);
    ExampleLines(known, other, e1, e2);
    hide Samples, LearnAll, Lookup, SeriesKey, DefinitionText, EventText, HeaderText;
    assert DefinitionLines([known, other], 1) == [DefinitionText(1, other)];
    assert EventLines([e1, e2], [known, other]) == [EventText(e1, 0), EventText(e2, 1)];
    var lines := [HeaderText("5", 2), DefinitionText(1, other), EventText(e1, 0), EventText(e2, 1)];
    assert BodyLines(d, p, false, fmt) == lines;
    ExampleText(lines);
  }

  lemma ExampleNumerals()
    ensures Decimal(0) == "0" && Decimal(1) == "1" && Decimal(2) == "2" && Decimal(123) == "123" && Decimal(1001) == "1001"
    ensures FormatInt(Round(2.0)) == "2" && FormatInt(Round(122.5)) == "123" && FormatInt(1001) == "1001"
  {
    assert Format(12, 10) == "12" && Format(123, 10) == "123";
    assert Format(10, 10) == "10" && Format(100, 10) == "100" && Format(1001, 10) == "1001";
    RoundIsNearest(2.0, 2);
    RoundIsNearest(122.5, 123);
  }

  lemma ExampleKeys(known: Series, other: Series)
    requires known == Series("requests", ["env=prod"]) && other == Series("latency_ms", ["env=prod"])
    ensures SeriesKey(known) != SeriesKey(other)
  {
    assert SeriesKey(known)[0] == 'r' && SeriesKey(other)[0] == 'l';
  }

  lemma ExampleSeries(known: Series, other: Series, e1: Sample, e2: Sample)
    requires SeriesKey(known) != SeriesKey(other) && e1.series == known && e2.series == other
    ensures LearnAll([known], [e1, e2]) == [known, other]
    ensures Lookup([known, other], SeriesKey(known)) == 0 && Lookup([known, other], SeriesKey(other)) == 1
  {
    hide SeriesKey;
    assert [e1, e2][..1] == [e1] && [e1][..0] == [];
    assert [known, other][1..] == [other];
    assert LearnAll([known], []) == [known];
    assert LearnAll([known], [e1]) == [known];
  }

  lemma ExampleLines(known: Series, other: Series, e1: Sample, e2: Sample)
    requires other == Series("latency_ms", ["env=prod"])
    requires e1 == Sample('c', known, "2", 1001) && e2 == Sample('c', other, "123", 1001)
    ensures HeaderText("5", 2) == "H|4|s|5|2" && DefinitionText(1, other) == "S|1|latency_ms|env=prod"
    ensures EventText(e1, 0) == "c|0|2|1001" && EventText(e2, 1) == "c|1|123|1001"
  {
    ExampleNumerals();
    assert LabelsText(["env=prod"]) == "|env=prod" by { assert ["env=prod"][1..] == []; }
    hide FormatInt, Format, Decimal;
  }

  lemma ExampleText(lines: seq<string>)
    requires lines == ["H|4|s|5|2", "S|1|latency_ms|env=prod", "c|0|2|1001", "c|1|123|1001"]
    ensures Terminated(lines, '\n') == "H|4|s|5|2\n" + "S|1|latency_ms|env=prod\n" + "c|0|2|1001\n" + "c|1|123|1001\n"
  {
    var a, b, c, d := lines[0], lines[1], lines[2], lines[3];
    hide Terminated;
    TerminatedSnoc([], a, '\n');
    TerminatedSnoc([a], b, '\n');
    TerminatedSnoc([a, b], c, '\n');
    TerminatedSnoc([a, b, c], d, '\n');
    assert Terminated([], '\n') == "" by { NothingTerminated(); }
    assert [] + [a] == [a] && [a] + [b] == [a, b] && [a, b] + [c] == [a, b, c] && [a, b, c] + [d] == lines;
    assert a + "\n" == "H|4|s|5|2\n" && b + "\n" == "S|1|latency_ms|env=prod\n";
    assert c + "\n" == "c|0|2|1001\n" && d + "\n" == "c|1|123|1001\n";
    assert Terminated(lines, '\n') == (a + "\n") + (b + "\n") + (c + "\n") + (d + "\n");
  }

  lemma NothingTerminated()
    ensures Terminated([], '\n') == ""
  {
  }

  /* ---------- what an encoded body means ---------- */

  /** The table holds the first n series of the dictionary under their ids. */
  ghost predicate Agrees(table: Table, series: seq<Series>, n: nat)
  {
    n <= |series| && forall i | 0 <= i < n :: i in table && table[i] == series[i]
  }

  lemma {:induction false} ExtendAgrees(table: Table, series: seq<Series>, from: nat)
    requires Agrees(table, series, from)
    ensures Agrees(Extend(table, DefinitionPairs(series, from)), series, |series|)
    ensures forall i :: i in Extend(table, DefinitionPairs(series, from)) <==> i in table || from <= i < |series|
    decreases |series| - from
  {
    var pairs := DefinitionPairs(series, from);
    if from < |series| {
      assert pairs[1..] == DefinitionPairs(series, from + 1);
      ExtendAgrees(table[from := series[from]], series, from + 1);
    }
  }

  /** The id given to the series leads back to that very series. */
  ghost predicate Finds(series: seq<Series>, s: Series)
  {
    Known(series, s) && series[Lookup(series, SeriesKey(s))] == s
  }

  lemma {:induction false} ResolveSent(table: Table, series: seq<Series>, samples: seq<Sample>)
    requires Agrees(table, series, |series|)
    requires forall e | e in samples :: Finds(series, e.series)
    ensures Resolve(table, WireEvents(samples, series)) == Some(samples)
  {
    hide SeriesKey, Lookup, Finds, EventLines, WireEvents, Agrees;
    if samples != [] {
      hide Resolve;
      var events := WireEvents(samples, series);
      EventTails(samples, series);
      ResolveSent(table, series, samples[1..]);
      assert Finds(series, samples[0].series);
      ResolveFirst(table, series, samples[0], events);
      assert samples == [samples[0]] + samples[1..];
    }
  }

  lemma ResolveFirst(table: Table, series: seq<Series>, e: Sample, events: seq<WireEvent>)
    requires Agrees(table, series, |series|) && Finds(series, e.series)
    requires events != [] && events[0] == WireEvent(e.kind, Lookup(series, SeriesKey(e.series)), e.text, e.timestamp)
    requires Resolve(table, events[1..]).Some?
    ensures Resolve(table, events) == Some([e] + Resolve(table, events[1..]).value)
  {
    hide SeriesKey, Lookup;
  }

  lemma {:induction false} ResolvedFinds(table: Table, series: seq<Series>, samples: seq<Sample>)
    requires Agrees(table, series, |series|)
    requires forall e | e in samples :: Known(series, e.series)
    requires Resolve(table, WireEvents(samples, series)) == Some(samples)
    ensures forall e | e in samples :: Finds(series, e.series)
  {
    hide SeriesKey, Lookup;
    if samples != [] {
      var events := WireEvents(samples, series);
      EventTails(samples, series);
      var rest := Resolve(table, events[1..]).value;
      var head := Sample(events[0].kind, table[events[0].id], events[0].text, events[0].timestamp);
      assert [head] + rest == samples;
      assert samples[0] == head && samples[1..] == rest;
      ResolvedFinds(table, series, samples[1..]);
    }
  }

  /** No two series in play share a key without being the same series. */
  ghost predicate KeysTellApart(known: seq<Series>, samples: seq<Sample>)
  {
    && (forall a, b | a in samples && b in samples && SeriesKey(a.series) == SeriesKey(b.series) ::
          a.series == b.series)
    && (forall a, s | a in samples && s in known && SeriesKey(a.series) == SeriesKey(s) :: a.series == s)
  }

  lemma NulFreeTellsApart(known: seq<Series>, samples: seq<Sample>)
    requires forall s | s in known :: NulFree(s)
    requires forall e | e in samples :: NulFree(e.series)
    ensures KeysTellApart(known, samples)
  {
    forall a, b | a in samples && b in samples && SeriesKey(a.series) == SeriesKey(b.series)
      ensures a.series == b.series
    {
      KeyInjective(a.series, b.series);
    }
    forall a, s | a in samples && s in known && SeriesKey(a.series) == SeriesKey(s) ensures a.series == s {
      KeyInjective(a.series, s);
    }
  }

  /** Ids lead back to their series exactly when keys tell the series apart. */
  lemma FindsIffTellsApart(known: seq<Series>, samples: seq<Sample>)
    requires DistinctKeys(known)
    ensures (forall e | e in samples :: Finds(LearnAll(known, samples), e.series)) <==> KeysTellApart(known, samples)
  {
    hide SeriesKey, LearnAll, Lookup, DistinctKeys;
    var series := LearnAll(known, samples);
    LearnAllFacts(known, samples);
    if KeysTellApart(known, samples) {
      forall e | e in samples ensures Finds(series, e.series) {
        var s := series[Lookup(series, SeriesKey(e.series))];
        assert s in series;
      }
    }
    if forall e | e in samples :: Finds(series, e.series) {
      forall a, s | a in samples && s in known && SeriesKey(a.series) == SeriesKey(s) ensures a.series == s {
        assert Finds(series, a.series);
        var i :| 0 <= i < |known| && known[i] == s;
        OwnId(known, i);
        LookupStable(known, series, SeriesKey(s));
      }
    }
  }

  lemma OwnId(series: seq<Series>, i: nat)
    requires DistinctKeys(series) && i < |series|
    ensures Lookup(series, SeriesKey(series[i])) == i
  {
    hide SeriesKey;
  }

  /** Resolving against an agreeing table gives back every event, whichever ids
      the body itself defines. */
  lemma SentResolves(d: Dict, p: Payload, force: bool, fmt: FloatPrinter, table: Table)
    requires WireDict(d)
    requires Agrees(table, d.series, if force then 0 else |d.series|)
    ensures var m := Sent(d, p, force, fmt);
            && Agrees(Extend(table, m.definitions), Grow(d, p, fmt).series, |Grow(d, p, fmt).series|)
            && (Resolve(Extend(table, m.definitions), m.events) == Some(Samples(p, fmt))
                <==> KeysTellApart(d.series, Samples(p, fmt)))
  {
    hide SeriesKey, Lookup, WireSafe, Samples, LearnAll, Extend, Resolve, Finds, Known, KeysTellApart, DistinctKeys;
    var after, from := Grow(d, p, fmt), DefinedFrom(d, p, force, fmt);
    LearnAllFacts(d.series, Samples(p, fmt));
    assert forall i | 0 <= i < |d.series| :: after.series[i] == d.series[i];
    ExtendAgrees(table, after.series, from);
    FindsIffTellsApart(d.series, Samples(p, fmt));
    var known := Extend(table, DefinitionPairs(after.series, from));
    if KeysTellApart(d.series, Samples(p, fmt)) {
      ResolveSent(known, after.series, Samples(p, fmt));
    }
    if Resolve(known, WireEvents(Samples(p, fmt), after.series)) == Some(Samples(p, fmt)) {
      ResolvedFinds(known, after.series, Samples(p, fmt));
    }
  }

  /* ---------- exactly when a body keeps its meaning ---------- */

  lemma {:induction false} SplitWithin(s: string, sep: char, c: char)
    requires c !in s
    ensures forall part | part in Split(s, sep) :: c !in part
    decreases |s|
  {
    var i := IndexOf(s, sep);
    if i < |s| { SplitWithin(s[i + 1..], sep, c); }
  }

  ghost predicate Plain(m: Message)
  {
    && (forall d | d in m.definitions :: WireSafe(d.1))
    && (forall e | e in m.events :: PlainField(e.text))
  }

  lemma ParsedLineIsPlain(line: string)
    requires '\n' !in line
    ensures ParseLine(line).Definition? ==> WireSafe(ParseLine(line).series)
    ensures ParseLine(line).Occurrence? ==> PlainField(ParseLine(line).event.text)
  {
    hide Split, AllDigits, Value, ParseInt;
    SplitWithin(line, '|', '\n');
    var parts := Split(line, '|');
    if |parts| >= 3 {
      assert parts[2] in parts;
      NonEmptyFacts(parts[3..]);
    }
  }

  lemma {:induction false} GatheredIsPlain(lines: seq<string>, m: Message)
    requires Plain(m) && forall line | line in lines :: '\n' !in line
    ensures Gather(lines, m).Some? ==> Plain(Gather(lines, m).value)
    decreases |lines|
  {
    hide ParseLine, WireSafe;
    if lines != [] {
      var rest := lines[1..];
      assert lines[0] in lines && forall line | line in rest :: line in lines;
      ParsedLineIsPlain(lines[0]);
      if lines[0] == "" { GatheredIsPlain(rest, m); }
      else {
        match ParseLine(lines[0])
        case Definition(id, s) => GatheredIsPlain(rest, m.(definitions := m.definitions + [(id, s)]));
        case Occurrence(e) => GatheredIsPlain(rest, m.(events := m.events + [e]));
        case _ =>
      }
    }
  }

  lemma {:induction false} ExtendedIsPlain(table: Table, definitions: seq<(nat, Series)>)
    requires forall i | i in table :: WireSafe(table[i])
    requires forall d | d in definitions :: WireSafe(d.1)
    ensures forall i | i in Extend(table, definitions) :: WireSafe(Extend(table, definitions)[i])
    decreases |definitions|
  {
    hide WireSafe;
    if definitions != [] {
      assert definitions[0] in definitions;
      ExtendedIsPlain(table[definitions[0].0 := definitions[0].1], definitions[1..]);
    }
  }

  lemma {:induction false} ResolvedIsPlain(table: Table, events: seq<WireEvent>)
    requires forall i | i in table :: WireSafe(table[i])
    requires forall e | e in events :: PlainField(e.text)
    ensures Resolve(table, events).Some? ==>
              forall e | e in Resolve(table, events).value :: WireSafe(e.series) && PlainField(e.text)
  {
    hide WireSafe, PlainField;
    if events != [] {
      assert events[0] in events;
      ResolvedIsPlain(table, events[1..]);
    }
  }

  lemma DecodedIsPlain(body: string, table: Table)
    requires forall i | i in table :: WireSafe(table[i])
    ensures Decode(body, table).Some? ==>
              forall e | e in Decode(body, table).value :: WireSafe(e.series) && PlainField(e.text)
  {
    hide Split, Gather, Extend, Resolve, WireSafe, ParseLine;
    if ParseBody(body).Some? {
      var lines := Split(body, '\n');
      var header := ParseLine(lines[0]);
      var m := Message(header.session, header.revision, [], []);
      assert forall line | line in lines[1..] :: line in lines;
      GatheredIsPlain(lines[1..], m);
      var sent := ParseBody(body).value;
      assert Plain(sent);
      ExtendedIsPlain(table, sent.definitions);
      ResolvedIsPlain(Extend(table, sent.definitions), sent.events);
    }
  }

  /** Against a receiver that knows what the body does not define, a body decodes
      to its payload exactly when every field of the payload is free of '|' and
      newline, no label is empty, and no two different series share a key. */
  lemma BodyMeaning(d: Dict, p: Payload, force: bool, fmt: FloatPrinter, table: Table)
    requires !p.Empty() && WireDict(d)
    requires Agrees(table, d.series, if force then 0 else |d.series|)
    requires forall i | i in table :: WireSafe(table[i])
    ensures Decode(Body(d, p, force, fmt), table) == Some(Samples(p, fmt)) <==>
            WirePayload(p, fmt) && KeysTellApart(d.series, Samples(p, fmt))
    ensures ReadAs(Decode(Body(d, p, force, fmt), table), p, fmt) <==> WireFields(p) && KeysApart(d.series, p)
  {
    BodyDecodes(d, p, force, fmt, table);
    hide Decode, Body, Samples, WirePayload, WireFields, KeysTellApart, KeysApart, ReadAs;
    ReadsIsSamples(Decode(Body(d, p, force, fmt), table), p, fmt);
    WireByFields(p, fmt);
    KeysByFields(d.series, p, fmt);
  }

  /** Every series of the payload is fit for the wire, and every unique id too. */
  ghost predicate WireFields(p: Payload)
  {
    (forall s | s in PayloadSeries(p) :: WireSafe(s)) && forall u | u in p.uniques :: PlainField(u.uniqueID)
  }

  /** No two series of payload and dictionary share a key. */
  ghost predicate KeysApart(known: seq<Series>, p: Payload)
  {
    && (forall a, b | a in PayloadSeries(p) && b in PayloadSeries(p) && SeriesKey(a) == SeriesKey(b) :: a == b)
    && (forall a, s | a in PayloadSeries(p) && s in known && SeriesKey(a) == SeriesKey(s) :: a == s)
  }

  lemma WireByFields(p: Payload, fmt: FloatPrinter)
    ensures WirePayload(p, fmt) <==> WireFields(p)
  {
    SampleFields(p, fmt);
    SampleKinds(p, fmt);
    hide Samples, PayloadSeries, WireSafe, PlainField;
    assert forall e | e in Samples(p, fmt) :: e.series in PayloadSeries(p);
    if WirePayload(p, fmt) {
      forall s | s in PayloadSeries(p) ensures WireSafe(s) {
        var e :| e in Samples(p, fmt) && e.series == s;
        assert WireSample(e);
      }
      assert forall e | e in Samples(p, fmt) :: WireSample(e);
    }
  }

  lemma KeysByFields(known: seq<Series>, p: Payload, fmt: FloatPrinter)
    ensures KeysTellApart(known, Samples(p, fmt)) <==> KeysApart(known, p)
  {
    SampleFields(p, fmt);
    hide Samples, PayloadSeries, SeriesKey;
    assert forall e | e in Samples(p, fmt) :: e.series in PayloadSeries(p);
    if KeysTellApart(known, Samples(p, fmt)) {
      forall a | a in PayloadSeries(p) ensures exists e :: e in Samples(p, fmt) && e.series == a {}
    }
  }

  lemma BodyDecodes(d: Dict, p: Payload, force: bool, fmt: FloatPrinter, table: Table)
    requires !p.Empty() && WireDict(d)
    requires Agrees(table, d.series, if force then 0 else |d.series|)
    requires forall i | i in table :: WireSafe(table[i])
    ensures Decode(Body(d, p, force, fmt), table) == Some(Samples(p, fmt)) <==>
            WirePayload(p, fmt) && KeysTellApart(d.series, Samples(p, fmt))
  {
    hide Split, ParseBody, Extend, Resolve, WireSafe, Body, Grow, PlainField, KeysTellApart;
    if WirePayload(p, fmt) {
      ParsedAsSent(d, p, force, fmt);
      SentResolves(d, p, force, fmt, table);
    }
    if Decode(Body(d, p, force, fmt), table) == Some(Samples(p, fmt)) {
      DecodedIsPlain(Body(d, p, force, fmt), table);
      SampleKinds(p, fmt);
    }
  }

  lemma SampleKinds(p: Payload, fmt: FloatPrinter)
    ensures forall e | e in Samples(p, fmt) :: e.kind in ['c', 'v', 'u']
  {
  }

  /** A body that defines every id it uses needs no prior receiver state. */
  lemma SelfContained(d: Dict, p: Payload, force: bool, fmt: FloatPrinter)
    requires !p.Empty() && WireDict(d) && WirePayload(p, fmt)
    requires force || d.series == []
    requires KeysTellApart(d.series, Samples(p, fmt))
    ensures Decode(Body(d, p, force, fmt), map[]) == Some(Samples(p, fmt))
    ensures ReadAs(Decode(Body(d, p, force, fmt), map[]), p, fmt)
  {
    hide Samples, Body, Decode, WireSafe, KeysTellApart, WirePayload, ReadAs;
    BodyDecodes(d, p, force, fmt, map[]);
    ReadsIsSamples(Decode(Body(d, p, force, fmt), map[]), p, fmt);
  }

  lemma SplitTexts()
    ensures LabelsText(["a|b"]) == LabelsText(["a", "b"])
  {
    assert ["a|b"][1..] == [] && ["b"][1..] == [] && ["a", "b"][1..] == ["b"];
    assert LabelsText(["b"]) == "|b";
  }

  /** A raw label is not sanitised: one with a bar is read back as two. */
  lemma BarInLabelSplitsIt(fmt: FloatPrinter)
    ensures var s := Series("m", ["a|b"]);
            var p := Payload("id", [CounterEvent(s, 1.0, 0)], [], []);
            && ParseDefinition(DefinitionText(0, s)) == Series("m", ["a", "b"])
            && Decode(Body(Dict("1", 0, []), p, false, fmt), map[]) != Some(Samples(p, fmt))
            && !ReadAs(Decode(Body(Dict("1", 0, []), p, false, fmt), map[]), p, fmt)
  {
    var s, d := Series("m", ["a|b"]), Dict("1", 0, []);
    var p := Payload("id", [CounterEvent(s, 1.0, 0)], [], []);
    var split := Series("m", ["a", "b"]);
    SplitTexts();
    assert DefinitionText(0, s) == DefinitionText(0, split);
    DefinitionRoundTrip(0, split);
    assert Samples(p, fmt)[0].series == s && Samples(p, fmt)[0] in Samples(p, fmt);
    assert "a|b"[1] == '|' && "a|b" in s.labels;
    assert !WirePayload(p, fmt);
    hide Samples, Body, Decode, WirePayload, DefinitionText, ParseDefinition, LabelsText, KeysTellApart, ReadAs;
    BodyDecodes(d, p, false, fmt, map[]);
    ReadsIsSamples(Decode(Body(d, p, false, fmt), map[]), p, fmt);
  }

  /** The one way the encoder itself loses meaning: two different series whose NUL
      bytes line up get one id, and the second is read back as the first. */
  lemma NulCollisionLosesASeries(fmt: FloatPrinter)
    ensures var a, b := Series("m", ["x"]), Series("m\0x", []);
            var p := Payload("id", [CounterEvent(a, 1.0, 0), CounterEvent(b, 1.0, 0)], [], []);
            var read := Decode(Body(Dict("1", 0, []), p, false, fmt), map[]);
            read != Some(Samples(p, fmt)) && !ReadAs(read, p, fmt)
  {
    var a, b := Series("m", ["x"]), Series("m\0x", []);
    var p := Payload("id", [CounterEvent(a, 1.0, 0), CounterEvent(b, 1.0, 0)], [], []);
    var ss := Samples(p, fmt);
    assert SeriesKey(a) == SeriesKey(b) by {
      assert Parts(a) == ["m"] + ["x"] && Parts(b) == ["m\0x"];
      assert Terminated(["x"], NUL) == "x\0";
      assert Terminated(["m", "x"], NUL) == "m\0" + "x\0" by { assert ["m", "x"][1..] == ["x"]; }
      assert Terminated(["m\0x"], NUL) == "m\0x\0";
    }
    assert ss[0].series == a && ss[1].series == b && ss[0] in ss && ss[1] in ss;
    assert a != b;
    hide Samples, Body, Decode, SeriesKey, ReadAs;
    BodyDecodes(Dict("1", 0, []), p, false, fmt, map[]);
    ReadsIsSamples(Decode(Body(Dict("1", 0, []), p, false, fmt), map[]), p, fmt);
  }
}
