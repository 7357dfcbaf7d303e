/** The transport's own reading of a body for error reports (transport.go,
    analyzeLinePayloadV4): counts, byte shares and the range of event ids. */
module LineAnalysis {
  import opened Text
  import opened Events
  import opened LineProtocol
  import opened LineParser

  datatype Diagnostics = Diagnostics(
    session: string, revision: nat,
    definitions: nat, definitionBytes: nat,
    eventLines: nat, eventBytes: nat,
    minID: int, maxID: int)

  const Blank: Diagnostics := Diagnostics("", 0, 0, 0, 0, 0, -1, -1)

  const INT64_LIMIT: int := 0x8000_0000_0000_0000

  /** strconv.ParseUint with its error ignored. */
  function LenientUint(s: string): nat
  {
    if !AllDigits(s) then 0
    else if Value(s, 10) < UINT64_LIMIT then Value(s, 10) else UINT64_LIMIT - 1
  }

  /** strconv.Atoi on a 64-bit platform. */
  function Atoi(s: string): Option<int>
  {
    var digits := if s != "" && (s[0] == '-' || s[0] == '+') then s[1..] else s;
    if !AllDigits(digits) then None
    else
      var v: int := if s[0] == '-' then -(Value(digits, 10) as int) else Value(digits, 10);
      if -INT64_LIMIT <= v < INT64_LIMIT then Some(v) else None
  }

  function WithID(d: Diagnostics, id: int): Diagnostics
  {
    d.(minID := if d.minID == -1 || id < d.minID then id else d.minID,
       maxID := if d.maxID == -1 || id > d.maxID then id else d.maxID)
  }

  function TallyLine(line: string, d: Diagnostics): Diagnostics
  {
    if line == "" then d
    else if "H|" <= line then
      var parts := SplitN(line, '|', 5);
      if |parts| >= 5 then d.(session := parts[3], revision := LenientUint(parts[4])) else d
    else if "S|" <= line then
      d.(definitions := d.definitions + 1, definitionBytes := d.definitionBytes + |line| + 1)
    else
      var counted := d.(eventLines := d.eventLines + 1, eventBytes := d.eventBytes + |line| + 1);
      if |line| < 3 || line[1] != '|' then counted
      else
        var parts := SplitN(line, '|', 4);
        if |parts| < 4 || Atoi(parts[1]).None? then counted
        else WithID(counted, Atoi(parts[1]).value)
  }

  function Tally(lines: seq<string>, d: Diagnostics): Diagnostics
  {
    if lines == [] then d else Tally(lines[1..], TallyLine(lines[0], d))
  }

  method Analyze(body: string) returns (diag: Diagnostics)
    ensures diag == Tally(Split(body, '\n'), Blank)
  {
    diag := Blank;
    var lines := Split(body, '\n');
    for i := 0 to |lines|
      invariant Tally(lines[i..], diag) == Tally(lines, Blank)
    {
      var line := lines[i];
      assert lines[i..][0] == line && lines[i..][1..] == lines[i + 1..];
      ghost var was := diag;
      if |line| != 0 {
        if "H|" <= line {
          var parts := SplitN(line, '|', 5);
          if |parts| >= 5 {
            diag := diag.(session := parts[3], revision := LenientUint(parts[4]));
          }
        } else if "S|" <= line {
          diag := diag.(definitions := diag.definitions + 1, definitionBytes := diag.definitionBytes + |line| + 1);
        } else {
          diag := diag.(eventLines := diag.eventLines + 1, eventBytes := diag.eventBytes + |line| + 1);
          if |line| >= 3 && line[1] == '|' {
            var parts := SplitN(line, '|', 4);
            if |parts| >= 4 && Atoi(parts[1]).Some? {
              var id := Atoi(parts[1]).value;
              if diag.minID == -1 || id < diag.minID { diag := diag.(minID := id); }
              if diag.maxID == -1 || id > diag.maxID { diag := diag.(maxID := id); }
            }
          }
        }
      }
      assert diag == TallyLine(line, was);
    }
  }

  /* ---------- agreement with the encoder ---------- */

  lemma TallyHeader(session: string, revision: nat, d: Diagnostics)
    requires '|' !in session && revision < UINT64_LIMIT
    ensures TallyLine(HeaderText(session, revision), d) == d.(session := session, revision := revision)
  {
    var line := HeaderText(session, revision);
    HeaderFields(session, revision);
    SplitNIsSplit(line, '|', 5);
    ValueOfFormat(revision, 10);
    hide Split, SplitN, Format, Value;
    assert line[..2] == "H|";
  }

  lemma TallyDefinition(id: nat, s: Series, d: Diagnostics)
    ensures var line := DefinitionText(id, s);
            TallyLine(line, d) == d.(definitions := d.definitions + 1, definitionBytes := d.definitionBytes + |line| + 1)
  {
    hide Split, SplitN, Format, LabelsText;
    assert DefinitionText(id, s)[0] == 'S' && DefinitionText(id, s)[1] == '|';
  }

  lemma TallyEvent(e: Sample, id: nat, d: Diagnostics)
    requires WireSample(e) && id < INT64_LIMIT
    ensures var line := EventText(e, id);
            TallyLine(line, d)
            == WithID(d.(eventLines := d.eventLines + 1, eventBytes := d.eventBytes + |line| + 1), id)
  {
    var line := EventText(e, id);
    EventFields(e, id);
    SplitNIsSplit(line, '|', 4);
    AtoiDecimal(id);
    EventStart(e, id);
    hide Split, SplitN, Format, Atoi, EventText, WireSample, WithID, LenientUint, ParseLine;
    var parts := SplitN(line, '|', 4);
    assert |parts| == 4 && parts[1] == Decimal(id);
  }

  lemma EventStart(e: Sample, id: nat)
    requires e.kind in ['c', 'v', 'u']
    ensures var line := EventText(e, id);
            |line| >= 3 && line[1] == '|' && !("H|" <= line) && !("S|" <= line)
  {
    hide Format, FormatInt;
    assert EventText(e, id)[0] == e.kind;
  }

  lemma AtoiDecimal(id: nat)
    requires id < INT64_LIMIT
    ensures Atoi(Decimal(id)) == Some(id)
  {
    ValueOfFormat(id, 10);
    assert Decimal(id)[0] in Decimal(id);
    hide Format, Value;
  }

  lemma TallyStep(line: string, rest: seq<string>, d: Diagnostics)
    ensures Tally([line] + rest, d) == Tally(rest, TallyLine(line, d))
  {
    assert ([line] + rest)[1..] == rest;
  }

  lemma {:induction false} TallyDefinitions(series: seq<Series>, from: nat, rest: seq<string>, d: Diagnostics)
    requires from <= |series|
    ensures Tally(DefinitionLines(series, from) + rest, d)
         == Tally(rest, d.(definitions := d.definitions + |series| - from,
                           definitionBytes := d.definitionBytes + SumLengths(DefinitionLines(series, from))))
    decreases |series| - from
  {
    hide TallyLine, DefinitionText;
    var lines := DefinitionLines(series, from);
    if from == |series| {
      assert lines + rest == rest;
    } else {
      var text := DefinitionText(from, series[from]);
      TallyDefinition(from, series[from], d);
      assert lines[1..] == DefinitionLines(series, from + 1);
      assert (lines + rest)[1..] == lines[1..] + rest;
      TallyDefinitions(series, from + 1, rest,
        d.(definitions := d.definitions + 1, definitionBytes := d.definitionBytes + |text| + 1));
    }
  }

  /** `id` is the least (greatest) of the ids, or the default when there is none. */
  ghost predicate Least(id: int, ids: seq<nat>, start: int)
  {
    && (id == start || exists k :: 0 <= k < |ids| && ids[k] == id)
    && (start != -1 ==> id <= start)
    && (forall k | 0 <= k < |ids| :: id <= ids[k])
    && (ids != [] ==> id != -1)
  }

  ghost predicate Greatest(id: int, ids: seq<nat>, start: int)
  {
    && (id == start || exists k :: 0 <= k < |ids| && ids[k] == id)
    && start <= id
    && (forall k | 0 <= k < |ids| :: ids[k] <= id)
  }

  function IDs(samples: seq<Sample>, series: seq<Series>): (ids: seq<nat>)
    ensures |ids| == |samples|
    ensures forall k | 0 <= k < |ids| :: ids[k] == Lookup(series, SeriesKey(samples[k].series))
  {
    seq(|samples|, k requires 0 <= k < |samples| => Lookup(series, SeriesKey(samples[k].series)))
  }

  lemma LeastStep(first: nat, rest: seq<nat>, id: int, start: int)
    requires start >= -1
    requires Least(id, rest, if start == -1 || first < start then first else start)
    ensures Least(id, [first] + rest, start)
  {
    var ids := [first] + rest;
    assert ids[0] == first;
    forall k | 0 <= k < |rest| ensures ids[k + 1] == rest[k] {}
    if id != start && id != first {
      var k :| 0 <= k < |rest| && rest[k] == id;
      assert ids[k + 1] == id;
    }
    forall k | 0 <= k < |ids| ensures id <= ids[k] {
      if k > 0 { assert ids[k] == rest[k - 1]; }
    }
  }

  lemma GreatestStep(first: nat, rest: seq<nat>, id: int, start: int)
    requires start >= -1
    requires Greatest(id, rest, if start == -1 || first > start then first else start)
    ensures Greatest(id, [first] + rest, start)
  {
    var ids := [first] + rest;
    assert ids[0] == first;
    if id != start && id != first {
      var k :| 0 <= k < |rest| && rest[k] == id;
      assert ids[k + 1] == id;
    }
    forall k | 0 <= k < |ids| ensures ids[k] <= id {
      if k > 0 { assert ids[k] == rest[k - 1]; }
    }
  }

  lemma {:induction false} TallyEvents(samples: seq<Sample>, series: seq<Series>, d: Diagnostics)
    requires forall e | e in samples :: WireSample(e)
    requires |series| < INT64_LIMIT && d.minID >= -1 && d.maxID >= -1
    ensures var r := Tally(EventLines(samples, series) + [""], d);
            && r == d.(eventLines := d.eventLines + |samples|,
                       eventBytes := d.eventBytes + SumLengths(EventLines(samples, series)),
                       minID := r.minID, maxID := r.maxID)
            && Least(r.minID, IDs(samples, series), d.minID)
            && Greatest(r.maxID, IDs(samples, series), d.maxID)
  {
    hide TallyLine, EventText, Lookup, SeriesKey, WireSample, Least, Greatest;
    if samples == [] {
      assert EventLines(samples, series) + [""] == [""] + [] && [""][1..] == [];
      TallyBlank(d);
      NothingLeast(d.minID, d.maxID);
      assert IDs(samples, series) == [];
    } else {
      hide Tally;
      var id, rest := Lookup(series, SeriesKey(samples[0].series)), IDs(samples[1..], series);
      var line, lines := EventText(samples[0], id), EventLines(samples[1..], series);
      assert WireSample(samples[0]);
      TallyEvent(samples[0], id, d);
      EventTails(samples, series);
      var d1 := TallyLine(line, d);
      assert EventLines(samples, series) == [line] + lines;
      assert [line] + lines + [""] == [line] + (lines + [""]);
      TallyStep(line, lines + [""], d);
      TallyEvents(samples[1..], series, d1);
      assert IDs(samples, series) == [id] + rest;
      var r := Tally(lines + [""], d1);
      LeastStep(id, rest, r.minID, d.minID);
      GreatestStep(id, rest, r.maxID, d.maxID);
      assert SumLengths([line] + lines) == |line| + 1 + SumLengths(lines) by { assert ([line] + lines)[1..] == lines; }
    }
  }

  lemma TallyBlank(d: Diagnostics)
    ensures TallyLine("", d) == d
  {
  }

  lemma NothingLeast(lo: int, hi: int)
    ensures Least(lo, [], lo) && Greatest(hi, [], hi)
  {
  }

  /** Session, revision, both counts, the exact least and greatest event id, and
      byte shares that add up to `size`. */
  ghost predicate Reports(diag: Diagnostics, after: Dict, from: nat, samples: seq<Sample>, size: nat)
    requires from <= |after.series|
  {
    && diag.session == after.session && diag.revision == after.revision
    && diag.definitions == |after.series| - from
    && diag.eventLines == |samples|
    && Least(diag.minID, IDs(samples, after.series), -1)
    && Greatest(diag.maxID, IDs(samples, after.series), -1)
    && |HeaderText(after.session, after.revision)| + 1 + diag.definitionBytes + diag.eventBytes == size
  }

  lemma TallyBody(after: Dict, from: nat, samples: seq<Sample>, header: string)
    requires '|' !in after.session && after.revision < UINT64_LIMIT && |after.series| < INT64_LIMIT
    requires from <= |after.series| && forall e | e in samples :: WireSample(e)
    requires header == HeaderText(after.session, after.revision)
    ensures var defs, events := DefinitionLines(after.series, from), EventLines(samples, after.series);
            Reports(Tally([header] + (defs + (events + [""])), Blank), after, from, samples,
                    |header| + 1 + SumLengths(defs) + SumLengths(events))
  {
    hide TallyLine, WireSample, HeaderText, Least, Greatest, Tally, SumLengths, DefinitionText, EventText, Lookup, SeriesKey;
    var defs, events := DefinitionLines(after.series, from), EventLines(samples, after.series);
    TallyHeader(after.session, after.revision, Blank);
    var d1 := Blank.(session := after.session, revision := after.revision);
    TallyStep(header, defs + (events + [""]), Blank);
    TallyDefinitions(after.series, from, events + [""], d1);
    TallyEvents(samples, after.series,
      d1.(definitions := |after.series| - from, definitionBytes := SumLengths(defs)));
  }

  /** On an encoded body the in-repository analysis reports exactly what was encoded. */
  lemma AnalysisAgrees(d: Dict, p: Payload, force: bool, fmt: FloatPrinter)
    requires !p.Empty() && WireDict(d) && WirePayload(p, fmt)
    requires Grow(d, p, fmt).revision < UINT64_LIMIT && |Grow(d, p, fmt).series| < INT64_LIMIT
    ensures var body := Body(d, p, force, fmt);
            Reports(Tally(Split(body, '\n'), Blank), Grow(d, p, fmt), DefinedFrom(d, p, force, fmt),
                    Samples(p, fmt), |body|)
  {
    hide *;
    WireFacts(d, p, fmt);
    BodySplits(d, p, force, fmt);
    var after := Grow(d, p, fmt);
    TallyBody(after, DefinedFrom(d, p, force, fmt), Samples(p, fmt), HeaderText(after.session, after.revision));
  }

  lemma WireFacts(d: Dict, p: Payload, fmt: FloatPrinter)
    requires WireDict(d) && WirePayload(p, fmt)
    ensures '|' !in Grow(d, p, fmt).session && forall e | e in Samples(p, fmt) :: WireSample(e)
  {
    hide WireSample, Samples, LearnAll;
  }

  lemma BodySplits(d: Dict, p: Payload, force: bool, fmt: FloatPrinter)
    requires !p.Empty() && WireDict(d) && WirePayload(p, fmt)
    ensures var body, after, from := Body(d, p, force, fmt), Grow(d, p, fmt), DefinedFrom(d, p, force, fmt);
            var header := HeaderText(after.session, after.revision);
            var defs, events := DefinitionLines(after.series, from), EventLines(Samples(p, fmt), after.series);
            && Split(body, '\n') == [header] + (defs + (events + [""]))
            && |body| == |header| + 1 + SumLengths(defs) + SumLengths(events)
  {
    BodyLinesArePlain(d, p, force, fmt);
    hide WirePayload, WireDict, Samples, HeaderText, Split, Terminated, SumLengths, DefinedFrom, Grow,
         EventText, DefinitionText, Lookup, SeriesKey;
    var after := Grow(d, p, fmt);
    var defs := DefinitionLines(after.series, DefinedFrom(d, p, force, fmt));
    var events := EventLines(Samples(p, fmt), after.series);
    var header := HeaderText(after.session, after.revision);
    SplitTerminated(BodyLines(d, p, force, fmt), '\n');
    BodyLength(header, defs, events);
    Reassociate([header], defs, events, [""]);
  }

  lemma Reassociate<T>(a: seq<T>, b: seq<T>, c: seq<T>, d: seq<T>)
    ensures a + b + c + d == a + (b + (c + d))
  {
  }

  lemma BodyLength(header: string, defs: seq<string>, events: seq<string>)
    ensures |Terminated([header] + defs + events, '\n')| == |header| + 1 + SumLengths(defs) + SumLengths(events)
  {
    TerminatedConcat([header] + defs, events, '\n');
    TerminatedConcat([header], defs, '\n');
    TerminatedLength(defs, '\n');
    TerminatedLength(events, '\n');
    assert Terminated([header], '\n') == header + "\n";
  }
}
