/** Series, events and payloads as they cross the module boundaries
    (transport.go, labels.go, batch_builder.go). */
module Events {
  import opened Text

  /** A float printed by strconv.FormatFloat: no field or line separator. */
  type PrintedFloat = s: string | '|' !in s && '\n' !in s witness "0"

  /** Any float printer. */
  type FloatPrinter = real -> PrintedFloat

  datatype Series = Series(metric: string, labels: seq<string>)

  datatype CounterEvent = CounterEvent(series: Series, value: real, timestamp: int)
  datatype ValueEvent = ValueEvent(series: Series, value: real, timestamp: int)
  datatype UniqueEvent = UniqueEvent(series: Series, uniqueID: string, timestamp: int)

  datatype Payload = Payload(
    batchID: string,
    counters: seq<CounterEvent>,
    values: seq<ValueEvent>,
    uniques: seq<UniqueEvent>)
  {
    predicate Empty() { counters == [] && values == [] && uniques == [] }
  }

  /** An event as it travels from the caller to the batch (event.go). */
  datatype Kind = CounterKind | ValueKind | TotalKind | UniqueKind

  datatype Event = Event(kind: Kind, series: Series, value: real, uniqueID: string, timestamp: int)

  /* ---------- series keys ---------- */

  const NUL: char := '\0'

  function Parts(s: Series): (parts: seq<string>)
    ensures parts != []
  {
    [s.metric] + s.labels
  }

  /** seriesKey: metric and labels, each closed by a NUL byte. */
  function SeriesKey(s: Series): string
  {
    Terminated(Parts(s), NUL)
  }

  predicate NulFree(s: Series)
  {
    forall p | p in Parts(s) :: NUL !in p
  }

  /** On NUL-free series the key identifies metric and labels. */
  lemma KeyInjective(a: Series, b: Series)
    requires NulFree(a) && NulFree(b)
    requires SeriesKey(a) == SeriesKey(b)
    ensures a == b
  {
    TerminatedInjective(Parts(a), Parts(b), NUL);
    assert Parts(a)[0] == a.metric && Parts(b)[0] == b.metric;
    assert Parts(a)[1..] == a.labels && Parts(b)[1..] == b.labels;
  }

  /** Every part cut at its NUL bytes. */
  function Pieces(parts: seq<string>): (r: seq<string>)
    ensures forall p | p in r :: NUL !in p
    ensures parts != [] ==> r != []
  {
    if parts == [] then [] else Split(parts[0], NUL) + Pieces(parts[1..])
  }

  lemma {:induction false} PiecesKeepTheKey(parts: seq<string>)
    ensures Terminated(Pieces(parts), NUL) == Terminated(parts, NUL)
  {
    if parts != [] {
      PiecesKeepTheKey(parts[1..]);
      TerminatedSplit(parts[0], NUL);
      TerminatedConcat(Split(parts[0], NUL), Pieces(parts[1..]), NUL);
    }
  }

  /** A series is told apart by its key from every other NUL-free series exactly
      when it is NUL-free itself. */
  lemma KeyFaithful(a: Series)
    ensures NulFree(a) <==> forall b | NulFree(b) && SeriesKey(b) == SeriesKey(a) :: b == a
  {
    if NulFree(a) {
      forall b | NulFree(b) && SeriesKey(b) == SeriesKey(a) ensures b == a {
        KeyInjective(a, b);
      }
    } else {
      var pieces := Pieces(Parts(a));
      var b := Series(pieces[0], pieces[1..]);
      assert Parts(b) == pieces;
      PiecesKeepTheKey(Parts(a));
      assert NulFree(b) && SeriesKey(b) == SeriesKey(a);
    }
  }

  /* ---------- labels ---------- */

  /** labelReplacer: the four reserved characters become underscores. */
  function Sanitize(s: string): (r: string)
    ensures |r| == |s|
    ensures forall i | 0 <= i < |s| :: r[i] == if s[i] in ['=', '|', '\n', '\r'] then '_' else s[i]
  {
    if s == "" then "" else [if s[0] in ['=', '|', '\n', '\r'] then '_' else s[0]] + Sanitize(s[1..])
  }

  function Label(key: string, value: string): string
  {
    Sanitize(key) + "=" + Sanitize(value)
  }

  /* ---------- wire safety ---------- */

  /** A field that survives the line format: no separator inside. */
  predicate PlainField(s: string) { '|' !in s && '\n' !in s }

  predicate WireSafe(s: Series)
  {
    PlainField(s.metric) && forall l | l in s.labels :: l != "" && PlainField(l)
  }

  /** Label output is always a usable label and has exactly one '=', so the two
      sanitised halves can be read back. */
  lemma LabelIsWireSafe(key: string, value: string)
    ensures Label(key, value) != "" && PlainField(Label(key, value))
    ensures Split(Label(key, value), '=') == [Sanitize(key), Sanitize(value)]
  {
    SplitFirst(Sanitize(key), '=', Sanitize(value));
    SplitLast(Sanitize(value), '=');
  }
}
