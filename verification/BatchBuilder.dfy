/** The batch builder (batch_builder.go): counters aggregated through hand-made hash
    chains, uniques deduplicated by key, values appended. */
module BatchBuilder {
  import opened Text
  import opened Events
  import opened Aggregation

  type Hasher = Series -> nat

  datatype Entry = Entry(series: Series, payloadIndex: nat, next: nat)

  /** One more than the largest index below n whose entry has hash h; 0 if none. */
  function Last(entries: seq<Entry>, hash: Hasher, h: nat, n: nat): (r: nat)
    requires n <= |entries|
    ensures r <= n
    ensures r > 0 ==> hash(entries[r - 1].series) == h
    ensures forall j | r <= j < n :: hash(entries[j].series) != h
  {
    if n == 0 then 0
    else if hash(entries[n - 1].series) == h then n
    else Last(entries, hash, h, n - 1)
  }

  lemma {:induction false} LastOfPrefix(entries: seq<Entry>, more: seq<Entry>, hash: Hasher, h: nat, n: nat)
    requires n <= |entries| && entries <= more
    ensures Last(more, hash, h, n) == Last(entries, hash, h, n)
  {
    if n > 0 {
      assert more[n - 1] == entries[n - 1];
      LastOfPrefix(entries, more, hash, h, n - 1);
    }
  }

  /** A map read of a missing key gives Go's zero value. */
  function Head(aggs: map<nat, nat>, h: nat): nat
  {
    if h in aggs then aggs[h] else 0
  }

  /** Every chain visits exactly the entries of its hash, newest first. */
  ghost predicate Chained(entries: seq<Entry>, aggs: map<nat, nat>, hash: Hasher)
  {
    && (forall h: nat :: Head(aggs, h) == Last(entries, hash, h, |entries|))
    && (forall j | 0 <= j < |entries| :: entries[j].next == Last(entries, hash, hash(entries[j].series), j))
  }

  lemma ChainedSnoc(entries: seq<Entry>, aggs: map<nat, nat>, hash: Hasher, s: Series, payloadIndex: nat)
    requires Chained(entries, aggs, hash)
    ensures var more := entries + [Entry(s, payloadIndex, Head(aggs, hash(s)))];
            Chained(more, aggs[hash(s) := |more|], hash)
  {
    var more := entries + [Entry(s, payloadIndex, Head(aggs, hash(s)))];
    var aggs' := aggs[hash(s) := |more|];
    forall h: nat ensures Head(aggs', h) == Last(more, hash, h, |more|) {
      LastOfPrefix(entries, more, hash, h, |entries|);
    }
    forall j | 0 <= j < |more| ensures more[j].next == Last(more, hash, hash(more[j].series), j) {
      LastOfPrefix(entries, more, hash, hash(more[j].series), j);
      if j < |entries| { assert more[j] == entries[j]; }
    }
  }

  /** Entry i is the i-th counter, up to the cap, and no series has two entries. */
  ghost predicate Tracks(entries: seq<Entry>, counters: seq<CounterEvent>)
  {
    && |entries| == Min(|counters|, MAX_SERIES_PER_BATCH)
    && (forall i | 0 <= i < |entries| ::
          entries[i].payloadIndex == i && entries[i].series == counters[i].series)
    && (forall i, j | 0 <= i < j < |entries| :: entries[i].series != entries[j].series)
  }

  lemma TracksSnoc(entries: seq<Entry>, counters: seq<CounterEvent>, c: CounterEvent, next: nat)
    requires Tracks(entries, counters) && |entries| < MAX_SERIES_PER_BATCH
    requires forall j | 0 <= j < |entries| :: entries[j].series != c.series
    ensures Tracks(entries + [Entry(c.series, |counters|, next)], counters + [c])
  {
  }

  ghost predicate RecordsKeys(seen: set<string>, uniques: seq<UniqueEvent>)
  {
    forall key :: key in seen <==> SeenUnique(uniques, key)
  }

  /** The chain walk reaches the entry of the series if there is one, else -1. */
  method Walk(entries: seq<Entry>, aggs: map<nat, nat>, hash: Hasher, s: Series) returns (cursor: int)
    requires Chained(entries, aggs, hash)
    ensures -1 <= cursor < |entries|
    ensures cursor >= 0 ==> entries[cursor].series == s
    ensures cursor == -1 ==> forall j | 0 <= j < |entries| :: entries[j].series != s
  {
    hide Last;
    var h := hash(s);
    ghost var m := |entries|;
    cursor := Head(aggs, h) - 1;
    while cursor >= 0
      invariant 0 <= m <= |entries| && cursor + 1 == Last(entries, hash, h, m)
      invariant forall j | m <= j < |entries| :: entries[j].series != s
      decreases cursor
    {
      var entry := entries[cursor];
      var same := entry.series.metric == s.metric;
      if same { same := LabelsEqual(entry.series.labels, s.labels); }
      if same { return; }
      SkippedInChain(entries, hash, s, m, cursor);
      m := cursor;
      cursor := entry.next - 1;
    }
    SkippedInChain(entries, hash, s, m, -1);
  }

  /** Entries between two neighbours of a chain have another hash, so another series. */
  lemma SkippedInChain(entries: seq<Entry>, hash: Hasher, s: Series, m: nat, cursor: int)
    requires -1 <= cursor < m <= |entries| || (cursor == -1 && m <= |entries|)
    requires cursor + 1 == Last(entries, hash, hash(s), m)
    requires forall j | m <= j < |entries| :: entries[j].series != s
    ensures forall j | cursor < j < |entries| :: entries[j].series != s
  {
    hide Last;
    forall j | cursor < j < m ensures entries[j].series != s {
      assert hash(entries[j].series) != hash(s);
    }
  }

  method LabelsEqual(a: seq<string>, b: seq<string>) returns (equal: bool)
    ensures equal <==> a == b
  {
    if |a| != |b| { return false; }
    for i := 0 to |a|
      invariant a[..i] == b[..i]
    {
      if a[i] != b[i] { return false; }
      assert a[..i + 1] == a[..i] + [a[i]] && b[..i + 1] == b[..i] + [b[i]];
    }
    assert a[..|a|] == a && b[..|b|] == b;
    return true;
  }

  method BuildSeriesKey(metric: string, labels: seq<string>) returns (key: string)
    ensures key == SeriesKey(Series(metric, labels))
  {
    key := metric + [NUL];
    for i := 0 to |labels|
      invariant key + Terminated(labels[i..], NUL) == SeriesKey(Series(metric, labels))
    {
      assert labels[i..][0] == labels[i] && labels[i..][1..] == labels[i + 1..];
      key := key + labels[i];
      key := key + [NUL];
    }
  }

  class BatchBuilder {
    const hash: Hasher
    var counters: seq<CounterEvent>
    var values: seq<ValueEvent>
    var uniques: seq<UniqueEvent>
    var counterAggs: map<nat, nat>
    var counterEntries: seq<Entry>
    var uniqueSeen: set<string>

    ghost predicate Valid()
      reads this
    {
      && Chained(counterEntries, counterAggs, hash)
      && Tracks(counterEntries, counters)
      && RecordsKeys(uniqueSeen, uniques)
    }

    constructor (hash: Hasher)
      ensures Valid() && this.hash == hash
      ensures counters == [] && values == [] && uniques == []
    {
      this.hash := hash;
      counters, values, uniques := [], [], [];
      counterAggs, counterEntries, uniqueSeen := map[], [], {};
    }

    /** Lookup finds the series if and only if it is aggregated. */
    method Find(s: Series) returns (found: bool, index: nat)
      requires Valid()
      ensures var n := |counterEntries|;
              && n == Min(|counters|, MAX_SERIES_PER_BATCH)
              && (found <==> Slot(counters, s, n) < n)
              && (found ==> index == Slot(counters, s, n))
              && (!found ==> forall j | 0 <= j < n :: counterEntries[j].series != s)
    {
      hide Chained, RecordsKeys;
      index := 0;
      var cursor := Walk(counterEntries, counterAggs, hash, s);
      found := cursor >= 0;
      if found {
        index := counterEntries[cursor].payloadIndex;
      }
    }

    method AddCounter(e: Event)
      requires Valid()
      modifies this
      ensures Valid()
      ensures counters == Aggregation.AddCounter(old(counters), e)
      ensures values == old(values) && uniques == old(uniques)
    {
      hide Chained, RecordsKeys;
      var found, index := Find(e.series);
      if found {
        var agg := counters[index];
        agg := agg.(value := agg.value + e.value);
        if e.timestamp > agg.timestamp {
          agg := agg.(timestamp := e.timestamp);
        }
        counters := counters[index := agg];
        return;
      }
      if |counterEntries| >= MAX_SERIES_PER_BATCH {
        counters := counters + [CounterEvent(e.series, e.value, e.timestamp)];
        return;
      }
      var h := hash(e.series);
      var payloadIndex := |counters|;
      ChainedSnoc(counterEntries, counterAggs, hash, e.series, payloadIndex);
      TracksSnoc(counterEntries, counters, CounterOf(e), Head(counterAggs, h));
      counters := counters + [CounterEvent(e.series, e.value, e.timestamp)];
      counterEntries := counterEntries + [Entry(e.series, payloadIndex, Head(counterAggs, h))];
      counterAggs := counterAggs[h := |counterEntries|];
    }

    method AddUnique(e: Event)
      requires Valid()
      modifies this
      ensures Valid()
      ensures uniques == Aggregation.AddUnique(old(uniques), e)
      ensures values == old(values) && counters == old(counters)
    {
      if e.uniqueID == "" { return; }
      var key := BuildSeriesKey(e.series.metric, e.series.labels);
      key := key + "\U{0001}" + e.uniqueID;
      assert key == UniqueKey(e.series, e.uniqueID);
      if key in uniqueSeen { return; }
      ghost var was := uniques;
      uniqueSeen := uniqueSeen + {key};
      uniques := uniques + [UniqueEvent(e.series, e.uniqueID, e.timestamp)];
      SeenSnoc(was, UniqueOf(e));
    }

    lemma SeenSnoc(us: seq<UniqueEvent>, u: UniqueEvent)
      ensures forall key :: SeenUnique(us + [u], key) <==> SeenUnique(us, key) || key == UniqueKey(u.series, u.uniqueID)
    {
      hide UniqueKey;
      forall key
        ensures SeenUnique(us + [u], key) <==> SeenUnique(us, key) || key == UniqueKey(u.series, u.uniqueID)
      {
        var more := us + [u];
        assert more[|us|] == u;
        if SeenUnique(us, key) {
          var k :| 0 <= k < |us| && UniqueKey(us[k].series, us[k].uniqueID) == key;
          assert more[k] == us[k];
        }
      }
    }

    ghost predicate Holds(es: seq<Event>)
      reads this
    {
      counters == CountersOf(es) && values == ValuesOf(es) && uniques == UniquesOf(es)
    }

    method Add(e: Event, ghost done: seq<Event>)
      requires Valid() && Holds(done)
      modifies this
      ensures Valid() && Holds(done + [e])
    {
      assert (done + [e])[..|done + [e]| - 1] == done;
      match e.kind
      case CounterKind => AddCounter(e);
      case ValueKind => values := values + [ValueEvent(e.series, e.value, e.timestamp)];
      case UniqueKind => AddUnique(e);
      case TotalKind =>
    }

    method AddAll(events: seq<Event>)
      requires Valid() && Holds([])
      modifies this
      ensures Holds(events)
    {
      hide Chained, Tracks, RecordsKeys, CountersOf, ValuesOf, UniquesOf;
      assert events[..0] == [];
      for i := 0 to |events|
        invariant Valid() && Holds(events[..i])
      {
        Add(events[i], events[..i]);
        assert events[..i] + [events[i]] == events[..i + 1];
      }
      assert events[..|events|] == events;
    }
  }

  /** Whatever the hash function does, the built payload is the fold of the events;
      an empty one is not sent. */
  method BuildPayload(events: seq<Event>, hash: Hasher, batchID: string) returns (p: Option<Payload>)
    ensures p == if PayloadOf(events, batchID).Empty() then None else Some(PayloadOf(events, batchID))
  {
    var builder := new BatchBuilder(hash);
    builder.AddAll(events);
    var payload := Payload(batchID, builder.counters, builder.values, builder.uniques);
    p := if payload.Empty() then None else Some(payload);
  }
}
