/** Pooled events whose label buffers are overwritten in place, and the copies that
    keep payloads apart from them (event.go, labels.go, client.go). */
module EventPool {
  import opened Text
  import opened Events
  import Totals

  /* ---------- labels as callers give them ---------- */

  /** Any notion of white space. */
  type Space = char -> bool

  function TrimLeft(s: string, space: Space): string
  {
    if s != "" && space(s[0]) then TrimLeft(s[1..], space) else s
  }

  function TrimRight(s: string, space: Space): string
  {
    if s != "" && space(s[|s| - 1]) then TrimRight(s[..|s| - 1], space) else s
  }

  function Trim(s: string, space: Space): string { TrimRight(TrimLeft(s, space), space) }

  /** Labels that survive trimming, in order. */
  function Usable(labels: seq<string>, space: Space): seq<string>
  {
    if labels == [] then []
    else
      var init, last := Usable(labels[..|labels| - 1], space), Trim(labels[|labels| - 1], space);
      if last != "" then init + [last] else init
  }

  predicate AllSpace(s: string, space: Space) { forall c | c in s :: space(c) }

  lemma {:induction false} TrimLeftFacts(s: string, space: Space) returns (head: string)
    ensures s == head + TrimLeft(s, space) && AllSpace(head, space)
    ensures var r := TrimLeft(s, space); r != "" ==> !space(r[0])
  {
    if s != "" && space(s[0]) {
      head := TrimLeftFacts(s[1..], space);
      head := [s[0]] + head;
    } else { head := ""; }
  }

  lemma {:induction false} TrimRightFacts(s: string, space: Space) returns (tail: string)
    ensures s == TrimRight(s, space) + tail && AllSpace(tail, space)
    ensures var r := TrimRight(s, space); r != "" ==> !space(r[|r| - 1]) && r[0] == s[0]
  {
    if s != "" && space(s[|s| - 1]) {
      tail := TrimRightFacts(s[..|s| - 1], space);
      tail := tail + [s[|s| - 1]];
    } else { tail := ""; }
  }

  /** Trimming takes off white space at both ends, all of it, and nothing else. */
  lemma TrimFacts(s: string, space: Space) returns (head: string, tail: string)
    ensures s == head + Trim(s, space) + tail && AllSpace(head, space) && AllSpace(tail, space)
    ensures var r := Trim(s, space); r != "" ==> !space(r[0]) && !space(r[|r| - 1])
  {
    hide TrimLeft, TrimRight;
    head := TrimLeftFacts(s, space);
    tail := TrimRightFacts(TrimLeft(s, space), space);
  }

  lemma UsableOne(l: string, space: Space)
    ensures Usable([l], space) == if Trim(l, space) == "" then [] else [Trim(l, space)]
  {
    hide Trim;
    assert [l][..0] == [];
  }

  /** The labels an event ends up with are the trimmed non-blank ones, in order: Usable
      is the list homomorphism with this value on a single label. None is empty, as the
      wire format needs. */
  lemma {:induction false} UsableLabels(a: seq<string>, b: seq<string>, l: string, space: Space)
    ensures Usable(a + b, space) == Usable(a, space) + Usable(b, space)
    ensures Usable([l], space) == if Trim(l, space) == "" then [] else [Trim(l, space)]
    ensures forall x | x in Usable(b, space) :: x != ""
  {
    UsableOne(l, space);
    hide Trim;
    if b == [] { assert a + b == a; }
    else {
      UsableLabels(a, b[..|b| - 1], l, space);
      assert (a + b)[..|a + b| - 1] == a + b[..|b| - 1];
    }
  }

  /* ---------- one event object ---------- */

  class EventObject {
    var kind: Kind
    var name: string
    var value: real
    var uniqueID: string
    var timestamp: int
    var labels: array<string>   // the buffer
    var used: nat               // how much of it is in use

    constructor ()
      ensures fresh(labels) && used == 0 && uniqueID == ""
    {
      kind, name, value, uniqueID, timestamp := CounterKind, "", 0.0, "", 0;
      labels := new string[0];
      used := 0;
    }

    ghost predicate Valid()
      reads this
    {
      used <= labels.Length
    }

    /** The event as a value. */
    ghost function Content(): Event
      requires Valid()
      reads this, labels
    {
      Event(kind, Series(name, labels[..used]), value, uniqueID, timestamp)
    }

    /** append(e.labels, l): in place while the buffer has room. */
    method AppendLabel(l: string)
      requires Valid()
      modifies this`labels, this`used, labels
      ensures Valid() && used == old(used) + 1
      ensures labels[..used] == old(labels[..used]) + [l]
      ensures labels == old(labels) || fresh(labels)
    {
      if used < labels.Length {
        labels[used] := l;
      } else {
        var bigger := new string[2 * used + 1](i requires 0 <= i reads this, labels =>
          if i < used && i < labels.Length then labels[i] else l);
        labels := bigger;
      }
      used := used + 1;
    }

    /** borrowEvent's assignments. The unique id is not among them: it is whatever the
        last release left. */
    method Fill(kind: Kind, name: string, value: real, raw: seq<string>, timestamp: int, space: Space)
      requires Valid()
      modifies this`kind, this`name, this`value, this`timestamp, this`labels, this`used, labels
      ensures Valid() && (labels == old(labels) || fresh(labels))
      ensures Content() == Event(kind, Series(name, Usable(raw, space)), value, uniqueID, timestamp)
    {
      this.kind, this.name, this.value := kind, name, value;
      used := 0;
      assert raw[..0] == [];
      for i := 0 to |raw|
        invariant Valid() && (labels == old(labels) || fresh(labels))
        invariant labels[..used] == Usable(raw[..i], space)
        invariant this.kind == kind && this.name == name && this.value == value
      {
        assert raw[..i + 1][..i] == raw[..i];
        var trimmed := Trim(raw[i], space);
        if trimmed != "" { AppendLabel(trimmed); }
      }
      assert raw[..|raw|] == raw;
      this.timestamp := timestamp;
    }

    /** releaseEvent's reset: fields cleared, the buffer kept for the next borrower. */
    method Reset()
      modifies this`name, this`value, this`uniqueID, this`used
      ensures Valid() && used == 0 && uniqueID == ""
    {
      name, value, uniqueID, used := "", 0.0, "", 0;
    }
  }

  method CloneLabels(labels: array<string>, used: nat) returns (copy: array<string>)
    requires used <= labels.Length
    ensures fresh(copy) && copy[..] == labels[..used]
  {
    copy := new string[used](i requires 0 <= i reads labels => if i < used && i < labels.Length then labels[i] else "");
  }

  /** One event as a payload holds it: its labels are an array of its own. */
  datatype Copy = Copy(kind: Kind, name: string, value: real, uniqueID: string, timestamp: int, labels: array<string>)

  ghost function CopyContent(c: Copy): Event
    reads c.labels
  {
    Event(c.kind, Series(c.name, c.labels[..]), c.value, c.uniqueID, c.timestamp)
  }

  ghost function Contents(es: seq<EventObject>): (r: seq<Event>)
    requires forall e | e in es :: e.Valid()
    reads es, set e | e in es :: e.labels
    ensures |r| == |es| && forall i | 0 <= i < |es| :: r[i] == es[i].Content()
  {
    seq(|es|, i requires 0 <= i < |es| reads es, set e | e in es :: e.labels requires es[i].Valid() => es[i].Content())
  }

  ghost function CopyContents(cs: seq<Copy>): (r: seq<Event>)
    reads set c | c in cs :: c.labels
    ensures |r| == |cs| && forall i | 0 <= i < |cs| :: r[i] == CopyContent(cs[i])
  {
    seq(|cs|, i requires 0 <= i < |cs| reads set c | c in cs :: c.labels => CopyContent(cs[i]))
  }

  const MAX_QUEUE: nat := 65536

  function Members(es: seq<EventObject>): set<EventObject>
  {
    set e | e in es
  }

  /** Every event is in one place only; `away` holds the ones in neither list. */
  ghost predicate Placed(away: set<EventObject>, queue: seq<EventObject>, batch: seq<EventObject>)
  {
    && (forall i, j | 0 <= i < j < |queue| :: queue[i] != queue[j])
    && (forall i, j | 0 <= i < j < |batch| :: batch[i] != batch[j])
    && (forall e | e in queue :: e !in away && e !in batch)
    && (forall e | e in batch :: e !in away)
  }

  /** No two events share a buffer and no payload array is anybody's buffer. */
  ghost predicate Apart(owned: set<EventObject>, shipped: seq<Copy>)
    reads owned
  {
    && (forall e | e in owned :: e.Valid())
    && (forall a, b | a in owned && b in owned && a != b :: a.labels != b.labels)
    && (forall c, e | c in shipped && e in owned :: c.labels != e.labels)
  }

  /** The event can join without sharing a buffer. */
  ghost predicate Joins(e: EventObject, owned: set<EventObject>, shipped: seq<Copy>)
    reads owned, e
  {
    && e !in owned && e.Valid()
    && (forall a | a in owned :: a.labels != e.labels)
    && (forall c | c in shipped :: c.labels != e.labels)
  }

  lemma JoinKeepsApart(e: EventObject, owned: set<EventObject>, shipped: seq<Copy>)
    requires Apart(owned, shipped) && Joins(e, owned, shipped)
    ensures Apart(owned + {e}, shipped)
  {
  }

  lemma ShipKeepsApart(owned: set<EventObject>, shipped: seq<Copy>, c: Copy)
    requires Apart(owned, shipped) && forall e | e in owned :: c.labels != e.labels
    ensures Apart(owned, shipped + [c])
  {
  }

  lemma PutAndRemoved(drafts: map<EventObject, Event>, e: EventObject, content: Event)
    requires e !in drafts
    ensures drafts[e := content] - {e} == drafts
  {
  }

  lemma DequeuePlaced(away: set<EventObject>, queue: seq<EventObject>, batch: seq<EventObject>)
    requires Placed(away, queue, batch) && queue != []
    ensures Placed(away + {queue[0]}, queue[1..], batch)
    ensures Members(queue) == Members(queue[1..]) + {queue[0]} && queue[0] !in away && queue[0] !in batch
  {
    var rest := queue[1..];
    assert queue[0] in queue && forall e | e in rest :: e in queue;
    assert queue == [queue[0]] + rest;
    forall e | e in rest ensures e != queue[0] {
      var k :| 0 <= k < |rest| && rest[k] == e;
      assert queue[k + 1] == e;
    }
  }

  lemma SubmitPlaced(away: set<EventObject>, queue: seq<EventObject>, batch: seq<EventObject>, e: EventObject)
    requires Placed(away, queue, batch) && e !in away && e !in queue && e !in batch
    ensures Placed(away, queue + [e], batch) && Placed(away + {e}, queue, batch)
    ensures Members(queue + [e]) == Members(queue) + {e}
  {
  }

  lemma ReleasePlaced(away: set<EventObject>, queue: seq<EventObject>, batch: seq<EventObject>)
    requires Placed(away, queue, batch) && batch != []
    ensures Placed(away + {batch[0]}, queue, batch[1..])
    ensures Members(batch) == Members(batch[1..]) + {batch[0]} && batch[0] !in away && batch[0] !in queue
    ensures batch[0] !in batch[1..]
  {
    assert batch == [batch[0]] + batch[1..];
    assert batch[0] in batch && forall e | e in batch[1..] :: e in batch;
  }

  /** The events of one client: in the pool, in callers' hands, in the queue and in the
      pending batch; and the payload events built so far. */
  class Pipeline {
    var pool: set<EventObject>
    var held: set<EventObject>
    var queue: seq<EventObject>
    var batch: seq<EventObject>
    var shipped: seq<Copy>

    ghost function Owned(): set<EventObject>
      reads this
    {
      pool + held + Members(queue) + Members(batch)
    }

    ghost function Buffers(): set<array<string>>
      reads this, Owned()
    {
      set e | e in Owned() :: e.labels
    }

    /** A pooled event has no unique id: borrowing one relies on it. */
    ghost predicate Valid()
      reads this, Owned()
    {
      && pool !! held
      && Placed(pool + held, queue, batch)
      && Apart(Owned(), shipped)
      && forall e | e in pool :: e.uniqueID == ""
    }

    /** What callers have written into the events they hold. */
    ghost function Drafts(): (r: map<EventObject, Event>)
      requires forall e | e in held :: e.Valid()
      reads this`held, held, set e | e in held :: e.labels
      ensures r.Keys == held && forall e | e in held :: r[e] == e.Content()
    {
      map e | e in held :: e.Content()
    }

    /** A held event is in no list, and its buffer is nobody else's. */
    lemma Alone(e: EventObject)
      requires Valid() && e in held
      ensures e.Valid() && e !in pool && e !in queue && e !in batch
      ensures forall x | x in queue || x in batch || (x in held && x != e) :: x.Valid() && x.labels != e.labels
      ensures forall c | c in shipped :: c.labels != e.labels
    {
      assert e in Owned() && forall x | x in queue || x in batch || x in held :: x in Owned();
    }

    lemma AllValid()
      requires Valid()
      ensures forall e | e in held || e in queue || e in batch :: e.Valid()
    {
      assert forall e | e in held || e in queue || e in batch :: e in Owned();
    }

    /** Writing into a held event breaks nothing. */
    twostate lemma Rewritten(e: EventObject)
      requires old(Valid()) && e in old(held) && e.Valid()
      requires pool == old(pool) && held == old(held) && queue == old(queue) && batch == old(batch)
      requires shipped == old(shipped)
      requires e.labels == old(e.labels) || fresh(e.labels)
      requires forall x | x in Owned() && x != e :: unchanged(x)
      ensures Valid()
    {
      hide Placed;
      assert e in old(Owned()) && Owned() == old(Owned());
      forall a, b | a in old(Owned()) && b in old(Owned()) && a != b ensures a.labels != b.labels {
        assert old(a.labels) != old(b.labels);
      }
    }

    constructor ()
      ensures Valid() && pool == {} && held == {} && queue == [] && batch == [] && shipped == []
    {
      pool, held, queue, batch, shipped := {}, {}, [], [], [];
    }

    /* ---------- steps of callers ---------- */

    /** sync.Pool.Get: any pooled event, or a new one. */
    method Borrow() returns (e: EventObject)
      requires Valid()
      modifies `pool, `held
      ensures Valid() && held == old(held) + {e} && e !in old(held) && e.uniqueID == ""
      ensures Owned() == old(Owned()) + {e} && pool == old(pool) - {e}
      ensures e in old(pool) || (fresh(e) && fresh(e.labels))
      ensures Drafts() - {e} == old(Drafts())
    {
      hide Placed, Apart, Contents, CopyContents;
      if * {
        if pool != {} {
          e :| e in pool;
          FromPool(e);
          return;
        }
      }
      e := NewEvent();
    }

    method FromPool(e: EventObject)
      requires Valid() && e in pool
      modifies `pool, `held
      ensures Valid() && held == old(held) + {e} && pool == old(pool) - {e} && Owned() == old(Owned())
      ensures Drafts() - {e} == old(Drafts())
    {
      hide Placed, Contents, CopyContents;
      assert e in Owned();
      pool, held := pool - {e}, held + {e};
      assert pool + held == old(pool + held);
      assert Owned() == old(Owned());
    }

    method NewEvent() returns (e: EventObject)
      requires Valid()
      modifies `held
      ensures Valid() && fresh(e) && fresh(e.labels) && e.uniqueID == ""
      ensures held == old(held) + {e} && Owned() == old(Owned()) + {e}
      ensures Drafts() - {e} == old(Drafts())
    {
      hide Placed, Apart, Contents, CopyContents;
      e := new EventObject();
      Adopt(e);
    }

    method Adopt(e: EventObject)
      requires Valid() && Joins(e, Owned(), shipped)
      modifies `held
      ensures Valid() && held == old(held) + {e} && Owned() == old(Owned()) + {e}
      ensures Drafts() - {e} == old(Drafts())
    {
      hide Placed, Contents, CopyContents;
      assert e !in queue && e !in batch;
      SubmitPlaced(pool + held, queue, batch, e);
      JoinKeepsApart(e, Owned(), shipped);
      held := held + {e};
      assert pool + held == old(pool + held) + {e};
      assert Owned() == old(Owned()) + {e};
    }

    /** borrowEvent's filling, of an event the caller already holds: its content changes
        and no other, although it may be written into a buffer an earlier event used. */
    method Fill(e: EventObject, kind: Kind, name: string, value: real, raw: seq<string>, timestamp: int, space: Space)
      requires Valid() && e in held
      modifies e`kind, e`name, e`value, e`timestamp, e`labels, e`used, e.labels
      ensures Valid() && (e.labels == old(e.labels) || fresh(e.labels))
      ensures var event := Event(kind, Series(name, Usable(raw, space)), value, old(e.uniqueID), timestamp);
              Drafts() == old(Drafts())[e := event]
      ensures Contents(queue) == old(Contents(queue)) && Contents(batch) == old(Contents(batch))
      ensures CopyContents(shipped) == old(CopyContents(shipped))
    {
      hide Valid, Placed, Apart, Contents, CopyContents, Usable;
      Alone(e);
      e.Fill(kind, name, value, raw, timestamp, space);
      Rewritten(e);
    }

    /** borrowUniqueEvent's last assignment. */
    method SetUniqueID(e: EventObject, uniqueID: string)
      requires Valid() && e in held
      modifies e`uniqueID
      ensures Valid()
      ensures Drafts() == old(Drafts())[e := old(Drafts())[e].(uniqueID := uniqueID)]
      ensures Contents(queue) == old(Contents(queue)) && Contents(batch) == old(Contents(batch))
      ensures CopyContents(shipped) == old(CopyContents(shipped))
    {
      hide Placed, Apart, Contents, CopyContents;
      Alone(e);
      e.uniqueID := uniqueID;
      Rewritten(e);
    }

    /** The caller's non-blocking send: into the queue, or back to the pool when full. */
    method Enqueue(e: EventObject) returns (accepted: bool)
      requires Valid() && e in held
      modifies `pool, `held, `queue, e`name, e`value, e`uniqueID, e`used
      ensures Valid() && held == old(held) - {e} && Owned() == old(Owned())
      ensures Drafts() == old(Drafts()) - {e}
      ensures accepted <==> |old(queue)| < MAX_QUEUE
      ensures Contents(queue) == old(Contents(queue)) + if accepted then [old(Drafts())[e]] else []
      ensures Contents(batch) == old(Contents(batch)) && CopyContents(shipped) == old(CopyContents(shipped))
    {
      hide Placed, Apart, Contents, CopyContents;
      accepted := |queue| < MAX_QUEUE;
      if accepted { Accept(e); } else { Release(e); }
    }

    method Accept(e: EventObject)
      requires Valid() && e in held
      modifies `held, `queue
      ensures Valid() && held == old(held) - {e} && queue == old(queue) + [e] && Owned() == old(Owned())
      ensures Contents(queue) == old(Contents(queue)) + [old(Drafts())[e]]
      ensures Drafts() == old(Drafts()) - {e}
    {
      hide Apart, CopyContents;
      assert e !in queue && e !in batch;
      SubmitPlaced(pool + held - {e}, queue, batch, e);
      assert pool + (held - {e}) == pool + held - {e};
      held, queue := held - {e}, queue + [e];
      assert Owned() == old(Owned());
    }

    /** releaseEvent: back to the pool, buffer and all, whoever holds it. */
    method Release(e: EventObject)
      requires Valid() && e in held
      modifies `pool, `held, e`name, e`value, e`uniqueID, e`used
      ensures Valid() && pool == old(pool) + {e} && held == old(held) - {e} && Owned() == old(Owned())
      ensures Drafts() == old(Drafts()) - {e}
      ensures Contents(queue) == old(Contents(queue)) && Contents(batch) == old(Contents(batch))
      ensures CopyContents(shipped) == old(CopyContents(shipped))
    {
      hide Placed, Apart, Contents, CopyContents;
      Clear(e);
      ToPool(e);
    }

    method ToPool(e: EventObject)
      requires Valid() && e in held && e.uniqueID == ""
      modifies `pool, `held
      ensures Valid() && pool == old(pool) + {e} && held == old(held) - {e} && Owned() == old(Owned())
      ensures Drafts() == old(Drafts()) - {e}
    {
      hide Placed, Contents, CopyContents;
      assert e in Owned();
      assert pool + {e} + (held - {e}) == pool + held;
      pool, held := pool + {e}, held - {e};
      assert Owned() == old(Owned());
    }

    method Clear(e: EventObject)
      requires Valid() && e in held
      modifies e`name, e`value, e`uniqueID, e`used
      ensures Valid() && e.uniqueID == ""
      ensures Drafts() - {e} == old(Drafts()) - {e}
      ensures Contents(queue) == old(Contents(queue)) && Contents(batch) == old(Contents(batch))
      ensures CopyContents(shipped) == old(CopyContents(shipped))
    {
      hide Placed, Apart, Contents, CopyContents;
      Alone(e);
      e.Reset();
      Rewritten(e);
    }

    /* ---------- steps of the worker ---------- */

    /** Receiving from the queue: the oldest event comes into the worker's hands. */
    method Dequeue() returns (e: EventObject)
      requires Valid() && queue != []
      modifies `queue, `held
      ensures Valid() && e == old(queue[0]) && queue == old(queue)[1..] && Owned() == old(Owned())
      ensures e !in old(held) && held == old(held) + {e}
      ensures Contents(queue) == old(Contents(queue))[1..]
      ensures Drafts() == old(Drafts())[e := old(Contents(queue))[0]]
    {
      hide Apart, CopyContents;
      e := queue[0];
      DequeuePlaced(pool + held, queue, batch);
      assert pool + (held + {e}) == pool + held + {e};
      queue, held := queue[1..], held + {e};
      assert Owned() == old(Owned());
    }

    method AppendToBatch(e: EventObject)
      requires Valid() && e in held
      modifies `batch, `held
      ensures Valid() && held == old(held) - {e} && batch == old(batch) + [e] && Owned() == old(Owned())
      ensures Contents(batch) == old(Contents(batch)) + [old(Drafts())[e]]
      ensures Drafts() == old(Drafts()) - {e}
    {
      hide Apart, CopyContents;
      assert e !in queue && e !in batch;
      assert pool + (held - {e}) == pool + held - {e};
      held, batch := held - {e}, batch + [e];
      assert Owned() == old(Owned());
    }

    /** applyTotal on the event itself: a Total in the worker's hands is overwritten in
        place by the counter delta it stands for, or is to be released. */
    method ApplyTotal(e: EventObject, totals: Totals.Baselines, limit: nat)
      returns (keep: bool, totals': Totals.Baselines)
      requires Valid() && e in held
      modifies e`kind, e`value
      ensures Valid()
      ensures var (after, kept) := Totals.ApplyTotal(totals, old(Drafts())[e], limit);
              && totals' == after && keep == kept.Some?
              && Drafts() == if keep then old(Drafts())[e := kept.value] else old(Drafts())
      ensures Contents(queue) == old(Contents(queue)) && Contents(batch) == old(Contents(batch))
      ensures CopyContents(shipped) == old(CopyContents(shipped))
    {
      hide SeriesKey, Placed, Apart, Contents, CopyContents;
      Alone(e);
      keep, totals' := false, totals;
      if limit == 0 { return; }
      var key := SeriesKey(Series(e.name, e.labels[..e.used]));
      if key !in totals {
        if |totals| < limit { totals' := totals[key := e.value]; }
        return;
      }
      var prev := totals[key];
      totals' := totals[key := e.value];
      if e.value > prev {
        e.kind, e.value := CounterKind, e.value - prev;
        keep := true;
        Rewritten(e);
      }
    }

    /** One dequeued event on its way into the batch, as the stream conversion has it. */
    method Receive(totals: Totals.Baselines) returns (totals': Totals.Baselines)
      requires Valid() && queue != []
      modifies `pool, `held, `queue, `batch, queue[0]
      ensures old(queue[0]).labels == old(queue[0].labels)
      ensures Valid() && Owned() == old(Owned()) && held == old(held) && Drafts() == old(Drafts())
      ensures Contents(queue) == old(Contents(queue))[1..]
      ensures var (after, kept) := Totals.Convert(totals, old(Contents(queue))[0]);
              && totals' == after
              && Contents(batch) == old(Contents(batch)) + if kept.Some? then [kept.value] else []
      ensures CopyContents(shipped) == old(CopyContents(shipped))
    {
      hide Placed, Apart, Contents, CopyContents, Totals.Convert, Members;
      AllValid();
      var e := Dequeue();
      totals' := Place(e, totals);
      PutAndRemoved(old(Drafts()), e, old(Contents(queue))[0]);
    }

    method Place(e: EventObject, totals: Totals.Baselines) returns (totals': Totals.Baselines)
      requires Valid() && e in held
      modifies `pool, `held, `batch, e`kind, e`name, e`value, e`uniqueID, e`used
      ensures Valid() && held == old(held) - {e} && Owned() == old(Owned()) && Drafts() == old(Drafts()) - {e}
      ensures var (after, kept) := Totals.Convert(totals, old(Drafts())[e]);
              && totals' == after
              && Contents(batch) == old(Contents(batch)) + if kept.Some? then [kept.value] else []
      ensures Contents(queue) == old(Contents(queue)) && CopyContents(shipped) == old(CopyContents(shipped))
    {
      hide Placed, Apart, Contents, CopyContents, Totals.Convert;
      var keep;
      keep, totals' := Convert(e, totals);
      Settle(e, keep);
    }

    method Convert(e: EventObject, totals: Totals.Baselines) returns (keep: bool, totals': Totals.Baselines)
      requires Valid() && e in held
      modifies e`kind, e`value
      ensures Valid()
      ensures var (after, kept) := Totals.Convert(totals, old(Drafts())[e]);
              && totals' == after && keep == kept.Some?
              && (keep ==> Drafts()[e] == kept.value) && Drafts() - {e} == old(Drafts()) - {e}
      ensures Contents(queue) == old(Contents(queue)) && Contents(batch) == old(Contents(batch))
      ensures CopyContents(shipped) == old(CopyContents(shipped))
    {
      hide Placed, Apart, Contents, CopyContents, Totals.ApplyTotal;
      if e.kind == TotalKind {
        keep, totals' := ApplyTotal(e, totals, Totals.MAX_TOTAL_SERIES);
      } else { keep, totals' := true, totals; }
    }

    /** A converted event goes into the batch, or back to the pool. */
    method Settle(e: EventObject, keep: bool)
      requires Valid() && e in held
      modifies `pool, `held, `batch, e`name, e`value, e`uniqueID, e`used
      ensures Valid() && held == old(held) - {e} && Owned() == old(Owned()) && Drafts() == old(Drafts()) - {e}
      ensures Contents(batch) == old(Contents(batch)) + if keep then [old(Drafts())[e]] else []
      ensures Contents(queue) == old(Contents(queue)) && CopyContents(shipped) == old(CopyContents(shipped))
    {
      hide Placed, Apart, Contents, CopyContents;
      if keep { AppendToBatch(e); } else { Release(e); }
    }

    /** Building a payload copies every event of the batch, labels into fresh arrays. */
    method CopyBatch()
      requires Valid()
      modifies `shipped
      ensures Valid()
      ensures CopyContents(shipped) == old(CopyContents(shipped)) + Contents(batch)
      ensures old(shipped) <= shipped
    {
      hide Placed, Contents, CopyContents;
      ghost var was := shipped;
      ghost var goal := CopyContents(shipped) + Contents(batch);
      for i := 0 to |batch|
        invariant Valid() && was <= shipped && |shipped| == |was| + i
        invariant CopyContents(shipped) == goal[..|was| + i]
      {
        assert batch[i] in batch;
        assert goal[..|was| + i + 1] == goal[..|was| + i] + [batch[i].Content()];
        CopyEvent(batch[i]);
      }
    }

    /** One event's copy: appended, and nothing copied before changes. */
    method CopyEvent(e: EventObject)
      requires Valid() && e in Owned()
      modifies `shipped
      ensures Valid() && |shipped| == |old(shipped)| + 1 && old(shipped) <= shipped
      ensures CopyContents(shipped) == old(CopyContents(shipped)) + [e.Content()]
    {
      hide Placed, Contents, CopyContents;
      assert forall a | a in Owned() :: a.Valid();
      var cp := CloneLabels(e.labels, e.used);
      ShipKeepsApart(Owned(), shipped, Copy(e.kind, e.name, e.value, e.uniqueID, e.timestamp, cp));
      shipped := shipped + [Copy(e.kind, e.name, e.value, e.uniqueID, e.timestamp, cp)];
    }

    /** After the flush every event of the batch is released, once. */
    method ReleaseBatch()
      requires Valid()
      modifies `pool, `held, `batch, batch
      ensures Valid() && batch == [] && pool == old(pool) + Members(old(batch)) && Owned() == old(Owned())
      ensures held == old(held) && Drafts() == old(Drafts())
      ensures forall e | e in old(batch) :: e.labels == old(e.labels)
      ensures Contents(queue) == old(Contents(queue)) && CopyContents(shipped) == old(CopyContents(shipped))
    {
      hide Placed, Contents, CopyContents;
      ghost var was, all := pool, batch;
      while batch != []
        invariant Valid() && Owned() == old(Owned())
        invariant held == old(held) && Drafts() == old(Drafts())
        invariant forall e | e in batch :: e in all
        invariant forall e | e in all :: e.labels == old(e.labels)
        invariant pool + Members(batch) == was + Members(all)
        invariant Contents(queue) == old(Contents(queue)) && CopyContents(shipped) == old(CopyContents(shipped))
        decreases |batch|
      {
        assert batch[0] in batch;
        ReleaseFirst();
      }
    }

    method ReleaseFirst()
      requires Valid() && batch != []
      modifies `pool, `held, `batch, batch[0]
      ensures old(batch[0]).labels == old(batch[0].labels)
      ensures Valid() && batch == old(batch)[1..] && Owned() == old(Owned())
      ensures pool + Members(batch) == old(pool) + Members(old(batch))
      ensures held == old(held) && Drafts() == old(Drafts())
      ensures Contents(queue) == old(Contents(queue)) && CopyContents(shipped) == old(CopyContents(shipped))
    {
      hide Placed, Apart, Contents, CopyContents, Members;
      AllValid();
      var e := TakeFromBatch();
      Release(e);
      PutAndRemoved(old(Drafts()), e, old(batch[0].Content()));
    }

    method TakeFromBatch() returns (e: EventObject)
      requires Valid() && batch != []
      modifies `held, `batch
      ensures Valid() && e == old(batch[0]) && batch == old(batch)[1..] && Owned() == old(Owned())
      ensures e !in old(held) && held == old(held) + {e}
      ensures Members(old(batch)) == Members(batch) + {e}
      ensures Drafts() == old(Drafts())[e := old(e.Content())]
    {
      hide Apart, CopyContents;
      e := batch[0];
      ReleasePlaced(pool + held, queue, batch);
      assert pool + (held + {e}) == pool + held + {e};
      batch, held := batch[1..], held + {e};
      assert Owned() == old(Owned());
    }

    /* ---------- callers and worker interleaved ---------- */

    /** Only events and buffers of the pipeline, or new ones, are in it now. */
    twostate predicate Within()
      reads this, Owned()
    {
      forall e | e in Owned() ::
        (e in old(Owned()) || fresh(e)) && (e.labels in old(Buffers()) || fresh(e.labels))
    }

    twostate lemma StillWithin()
      requires Owned() == old(Owned()) && forall e | e in old(Owned()) :: e.labels == old(e.labels)
      ensures Within()
    {
    }

    /** What any step of the others leaves to the holders of `mine`, and to every payload. */
    twostate predicate Undisturbed(mine: set<EventObject>)
      requires old(Valid()) && Valid() && mine <= old(held)
      reads this, Owned(), Buffers(), set c | c in shipped :: c.labels
    {
      && Within()
      && mine <= held && (forall m | m in mine :: m.Valid() && m.Content() == old(m.Content()))
      && old(CopyContents(shipped)) <= CopyContents(shipped)
    }

    twostate lemma DraftKept(mine: set<EventObject>)
      requires old(Valid()) && Valid() && mine <= old(held) && mine <= held
      requires forall m | m in mine :: Drafts()[m] == old(Drafts())[m]
      ensures forall m | m in mine :: m.Valid() && old(m.Valid()) && m.Content() == old(m.Content())
    {
      hide Placed;
      assert forall m | m in mine :: m in Owned() && m in old(Owned());
    }

    method BorrowBlank() returns (e: EventObject)
      requires Valid()
      modifies `pool, `held
      ensures Valid() && Within() && held == old(held) + {e} && e !in old(held) && e.Valid() && e.uniqueID == ""
      ensures Drafts() - {e} == old(Drafts()) && CopyContents(shipped) == old(CopyContents(shipped))
    {
      hide Placed, Apart, Contents, CopyContents;
      e := Borrow();
      AllValid();
    }

    method OtherBorrows(mine: set<EventObject>)
      requires Valid() && mine <= held
      modifies `pool, `held
      ensures Valid() && Undisturbed(mine)
    {
      hide Placed, Apart, Contents, CopyContents, Within;
      var e := BorrowBlank();
      DraftKept(mine);
    }

    method OtherFills(mine: set<EventObject>, e: EventObject, space: Space)
      requires Valid() && mine <= held && e in held - mine
      modifies e, e.labels
      ensures Valid() && Undisturbed(mine)
    {
      hide Placed, Apart, Contents, CopyContents, Usable;
      var kind: Kind, name: string, value: real, raw: seq<string>, timestamp: int := *, *, *, *, *;
      Fill(e, kind, name, value, raw, timestamp, space);
      DraftKept(mine);
    }

    method OtherSetsID(mine: set<EventObject>, e: EventObject)
      requires Valid() && mine <= held && e in held - mine
      modifies e`uniqueID
      ensures Valid() && Undisturbed(mine)
    {
      hide Placed, Apart, Contents, CopyContents;
      var uniqueID: string := *;
      SetUniqueID(e, uniqueID);
      DraftKept(mine);
    }

    method OtherEnqueues(mine: set<EventObject>, e: EventObject)
      requires Valid() && mine <= held && e in held - mine
      modifies `pool, `held, `queue, e`name, e`value, e`uniqueID, e`used
      ensures Valid() && Undisturbed(mine)
    {
      hide Placed, Apart, Contents, CopyContents, Within;
      var accepted := Enqueue(e);
      StillWithin();
      DraftKept(mine);
    }

    method WorkerReceives(mine: set<EventObject>, totals: Totals.Baselines)
      requires Valid() && mine <= held && queue != []
      modifies `pool, `held, `queue, `batch, queue[0]
      ensures Valid() && Undisturbed(mine)
    {
      hide Placed, Apart, Contents, CopyContents, Totals.Convert, Within;
      assert queue[0] in Owned();
      var totals' := Receive(totals);
      StillWithin();
      DraftKept(mine);
    }

    method WorkerCopies(mine: set<EventObject>)
      requires Valid() && mine <= held
      modifies `shipped
      ensures Valid() && Undisturbed(mine)
    {
      hide Placed, Apart, Contents, CopyContents;
      CopyBatch();
      DraftKept(mine);
    }

    method WorkerReleases(mine: set<EventObject>)
      requires Valid() && mine <= held
      modifies `pool, `held, `batch, batch
      ensures Valid() && Undisturbed(mine)
    {
      hide Placed, Apart, Contents, CopyContents, Within;
      ReleaseBatch();
      StillWithin();
      DraftKept(mine);
    }

    /** Any step of another caller or of the worker, with any arguments. */
    method OtherStep(mine: set<EventObject>, space: Space)
      requires Valid() && mine <= held
      modifies this, Owned(), Buffers()
      ensures Valid() && Undisturbed(mine)
    {
      hide Placed, Apart, Contents, CopyContents, Undisturbed;
      var totals: Totals.Baselines := *;
      if
      case true => OtherBorrows(mine);
      case held - mine != {} => var e :| e in held - mine; OtherFills(mine, e, space);
      case held - mine != {} => var e :| e in held - mine; OtherSetsID(mine, e);
      case held - mine != {} => var e :| e in held - mine; OtherEnqueues(mine, e);
      case queue != [] => WorkerReceives(mine, totals);
      case true => WorkerCopies(mine);
      case true => WorkerReleases(mine);
    }

    /** Any number of them, while the events in `mine` are left alone by their holders;
        with none of those, any run of the whole pipeline. */
    method OtherSteps(mine: set<EventObject>, steps: nat, space: Space)
      requires Valid() && mine <= held
      modifies this, Owned(), Buffers()
      ensures Valid() && Undisturbed(mine)
    {
      hide Placed, Apart, Contents, CopyContents;
      AllValid();
      for i := 0 to steps
        invariant Valid() && Undisturbed(mine)
      {
        OtherStep(mine, space);
      }
    }

    /** A caller's borrow, and whatever the others do before the filling. */
    method BorrowAmid(steps: nat, space: Space) returns (e: EventObject)
      requires Valid()
      modifies this, Owned(), Buffers()
      ensures Valid() && Within() && e in held && e.Valid() && e.uniqueID == ""
      ensures old(CopyContents(shipped)) <= CopyContents(shipped)
    {
      hide Valid, Placed, Apart, Contents, CopyContents;
      e := BorrowBlank();
      assert e.Content().uniqueID == "";
      OtherSteps({e}, steps, space);
    }

    method FillAmid(e: EventObject, kind: Kind, name: string, value: real, raw: seq<string>, timestamp: int,
                    steps: nat, space: Space)
      requires Valid() && e in held
      modifies this, Owned(), Buffers()
      ensures Valid() && Within() && e in held && e.Valid()
      ensures e.Content() == Event(kind, Series(name, Usable(raw, space)), value, old(e.uniqueID), timestamp)
      ensures old(CopyContents(shipped)) <= CopyContents(shipped)
    {
      hide Placed, Apart, Contents, CopyContents, Usable;
      Fill(e, kind, name, value, raw, timestamp, space);
      AllValid();
      assert Within();
      hide Valid;
      OtherSteps({e}, steps, space);
    }

    method Hand(e: EventObject, uniqueID: Option<string>) returns (accepted: bool)
      requires Valid() && e in held && e.Valid()
      modifies `pool, `held, `queue, e`name, e`value, e`uniqueID, e`used
      ensures Valid()
      ensures var event := if uniqueID.Some? then old(e.Content()).(uniqueID := uniqueID.value) else old(e.Content());
              accepted ==> queue != [] && Contents(queue)[|queue| - 1] == event
      ensures CopyContents(shipped) == old(CopyContents(shipped))
    {
      hide Placed, Apart, Contents, CopyContents;
      if uniqueID.Some? { SetUniqueID(e, uniqueID.value); }
      accepted := Enqueue(e);
    }

    /** A caller's whole call, with anybody's steps between its own: what enters the
        queue is what the caller gave, and no payload built before or meanwhile changes. */
    method Submit(kind: Kind, name: string, value: real, uniqueID: Option<string>, raw: seq<string>, timestamp: int,
                  early: nat, late: nat, space: Space)
      returns (accepted: bool)
      requires Valid()
      modifies this, Owned(), Buffers()
      ensures Valid()
      ensures var id := if uniqueID.Some? then uniqueID.value else "";
              var event := Event(kind, Series(name, Usable(raw, space)), value, id, timestamp);
              accepted ==> queue != [] && Contents(queue)[|queue| - 1] == event
      ensures old(CopyContents(shipped)) <= CopyContents(shipped)
    {
      hide Valid, Placed, Apart, Contents, CopyContents, Usable;
      var e := BorrowAmid(early, space);
      FillAmid(e, kind, name, value, raw, timestamp, late, space);
      accepted := Hand(e, uniqueID);
    }
  }
}
