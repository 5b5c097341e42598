/** The event queue and the loop that executes it. */
module Simulations {
  import opened Common

  type EventId = nat

  const MAXTICK: int := 0x7fff_ffff_ffff_ffff
  const DEFAULT_PRIORITY: int := 8
  const IMMEDIATE_PRIORITY: int := 0

  /** `order` is the insertion number of the last post. */
  datatype Event = Event(time: int, order: nat, priority: int, stdPriority: int, inQueue: bool)

  /** By time, then priority, then insertion. */
  predicate Before(a: Event, b: Event)
  {
    || a.time < b.time
    || (a.time == b.time && a.priority < b.priority)
    || (a.time == b.time && a.priority == b.priority && a.order < b.order)
  }

  /** The ordered set cannot tell the two apart. */
  predicate SameKey(a: Event, b: Event)
  {
    !Before(a, b) && !Before(b, a)
  }

  ghost predicate Known(events: map<EventId, Event>, q: seq<EventId>)
  {
    forall i :: 0 <= i < |q| ==> q[i] in events
  }

  ghost predicate Sorted(events: map<EventId, Event>, q: seq<EventId>)
    requires Known(events, q)
  {
    forall i, j :: 0 <= i < j < |q| ==> Before(events[q[i]], events[q[j]])
  }

  /** The queue without the event, if any, that has this key. */
  ghost function Without(events: map<EventId, Event>, q: seq<EventId>, key: Event): (r: seq<EventId>)
    requires Known(events, q)
    ensures forall f :: f in r <==> f in q && !SameKey(events[f], key)
  {
    if q == [] then []
    else if SameKey(events[q[0]], key) then Without(events, q[1..], key)
    else [q[0]] + Without(events, q[1..], key)
  }

  lemma {:induction false} WithoutNone(events: map<EventId, Event>, q: seq<EventId>, key: Event)
    requires Known(events, q) && forall i :: 0 <= i < |q| ==> !SameKey(events[q[i]], key)
    ensures Without(events, q, key) == q
  {
    if q != [] {
      WithoutNone(events, q[1..], key);
      assert [q[0]] + q[1..] == q;
    }
  }

  lemma DifferentKeys(a: Event, b: Event, key: Event)
    requires SameKey(b, key)
    ensures Before(a, b) ==> !SameKey(a, key)
    ensures Before(b, a) ==> !SameKey(a, key)
  {}

  /** In a sorted queue only one event can have a key. */
  lemma WithoutOne(events: map<EventId, Event>, q: seq<EventId>, key: Event, i: nat)
    requires Known(events, q) && Sorted(events, q) && i < |q| && SameKey(events[q[i]], key)
    ensures Without(events, q, key) == q[..i] + q[i + 1..]
  {
    hide Before, SameKey, Without;
    forall j | 0 <= j < |q| && j != i
      ensures !SameKey(events[q[j]], key)
    {
      DifferentKeys(events[q[j]], events[q[i]], key);
    }
    var left, right := q[..i], q[i + 1..];
    assert q == left + ([q[i]] + right);
    WithoutAppend(events, left, [q[i]] + right, key);
    WithoutNone(events, left, key);
    WithoutFirst(events, q[i], right, key);
  }

  lemma WithoutFirst(events: map<EventId, Event>, e: EventId, right: seq<EventId>, key: Event)
    requires e in events && SameKey(events[e], key)
    requires Known(events, right) && forall j :: 0 <= j < |right| ==> !SameKey(events[right[j]], key)
    ensures Known(events, [e] + right) && Without(events, [e] + right, key) == right
  {
    WithoutNone(events, right, key);
    assert ([e] + right)[1..] == right;
  }

  lemma {:induction false} WithoutAppend(events: map<EventId, Event>, a: seq<EventId>, b: seq<EventId>, key: Event)
    requires Known(events, a) && Known(events, b)
    ensures Known(events, a + b) && Without(events, a + b, key) == Without(events, a, key) + Without(events, b, key)
  {
    hide SameKey;
    if a == [] {
      assert a + b == b;
    } else {
      WithoutAppend(events, a[1..], b, key);
      assert (a + b)[1..] == a[1..] + b && (a + b)[0] == a[0];
      var rest := Without(events, a[1..], key);
      assert [a[0]] + (rest + Without(events, b, key)) == ([a[0]] + rest) + Without(events, b, key);
    }
  }

  lemma {:induction false} SortedWithout(events: map<EventId, Event>, q: seq<EventId>, key: Event)
    requires Known(events, q) && Sorted(events, q)
    ensures Known(events, Without(events, q, key)) && Sorted(events, Without(events, q, key))
  {
    hide Before, SameKey;
    if q != [] {
      SortedWithout(events, q[1..], key);
      var r := Without(events, q[1..], key);
      forall j | 0 <= j < |r|
        ensures Before(events[q[0]], events[r[j]])
      {
        assert r[j] in q[1..];
      }
    }
  }

  /** The fields of an event that was never posted; but also of the first one ever posted, if at MAXTICK. */
  predicate LooksUnposted(e: Event)
  {
    e.order == 0 && e.time == MAXTICK
  }

  /** The queue is sorted, holds no event of the past, and no two events that were posted share an
      insertion number. */
  ghost predicate Coherent(now: int, events: map<EventId, Event>, q: seq<EventId>, counter: nat)
  {
    && Known(events, q) && Sorted(events, q)
    && (forall i :: 0 <= i < |q| ==> Pending(events[q[i]], now, counter))
    && (forall e :: e in events ==> events[e].order < counter || LooksUnposted(events[e]))
    && (forall e, f :: e in events && f in events && e != f && events[e].order == events[f].order ==>
          LooksUnposted(events[e]) || LooksUnposted(events[f]))
  }

  ghost predicate Pending(e: Event, now: int, counter: nat)
  {
    e.inQueue && now <= e.time && e.order < counter
  }

  /** Every event has its own priority, but for those processed at once and not run since. */
  ghost predicate Prioritised(events: map<EventId, Event>, hurried: set<EventId>)
  {
    forall e :: e in events ==>
      events[e].priority == if e in hurried then IMMEDIATE_PRIORITY else events[e].stdPriority
  }

  lemma PriorityOfErased(events: map<EventId, Event>, hurried: set<EventId>, e: EventId)
    requires Prioritised(events, hurried) && e in events
    ensures Prioritised(events[e := events[e].(inQueue := false)], hurried)
  {}

  /** The queue runs from the earliest time to the latest, at one time from the lowest priority value to
      the highest, and among equals in the order of insertion. */
  lemma OrderOfQueue(now: int, events: map<EventId, Event>, q: seq<EventId>, counter: nat, i: nat, j: nat)
    requires Coherent(now, events, q, counter) && i < j < |q|
    ensures q[i] in events && q[j] in events
    ensures var a, b := events[q[i]], events[q[j]];
            && now <= a.time <= b.time
            && (a.time == b.time ==> a.priority <= b.priority)
            && (a.time == b.time && a.priority == b.priority ==> a.order < b.order)
  {
    assert Before(events[q[i]], events[q[j]]) && Pending(events[q[i]], now, counter);
  }

  /** An event queued for now with immediate priority comes before every other of positive priority. */
  lemma ImmediateComesFirst(now: int, events: map<EventId, Event>, q: seq<EventId>, counter: nat, e: EventId)
    requires Coherent(now, events, q, counter)
    requires e in events && events[e].time == now && events[e].priority == IMMEDIATE_PRIORITY
    ensures forall i, j :: 0 <= i < |q| && 0 <= j < |q| && q[i] == e && q[j] != e && events[q[j]].priority > 0 ==> i < j
  {
    forall i: nat, j: nat | i < |q| && j < |q| && q[i] == e && q[j] != e && events[q[j]].priority > 0
      ensures i < j
    {
      if j < i {
        OrderOfQueue(now, events, q, counter, j, i);
      }
    }
  }

  // ------------------------------------------------------------------ the record of a simulation

  /** What has happened: an event was posted, was dropped otherwise than by being run, or was run. */
  datatype Entry = Posted(e: EventId, time: int) | Withdrawn(e: EventId) | Fired(e: EventId, time: int)

  /** Events were run in the order of their times, none of them in the future. */
  ghost predicate Timeline(trace: seq<Entry>, now: int)
  {
    && (forall i, j :: 0 <= i < j < |trace| && trace[i].Fired? && trace[j].Fired? ==> trace[i].time <= trace[j].time)
    && (forall i :: 0 <= i < |trace| && trace[i].Fired? ==> trace[i].time <= now)
  }

  /** The post at i has since been run at its time, or withdrawn. */
  ghost predicate Closed(trace: seq<Entry>, i: nat)
    requires i < |trace| && trace[i].Posted?
  {
    exists j :: i < j < |trace| && (trace[j] == Fired(trace[i].e, trace[i].time) || trace[j] == Withdrawn(trace[i].e))
  }

  ghost predicate Awaiting(events: map<EventId, Event>, q: seq<EventId>, f: EventId, t: int)
  {
    f in q && f in events && events[f].time == t
  }

  /** No post is lost: each is closed or still waits in the queue. */
  ghost predicate Recorded(trace: seq<Entry>, events: map<EventId, Event>, q: seq<EventId>)
  {
    forall i :: 0 <= i < |trace| && trace[i].Posted? && trace[i].time < MAXTICK ==>
                  Closed(trace, i) || Awaiting(events, q, trace[i].e, trace[i].time)
  }

  /** Every post due by `stop` is closed. */
  ghost predicate ClosedBy(trace: seq<Entry>, stop: int)
  {
    forall i :: 0 <= i < |trace| && trace[i].Posted? && trace[i].time <= stop ==> Closed(trace, i)
  }

  lemma ClosedLater(trace: seq<Entry>, more: seq<Entry>, i: nat)
    requires i < |trace| && trace[i].Posted? && Closed(trace, i)
    ensures Closed(trace + more, i)
  {
    var j :| i < j < |trace| && (trace[j] == Fired(trace[i].e, trace[i].time) || trace[j] == Withdrawn(trace[i].e));
    assert (trace + more)[j] == trace[j];
  }

  /** One more entry, and a queue in which all that waited still does, but for what the entry closes. */
  lemma RecordMore(trace: seq<Entry>, entry: Entry, events: map<EventId, Event>, q: seq<EventId>,
                   events': map<EventId, Event>, q': seq<EventId>)
    requires Recorded(trace, events, q)
    requires forall f, t :: t < MAXTICK && Awaiting(events, q, f, t) ==>
                              Awaiting(events', q', f, t) || entry == Withdrawn(f) || entry == Fired(f, t)
    requires entry.Posted? ==> Awaiting(events', q', entry.e, entry.time)
    ensures Recorded(trace + [entry], events', q')
  {
    var after := trace + [entry];
    forall i | 0 <= i < |after| && after[i].Posted? && after[i].time < MAXTICK
      ensures Closed(after, i) || Awaiting(events', q', after[i].e, after[i].time)
    {
      if i < |trace| {
        if Closed(trace, i) {
          ClosedLater(trace, [entry], i);
        } else {
          assert Awaiting(events, q, trace[i].e, trace[i].time);
          assert after[|trace|] == entry;
        }
      }
    }
  }

  lemma RecordSame(trace: seq<Entry>, events: map<EventId, Event>, q: seq<EventId>,
                   events': map<EventId, Event>, q': seq<EventId>)
    requires Recorded(trace, events, q)
    requires forall f, t :: t < MAXTICK && Awaiting(events, q, f, t) ==> Awaiting(events', q', f, t)
    ensures Recorded(trace, events', q')
  {}

  /** With nothing due by `stop` left in the queue, every post due by then has been dealt with. */
  lemma NothingLeft(trace: seq<Entry>, events: map<EventId, Event>, q: seq<EventId>, stop: int)
    requires Recorded(trace, events, q) && stop < MAXTICK
    requires forall f :: f in q && f in events ==> stop < events[f].time
    ensures ClosedBy(trace, stop)
  {}

  function Firings(trace: seq<Entry>): nat {
    if trace == [] then 0 else (if trace[0].Fired? then 1 else 0) + Firings(trace[1..])
  }

  lemma {:induction false} FiringsAppend(a: seq<Entry>, b: seq<Entry>)
    ensures Firings(a + b) == Firings(a) + Firings(b)
  {
    if a == [] {
      assert a + b == b;
    } else {
      assert (a + b)[1..] == a[1..] + b;
      FiringsAppend(a[1..], b);
    }
  }

  /** An event as its handler finds it. */
  function Unqueued(e: Event): Event {
    e.(inQueue := false, priority := e.stdPriority)
  }

  lemma DropKeeps(now: int, events: map<EventId, Event>, q: seq<EventId>, counter: nat, e: EventId)
    requires Coherent(now, events, q, counter) && e in events
    ensures e !in Without(events, q, events[e])
    ensures Coherent(now, events[e := events[e].(inQueue := false)], Without(events, q, events[e]), counter)
  {
    SortedWithout(events, q, events[e]);
    var r := Without(events, q, events[e]);
    forall i | 0 <= i < |r|
      ensures r[i] in q && r[i] != e && Pending(events[r[i]], now, counter)
    {
      assert r[i] in q;
    }
  }

  lemma PriorityKeeps(now: int, events: map<EventId, Event>, q: seq<EventId>, counter: nat, e: EventId, priority: int)
    requires Coherent(now, events, q, counter) && e in events && e !in q
    ensures Coherent(now, events[e := events[e].(priority := priority)], q, counter)
  {}

  lemma PostKeeps(now: int, events: map<EventId, Event>, q: seq<EventId>, counter: nat, e: EventId, t: int)
    requires Coherent(now, events, q, counter) && e in events && e !in q && now <= t
    ensures var after := events[e := events[e].(time := t, order := counter, inQueue := true)];
            && Sorted(after, q) && (forall i :: 0 <= i < |q| ==> !SameKey(after[q[i]], after[e]))
            && (forall r :: Inserted(q, r, e) && Sorted(after, r) ==> Coherent(now, after, r, counter + 1))
  {}

  /** Dropping an event that is not queued removes nothing, unless it was never posted and the very first
      event ever posted was posted at MAXTICK with the same priority: that one is removed instead. */
  lemma DropUnqueued(now: int, events: map<EventId, Event>, q: seq<EventId>, counter: nat, e: EventId)
    requires Coherent(now, events, q, counter) && e in events && e !in q
    ensures Without(events, q, events[e]) == q <==>
            !(LooksUnposted(events[e])
              && exists f :: f in q && LooksUnposted(events[f]) && events[f].priority == events[e].priority)
    ensures (forall f :: f in q ==> events[f].time < MAXTICK) ==> Without(events, q, events[e]) == q
  {
    if i :| 0 <= i < |q| && SameKey(events[q[i]], events[e]) {
      assert q[i] in q;
      assert q[i] !in Without(events, q, events[e]);
    } else {
      WithoutNone(events, q, events[e]);
    }
  }

  /** Dropping a queued event removes exactly that event. */
  lemma DropQueued(now: int, events: map<EventId, Event>, q: seq<EventId>, counter: nat, i: nat)
    requires Coherent(now, events, q, counter) && i < |q|
    ensures Without(events, q, events[q[i]]) == q[..i] + q[i + 1..]
  {
    WithoutOne(events, q, events[q[i]], i);
  }

  /** An event posted first of all, at MAXTICK, is lost when one that was never posted is dropped. */
  lemma DropCanTakeAnother()
    ensures var events := map[0 := Event(MAXTICK, 0, DEFAULT_PRIORITY, DEFAULT_PRIORITY, true),
                              1 := Event(MAXTICK, 0, DEFAULT_PRIORITY, DEFAULT_PRIORITY, false)];
            Coherent(0, events, [0], 1) && Without(events, [0], events[1]) == []
  {}

  /** Apart from the event dropped and events at MAXTICK, dropping spares every event. */
  lemma DropSpares(now: int, events: map<EventId, Event>, q: seq<EventId>, counter: nat, e: EventId, f: EventId)
    requires Coherent(now, events, q, counter) && e in events && f in q && f != e && events[f].time < MAXTICK
    ensures f in Without(events, q, events[e])
  {
    assert events[f].order == events[e].order ==> LooksUnposted(events[e]) || LooksUnposted(events[f]);
  }

  /** Once the first event is out, its time may become the present. */
  lemma FirstIsNext(now: int, events: map<EventId, Event>, q: seq<EventId>, counter: nat)
    requires Coherent(now, events, q, counter) && q != []
    ensures Without(events, q, events[q[0]]) == q[1..] && q[0] !in q[1..]
    ensures Coherent(events[q[0]].time, events[q[0] := events[q[0]].(inQueue := false)], q[1..], counter)
  {
    DropQueued(now, events, q, counter, 0);
    DropKeeps(now, events, q, counter, q[0]);
    forall i | 0 <= i < |q[1..]|
      ensures Pending(events[q[1..][i]], events[q[0]].time, counter)
    {
      assert Before(events[q[0]], events[q[i + 1]]);
    }
  }

  lemma InsertedHolds(q: seq<EventId>, r: seq<EventId>, e: EventId)
    requires Inserted(q, r, e)
    ensures forall f :: f in r <==> f in q || f == e
  {
    var i :| 0 <= i <= |q| && r == q[..i] + [e] + q[i..];
    assert q == q[..i] + q[i..];
  }

  lemma DeleteKeeps(now: int, events: map<EventId, Event>, q: seq<EventId>, counter: nat, e: EventId)
    requires Coherent(now, events, q, counter) && e !in q
    ensures Coherent(now, events - {e}, q, counter)
  {}

  /** Nothing is queued at MAXTICK, and exactly the events marked as queued are. */
  ghost predicate Tidy(events: map<EventId, Event>, q: seq<EventId>)
  {
    forall f :: f in events ==> (events[f].inQueue <==> f in q) && (f in q ==> events[f].time < MAXTICK)
  }

  lemma DropTidy(now: int, events: map<EventId, Event>, q: seq<EventId>, counter: nat, e: EventId)
    requires Coherent(now, events, q, counter) && Tidy(events, q) && e in events
    ensures Tidy(events[e := events[e].(inQueue := false)], Without(events, q, events[e]))
  {
    hide Coherent;
    SparesAll(now, events, q, counter, e);
    DropKeeps(now, events, q, counter, e);
  }

  /** Still queued as it was. */
  ghost predicate Kept(events: map<EventId, Event>, later: map<EventId, Event>, q: seq<EventId>, f: EventId)
  {
    f in q && f in later && f in events && later[f] == events[f]
  }

  ghost predicate Inserted(q: seq<EventId>, r: seq<EventId>, e: EventId)
  {
    exists i :: 0 <= i <= |q| && r == q[..i] + [e] + q[i..]
  }

  /** What a handler does to the event queue. */
  datatype Op = PostOp(e: EventId, t: int) | DropOp(e: EventId) | ProcessOp(e: EventId)

  /** What becomes of the events, and whether the handler goes on. */
  datatype Effect = Effect(events: map<EventId, Event>, counter: nat, ok: bool)

  function OpEffect(events: map<EventId, Event>, counter: nat, now: int, op: Op): (r: Effect)
    requires op.e in events
    ensures r.events.Keys == events.Keys
  {
    var e := events[op.e];
    match op
    case PostOp(_, t) =>
      if e.inQueue || t < now then Effect(events, counter, false)
      else Effect(events[op.e := e.(time := t, order := counter, inQueue := true)], counter + 1, true)
    case DropOp(_) => Effect(events[op.e := e.(inQueue := false)], counter, true)
    case ProcessOp(_) =>
      Effect(events[op.e := e.(time := now, order := counter, inQueue := true, priority := IMMEDIATE_PRIORITY)],
             counter + 1, true)
  }

  /** Up to the first operation that throws. */
  ghost function ScriptEffect(events: map<EventId, Event>, counter: nat, now: int, script: seq<Op>): (r: Effect)
    requires forall op :: op in script ==> op.e in events
    ensures r.events.Keys == events.Keys
    decreases |script|
  {
    if script == [] then Effect(events, counter, true)
    else
      var first := OpEffect(events, counter, now, script[0]);
      if first.ok then ScriptEffect(first.events, first.counter, now, script[1..]) else first
  }

  /** What one operation adds to the record. */
  function OpRecord(op: Op, now: int, ok: bool): seq<Entry> {
    match op
    case PostOp(e, t) => if ok then [Posted(e, t)] else []
    case DropOp(e) => [Withdrawn(e)]
    case ProcessOp(e) => [Withdrawn(e), Posted(e, now)]
  }

  ghost function ScriptRecord(events: map<EventId, Event>, counter: nat, now: int, script: seq<Op>): seq<Entry>
    requires forall op :: op in script ==> op.e in events
    decreases |script|
  {
    if script == [] then []
    else
      var first := OpEffect(events, counter, now, script[0]);
      OpRecord(script[0], now, first.ok) +
      (if first.ok then ScriptRecord(first.events, first.counter, now, script[1..]) else [])
  }

  lemma NextOp(events: map<EventId, Event>, counter: nat, now: int, script: seq<Op>, i: nat)
    requires i < |script| && forall op :: op in script ==> op.e in events
    ensures var first := OpEffect(events, counter, now, script[i]);
            && ScriptEffect(events, counter, now, script[i..]) ==
                 (if first.ok then ScriptEffect(first.events, first.counter, now, script[i + 1..]) else first)
            && ScriptRecord(events, counter, now, script[i..]) ==
                 OpRecord(script[i], now, first.ok) +
                 (if first.ok then ScriptRecord(first.events, first.counter, now, script[i + 1..]) else [])
  {
    assert script[i..][1..] == script[i + 1..];
  }

  lemma NoMoreOps(events: map<EventId, Event>, counter: nat, now: int, script: seq<Op>, i: nat)
    requires i <= |script| && forall op :: op in script ==> op.e in events
    ensures i == |script| ==> ScriptEffect(events, counter, now, script[i..]) == Effect(events, counter, true)
                              && ScriptRecord(events, counter, now, script[i..]) == []
  {}

  /** Every post of these scripts is on the record. */
  ghost predicate AllPosted(scripts: seq<seq<Op>>, k: nat, record: seq<Entry>)
    requires k <= |scripts|
  {
    forall i, op :: 0 <= i < k && op in scripts[i] && op.PostOp? ==> Posted(op.e, op.t) in record
  }

  /** What was withdrawn some handler dropped or hurried, but for the message. */
  ghost predicate OnlyNamed(scripts: seq<seq<Op>>, message: EventId, record: seq<Entry>)
  {
    forall e :: Withdrawn(e) in record ==> e == message || !Spared(scripts, e)
  }

  /** A handler's record holds its posts, withdraws only what it names and runs nothing. */
  lemma {:induction false} ScriptRecordHolds(events: map<EventId, Event>, counter: nat, now: int, script: seq<Op>)
    requires forall op :: op in script ==> op.e in events
    ensures forall e :: Withdrawn(e) in ScriptRecord(events, counter, now, script) ==> Drops(script, e)
    ensures ScriptEffect(events, counter, now, script).ok ==>
              forall op :: op in script && op.PostOp? ==> Posted(op.e, op.t) in ScriptRecord(events, counter, now, script)
    ensures Firings(ScriptRecord(events, counter, now, script)) == 0
    decreases |script|
  {
    if script != [] {
      var first := OpEffect(events, counter, now, script[0]);
      FiringsAppend(OpRecord(script[0], now, first.ok),
                    if first.ok then ScriptRecord(first.events, first.counter, now, script[1..]) else []);
      if first.ok {
        ScriptRecordHolds(first.events, first.counter, now, script[1..]);
        assert forall e :: Drops(script[1..], e) ==> Drops(script, e);
      }
    }
  }

  /** Nothing is posted at MAXTICK or later. */
  ghost predicate PostsBefore(script: seq<Op>)
  {
    forall op :: op in script && op.PostOp? ==> op.t < MAXTICK
  }

  lemma OneOfThem(script: seq<Op>, i: nat)
    requires i < |script|
    ensures PostsBefore(script) ==> PostsBefore([script[i]])
  {}

  ghost predicate Drops(script: seq<Op>, e: EventId)
  {
    exists op :: op in script && !op.PostOp? && op.e == e
  }

  ghost predicate Hurries(script: seq<Op>, e: EventId)
  {
    ProcessOp(e) in script
  }

  /** Events hurried are those that were before and those that a script hurries. */
  ghost predicate HurriedBy(before: set<EventId>, after: set<EventId>, scripts: seq<seq<Op>>)
  {
    forall f :: f in after && f !in before ==> exists k :: 0 <= k < |scripts| && Hurries(scripts[k], f)
  }

  /** No handler withdraws or hurries the event. */
  ghost predicate Spared(scripts: seq<seq<Op>>, e: EventId)
  {
    forall i :: 0 <= i < |scripts| ==> !Drops(scripts[i], e)
  }

  lemma NotNamed(scripts: seq<seq<Op>>, e: EventId)
    requires forall i, op :: 0 <= i < |scripts| && op in scripts[i] ==> op.e != e
    ensures Spared(scripts, e)
  {}

  datatype Outcome = Done | AlreadyPosted | InThePast

  datatype StepResult = Ran | Threw | NoMoreEvents

  /** Unfinished: the scripts ran out first. */
  datatype RunResult = Finished | Failed | Unfinished

  class Simulation {
    var now: int
    var events: map<EventId, Event>
    var queue: seq<EventId>
    var counter: nat
    ghost var trace: seq<Entry>
    ghost var hurried: set<EventId>

    ghost predicate Valid()
      reads this
    {
      Coherent(now, events, queue, counter) && Timeline(trace, now) && Recorded(trace, events, queue)
      && Prioritised(events, hurried)
    }

    constructor ()
      ensures Valid() && queue == [] && events == map[] && now == 0 && counter == 0 && trace == [] && hurried == {}
    {
      now, events, queue, counter, trace, hurried := 0, map[], [], 0, [], {};
    }

    method NewEvent(e: EventId, priority: int)
      requires Valid() && e !in events
      modifies this`events, this`hurried
      ensures Valid() && hurried == old(hurried) - {e} && events == old(events)[e := Event(MAXTICK, 0, priority, priority, false)]
      ensures Tidy(old(events), queue) ==> Tidy(events, queue)
    {
      QueuedIsPending(now, events, queue, counter);
      events := events[e := Event(MAXTICK, 0, priority, priority, false)];
      hurried := hurried - {e};
    }

    /** Into its place in the ordered set. */
    method Insert(e: EventId)
      requires e in events && e !in queue && Known(events, queue) && Sorted(events, queue)
      requires forall i :: 0 <= i < |queue| ==> !SameKey(events[queue[i]], events[e])
      modifies this`queue
      ensures Known(events, queue) && Sorted(events, queue)
      ensures Inserted(old(queue), queue, e)
    {
      var i := 0;
      while i < |queue| && Before(events[queue[i]], events[e])
        invariant 0 <= i <= |queue|
        invariant forall j :: 0 <= j < i ==> Before(events[queue[j]], events[e])
      {
        i := i + 1;
      }
      assert forall j :: i <= j < |queue| ==> Before(events[e], events[queue[j]]);
      queue := queue[..i] + [e] + queue[i..];
    }

    method Post(e: EventId, t: int) returns (r: Outcome)
      requires Valid() && e in events
      modifies this`events, this`queue, this`counter, this`trace
      ensures Valid()
      ensures r == if old(events)[e].inQueue then AlreadyPosted else if t < now then InThePast else Done
      ensures r != Done ==> events == old(events) && queue == old(queue) && counter == old(counter) && trace == old(trace)
      ensures r == Done ==>
                && events == old(events)[e := old(events)[e].(time := t, order := old(counter), inQueue := true)]
                && counter == old(counter) + 1 && Inserted(old(queue), queue, e) && trace == old(trace) + [Posted(e, t)]
      ensures Tidy(old(events), old(queue)) && t < MAXTICK ==> Tidy(events, queue)
    {
      hide Sorted, Inserted, SameKey, Recorded;
      if events[e].inQueue {
        return AlreadyPosted;
      }
      if t < now {
        return InThePast;
      }
      PostKeeps(now, events, queue, counter, e, t);
      events := events[e := events[e].(time := t, order := counter, inQueue := true)];
      counter := counter + 1;
      Insert(e);
      InsertedHolds(old(queue), queue, e);
      RecordMore(trace, Posted(e, t), old(events), old(queue), events, queue);
      trace := trace + [Posted(e, t)];
      return Done;
    }

    /** The index of the queued event that the ordered set takes e for, or the length of the queue. */
    method Find(e: EventId) returns (i: nat)
      requires e in events && Known(events, queue)
      ensures i <= |queue|
      ensures i < |queue| ==> SameKey(events[queue[i]], events[e])
      ensures i == |queue| ==> forall j :: 0 <= j < |queue| ==> !SameKey(events[queue[j]], events[e])
    {
      i := 0;
      while i < |queue| && !SameKey(events[queue[i]], events[e])
        invariant 0 <= i <= |queue|
        invariant forall j :: 0 <= j < i ==> !SameKey(events[queue[j]], events[e])
      {
        i := i + 1;
      }
    }

    /** Out of the ordered set, whoever it is that has the event's key. */
    method Erase(e: EventId)
      requires Coherent(now, events, queue, counter) && e in events
      modifies this`events, this`queue
      ensures Coherent(now, events, queue, counter)
      ensures queue == Without(old(events), old(queue), old(events)[e])
      ensures events == old(events)[e := old(events)[e].(inQueue := false)]
    {
      hide Without, SameKey, Pending;
      var i := Find(e);
      DropKeeps(now, events, queue, counter, e);
      if i < |queue| {
        WithoutOne(events, queue, events[e], i);
        queue := queue[..i] + queue[i + 1..];
      } else {
        WithoutNone(events, queue, events[e]);
      }
      hide Coherent;
      events := events[e := events[e].(inQueue := false)];
    }

    method Drop(e: EventId)
      requires Valid() && e in events
      modifies this`events, this`queue, this`trace
      ensures Valid()
      ensures queue == Without(old(events), old(queue), old(events)[e])
      ensures events == old(events)[e := old(events)[e].(inQueue := false)]
      ensures trace == old(trace) + [Withdrawn(e)]
    {
      hide Without, Coherent, Recorded;
      SparesAll(now, events, queue, counter, e);
      Erase(e);
      RecordMore(trace, Withdrawn(e), old(events), old(queue), events, queue);
      trace := trace + [Withdrawn(e)];
    }

    /** The priority of an event that is not queued becomes immediate. */
    method SetImmediate(e: EventId)
      requires Valid() && e in events && e !in queue
      modifies this`events, this`hurried
      ensures Valid() && hurried == old(hurried) + {e}
      ensures events == old(events)[e := old(events)[e].(priority := IMMEDIATE_PRIORITY)]
    {
      hide Coherent, Recorded;
      PriorityKeeps(now, events, queue, counter, e, IMMEDIATE_PRIORITY);
      events := events[e := events[e].(priority := IMMEDIATE_PRIORITY)];
      hurried := hurried + {e};
      RecordSame(trace, old(events), queue, events, queue);
    }

    /** And its own again. */
    method RestorePriority(e: EventId)
      requires Valid() && e in events && e !in queue
      modifies this`events, this`hurried
      ensures Valid() && hurried == old(hurried) - {e}
      ensures events == old(events)[e := old(events)[e].(priority := old(events)[e].stdPriority)]
    {
      hide Coherent, Recorded;
      PriorityKeeps(now, events, queue, counter, e, events[e].stdPriority);
      events := events[e := events[e].(priority := events[e].stdPriority)];
      hurried := hurried - {e};
      RecordSame(trace, old(events), queue, events, queue);
    }

    /** At once, before everything else. */
    method Process(e: EventId)
      requires Valid() && e in events
      modifies this`events, this`queue, this`counter, this`trace, this`hurried
      ensures Valid() && hurried == old(hurried) + {e}
      ensures forall i, j :: 0 <= i < |queue| && 0 <= j < |queue| && queue[i] == e && queue[j] != e && events[queue[j]].priority > 0 ==> i < j
      ensures events == old(events)[e := old(events)[e].(time := now, order := old(counter), inQueue := true,
                                                         priority := IMMEDIATE_PRIORITY)]
      ensures counter == old(counter) + 1
      ensures Inserted(Without(old(events), old(queue), old(events)[e]), queue, e)
      ensures trace == old(trace) + [Withdrawn(e), Posted(e, now)]
    {
      hide Coherent, Inserted, Without, Recorded, Prioritised;
      DropKeeps(now, events, queue, counter, e);
      Drop(e);
      SetImmediate(e);
      var r := Post(e, now);
      assert r == Done;
      ImmediateComesFirst(now, events, queue, counter, e);
    }

    /** One operation of a handler; a failed post throws. */
    method RunOp(op: Op) returns (ok: bool)
      requires Valid() && op.e in events
      modifies this`events, this`queue, this`counter, this`trace, this`hurried
      ensures Valid() && events.Keys == old(events.Keys)
      ensures hurried == if op.ProcessOp? then old(hurried) + {op.e} else old(hurried)
      ensures Effect(events, counter, ok) == OpEffect(old(events), old(counter), now, op)
      ensures trace == old(trace) + OpRecord(op, now, ok)
      ensures Tidy(old(events), old(queue)) && now < MAXTICK && PostsBefore([op]) ==> Tidy(events, queue)
      ensures op.PostOp? ==> if ok then Inserted(old(queue), queue, op.e) else queue == old(queue)
      ensures op.DropOp? ==> queue == Without(old(events), old(queue), old(events)[op.e])
      ensures op.ProcessOp? ==> Inserted(Without(old(events), old(queue), old(events)[op.e]), queue, op.e)
      ensures forall f :: f in old(queue) && old(events)[f].time < MAXTICK && (op.PostOp? || op.e != f) ==>
                          Kept(old(events), events, queue, f)
    {
      hide Coherent, Inserted, Without, Recorded, Prioritised;
      ok := true;
      match op
      case PostOp(e, t) =>
        QueuedIsPending(now, events, queue, counter);
        var r := Post(e, t);
        if r == Done {
          InsertedHolds(old(queue), queue, e);
        }
        ok := r == Done;
      case DropOp(e) =>
        SparesAll(now, events, queue, counter, e);
        Drop(e);
      case ProcessOp(e) =>
        SparesAll(now, events, queue, counter, e);
        Process(e);
        InsertedHolds(Without(old(events), old(queue), old(events)[e]), queue, e);
    }

    /** A handler's operations, until one throws. */
    method RunScript(script: seq<Op>) returns (ok: bool)
      requires Valid() && forall op :: op in script ==> op.e in events
      modifies this`events, this`queue, this`counter, this`trace, this`hurried
      ensures Valid() && events.Keys == old(events.Keys)
      ensures forall f :: f in hurried ==> f in old(hurried) || Hurries(script, f)
      ensures Effect(events, counter, ok) == ScriptEffect(old(events), old(counter), now, script)
      ensures trace == old(trace) + ScriptRecord(old(events), old(counter), now, script)
      ensures Tidy(old(events), old(queue)) && now < MAXTICK && PostsBefore(script) ==> Tidy(events, queue)
      ensures forall f :: f in old(queue) && old(events)[f].time < MAXTICK && !Drops(script, f) ==>
                          Kept(old(events), events, queue, f)
    {
      hide Coherent, OpEffect, OpRecord, Recorded, Prioritised, Timeline, Tidy, PostsBefore, Without, Inserted, ScriptEffect, ScriptRecord;
      var i := 0;
      ok := true;
      ghost var record: seq<Entry> := [];
      assert script[0..] == script;
      assert forall f :: f in queue ==> f in events by { QueuedIsPending(now, events, queue, counter); }
      while i < |script| && ok
        invariant 0 <= i <= |script|
        invariant Valid() && events.Keys == old(events.Keys)
        invariant Tidy(old(events), old(queue)) && now < MAXTICK && PostsBefore(script) ==> Tidy(events, queue)
        invariant ScriptEffect(old(events), old(counter), now, script) ==
                  if ok then ScriptEffect(events, counter, now, script[i..]) else Effect(events, counter, false)
        invariant trace == old(trace) + record
        invariant forall f :: f in hurried ==> f in old(hurried) || Hurries(script, f)
        invariant ScriptRecord(old(events), old(counter), now, script) ==
                  record + (if ok then ScriptRecord(events, counter, now, script[i..]) else [])
        invariant forall f :: f in old(queue) && old(events)[f].time < MAXTICK && !Drops(script, f) ==>
                              Kept(old(events), events, queue, f)
      {
        OneOfThem(script, i);
        NextOp(events, counter, now, script, i);
        ghost var more := OpRecord(script[i], now, OpEffect(events, counter, now, script[i]).ok);
        ok := RunOp(script[i]);
        record := record + more;
        i := i + 1;
      }
      NoMoreOps(events, counter, now, script, i);
    }

    /** Runs the first event of the queue. */
    method SimStep(script: seq<Op>) returns (r: StepResult)
      requires Valid() && forall op :: op in script ==> op.e in events
      modifies this
      ensures Valid() && events.Keys == old(events.Keys)
      ensures r == NoMoreEvents <==> old(queue) == []
      ensures Tidy(old(events), old(queue)) && PostsBefore(script) ==> Tidy(events, queue)
      ensures r == NoMoreEvents ==> now == old(now) && events == old(events) && queue == [] && trace == old(trace)
      ensures old(queue) != [] ==>
                var first := old(queue)[0];
                && (forall f :: f in hurried ==> (f in old(hurried) && f != first) || Hurries(script, f))
                && (script == [] ==> events[first].priority == old(events)[first].stdPriority && !events[first].inQueue)
                && (forall f :: f in old(queue) && f != first ==>
                      var a, b := old(events)[first], old(events)[f];
                      a.time < b.time || (a.time == b.time && (a.priority < b.priority || (a.priority == b.priority && a.order < b.order))))
                && now == old(events)[first].time
                && trace == old(trace) + [Fired(first, now)] +
                            ScriptRecord(old(events)[first := Unqueued(old(events)[first])], old(counter), now, script)
                && Effect(events, counter, r == Ran) ==
                     ScriptEffect(old(events)[first := Unqueued(old(events)[first])], old(counter), now, script)
                && (forall f :: f in old(queue) && f != first ==> Before(old(events)[first], old(events)[f]))
                && (forall f :: f in old(queue) && f != first && old(events)[f].time < MAXTICK && !Drops(script, f) ==>
                      Kept(old(events), events, queue, f))
    {
      hide Coherent, Without, Before, ScriptEffect, ScriptRecord, Recorded, Prioritised;
      if queue == [] {
        return NoMoreEvents;
      }
      var first := queue[0];
      FirstIsFirst(now, events, queue, counter);
      FirstIsNext(now, events, queue, counter);
      PriorityOfErased(events, hurried, first);
      Erase(first);
      now := events[first].time;
      RecordMore(trace, Fired(first, now), old(events), old(queue), events, queue);
      trace := trace + [Fired(first, now)];
      RestorePriority(first);
      assert events == old(events)[first := Unqueued(old(events)[first])];
      NoMoreOps(events, counter, now, script, 0);
      assert script[0..] == script;
      var ok := RunScript(script);
      return if ok then Ran else Threw;
    }

    /** The loop of RunTo. `record` is what it adds to the record, `steps` how many events it runs. */
    method RunUntil(stop: int, message: EventId, scripts: seq<seq<Op>>)
      returns (r: RunResult, ghost record: seq<Entry>, ghost steps: nat)
      requires Valid() && message in queue && events[message].time == stop && now <= stop
      requires forall i, op :: 0 <= i < |scripts| && op in scripts[i] ==> op.e in events && op.e != message
      modifies this
      ensures Valid() && events.Keys == old(events.Keys) && HurriedBy(old(hurried), hurried, scripts)
      ensures old(now) <= now <= stop && trace == old(trace) + record
      ensures steps <= |scripts| && Firings(record) == steps && OnlyNamed(scripts, message, record)
      ensures r != Failed ==> AllPosted(scripts, steps, record)
      ensures Tidy(old(events), old(queue)) && stop < MAXTICK && (forall i :: 0 <= i < |scripts| ==> PostsBefore(scripts[i])) ==>
                Tidy(events, queue)
      ensures r == Finished && stop < MAXTICK ==> steps > 0 && now == stop && forall f :: f in queue ==> stop < events[f].time
      ensures r == Finished && stop < MAXTICK ==> forall f :: f in old(queue) && old(events)[f].time <= stop && Spared(scripts, f) ==>
                                                     Fired(f, old(events)[f].time) in record
    {
      hide Coherent, Before, Timeline, Recorded, Prioritised, HurriedBy, Hurries, Drops, ScriptEffect, ScriptRecord, AllPosted, OnlyNamed, Firings;
      assert Spared(scripts, message) by { NotNamed(scripts, message); }
      QueuedIsPending(now, events, queue, counter);
      FirstIsEarliest(now, events, queue, counter);
      steps, record := 0, [];
      var k := 0;
      NothingRecorded(scripts, message);
      HurriedSame(hurried, scripts);
      while queue != [] && events[queue[0]].time <= stop
        invariant k == steps <= |scripts| && (steps == 0 ==> message in queue)
        invariant Valid() && events.Keys == old(events.Keys) && HurriedBy(old(hurried), hurried, scripts)
        invariant steps == 0 ==> events[message].time == stop
        invariant old(now) <= now <= stop && trace == old(trace) + record
        invariant Firings(record) == steps && OnlyNamed(scripts, message, record) && AllPosted(scripts, steps, record)
        invariant Tidy(old(events), old(queue)) && (forall i :: 0 <= i < |scripts| ==> PostsBefore(scripts[i])) ==> Tidy(events, queue)
        invariant queue != [] ==> queue[0] in events && now <= events[queue[0]].time
        invariant forall f :: f in queue ==> f in events && events[queue[0]].time <= events[f].time
        invariant stop < MAXTICK ==> now == stop || (message in queue && events[message].time == stop)
        invariant stop < MAXTICK ==> forall f :: f in old(queue) && old(events)[f].time <= stop && Spared(scripts, f) ==>
                                        Kept(old(events), events, queue, f) || Fired(f, old(events)[f].time) in record
        decreases |scripts| - k
      {
        if k == |scripts| {
          return Unfinished, record, steps;
        }
        ghost var first := queue[0];
        ghost var handled := events[first := Unqueued(events[first])];
        ghost var n, was := counter, hurried;
        var s := SimStep(scripts[k]);
        ghost var more := [Fired(first, now)] + ScriptRecord(handled, n, now, scripts[k]);
        HurriedMore(old(hurried), was, hurried, scripts, k);
        StepRecorded(scripts, message, k, record, first, handled, n, now);
        k := k + 1;
        steps, record := steps + 1, record + more;
        FirstIsEarliest(now, events, queue, counter);
        if s == Threw {
          return Failed, record, steps;
        }
      }
      r := Finished;
    }

    /** Empties the queue and sets the clock back. */
    method ClearEventQueue()
      requires Valid()
      modifies this
      ensures Valid() && queue == [] && now == 0 && trace == [] && events.Keys == old(events.Keys) && counter == old(counter) && hurried == old(hurried)
      ensures forall e :: e in events ==> events[e] == if e in old(queue) then old(events)[e].(inQueue := false) else old(events)[e]
    {
      hide Coherent, Without;
      QueuedIsPending(now, events, queue, counter);
      while queue != []
        invariant Valid() && events.Keys == old(events.Keys) && counter == old(counter) && hurried == old(hurried)
        invariant forall e :: e in queue ==> e in events && e in old(queue)
        invariant forall e :: e in events ==>
                    events[e] == if e in old(queue) && e !in queue then old(events)[e].(inQueue := false) else old(events)[e]
        decreases |queue|
      {
        FirstIsNext(now, events, queue, counter);
        Drop(queue[0]);
      }
      AnyClock(now, events, counter);
      now := 0;
      trace := [];
    }

    /** An event object goes out of existence, dropped first. */
    method Delete(e: EventId)
      requires Valid() && e in events
      modifies this`events, this`queue, this`trace
      ensures Valid() && events == old(events) - {e} && forall f :: f in queue ==> f in old(queue) && f in events
      ensures trace == old(trace) + [Withdrawn(e)]
      ensures Tidy(old(events), old(queue)) ==> Tidy(events, queue)
    {
      hide Coherent, Before, SameKey, Recorded;
      QueuedIsPending(now, events, queue, counter);
      DropKeeps(now, events, queue, counter, e);
      if Tidy(events, queue) {
        DropTidy(now, events, queue, counter, e);
      }
      Drop(e);
      DeleteKeeps(now, events, queue, counter, e);
      RecordSame(trace, events, queue, events - {e}, queue);
      events := events - {e};
    }

    /** Runs everything up to and including `stop`. The message that marks the end is an event like any
        other, and the handlers do not know of it. After a normal return every post due by `stop`,
        whenever it was made, has been run or withdrawn; in particular every event queued at the
        start, and every event that a handler posted during the run, if no handler dropped it. */
    method RunTo(stop: int, message: EventId, scripts: seq<seq<Op>>)
      returns (r: RunResult, ghost record: seq<Entry>, ghost steps: nat)
      requires Valid() && message !in events
      requires forall i, op :: 0 <= i < |scripts| && op in scripts[i] ==> op.e in events
      modifies this
      ensures Valid() && events.Keys == old(events.Keys) && HurriedBy(old(hurried), hurried, scripts)
      ensures old(now) <= now && trace == old(trace) + record
      ensures steps <= |scripts| && Firings(record) == steps && OnlyNamed(scripts, message, record)
      ensures r != Failed ==> AllPosted(scripts, steps, record)
      ensures stop < old(now) ==> r == Failed
      ensures Tidy(old(events), old(queue)) && stop < MAXTICK && (forall i :: 0 <= i < |scripts| ==> PostsBefore(scripts[i])) ==>
                Tidy(events, queue)
      ensures r == Finished && stop < MAXTICK ==> now == stop && forall f :: f in queue ==> stop < events[f].time
      ensures r == Finished && stop < MAXTICK ==> steps > 0 && ClosedBy(trace, stop)
      ensures r == Finished && stop < MAXTICK ==>
                forall f :: f in old(queue) && old(events)[f].time <= stop && Spared(scripts, f) ==>
                    Fired(f, old(events)[f].time) in record
      ensures r == Finished && stop < MAXTICK ==>
                forall i, op :: 0 <= i < steps && op in scripts[i] && op.PostOp? && op.t <= stop && Spared(scripts, op.e) ==>
                    Fired(op.e, op.t) in record
    {
      hide Coherent, Before, Timeline, Spared, Tidy, Recorded, Prioritised, Hurries, AllPosted, OnlyNamed, Firings, ClosedBy;
      QueuedIsPending(now, events, queue, counter);
      NewEvent(message, DEFAULT_PRIORITY + 10);
      var posted := Post(message, stop);
      ghost var first: seq<Entry> := if posted == Done then [Posted(message, stop)] else [];
      if posted != Done {
        r, record, steps := Failed, [], 0;
        NothingRecorded(scripts, message);
      } else {
        InsertedHolds(old(queue), queue, message);
        r, record, steps := RunUntil(stop, message, scripts);
      }
      assert trace == old(trace) + first + record;
      Delete(message);
      Framed(scripts, message, steps, first, record, [Withdrawn(message)]);
      record := first + record + [Withdrawn(message)];
      assert trace == old(trace) + record;
      if r == Finished && stop < MAXTICK {
        NothingLeft(trace, events, queue, stop);
        PostsAreRun(old(trace), record, scripts, steps, stop, message);
      }
    }
  }

  lemma HurriedSame(before: set<EventId>, scripts: seq<seq<Op>>)
    ensures HurriedBy(before, before, scripts)
  {}

  lemma HurriedMore(before: set<EventId>, was: set<EventId>, after: set<EventId>, scripts: seq<seq<Op>>, k: nat)
    requires HurriedBy(before, was, scripts) && k < |scripts|
    requires forall f :: f in after ==> f in was || Hurries(scripts[k], f)
    ensures HurriedBy(before, after, scripts)
  {}

  lemma NothingRecorded(scripts: seq<seq<Op>>, message: EventId)
    ensures Firings([]) == 0 && OnlyNamed(scripts, message, []) && AllPosted(scripts, 0, [])
  {}

  /** What a step adds to the record of a run. */
  lemma StepRecorded(scripts: seq<seq<Op>>, message: EventId, k: nat, record: seq<Entry>, first: EventId,
                     handled: map<EventId, Event>, counter: nat, now: int)
    requires k < |scripts| && forall op :: op in scripts[k] ==> op.e in handled
    requires OnlyNamed(scripts, message, record) && AllPosted(scripts, k, record)
    ensures var longer := record + ([Fired(first, now)] + ScriptRecord(handled, counter, now, scripts[k]));
            && Firings(longer) == Firings(record) + 1 && OnlyNamed(scripts, message, longer)
            && (ScriptEffect(handled, counter, now, scripts[k]).ok ==> AllPosted(scripts, k + 1, longer))
  {
    hide ScriptRecord, ScriptEffect, Drops;
    var more := ScriptRecord(handled, counter, now, scripts[k]);
    ScriptRecordHolds(handled, counter, now, scripts[k]);
    FiringsAppend([Fired(first, now)], more);
    FiringsAppend(record, [Fired(first, now)] + more);
  }

  /** A record keeps what it holds between entries about the message alone. */
  lemma Framed(scripts: seq<seq<Op>>, message: EventId, k: nat, before: seq<Entry>, record: seq<Entry>, after: seq<Entry>)
    requires k <= |scripts| && OnlyNamed(scripts, message, record)
    requires forall x :: x in before + after ==> !x.Fired? && x.e == message
    ensures OnlyNamed(scripts, message, before + record + after) && Firings(before + record + after) == Firings(record)
    ensures AllPosted(scripts, k, record) ==> AllPosted(scripts, k, before + record + after)
  {
    hide Spared;
    FiringsAppend(before, record);
    FiringsAppend(before + record, after);
    NoFirings(before);
    NoFirings(after);
  }

  lemma {:induction false} NoFirings(trace: seq<Entry>)
    requires forall x :: x in trace ==> !x.Fired?
    ensures Firings(trace) == 0
  {
    if trace != [] {
      NoFirings(trace[1..]);
    }
  }

  /** Posts on the record, closed and named by no later drop, have been run. */
  lemma PostsAreRun(trace: seq<Entry>, record: seq<Entry>, scripts: seq<seq<Op>>, steps: nat, stop: int, message: EventId)
    requires steps <= |scripts| && ClosedBy(trace + record, stop)
    requires AllPosted(scripts, steps, record) && OnlyNamed(scripts, message, record)
    requires forall i, op :: 0 <= i < |scripts| && op in scripts[i] ==> op.e != message
    ensures forall i, op :: 0 <= i < steps && op in scripts[i] && op.PostOp? && op.t <= stop && Spared(scripts, op.e) ==>
                              Fired(op.e, op.t) in record
  {
    hide Spared;
    forall i, op | 0 <= i < steps && op in scripts[i] && op.PostOp? && op.t <= stop && Spared(scripts, op.e)
      ensures Fired(op.e, op.t) in record
    {
      var whole := trace + record;
      var h :| 0 <= h < |record| && record[h] == Posted(op.e, op.t);
      assert whole[|trace| + h] == Posted(op.e, op.t) && Closed(whole, |trace| + h);
      var j :| |trace| + h < j < |whole| && (whole[j] == Fired(op.e, op.t) || whole[j] == Withdrawn(op.e));
      assert whole[j] == record[j - |trace|];
    }
  }

  lemma AnyClock(now: int, events: map<EventId, Event>, counter: nat)
    requires Coherent(now, events, [], counter)
    ensures Coherent(0, events, [], counter)
  {}

  lemma QueuedIsPending(now: int, events: map<EventId, Event>, q: seq<EventId>, counter: nat)
    requires Coherent(now, events, q, counter)
    ensures forall f :: f in q ==> f in events && events[f].inQueue && now <= events[f].time
  {
    forall f | f in q
      ensures f in events && Pending(events[f], now, counter)
    {
      var i :| 0 <= i < |q| && q[i] == f;
    }
  }

  lemma SparesAll(now: int, events: map<EventId, Event>, q: seq<EventId>, counter: nat, e: EventId)
    requires Coherent(now, events, q, counter) && e in events
    ensures forall f :: f in q ==> f in events
    ensures forall f :: f in q && f != e && events[f].time < MAXTICK ==> f in Without(events, q, events[e])
  {
    QueuedIsPending(now, events, q, counter);
    forall f | f in q && f != e && events[f].time < MAXTICK
      ensures f in Without(events, q, events[e])
    {
      DropSpares(now, events, q, counter, e, f);
    }
  }

  lemma FirstIsEarliest(now: int, events: map<EventId, Event>, q: seq<EventId>, counter: nat)
    requires Coherent(now, events, q, counter)
    ensures forall f :: f in q ==> f in events && events[q[0]].time <= events[f].time
    ensures q != [] ==> q[0] in events && now <= events[q[0]].time
  {
    if q != [] {
      FirstIsFirst(now, events, q, counter);
    }
  }

  lemma FirstIsFirst(now: int, events: map<EventId, Event>, q: seq<EventId>, counter: nat)
    requires Coherent(now, events, q, counter) && q != []
    ensures q[0] in events && now <= events[q[0]].time
    ensures forall f :: f in q ==> f in events
    ensures forall f :: f in q && f != q[0] ==> Before(events[q[0]], events[f])
    ensures forall f :: f in q && f != q[0] ==>
              var a, b := events[q[0]], events[f];
              a.time < b.time || (a.time == b.time && (a.priority < b.priority || (a.priority == b.priority && a.order < b.order)))
  {
    QueuedIsPending(now, events, q, counter);
    assert q[0] in q;
  }
}
