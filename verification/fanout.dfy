/** Output fan-out: every line a child prints is offered to each subscriber
    queue of its name (`_broadcast_line`), and the log websocket attaches
    and detaches its queue (`ws_logs`). Offering never blocks: a full queue
    drops the new line. */
module Fanout {
  import opened Runtime

  /** `put_nowait` on a bounded queue whose `queue.Full` is ignored. */
  function Offer(q: Queue, line: string): (r: Queue)
    ensures |q| >= QueueCapacity ==> r == q
    ensures |q| < QueueCapacity ==> r == q + [line]
  {
    if |q| >= QueueCapacity then q else q + [line]
  }

  /** The queue after the lines are offered one by one, with no reader. */
  function OfferAll(q: Queue, lines: seq<string>): (r: Queue)
    ensures |q| <= QueueCapacity ==>
      var k := if |lines| <= QueueCapacity - |q| then |lines| else QueueCapacity - |q|;
      r == q + lines[..k]
    decreases |lines|
  {
    if |lines| == 0 then q else OfferAll(Offer(q, lines[0]), lines[1..])
  }

  /** Offering `a` then `b` is offering `a + b`. */
  lemma {:induction false} OfferAllAppend(q: Queue, a: seq<string>, b: seq<string>)
    ensures OfferAll(OfferAll(q, a), b) == OfferAll(q, a + b)
    decreases |a|
  {
    if |a| > 0 {
      assert (a + b)[0] == a[0];
      assert (a + b)[1..] == a[1..] + b;
      OfferAllAppend(Offer(q, a[0]), a[1..], b);
    } else {
      assert a + b == b;
    }
  }

  /** The queues of one record, an absent "subscribers" key read as empty. */
  function QueuesOf(rec: Record): map<QueueId, Queue> {
    rec.subscribers.GetOr(map[])
  }

  /** The subscriber queues of `name`, as `_broadcast_line` snapshots them. */
  function SubscribersOf(reg: Registry, name: string): (m: map<QueueId, Queue>)
    ensures name in reg && reg[name].subscribers.Some? ==> m == reg[name].subscribers.value
    ensures name !in reg || reg[name].subscribers.None? ==> m == map[]
  {
    if name in reg then QueuesOf(reg[name]) else map[]
  }

  /** One record's part of `_broadcast_line`: the line is offered to each of
      its queues, and nothing else in the record changes. */
  function Deliver(rec: Record, line: string): (r: Record)
    ensures r == rec.(subscribers := r.subscribers)
    ensures rec.subscribers.None? ==> r == rec
    ensures rec.subscribers.Some? ==>
      && r.subscribers.Some?
      && r.subscribers.value.Keys == rec.subscribers.value.Keys
      && forall q :: q in rec.subscribers.value ==>
           r.subscribers.value[q] == Offer(rec.subscribers.value[q], line)
    ensures RecordBounded(rec) ==> RecordBounded(r)
  {
    if rec.subscribers.None? then rec
    else
      var subs := rec.subscribers.value;
      rec.(subscribers := Some(map q | q in subs :: Offer(subs[q], line)))
  }

  /** `_broadcast_line`: offer the line to every subscriber queue of `name`.
      Nothing but those queues changes. */
  function Broadcast(reg: Registry, name: string, line: string): (r: Registry)
    ensures r.Keys == reg.Keys
    ensures forall n :: n in reg && n != name ==> r[n] == reg[n]
    ensures name !in reg || reg[name].subscribers.None? ==> r == reg
    ensures name in reg ==> r[name] == Deliver(reg[name], line)
    ensures Bounded(reg) ==> Bounded(r)
  {
    if name !in reg then reg else reg[name := Deliver(reg[name], line)]
  }

  /** A full queue is left unchanged by a broadcast; any other queue gets the
      line at its end and stays within capacity. */
  lemma BroadcastDelivery(reg: Registry, name: string, line: string, q: QueueId)
    requires q in SubscribersOf(reg, name)
    requires |SubscribersOf(reg, name)[q]| <= QueueCapacity
    ensures q in SubscribersOf(Broadcast(reg, name, line), name)
    ensures var before := SubscribersOf(reg, name)[q];
            var after := SubscribersOf(Broadcast(reg, name, line), name)[q];
            && (|before| == QueueCapacity ==> after == before)
            && (|before| < QueueCapacity ==> after == before + [line])
            && |after| <= QueueCapacity
  {
  }

  /** One record's part of attaching a queue: the "subscribers" set is
      created if missing and the queue added, empty; a queue already in the
      set stays as it is, as `set.add` does. */
  function Attach(rec: Record, q: QueueId): (r: Record)
    ensures r == rec.(subscribers := r.subscribers)
    ensures r.subscribers.Some? && q in r.subscribers.value
    ensures q in QueuesOf(rec) ==> r.subscribers.value == QueuesOf(rec)
    ensures q !in QueuesOf(rec) ==> r.subscribers.value == QueuesOf(rec)[q := []]
    ensures RecordBounded(rec) ==> RecordBounded(r)
  {
    var subs := QueuesOf(rec);
    rec.(subscribers := Some(if q in subs then subs else subs[q := []]))
  }

  /** What attaching a log listener yields: the registry with the queue
      added and the recent output replayed to it. */
  datatype Subscription = Subscription(registry: Registry, snapshot: string)

  /** `ws_logs` attach: `setdefault(name, {}).setdefault("subscribers",
      set()).add(q)` under the lock, then the last 2000 characters of the
      output as the context to send first. */
  function Subscribe(reg: Registry, name: string, q: QueueId): (s: Subscription)
    ensures s.registry.Keys == reg.Keys + {name}
    ensures forall n :: n in reg && n != name ==> s.registry[n] == reg[n]
    ensures s.registry[name] == Attach(if name in reg then reg[name] else EmptyRecord, q)
    ensures s.snapshot == Tail((if name in reg then reg[name] else EmptyRecord).output.GetOr(""), SnapshotCap)
    ensures Bounded(reg) ==> Bounded(s.registry)
  {
    var before := if name in reg then reg[name] else EmptyRecord;
    var after := Attach(before, q);
    assert Bounded(reg) ==> RecordBounded(before);
    Subscription(reg[name := after], Tail(before.output.GetOr(""), SnapshotCap))
  }

  /** One record's part of detaching a queue: removed if the set exists and
      holds it, otherwise nothing changes. */
  function Detach(rec: Record, q: QueueId): (r: Record)
    ensures r == rec.(subscribers := r.subscribers)
    ensures q !in QueuesOf(rec) ==> r == rec
    ensures q in QueuesOf(rec) ==> r.subscribers == Some(QueuesOf(rec) - {q})
    ensures RecordBounded(rec) ==> RecordBounded(r)
  {
    if rec.subscribers.Some? && q in rec.subscribers.value then
      rec.(subscribers := Some(rec.subscribers.value - {q}))
    else rec
  }

  /** `ws_logs` detach: `processes.get(name, {})` does not create a record,
      so an unknown name, a missing set or an absent queue leaves the
      registry as it is. */
  function Unsubscribe(reg: Registry, name: string, q: QueueId): (r: Registry)
    ensures r.Keys == reg.Keys
    ensures forall n :: n in reg && n != name ==> r[n] == reg[n]
    ensures q !in SubscribersOf(reg, name) ==> r == reg
    ensures q in SubscribersOf(reg, name) ==> r[name] == reg[name].(subscribers := Some(SubscribersOf(reg, name) - {q}))
    ensures Bounded(reg) ==> Bounded(r)
  {
    if name in reg then reg[name := Detach(reg[name], q)] else reg
  }

  /** A listener that attaches with a new queue and then detaches leaves the
      registry as it found it when the name already had a subscriber set.
      Otherwise the attach leaves a trace: the record, created empty if the
      name had none, keeps an empty subscriber set. */
  lemma SubscribeUnsubscribe(reg: Registry, name: string, q: QueueId)
    requires q !in SubscribersOf(reg, name)
    ensures name in reg && reg[name].subscribers.Some? ==>
      Unsubscribe(Subscribe(reg, name, q).registry, name, q) == reg
    ensures name in reg && reg[name].subscribers.None? ==>
      Unsubscribe(Subscribe(reg, name, q).registry, name, q) == reg[name := reg[name].(subscribers := Some(map[]))]
    ensures name !in reg ==>
      Unsubscribe(Subscribe(reg, name, q).registry, name, q) == reg[name := EmptyRecord.(subscribers := Some(map[]))]
  {
    var before := if name in reg then reg[name] else EmptyRecord;
    var subs := QueuesOf(before);
    assert subs[q := []] - {q} == subs;
    assert Detach(Attach(before, q), q) == before.(subscribers := Some(subs));
    if name in reg && reg[name].subscribers.Some? {
      assert before.(subscribers := Some(subs)) == reg[name];
    }
  }

  /** Delivering a sequence of lines to one record, one after the other:
      only the queues change, the queue identities stay the same, and the
      capacity bound is kept. */
  function DeliverAll(rec: Record, lines: seq<string>): (r: Record)
    ensures r == rec.(subscribers := r.subscribers)
    ensures r.subscribers.Some? <==> rec.subscribers.Some?
    ensures QueuesOf(r).Keys == QueuesOf(rec).Keys
    ensures RecordBounded(rec) ==> RecordBounded(r)
    decreases |lines|
  {
    if |lines| == 0 then rec else DeliverAll(Deliver(rec, lines[0]), lines[1..])
  }

  /** Each queue present at the start receives the lines as `OfferAll` says. */
  lemma {:induction false} DeliverAllQueue(rec: Record, lines: seq<string>, q: QueueId)
    requires q in QueuesOf(rec)
    ensures q in QueuesOf(DeliverAll(rec, lines))
    ensures QueuesOf(DeliverAll(rec, lines))[q] == OfferAll(QueuesOf(rec)[q], lines)
    decreases |lines|
  {
    if |lines| > 0 {
      DeliverAllQueue(Deliver(rec, lines[0]), lines[1..], q);
    }
  }

  /** An empty queue offered some lines keeps the first ones, up to its
      capacity. */
  lemma OfferAllFromEmpty(lines: seq<string>)
    ensures OfferAll([], lines) == lines[..if |lines| <= QueueCapacity then |lines| else QueueCapacity]
  {
    var k := if |lines| <= QueueCapacity then |lines| else QueueCapacity;
    assert [] + lines[..k] == lines[..k];
  }

  /** A newly attached queue starts empty, so after further broadcasts, with
      nothing read from it, it holds the first min(1000, n) of the n lines
      produced since attachment, oldest first and without repeats. */
  lemma SubscriberSeesLaterLines(rec: Record, q: QueueId, lines: seq<string>)
    requires q !in QueuesOf(rec)
    ensures var r := DeliverAll(Attach(rec, q), lines);
            && q in QueuesOf(r)
            && QueuesOf(r)[q] == lines[..if |lines| <= QueueCapacity then |lines| else QueueCapacity]
  {
    var a := Attach(rec, q);
    assert QueuesOf(a)[q] == [];
    DeliverAllQueue(a, lines, q);
    OfferAllFromEmpty(lines);
  }
}
