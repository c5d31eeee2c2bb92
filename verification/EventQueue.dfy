/** The bounded queue of undelivered events, one per client. */
module EventQueues {

  import opened Bytes

  type Event = string

  type Queues = map<string, seq<Event>>

  function Queue(qs: Queues, c: string): seq<Event> { if c in qs then qs[c] else [] }

  function Pushed(qs: Queues, capacity: nat, c: string, e: Event): Queues
    requires capacity > 0
  {
    var q := Queue(qs, c);
    qs[c := (if |q| >= capacity then q[1..] else q) + [e]]
  }

  function Popped(qs: Queues, c: string): Queues {
    var q := Queue(qs, c);
    if q == [] then qs else if |q| == 1 then qs - {c} else qs[c := q[1..]]
  }

  class EventQueue {
    const queueSize: nat
    var eventQueueMap: Queues

    constructor (queueSize: nat)
      requires queueSize > 0
      ensures this.queueSize == queueSize && eventQueueMap == map[]
    {
      this.queueSize := queueSize;
      eventQueueMap := map[];
    }

    method PushEvent(clientId: string, event: Event)
      requires queueSize > 0
      modifies this
      ensures eventQueueMap == Pushed(old(eventQueueMap), queueSize, clientId, event)
    {
      if clientId !in eventQueueMap {
        eventQueueMap := eventQueueMap[clientId := []];
      }
      if |eventQueueMap[clientId]| >= queueSize {
        eventQueueMap := eventQueueMap[clientId := eventQueueMap[clientId][1..]];
      }
      eventQueueMap := eventQueueMap[clientId := eventQueueMap[clientId] + [event]];
    }

    method PopEvent(clientId: string) returns (event: Option<Event>)
      modifies this
      ensures eventQueueMap == Popped(old(eventQueueMap), clientId)
      ensures var q := Queue(old(eventQueueMap), clientId); event == if q == [] then None else Some(q[0])
    {
      if clientId in eventQueueMap && eventQueueMap[clientId] != [] {
        event := Some(eventQueueMap[clientId][0]);
        eventQueueMap := eventQueueMap[clientId := eventQueueMap[clientId][1..]];
        if eventQueueMap[clientId] == [] {
          eventQueueMap := eventQueueMap - {clientId};
        }
        return;
      }
      event := None;
    }
  }

  // ----- over every sequence of pushes and pops -----

  datatype Op = Push(c: string, e: Event) | Pop(c: string)

  function Apply(qs: Queues, capacity: nat, op: Op): Queues
    requires capacity > 0
  {
    match op
    case Push(c, e) => Pushed(qs, capacity, c, e)
    case Pop(c) => Popped(qs, c)
  }

  /** The queues after the operations, from empty ones. */
  function After(capacity: nat, ops: seq<Op>): Queues
    requires capacity > 0
  {
    if ops == [] then map[] else Apply(After(capacity, ops[..|ops| - 1]), capacity, ops[|ops| - 1])
  }

  /** The events pushed for `c`, in order. */
  function Pushes(ops: seq<Op>, c: string): seq<Event> {
    if ops == [] then []
    else
      var op := ops[|ops| - 1];
      Pushes(ops[..|ops| - 1], c) + if op.Push? && op.c == c then [op.e] else []
  }

  /** The events that pops for `c` returned, in order. */
  function Taken(capacity: nat, ops: seq<Op>, c: string): seq<Event>
    requires capacity > 0
  {
    if ops == [] then []
    else
      var before, op := ops[..|ops| - 1], ops[|ops| - 1];
      var q := Queue(After(capacity, before), c);
      Taken(capacity, before, c) + if op == Pop(c) && q != [] then [q[0]] else []
  }

  /** An event that left the queue: taken by a pop, or dropped by a push. */
  datatype Fate = Fate(e: Event, taken: bool)

  /** What became of the events that left the queue of `c`, in order. */
  function Left(capacity: nat, ops: seq<Op>, c: string): seq<Fate>
    requires capacity > 0
  {
    if ops == [] then []
    else
      var before, op := ops[..|ops| - 1], ops[|ops| - 1];
      var q := Queue(After(capacity, before), c);
      Left(capacity, before, c) +
      if op == Pop(c) && q != [] then [Fate(q[0], true)]
      else if op.Push? && op.c == c && |q| >= capacity then [Fate(q[0], false)]
      else []
  }

  function Events(fates: seq<Fate>): (r: seq<Event>)
    ensures |r| == |fates|
  {
    seq(|fates|, i requires 0 <= i < |fates| => fates[i].e)
  }

  function With(fates: seq<Fate>, taken: bool): (r: seq<Event>)
    ensures |r| <= |fates|
  {
    if fates == [] then []
    else
      var last := fates[|fates| - 1];
      With(fates[..|fates| - 1], taken) + if last.taken == taken then [last.e] else []
  }

  lemma {:induction false} WithAppend(fates: seq<Fate>, f: Fate, taken: bool)
    ensures With(fates + [f], taken) == With(fates, taken) + if f.taken == taken then [f.e] else []
    ensures Events(fates + [f]) == Events(fates) + [f.e]
  {
    assert (fates + [f])[..|fates|] == fates;
  }

  /** One operation, for one client. */
  lemma {:induction false} QueueStep(qs: Queues, capacity: nat, op: Op, c: string)
    requires capacity > 0
    ensures Queue(Apply(qs, capacity, op), c) ==
            var q := Queue(qs, c);
            if op == Pop(c) then (if q == [] then [] else q[1..])
            else if op.Push? && op.c == c then (if |q| >= capacity then q[1..] else q) + [op.e]
            else q
  {
  }

  /** What is known after some operations. */
  ghost predicate Accounted(capacity: nat, pushes: seq<Event>, left: seq<Fate>, q: seq<Event>, taken: seq<Event>) {
    pushes == Events(left) + q && |q| <= capacity && taken == With(left, true) &&
    |pushes| == |taken| + |With(left, false)| + |q|
  }

  lemma {:induction false} PopAccounted(
      capacity: nat, pushes: seq<Event>, left: seq<Fate>, q: seq<Event>, taken: seq<Event>)
    requires Accounted(capacity, pushes, left, q, taken) && q != []
    ensures Accounted(capacity, pushes, left + [Fate(q[0], true)], q[1..], taken + [q[0]])
  {
    WithAppend(left, Fate(q[0], true), true);
    WithAppend(left, Fate(q[0], true), false);
    Regrouped(Events(left), q, q[0]);
  }

  lemma {:induction false} PushAccounted(
      capacity: nat, pushes: seq<Event>, left: seq<Fate>, q: seq<Event>, taken: seq<Event>, e: Event)
    requires Accounted(capacity, pushes, left, q, taken) && |q| < capacity
    ensures Accounted(capacity, pushes + [e], left, q + [e], taken)
  {
    Regrouped(Events(left), q, e);
  }

  lemma {:induction false} DropAccounted(
      capacity: nat, pushes: seq<Event>, left: seq<Fate>, q: seq<Event>, taken: seq<Event>, e: Event)
    requires Accounted(capacity, pushes, left, q, taken) && q != []
    ensures Accounted(capacity, pushes + [e], left + [Fate(q[0], false)], q[1..] + [e], taken)
  {
    WithAppend(left, Fate(q[0], false), true);
    WithAppend(left, Fate(q[0], false), false);
    Regrouped(Events(left), q, e);
  }

  /**
   The events pushed for a client are, in order, those that left its queue and then
   those in it; the queue never exceeds its capacity, exactly the events of the
   pops are taken, and pushed = taken + dropped + queued.
   */
  lemma {:induction false} Conservation(capacity: nat, ops: seq<Op>, c: string)
    requires capacity > 0
    ensures Accounted(capacity, Pushes(ops, c), Left(capacity, ops, c), Queue(After(capacity, ops), c),
                      Taken(capacity, ops, c))
    decreases |ops|
  {
    if ops == [] {
      assert Events([]) == [];
    } else {
      var before, op := ops[..|ops| - 1], ops[|ops| - 1];
      var pushes, left, taken := Pushes(before, c), Left(capacity, before, c), Taken(capacity, before, c);
      var q := Queue(After(capacity, before), c);
      Conservation(capacity, before, c);
      QueueStep(After(capacity, before), capacity, op, c);
      hide Accounted;
      if op == Pop(c) && q != [] {
        PopAccounted(capacity, pushes, left, q, taken);
      } else if op.Push? && op.c == c {
        if |q| < capacity { PushAccounted(capacity, pushes, left, q, taken, op.e); }
        else { DropAccounted(capacity, pushes, left, q, taken, op.e); }
      }
      assert left + [] == left && pushes + [] == pushes && taken + [] == taken;
    }
  }

  lemma {:induction false} Regrouped(a: seq<Event>, q: seq<Event>, e: Event)
    ensures (a + q) + [e] == a + (q + [e])
    ensures q != [] ==> a + q == (a + [q[0]]) + q[1..] && (a + q) + [e] == (a + [q[0]]) + (q[1..] + [e])
  {
    if q != [] { assert q == [q[0]] + q[1..]; }
  }
}
