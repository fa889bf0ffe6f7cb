/** The in-process event bus: one emitter, any number of subscribers, each behind
    its own bounded queue that silently drops what arrives while it is full. */
module EventBus {
  import opened Prelude

  // ---- One subscriber's queue, as a function of its own history -----------

  datatype Op<T> = Offer(event: T) | Get

  datatype Mailbox<T> = Mailbox(taken: seq<T>, waiting: seq<T>)

  /** asyncio.Queue: a capacity of zero or less means no bound. */
  predicate Full<T>(capacity: int, waiting: seq<T>) {
    0 < capacity <= |waiting|
  }

  function After<T>(capacity: int, ops: seq<Op<T>>): Mailbox<T> {
    if ops == [] then Mailbox([], [])
    else
      var m := After(capacity, ops[..|ops| - 1]);
      match ops[|ops| - 1]
      case Offer(e) => if Full(capacity, m.waiting) then m else m.(waiting := m.waiting + [e])
      case Get => if m.waiting == [] then m else Mailbox(m.taken + [m.waiting[0]], m.waiting[1..])
  }

  function Offered<T>(ops: seq<Op<T>>): seq<T> {
    if ops == [] then []
    else
      var before := Offered(ops[..|ops| - 1]);
      match ops[|ops| - 1]
      case Offer(e) => before + [e]
      case Get => before
  }

  /** Everything the subscriber has seen or still will see. */
  function Delivered<T>(capacity: int, ops: seq<Op<T>>): seq<T> {
    After(capacity, ops).taken + After(capacity, ops).waiting
  }

  /** No event ever met a full queue. */
  ghost predicate NeverFull<T>(capacity: int, ops: seq<Op<T>>) {
    forall k | 0 <= k < |ops| && ops[k].Offer? :: !Full(capacity, After(capacity, ops[..k]).waiting)
  }

  ghost predicate Picks<T>(s: seq<T>, from: seq<T>, at: seq<nat>) {
    && |at| == |s|
    && (forall i | 0 <= i < |at| :: at[i] < |from| && s[i] == from[at[i]])
    && (forall i, j | 0 <= i < j < |at| :: at[i] < at[j])
  }

  lemma AfterStep<T>(capacity: int, ops: seq<Op<T>>, op: Op<T>)
    ensures Offered(ops + [op]) == if op.Offer? then Offered(ops) + [op.event] else Offered(ops)
    ensures Delivered(capacity, ops + [op]) ==
            if op.Offer? && !Full(capacity, After(capacity, ops).waiting)
            then Delivered(capacity, ops) + [op.event] else Delivered(capacity, ops)
    ensures After(capacity, ops + [op]) ==
            var m := After(capacity, ops);
            match op
            case Offer(e) => if Full(capacity, m.waiting) then m else m.(waiting := m.waiting + [e])
            case Get => if m.waiting == [] then m else Mailbox(m.taken + [m.waiting[0]], m.waiting[1..])
  {
  }

  /** Delivery never reorders, repeats or invents: what a subscriber gets is picked,
      in order, from what was offered to it. */
  lemma {:induction false} DeliveredInOrder<T>(capacity: int, ops: seq<Op<T>>) returns (at: seq<nat>)
    ensures Picks(Delivered(capacity, ops), Offered(ops), at)
  {
    if ops == [] {
      at := [];
    } else {
      var init, op := ops[..|ops| - 1], ops[|ops| - 1];
      assert ops == init + [op];
      AfterStep(capacity, init, op);
      at := DeliveredInOrder(capacity, init);
      if op.Offer? && !Full(capacity, After(capacity, init).waiting) {
        at := at + [|Offered(init)|];
      }
    }
  }

  /** Delivery is complete exactly when the queue was never full. */
  lemma {:induction false} DeliveredAll<T>(capacity: int, ops: seq<Op<T>>)
    ensures |Delivered(capacity, ops)| <= |Offered(ops)|
    ensures Delivered(capacity, ops) == Offered(ops) <==> NeverFull(capacity, ops)
  {
    if ops != [] {
      var n := |ops| - 1;
      var init, op := ops[..n], ops[n];
      assert ops == init + [op];
      AfterStep(capacity, init, op);
      DeliveredAll(capacity, init);
      NeverFullStep(capacity, ops);
      if op.Offer? {
        var d, o := Delivered(capacity, init), Offered(init);
        assert (d + [op.event])[..|d|] == d && (o + [op.event])[..|o|] == o;
      }
    }
  }

  lemma NeverFullStep<T>(capacity: int, ops: seq<Op<T>>)
    requires ops != []
    ensures var n := |ops| - 1;
            NeverFull(capacity, ops) <==>
            NeverFull(capacity, ops[..n]) && (ops[n].Offer? ==> !Full(capacity, After(capacity, ops[..n]).waiting))
  {
    var n := |ops| - 1;
    forall k | 0 <= k < n
      ensures ops[..n][k] == ops[k] && ops[..n][..k] == ops[..k]
    {
    }
    if NeverFull(capacity, ops) {
      forall k | 0 <= k < n && ops[..n][k].Offer?
        ensures !Full(capacity, After(capacity, ops[..n][..k]).waiting)
      {
        assert ops[k].Offer?;
      }
    }
  }

  // ---- What a drop can do -------------------------------------------------

  lemma {:induction false} OfferAll<T>(capacity: nat, ops: seq<Op<T>>, s: seq<T>) returns (ops': seq<Op<T>>)
    requires |After(capacity, ops).waiting| + |s| <= capacity
    ensures After(capacity, ops') == After(capacity, ops).(waiting := After(capacity, ops).waiting + s)
    ensures Offered(ops') == Offered(ops) + s
    decreases |s|
  {
    hide After, Offered;
    if s == [] {
      ops' := ops;
    } else {
      var next := ops + [Offer(s[0])];
      AfterStep(capacity, ops, Offer(s[0]));
      ops' := OfferAll(capacity, next, s[1..]);
      ConsAppend(After(capacity, ops).waiting, s);
      ConsAppend(Offered(ops), s);
    }
  }

  lemma ConsAppend<T>(a: seq<T>, s: seq<T>)
    requires s != []
    ensures (a + [s[0]]) + s[1..] == a + s
  {
  }

  lemma {:induction false} GetAll<T>(capacity: nat, ops: seq<Op<T>>) returns (ops': seq<Op<T>>)
    ensures After(capacity, ops') == Mailbox(After(capacity, ops).taken + After(capacity, ops).waiting, [])
    ensures Offered(ops') == Offered(ops)
    decreases |After(capacity, ops).waiting|
  {
    hide After, Offered;
    var m := After(capacity, ops);
    if m.waiting == [] {
      ops' := ops;
    } else {
      AfterStep(capacity, ops, Get);
      ops' := GetAll(capacity, ops + [Get]);
      ConsAppend(m.taken, m.waiting);
    }
  }

  /** true, false, true, ... */
  function Alternate(n: nat): (s: seq<bool>)
    ensures |s| == n
  {
    seq(n, i => i % 2 == 0)
  }

  /** Whatever its capacity, a queue that fills up can turn an alternating stream into
      one that ends in two equal events: the "true" between two "false"s is dropped. */
  lemma DropsBreakAlternation(capacity: nat) returns (ops: seq<Op<bool>>, n: nat)
    requires capacity > 0
    ensures n >= 2 && n % 2 == 0 && Offered(ops) == Alternate(n + 2)
    ensures After(capacity, ops) == Mailbox(Alternate(n) + [false], [])
  {
    var first := if capacity % 2 == 1 then 1 else 2;
    n := capacity + first;
    var all := Alternate(n);
    ops := DropAfter(capacity, all[..first], all[first..]);
    hide After, Offered;
    assert all == all[..first] + all[first..];
    assert Alternate(n + 2) == all + [true, false];
  }

  /** `before` consumed, `full` waiting, a "true" dropped, a "false" taken in. */
  lemma DropAfter(capacity: nat, before: seq<bool>, full: seq<bool>) returns (ops: seq<Op<bool>>)
    requires |before| <= capacity == |full| && capacity > 0
    ensures Offered(ops) == before + full + [true, false]
    ensures After(capacity, ops) == Mailbox(before + full + [false], [])
  {
    var none: seq<Op<bool>> := [];
    assert After(capacity, none).waiting == [] && After(capacity, none).taken == [] && Offered(none) == [];
    hide After, Offered;
    var ops1 := OfferAll(capacity, none, before);
    assert After(capacity, ops1) == Mailbox([], before) && Offered(ops1) == before;
    var ops2 := GetAll(capacity, ops1);
    assert After(capacity, ops2) == Mailbox(before, []);
    var ops3 := OfferAll(capacity, ops2, full);
    assert After(capacity, ops3) == Mailbox(before, full);
    var ops4 := DropOne(capacity, ops3);
    ops := GetAll(capacity, ops4);
    ConsAppend(before, full);
  }

  lemma DropOne(capacity: nat, ops: seq<Op<bool>>) returns (ops': seq<Op<bool>>)
    requires 0 < capacity == |After(capacity, ops).waiting|
    ensures Offered(ops') == Offered(ops) + [true, false]
    ensures var m := After(capacity, ops);
            After(capacity, ops') == Mailbox(m.taken + [m.waiting[0]], m.waiting[1..] + [false])
  {
    AfterStep(capacity, ops, Offer(true));
    AfterStep(capacity, ops + [Offer(true)], Get);
    AfterStep(capacity, ops + [Offer(true)] + [Get], Offer(false));
    ops' := ops + [Offer(true)] + [Get] + [Offer(false)];
    hide After, Offered;
  }

  lemma OfferedGrows<T>(ops: seq<Op<T>>, preset: seq<T>, emitted: seq<T>, joined: nat, event: T)
    requires joined <= |emitted| && Offered(ops) == preset + emitted[joined..]
    ensures Offered(ops + [Offer(event)]) == preset + (emitted + [event])[joined..]
  {
  }

  // ---- The bus ------------------------------------------------------------

  class Queue<T> {
    const maxsize: int
    var items: seq<T>
    /** Everything that happened to this queue, and nothing that happened to others. */
    ghost var ops: seq<Op<T>>
    /** How many bus events preceded this subscription, and what was put in by hand first. */
    ghost const joined: nat
    ghost var preset: seq<T>

    constructor (maxsize: int, ghost joined: nat)
      ensures this.maxsize == maxsize && items == [] && ops == [] && this.joined == joined && preset == []
    {
      this.maxsize, items := maxsize, [];
      ops, this.joined, preset := [], joined, [];
    }

    ghost predicate Valid()
      reads this
    {
      items == After(maxsize, ops).waiting
    }

    /** put_nowait; false stands for QueueFull. */
    method PutNowait(event: T) returns (accepted: bool)
      requires Valid()
      modifies `items, `ops
      ensures Valid() && ops == old(ops) + [Offer(event)]
      ensures accepted <==> !Full(maxsize, old(items))
    {
      AfterStep(maxsize, ops, Offer(event));
      accepted := !Full(maxsize, items);
      if accepted {
        items := items + [event];
      }
      ops := ops + [Offer(event)];
    }

    /** The next event in line. */
    method GetNowait() returns (event: T)
      requires Valid() && items != []
      modifies `items, `ops
      ensures Valid() && ops == old(ops) + [Get]
      ensures After(maxsize, ops).taken == After(maxsize, old(ops)).taken + [event]
    {
      AfterStep(maxsize, ops, Get);
      event := items[0];
      items := items[1..];
      ops := ops + [Get];
    }
  }

  class EventBus<T> {
    const queueMax: int
    var queues: seq<Queue<T>>
    ghost var emitted: seq<T>
    ghost var Repr: set<object>

    constructor (queueMax: int)
      ensures Valid() && fresh(Repr) && this.queueMax == queueMax && queues == [] && emitted == []
    {
      this.queueMax, queues, emitted := queueMax, [], [];
      Repr := {this};
    }

    /** Each live subscriber was offered its preset and then every event emitted
        since it joined: its own history, whatever the others did. */
    ghost predicate Valid()
      reads this, Repr
      ensures Valid() ==> this in Repr
    {
      && this in Repr && (forall q | q in queues :: q in Repr)
      && (forall i, j | 0 <= i < j < |queues| :: queues[i] != queues[j])
      && (forall q | q in queues ::
            && q.Valid() && q.maxsize == queueMax && q.joined <= |emitted|
            && Offered(q.ops) == q.preset + emitted[q.joined..])
    }

    method Subscribe() returns (q: Queue<T>)
      requires Valid()
      modifies this
      ensures Valid() && fresh(q) && fresh(Repr - old(Repr)) && queues == old(queues) + [q] && emitted == old(emitted)
      ensures q.ops == [] && q.preset == [] && q.joined == |emitted|
    {
      q := new Queue<T>(queueMax, |emitted|);
      queues := queues + [q];
      Repr := Repr + {q};
    }

    /** list.remove: takes out one queue and keeps the rest in order; an unknown
        queue is ignored. */
    method Unsubscribe(q: Queue<T>) returns (ghost at: nat)
      requires Valid()
      modifies this
      ensures Valid() && q !in queues && Repr == old(Repr) && emitted == old(emitted)
      ensures q in old(queues) ==>
                at < |old(queues)| && old(queues)[at] == q && queues == old(queues)[..at] + old(queues)[at + 1..]
      ensures q !in old(queues) ==> queues == old(queues)
    {
      for i := 0 to |queues|
        invariant queues == old(queues) && Repr == old(Repr) && emitted == old(emitted)
        invariant q !in queues[..i]
      {
        if queues[i] == q {
          at := i;
          queues := queues[..i] + queues[i + 1..];
          return;
        }
      }
      at := 0;
    }

    /** A first event put into a subscriber's queue by hand, before the bus has emitted
        anything to it. */
    method Preload(q: Queue<T>, event: T)
      requires Valid() && q in queues && q.joined == |emitted|
      modifies q
      ensures Valid() && q.preset == old(q.preset) + [event] && q.ops == old(q.ops) + [Offer(event)]
    {
      AfterStep(0, q.ops, Offer(event));
      var accepted := q.PutNowait(event);
      q.preset := q.preset + [event];
      hide After, Offered, Full;
    }

    /** A subscriber takes its next event, if there is one. */
    method Take(q: Queue<T>)
      requires Valid() && q in queues
      modifies q
      ensures Valid() && q.preset == old(q.preset)
      ensures q.ops == old(q.ops) + if old(q.items) == [] then [] else [Get]
    {
      AfterStep(0, q.ops, Get);
      hide After, Offered, Full;
      if q.items != [] {
        var event := q.GetNowait();
      }
    }

    method Emit(event: T)
      requires Valid()
      modifies Repr
      ensures Valid() && Repr == old(Repr) && queues == old(queues) && emitted == old(emitted) + [event]
      ensures forall q | q in queues :: q.ops == old(q.ops) + [Offer(event)] && q.preset == old(q.preset)
    {
      hide After, Offered, Full;
      for i := 0 to |queues|
        invariant emitted == old(emitted) && queues == old(queues) && Repr == old(Repr)
        invariant forall j | 0 <= j < |queues| :: queues[j].Valid() && queues[j].preset == old(queues[j].preset)
        invariant forall j | 0 <= j < i :: queues[j].ops == old(queues[j].ops) + [Offer(event)]
        invariant forall j | i <= j < |queues| :: queues[j].ops == old(queues[j].ops)
      {
        var accepted := queues[i].PutNowait(event);
      }
      emitted := emitted + [event];
      forall q | q in queues
        ensures q.ops == old(q.ops) + [Offer(event)]
        ensures q.joined <= |emitted| && Offered(q.ops) == q.preset + emitted[q.joined..]
      {
        OfferedGrows(old(q.ops), q.preset, old(emitted), q.joined, event);
      }
    }
  }
}
