/** One live event queue of pkg/nats/broker.go: bounded by channel capacity and by a byte budget that the
    consumer gives back with Ack. */
module Subscribers {
  import opened Basics
  import opened RingModel

  function TotalLen(s: seq<Payload>): nat {
    if s == [] then 0 else |s[0]| + TotalLen(s[1..])
  }

  lemma {:induction false} TotalLenConcat(a: seq<Payload>, b: seq<Payload>)
    ensures TotalLen(a + b) == TotalLen(a) + TotalLen(b)
  {
    if a == [] {
      assert a + b == b;
    } else {
      assert (a + b)[1..] == a[1..] + b;
      TotalLenConcat(a[1..], b);
    }
  }

  lemma TotalLenOne(p: Payload)
    ensures TotalLen([p]) == |p|
  {
    assert [p][1..] == [];
  }

  // ---------------------------------------------------------------- the step system

  // Where a trySend in progress stands; it holds the subscriber's mutex unless it is Free.
  datatype Sending = Free | Checked(data: Payload) | Crediting(data: Payload)

  /** The real fields, followed by the history that the invariants talk about. */
  datatype Queue = Queue(
    capacity: nat, maxBytes: int, queued: seq<Payload>, bytes: int, dropped: nat,
    sending: Sending, offers: nat, accepted: seq<Payload>, delivered: seq<Payload>, unacked: seq<Payload>)

  // Receiving from the channel needs no mutex, so it can fall between any two steps of a trySend.
  datatype QStep = Begin(data: Payload) | Push | Credit | Receive | Ack(index: nat)

  function NewQueue(capacity: nat, maxBytes: int): Queue {
    Queue(capacity, maxBytes, [], 0, 0, Free, 0, [], [], [])
  }

  predicate OverBudget(q: Queue, data: Payload) {
    q.maxBytes > 0 && q.bytes + |data| > q.maxBytes
  }

  function Clamp(x: int): int { if x < 0 then 0 else x }

  predicate CanDo(q: Queue, step: QStep) {
    match step
    case Begin(_) => q.sending.Free?
    case Push => q.sending.Checked?
    case Credit => q.sending.Crediting?
    case Receive => q.queued != []
    case Ack(i) => q.sending.Free? && i < |q.unacked|
  }

  function DoStep(q: Queue, step: QStep): Queue
    requires CanDo(q, step)
  {
    match step
    case Begin(data) =>
      if OverBudget(q, data) then q.(offers := q.offers + 1, dropped := q.dropped + 1)
      else q.(offers := q.offers + 1, sending := Checked(data))
    case Push =>
      if |q.queued| < q.capacity
      then q.(queued := q.queued + [q.sending.data], accepted := q.accepted + [q.sending.data],
              sending := Crediting(q.sending.data))
      else q.(dropped := q.dropped + 1, sending := Free)
    case Credit => q.(bytes := q.bytes + |q.sending.data|, sending := Free)
    case Receive =>
      q.(queued := q.queued[1..], delivered := q.delivered + [q.queued[0]], unacked := q.unacked + [q.queued[0]])
    case Ack(i) =>
      q.(bytes := Clamp(q.bytes - |q.unacked[i]|), unacked := q.unacked[..i] + q.unacked[i + 1..])
  }

  ghost predicate Conserved(q: Queue) {
    && |q.queued| <= q.capacity
    && q.delivered + q.queued == q.accepted
    && q.offers == |q.accepted| + q.dropped + (if q.sending.Checked? then 1 else 0)
    && q.bytes + (if q.sending.Crediting? then |q.sending.data| else 0) == TotalLen(q.queued) + TotalLen(q.unacked)
    && q.bytes >= 0
    && (q.maxBytes > 0 ==>
          q.bytes <= q.maxBytes && (!q.sending.Free? ==> q.bytes + |q.sending.data| <= q.maxBytes))
  }

  lemma UnackedSplit(s: seq<Payload>, i: nat)
    requires i < |s|
    ensures TotalLen(s) == |s[i]| + TotalLen(s[..i] + s[i + 1..])
  {
    assert s == s[..i] + ([s[i]] + s[i + 1..]);
    TotalLenConcat(s[..i], [s[i]] + s[i + 1..]);
    TotalLenConcat([s[i]], s[i + 1..]);
    TotalLenConcat(s[..i], s[i + 1..]);
    TotalLenOne(s[i]);
  }

  lemma StepConserves(q: Queue, step: QStep)
    requires Conserved(q) && CanDo(q, step)
    ensures Conserved(DoStep(q, step))
    // The clamp in Ack is never needed.
    ensures step.Ack? ==> DoStep(q, step).bytes == q.bytes - |q.unacked[step.index]|
  {
    match step {
      case Begin(_) =>
      case Credit =>
      case Push =>
        TotalLenConcat(q.queued, [q.sending.data]);
        TotalLenOne(q.sending.data);
        assert q.delivered + (q.queued + [q.sending.data]) == (q.delivered + q.queued) + [q.sending.data];
      case Receive =>
        TotalLenConcat(q.unacked, [q.queued[0]]);
        TotalLenOne(q.queued[0]);
        assert (q.delivered + [q.queued[0]]) + q.queued[1..] == q.delivered + q.queued;
      case Ack(i) =>
        UnackedSplit(q.unacked, i);
    }
  }

  ghost predicate QueueRun(capacity: nat, maxBytes: int, steps: seq<QStep>, states: seq<Queue>) {
    && |states| == |steps| + 1
    && states[0] == NewQueue(capacity, maxBytes)
    && forall i :: 0 <= i < |steps| ==> CanDo(states[i], steps[i]) && states[i + 1] == DoStep(states[i], steps[i])
  }

  /** Over every interleaving of senders and consumer: nothing accepted is lost or reordered, every offer is
      accepted or counted as dropped, and the retained bytes stay within a positive budget. */
  lemma {:induction false} RunConserves(capacity: nat, maxBytes: int, steps: seq<QStep>, states: seq<Queue>, n: nat)
    requires QueueRun(capacity, maxBytes, steps, states) && n < |states|
    ensures var q := states[n];
            && Conserved(q) && q.capacity == capacity && q.maxBytes == maxBytes
            && (maxBytes > 0 ==> TotalLen(q.queued) + TotalLen(q.unacked) <= maxBytes)
    ensures n < |steps| && steps[n].Ack? ==>
              states[n + 1].bytes == states[n].bytes - |states[n].unacked[steps[n].index]|
  {
    if n > 0 {
      RunConserves(capacity, maxBytes, steps, states, n - 1);
      StepConserves(states[n - 1], steps[n - 1]);
    }
    if n < |steps| {
      StepConserves(states[n], steps[n]);
    }
  }

  /** In terms of what the consumer has and holds: a message is refused exactly if the queue is full, or a positive
      budget has no room for it beside what is queued and not yet acknowledged. */
  lemma OfferAcceptedIff(q: Queue, data: Payload)
    requires Conserved(q) && q.sending.Free?
    ensures Offer(q, data).accepted != q.accepted <==>
              |q.queued| < q.capacity
              && (q.maxBytes <= 0 || TotalLen(q.queued) + TotalLen(q.unacked) + |data| <= q.maxBytes)
    ensures Offer(q, data).accepted in {q.accepted, q.accepted + [data]}
    ensures Offer(q, data).accepted == q.accepted <==> Offer(q, data).dropped == q.dropped + 1
  {
    OfferOutcome(q, data);
    assert |q.accepted + [data]| != |q.accepted|;
  }

  // ---------------------------------------------------------------- the object

  /** Does trySend take the message? */
  predicate Accepts(q: Queue, data: Payload) {
    !OverBudget(q, data) && |q.queued| < q.capacity
  }

  /** A whole trySend, seen by someone who waits for the mutex. */
  function Offer(q: Queue, data: Payload): Queue
    requires q.sending.Free?
  {
    var q1 := DoStep(q, Begin(data));
    if q1.sending.Free? then q1 else
    var q2 := DoStep(q1, Push);
    if q2.sending.Free? then q2 else DoStep(q2, Credit)
  }

  lemma OfferOutcome(q: Queue, data: Payload)
    requires q.sending.Free?
    ensures Accepts(q, data) ==>
              Offer(q, data) == q.(offers := q.offers + 1, queued := q.queued + [data],
                                   accepted := q.accepted + [data], bytes := q.bytes + |data|)
    ensures !Accepts(q, data) ==> Offer(q, data) == q.(offers := q.offers + 1, dropped := q.dropped + 1)
    ensures Conserved(q) ==> Conserved(Offer(q, data))
  {
    var q1 := DoStep(q, Begin(data));
    if Conserved(q) {
      StepConserves(q, Begin(data));
      if !q1.sending.Free? {
        StepConserves(q1, Push);
        var q2 := DoStep(q1, Push);
        if !q2.sending.Free? {
          StepConserves(q2, Credit);
        }
      }
    }
  }

  class Subscriber {
    const capacity: nat
    const maxBytes: int
    var queued: seq<Payload>
    var bytes: int
    var dropped: nat
    var closed: bool
    ghost var offers: nat
    ghost var accepted: seq<Payload>
    ghost var delivered: seq<Payload>
    ghost var unacked: seq<Payload>

    ghost function State(): Queue
      reads this
    {
      Queue(capacity, maxBytes, queued, bytes, dropped, Free, offers, accepted, delivered, unacked)
    }

    ghost predicate Valid()
      reads this
    {
      Conserved(State())
    }

    constructor (depth: nat, budget: int)
      ensures Valid() && !closed && State() == NewQueue(depth, budget)
    {
      capacity, maxBytes := depth, budget;
      queued, bytes, dropped, closed := [], 0, 0, false;
      offers, accepted, delivered, unacked := 0, [], [], [];
    }

    /** Sending on a closed channel would panic, hence the precondition. */
    method TrySend(data: Payload) returns (ok: bool)
      requires Valid() && !closed
      modifies this
      ensures Valid() && !closed
      ensures State() == Offer(old(State()), data)
      ensures ok <==> Accepts(old(State()), data)
      ensures dropped == old(dropped) + (if ok then 0 else 1)
    {
      OfferOutcome(State(), data);
      offers := offers + 1;
      if maxBytes > 0 && bytes + |data| > maxBytes {
        dropped := dropped + 1;
        return false;
      }
      if |queued| < capacity {
        queued, accepted := queued + [data], accepted + [data];
        bytes := bytes + |data|;
        return true;
      } else {
        dropped := dropped + 1;
        return false;
      }
    }

    method Receive() returns (data: Payload)
      requires Valid() && queued != []
      modifies this
      ensures Valid() && closed == old(closed)
      ensures State() == DoStep(old(State()), QStep.Receive) && data == old(queued)[0]
    {
      StepConserves(State(), QStep.Receive);
      data := queued[0];
      queued, delivered, unacked := queued[1..], delivered + [data], unacked + [data];
    }

    /** Any number may be acknowledged, and the counter stops at 0. If it is the length of a message that the
        consumer still holds, the i-th one, the accounts stay right and the counter does not have to stop. */
    method Ack(n: int, ghost i: nat)
      requires Valid()
      modifies this`bytes, this`unacked
      ensures bytes == Clamp(old(bytes) - n)
      ensures if i < |old(unacked)| && n == |old(unacked)[i]|
              then Valid() && State() == DoStep(old(State()), QStep.Ack(i)) && bytes == old(bytes) - n
              else unacked == old(unacked)
    {
      if i < |unacked| && n == |unacked[i]| {
        StepConserves(State(), QStep.Ack(i));
        unacked := unacked[..i] + unacked[i + 1..];
      }
      bytes := Clamp(bytes - n);
    }

    method Close()
      requires Valid() && !closed
      modifies this`closed
      ensures Valid() && closed
    {
      closed := true;
    }
  }
}
