/** From publishing to the subscriber's hands: the subscribe race and the bounded queue together
    (pkg/nats/broker.go). Each live offer of the race is one trySend on the queue. */
module Delivery {
  import opened Basics
  import opened RingModel
  import opened Subscribers
  import R = SubscribeRace

  // ---------------------------------------------------------------- the fate of each offer

  /** The payloads offered in the first n steps. */
  function Offered(steps: seq<QStep>, n: nat): seq<Payload>
    requires n <= |steps|
  {
    if n == 0 then []
    else if steps[n - 1].Begin? then Offered(steps, n - 1) + [steps[n - 1].data] else Offered(steps, n - 1)
  }

  /** For each offer that is decided by then: was it accepted? */
  function Verdicts(steps: seq<QStep>, states: seq<Queue>, n: nat): seq<bool>
    requires n <= |steps| && |states| == |steps| + 1
  {
    if n == 0 then []
    else
      var v := Verdicts(steps, states, n - 1);
      match steps[n - 1]
      case Begin(_) => if states[n].sending.Free? then v + [false] else v
      case Push => v + [states[n].sending.Crediting?]
      case _ => v
  }

  function Yes(v: seq<bool>): nat {
    if v == [] then 0 else Yes(v[..|v| - 1]) + if v[|v| - 1] then 1 else 0
  }

  /** The offers with a positive verdict, in order. */
  function Picked(offered: seq<Payload>, v: seq<bool>): seq<Payload>
    requires |v| <= |offered|
  {
    if v == [] then []
    else
      var n := |v| - 1;
      Picked(offered, v[..n]) + if v[n] then [offered[n]] else []
  }

  lemma {:induction false} PickedAt(offered: seq<Payload>, v: seq<bool>, k: nat)
    requires k < |v| <= |offered| && v[k]
    ensures Yes(v[..k]) < |Picked(offered, v)| && Picked(offered, v)[Yes(v[..k])] == offered[k]
  {
    var n := |v| - 1;
    if k < n {
      assert v[..n][..k] == v[..k];
      PickedAt(offered, v[..n], k);
    } else {
      PickedCounts(offered, v[..n]);
    }
  }

  lemma {:induction false} PickedCounts(offered: seq<Payload>, v: seq<bool>)
    requires |v| <= |offered|
    ensures |Picked(offered, v)| == Yes(v) <= |v|
  {
    if v != [] {
      PickedCounts(offered, v[..|v| - 1]);
    }
  }

  lemma {:induction false} PickedFromPrefix(offered: seq<Payload>, more: seq<Payload>, v: seq<bool>)
    requires |v| <= |offered|
    ensures Picked(offered + more, v) == Picked(offered, v)
  {
    if v != [] {
      PickedFromPrefix(offered, more, v[..|v| - 1]);
    }
  }

  lemma PickedSnoc(offered: seq<Payload>, v: seq<bool>, yes: bool)
    requires |v| < |offered|
    ensures Picked(offered, v + [yes]) == Picked(offered, v) + if yes then [offered[|v|]] else []
    ensures Yes(v + [yes]) == Yes(v) + if yes then 1 else 0
  {
    assert (v + [yes])[..|v|] == v;
  }

  /** The verdicts account for every offer: accepted are exactly the positive ones, in order, and the drop
      counter is the number of the others. Only the last offer can be undecided. */
  ghost predicate Accounted(q: Queue, offered: seq<Payload>, v: seq<bool>) {
    && |offered| == q.offers
    && |v| + (if q.sending.Checked? then 1 else 0) == |offered|
    && (q.sending.Checked? ==> q.sending.data == offered[|offered| - 1])
    && q.accepted == Picked(offered, v)
    && q.dropped == |v| - Yes(v)
  }

  lemma {:induction false} OffersAreAccounted(capacity: nat, maxBytes: int, steps: seq<QStep>, states: seq<Queue>, n: nat)
    requires QueueRun(capacity, maxBytes, steps, states) && n <= |steps|
    ensures Accounted(states[n], Offered(steps, n), Verdicts(steps, states, n))
  {
    if n > 0 {
      OffersAreAccounted(capacity, maxBytes, steps, states, n - 1);
      var offered, v := Offered(steps, n - 1), Verdicts(steps, states, n - 1);
      match steps[n - 1]
      case Begin(data) =>
        PickedFromPrefix(offered, [data], v);
        PickedSnoc(offered + [data], v, false);
      case Push => PickedSnoc(offered, v, states[n].sending.Crediting?);
      case _ =>
    }
  }

  // ---------------------------------------------------------------- end to end

  /** Where message i of the channel is: read as history, taken by the queue (delivered or waiting, in order),
      counted as dropped, or still on its way. */
  datatype Fate = History(at: int) | Accepted(at: int) | Dropped | Sending | NotFannedOut

  ghost predicate HasFate(c: R.Config, s: R.State, q: Queue, v: seq<bool>, i: nat, fate: Fate)
    requires s.sub.Drained? && i < |R.Of(c, s.log)|
  {
    var msg, k := R.Of(c, s.log)[i], i - s.sub.base;
    match fate
    case History(at) => 0 <= at < |s.sub.history| && s.sub.history[at] == msg && at == i - R.From(c, s)
    case Accepted(at) => 0 <= k < |v| && v[k] && 0 <= at < |q.delivered + q.queued| && (q.delivered + q.queued)[at] == msg.data
                         && at == Yes(v[..k])
    case Dropped => 0 <= k < |v| && !v[k] && q.dropped > 0
    case Sending => k == |v| && q.sending == Checked(msg.data)
    case NotFannedOut => s.pending == Some(msg)
  }

  /** Missed by history: it had been appended before the history read, but was no longer eligible, or lay
      beyond the drain limit. */
  ghost predicate Missed(c: R.Config, s: R.State, i: nat)
    requires s.sub.Drained?
  {
    i < s.sub.query.got && (!R.Eligible(c, s, i) || |s.sub.history| == c.drainLimit)
  }

  /** No message of the channel is lost between registration and delivery. Whatever the interleaving, each one
      is in history, accepted by the queue, counted as dropped or still on its way; only a message appended
      before the registration can be missed, by being ineligible or beyond the drain limit. */
  lemma EveryMessageHasAFate(c: R.Config, steps: seq<R.Step>, states: seq<R.State>, n: nat,
                             capacity: nat, maxBytes: int, qsteps: seq<QStep>, qstates: seq<Queue>, m: nat, i: nat)
    requires R.IsRun(c, steps, states) && n < |states| && states[n].sub.Drained? && i < |R.Of(c, states[n].log)|
    requires QueueRun(capacity, maxBytes, qsteps, qstates) && m <= |qsteps|
    requires Offered(qsteps, m) == Payloads(states[n].sub.offers)
    ensures var s, v := states[n], Verdicts(qsteps, qstates, m);
            HasSomeFate(c, s, qstates[m], v, i) || (i < s.sub.base && Missed(c, s, i))
    ensures Accounted(qstates[m], Offered(qsteps, m), Verdicts(qsteps, qstates, m))
  {
    RunConserves(capacity, maxBytes, qsteps, qstates, m);
    OffersAreAccounted(capacity, maxBytes, qsteps, qstates, m);
    FateOf(c, steps, states, n, qstates[m], Offered(qsteps, m), Verdicts(qsteps, qstates, m), i);
  }

  lemma FateOf(c: R.Config, steps: seq<R.Step>, states: seq<R.State>, n: nat,
               q: Queue, offered: seq<Payload>, v: seq<bool>, i: nat)
    requires R.IsRun(c, steps, states) && n < |states| && states[n].sub.Drained? && i < |R.Of(c, states[n].log)|
    requires Conserved(q) && Accounted(q, offered, v) && offered == Payloads(states[n].sub.offers)
    ensures HasSomeFate(c, states[n], q, v, i) || (i < states[n].sub.base && Missed(c, states[n], i))
  {
    var s := states[n];
    if i < s.sub.base {
      OlderIsInHistory(c, steps, states, n, i, q, v);
    } else if i >= R.Fanned(c, s) {
      StillPending(c, steps, states, n, i, q, v);
    } else {
      OfferIsMessage(c, steps, states, n, i);
      var k := i - s.sub.base;
      assert offered[k] == R.Of(c, s.log)[i].data;
      var fate := OfferFate(q, offered, v, k);
      assert HasFate(c, s, q, v, i, fate);
    }
  }

  ghost predicate HasSomeFate(c: R.Config, s: R.State, q: Queue, v: seq<bool>, i: nat)
    requires s.sub.Drained? && i < |R.Of(c, s.log)|
  {
    exists fate :: HasFate(c, s, q, v, i, fate)
  }

  lemma StillPending(c: R.Config, steps: seq<R.Step>, states: seq<R.State>, n: nat, i: nat, q: Queue, v: seq<bool>)
    requires R.IsRun(c, steps, states) && n < |states| && states[n].sub.Drained? && i < |R.Of(c, states[n].log)|
    requires i >= R.Fanned(c, states[n])
    ensures HasFate(c, states[n], q, v, i, NotFannedOut)
  {
    R.NoGap(c, steps, states, n, i);
  }

  lemma OlderIsInHistory(c: R.Config, steps: seq<R.Step>, states: seq<R.State>, n: nat, i: nat, q: Queue, v: seq<bool>)
    requires R.IsRun(c, steps, states) && n < |states| && states[n].sub.Drained? && i < |R.Of(c, states[n].log)|
    requires i < states[n].sub.base
    ensures var s := states[n]; HasFate(c, s, q, v, i, History(i - R.From(c, s))) || Missed(c, s, i)
  {
    R.NoGap(c, steps, states, n, i);
  }

  lemma OfferIsMessage(c: R.Config, steps: seq<R.Step>, states: seq<R.State>, n: nat, i: nat)
    requires R.IsRun(c, steps, states) && n < |states| && states[n].sub.Drained? && i < |R.Of(c, states[n].log)|
    requires states[n].sub.base <= i < R.Fanned(c, states[n])
    ensures var s := states[n];
            i - s.sub.base < |s.sub.offers| && s.sub.offers[i - s.sub.base] == R.Of(c, s.log)[i]
            && Payloads(s.sub.offers)[i - s.sub.base] == R.Of(c, s.log)[i].data
  {
    R.NoGap(c, steps, states, n, i);
  }

  lemma OfferFate(q: Queue, offered: seq<Payload>, v: seq<bool>, k: nat) returns (fate: Fate)
    requires Conserved(q) && Accounted(q, offered, v) && k < |offered|
    ensures match fate
      case Accepted(at) => k < |v| && v[k] && 0 <= at < |q.delivered + q.queued| && (q.delivered + q.queued)[at] == offered[k]
                           && at == Yes(v[..k])
      case Dropped => k < |v| && !v[k] && q.dropped > 0
      case Sending => k == |v| && q.sending == Checked(offered[k])
      case _ => false
  {
    if k == |v| {
      fate := Sending;
    } else if v[k] {
      PickedAt(offered, v, k);
      fate := Accepted(Yes(v[..k]));
    } else {
      NoIsCounted(v, k);
      fate := Dropped;
    }
  }

  lemma {:induction false} NoIsCounted(v: seq<bool>, k: nat)
    requires k < |v| && !v[k]
    ensures Yes(v) < |v|
  {
    var front := v[..|v| - 1];
    if k < |front| {
      NoIsCounted(front, k);
    } else {
      YesAtMost(front);
    }
  }

  lemma {:induction false} YesAtMost(v: seq<bool>)
    ensures Yes(v) <= |v|
  {
    if v != [] {
      YesAtMost(v[..|v| - 1]);
    }
  }
}
