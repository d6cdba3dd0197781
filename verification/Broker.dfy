/** The broker's registry and fan-out of pkg/nats/broker.go. */
module Brokers {
  import opened Basics
  import opened RingModel
  import opened RingBuffers
  import opened Subscribers

  const SUBJECT_PREFIX := "webhook."

  function ExtractChannel(subject: string): string {
    if |subject| <= |SUBJECT_PREFIX| then "" else subject[|SUBJECT_PREFIX|..]
  }

  function Subject(channel: string): string { SUBJECT_PREFIX + channel }

  /** The callback recovers the channel that Publish put into the subject. */
  lemma ExtractChannelInverts(channel: string)
    ensures ExtractChannel(Subject(channel)) == channel
  {
    if channel != "" {
      assert Subject(channel)[|SUBJECT_PREFIX|..] == channel;
    }
  }

  predicate Distinct<T(==)>(s: seq<T>) {
    forall i, j :: 0 <= i < j < |s| ==> s[i] != s[j]
  }

  function Sum(s: seq<nat>): nat {
    if s == [] then 0 else Sum(s[..|s| - 1]) + s[|s| - 1]
  }

  lemma SumSnoc(s: seq<nat>, x: nat)
    ensures Sum(s + [x]) == Sum(s) + x
  {
    assert (s + [x])[..|s|] == s;
  }

  lemma {:induction false} SumUpdate(s: seq<nat>, j: nat, x: nat)
    requires j < |s|
    ensures Sum(s[j := x]) == Sum(s) - s[j] + x
  {
    var last := |s| - 1;
    if j == last {
      assert s[j := x][..last] == s[..last];
    } else {
      assert s[j := x][..last] == s[..last][j := x];
      SumUpdate(s[..last], j, x);
    }
  }

  ghost function Drops(s: seq<Subscriber>): (r: seq<nat>)
    reads s
    ensures |r| == |s|
  {
    seq(|s|, i requires 0 <= i < |s| reads s => s[i].dropped)
  }

  /** No empty set is kept, and no queue is registered for two channels. */
  predicate Disjoint(subs: map<string, set<Subscriber>>) {
    && (forall c :: c in subs ==> subs[c] != {})
    && (forall c, d, s :: c in subs && d in subs && s in subs[c] && s in subs[d] ==> c == d)
  }

  function With(subs: map<string, set<Subscriber>>, channel: string, sub: Subscriber): map<string, set<Subscriber>> {
    subs[channel := (if channel in subs then subs[channel] else {}) + {sub}]
  }

  /** Only that queue comes in, for that channel. */
  lemma WithMeans(subs: map<string, set<Subscriber>>, channel: string, sub: Subscriber)
    ensures forall c :: c in With(subs, channel, sub) <==> c in subs || c == channel
    ensures forall c, s :: c in With(subs, channel, sub) ==>
              (s in With(subs, channel, sub)[c] <==> (c in subs && s in subs[c]) || (c == channel && s == sub))
  {
  }

  lemma WithKeepsDisjoint(subs: map<string, set<Subscriber>>, channel: string, sub: Subscriber)
    requires Disjoint(subs) && forall c :: c in subs ==> sub !in subs[c]
    ensures Disjoint(With(subs, channel, sub))
    ensures forall c, s :: c in With(subs, channel, sub) && s in With(subs, channel, sub)[c] ==>
              s == sub || (c in subs && s in subs[c])
  {
  }

  function Without(subs: map<string, set<Subscriber>>, channel: string, sub: Subscriber): map<string, set<Subscriber>>
    requires channel in subs
  {
    if subs[channel] - {sub} == {} then subs - {channel} else subs[channel := subs[channel] - {sub}]
  }

  /** Only that queue goes, and a channel without queues goes with it. */
  lemma WithoutMeans(subs: map<string, set<Subscriber>>, channel: string, sub: Subscriber)
    requires Disjoint(subs) && channel in subs && sub in subs[channel]
    ensures var left := Without(subs, channel, sub);
      && (channel in left <==> exists s :: s in subs[channel] && s != sub)
      && (channel in left ==> left[channel] == subs[channel] - {sub})
      && (forall c :: c in left ==> sub !in left[c])
      && (forall c :: c != channel ==> (c in left <==> c in subs) && (c in left ==> left[c] == subs[c]))
  {
    if s :| s in subs[channel] && s != sub {
      assert s in subs[channel] - {sub};
    }
  }

  lemma WithoutKeepsDisjoint(subs: map<string, set<Subscriber>>, channel: string, sub: Subscriber)
    requires Disjoint(subs) && channel in subs && sub in subs[channel]
    ensures Disjoint(Without(subs, channel, sub))
    ensures forall c :: c in Without(subs, channel, sub) ==> sub !in Without(subs, channel, sub)[c]
  {
  }

  /** All queues there have been are distinct and consistent, and every drop so far is counted. */
  ghost predicate Sound(everyone: seq<Subscriber>, dropped: nat)
    reads everyone
  {
    Distinct(everyone) && (forall s :: s in everyone ==> s.Valid()) && dropped == Sum(Drops(everyone))
  }

  /** Registered queues are open and registered once. */
  ghost predicate Listed(subs: map<string, set<Subscriber>>, everyone: seq<Subscriber>)
    reads everyone
  {
    Disjoint(subs) && forall c, s :: c in subs && s in subs[c] ==> s in everyone && !s.closed
  }

  lemma WithKeepsListed(subs: map<string, set<Subscriber>>, everyone: seq<Subscriber>, channel: string, sub: Subscriber)
    requires Listed(subs, everyone) && sub in everyone && !sub.closed && forall c :: c in subs ==> sub !in subs[c]
    ensures Listed(With(subs, channel, sub), everyone)
  {
    WithKeepsDisjoint(subs, channel, sub);
  }

  lemma WithoutKeepsListed(subs: map<string, set<Subscriber>>, everyone: seq<Subscriber>, channel: string, sub: Subscriber)
    requires Listed(subs, everyone) && channel in subs && sub in subs[channel]
    ensures Listed(Without(subs, channel, sub), everyone)
    ensures forall c :: c in Without(subs, channel, sub) ==> sub !in Without(subs, channel, sub)[c]
  {
    WithoutKeepsDisjoint(subs, channel, sub);
  }

  class Broker {
    const buffer: RingBuffer
    const queueDepth: nat
    const queueBytes: int
    var subs: map<string, set<Subscriber>>
    var droppedFanout: nat
    ghost var everyone: seq<Subscriber>

    ghost predicate Valid()
      reads this, everyone
    {
      Sound(everyone, droppedFanout) && Listed(subs, everyone)
    }

    constructor (ring: RingBuffer, depth: int, bytes: int)
      ensures Valid() && everyone == [] && buffer == ring
      ensures queueDepth == (if depth <= 0 then 100 else depth) && queueBytes == bytes
    {
      buffer := ring;
      queueDepth := if depth <= 0 then 100 else depth;
      queueBytes := bytes;
      subs, droppedFanout, everyone := map[], 0, [];
    }

    /** Registers first, then reads history; a zero `since` means everything within the maximum age. */
    method Subscribe(channel: string, since: Time, drainLimit: int, now: Time)
      returns (history: seq<Payload>, sub: Subscriber)
      requires Valid() && buffer.Valid()
      modifies this`subs, this`everyone
      ensures Valid() && fresh(sub) && everyone == old(everyone) + [sub]
      ensures sub.State() == NewQueue(queueDepth, queueBytes)
      ensures subs == With(old(subs), channel, sub)
      ensures history == Payloads(Lookup(buffer.Pol(), buffer.live, channel,
                                         if since == ZERO_TIME then now - buffer.maxAge else since, now, drainLimit))
    {
      sub := Register(channel);
      var from := if since == ZERO_TIME then now - buffer.maxAge else since;
      history := buffer.Get(channel, from, drainLimit, now);
    }

    method Register(channel: string) returns (sub: Subscriber)
      requires Valid()
      modifies this`subs, this`everyone
      ensures Valid() && fresh(sub) && everyone == old(everyone) + [sub]
      ensures sub.State() == NewQueue(queueDepth, queueBytes)
      ensures subs == With(old(subs), channel, sub)
    {
      sub := OpenQueue();
      var mine := if channel in subs then subs[channel] else {};
      WithKeepsListed(subs, everyone, channel, sub);
      subs := subs[channel := mine + {sub}];
    }

    /** A new queue, registered for no channel yet. */
    method OpenQueue() returns (sub: Subscriber)
      requires Valid()
      modifies this`everyone
      ensures Valid() && fresh(sub) && everyone == old(everyone) + [sub] && !sub.closed
      ensures sub.State() == NewQueue(queueDepth, queueBytes)
      ensures forall c :: c in subs ==> sub !in subs[c]
    {
      ghost var drops := Drops(everyone);
      sub := new Subscriber(queueDepth, queueBytes);
      everyone := everyone + [sub];
      SumSnoc(drops, 0);
      assert Drops(everyone) == drops + [0];
    }

    /** The caller passes back what Subscribe gave it for the channel, once: closing a queue twice would panic.
        For a channel without queues nothing happens. */
    method Unsubscribe(channel: string, sub: Subscriber)
      requires Valid() && (channel in subs ==> sub in subs[channel])
      modifies this`subs, sub`closed
      ensures Valid() && everyone == old(everyone)
      ensures if channel in old(subs) then sub.closed && subs == Without(old(subs), channel, sub)
              else subs == old(subs) && sub.closed == old(sub.closed)
    {
      if channel !in subs {
        return;
      }
      var rest := subs[channel] - {sub};
      WithoutKeepsListed(subs, everyone, channel, sub);
      ghost var left := Without(subs, channel, sub);
      subs := subs[channel := rest];
      CloseUnlisted(left, sub);
      if rest == {} {
        subs := subs - {channel};
      }
      assert subs == left;
    }

    /** Closing a queue that is no longer registered. */
    method CloseUnlisted(ghost left: map<string, set<Subscriber>>, sub: Subscriber)
      requires Sound(everyone, droppedFanout) && Listed(left, everyone) && sub in everyone && !sub.closed
      requires forall c :: c in left ==> sub !in left[c]
      modifies sub`closed
      ensures Sound(everyone, droppedFanout) && Listed(left, everyone) && sub.closed
    {
      sub.Close();
      assert Drops(everyone) == old(Drops(everyone));
    }

    /** Offers data to every queue of the channel and to no other, in whatever order the map yields them. */
    method Fanout(channel: string, data: Payload)
      requires Valid()
      modifies this`droppedFanout, if channel in subs then subs[channel] else {}
      ensures Valid()
      ensures channel in subs ==> forall s :: s in subs[channel] ==> s.State() == Offer(old(s.State()), data)
    {
      if channel !in subs {
        return;
      }
      var todo := subs[channel];
      ghost var all := todo;
      while todo != {}
        invariant todo <= all && Valid()
        invariant forall s :: s in todo ==> s.State() == old(s.State())
        invariant forall s :: s in all && s !in todo ==> s.State() == Offer(old(s.State()), data)
        decreases todo
      {
        var sub :| sub in todo;
        assert sub in subs[channel];
        OfferTo(sub, data);
        todo := todo - {sub};
      }
    }

    method OfferTo(sub: Subscriber, data: Payload)
      requires Valid() && sub in everyone && !sub.closed
      modifies this`droppedFanout, sub
      ensures Valid() && sub.State() == Offer(old(sub.State()), data)
    {
      var ok := TryQueue(sub, data);
      if !ok {
        droppedFanout := droppedFanout + 1;
      }
    }

    method TryQueue(sub: Subscriber, data: Payload) returns (ok: bool)
      requires Valid() && sub in everyone && !sub.closed
      modifies sub
      ensures Sound(everyone, droppedFanout + if ok then 0 else 1) && Listed(subs, everyone)
      ensures sub.State() == Offer(old(sub.State()), data)
    {
      ghost var drops := Drops(everyone);
      ghost var j :| 0 <= j < |everyone| && everyone[j] == sub;
      assert drops[j] == sub.dropped;
      ok := sub.TrySend(data);
      SumUpdate(drops, j, sub.dropped);
      assert Drops(everyone) == drops[j := sub.dropped];
    }

    /** The NATS callback: append to the ring, then fan out. */
    method OnMessage(subject: string, data: Payload, now: Time)
      requires Valid() && buffer.Valid() && now != ZERO_TIME
      modifies this`droppedFanout, set s | s in everyone
      modifies buffer, buffer.entries
      ensures Valid() && buffer.Valid()
      ensures var channel := ExtractChannel(subject);
              buffer.Abs() == (if channel == "" then old(buffer.Abs())
                else AppendTo(old(buffer.Abs()), buffer.Lim(), Entry(channel, data, now)))
      ensures var channel := ExtractChannel(subject);
              channel != "" && channel in subs ==>
                forall s :: s in subs[channel] ==> s.State() == Offer(old(s.State()), data)
    {
      var channel := ExtractChannel(subject);
      if channel == "" {
        return;
      }
      buffer.Append(channel, data, now);
      Fanout(channel, data);
    }
  }
}
