/** The replay cursor of internal/client/replay.go: each round picks the listed deliveries that are not older
    than `sinceTime`, replays them oldest first, and moves the cursor past the newest one. */
module Replay {
  import opened Basics

  datatype Delivery = Delivery(id: int, deliveredAt: Time)

  /** The listed deliveries before the first one that is too old, last listed first. */
  function Chosen(listed: seq<Delivery>, since: Time): seq<Delivery> {
    if listed == [] || listed[0].deliveredAt < since then []
    else Chosen(listed[1..], since) + [listed[0]]
  }

  function NextSince(listed: seq<Delivery>, since: Time): Time {
    var c := Chosen(listed, since);
    if c == [] then since else c[|c| - 1].deliveredAt + SECOND
  }

  class ReplayCursor {
    var sinceTime: Time

    constructor (start: Time)
      ensures sinceTime == start
    {
      sinceTime := start;
    }

    method ChooseDeliveries(listed: seq<Delivery>) returns (chosen: seq<Delivery>)
      ensures chosen == Chosen(listed, sinceTime)
    {
      chosen := [];
      var n := 0;
      while n < |listed|
        invariant n <= |listed| && chosen == listed[..n]
        invariant forall k :: 0 <= k < n ==> listed[k].deliveredAt >= sinceTime
      {
        if listed[n].deliveredAt < sinceTime {
          break;
        }
        chosen := chosen + [listed[n]];
        n := n + 1;
      }
      ghost var picked := chosen;
      var i := |chosen| / 2 - 1;
      while i >= 0
        invariant -1 <= i <= |picked| / 2 - 1
        invariant |chosen| == |picked|
        invariant forall k :: i < k < |picked| - 1 - i ==> chosen[k] == picked[|picked| - 1 - k]
        invariant forall k :: 0 <= k <= i ==> chosen[k] == picked[k]
        invariant forall k :: |picked| - 1 - i <= k < |picked| ==> chosen[k] == picked[k]
      {
        var opp := |chosen| - 1 - i;
        chosen := chosen[i := chosen[opp]][opp := chosen[i]];
        i := i - 1;
      }
      ChosenMirrorsPrefix(listed, sinceTime, n);
      assert chosen == Chosen(listed, sinceTime);
    }

    /** One round; `failing` is the position at which fetching a chosen delivery fails, which ends the replay. */
    method Round(listed: seq<Delivery>, failing: Option<nat>) returns (handed: seq<Delivery>, ok: bool)
      modifies this
      ensures var c := Chosen(listed, old(sinceTime));
        if failing.Some? && failing.value < |c|
        then !ok && handed == c[..failing.value] && sinceTime == old(sinceTime)
        else ok && handed == c && sinceTime == NextSince(listed, old(sinceTime))
    {
      var chosen := ChooseDeliveries(listed);
      handed := [];
      for i := 0 to |chosen|
        invariant handed == chosen[..i] && sinceTime == old(sinceTime)
        invariant failing.Some? && failing.value < |chosen| ==> i <= failing.value
      {
        if failing == Some(i) {
          return handed, false;
        }
        handed := handed + [chosen[i]];
      }
      if |chosen| != 0 {
        sinceTime := chosen[|chosen| - 1].deliveredAt + SECOND;
      }
      ok := true;
    }
  }

  // ---------------------------------------------------------------- one round

  /** n deliveries are picked: those in front of the first too old one, in reverse. */
  lemma {:induction false} ChosenMirrorsPrefix(listed: seq<Delivery>, since: Time, n: nat)
    requires n <= |listed| && (n < |listed| ==> listed[n].deliveredAt < since)
    requires forall k :: 0 <= k < n ==> listed[k].deliveredAt >= since
    ensures |Chosen(listed, since)| == n
    ensures forall k :: 0 <= k < n ==> Chosen(listed, since)[k] == listed[n - 1 - k]
  {
    if n > 0 {
      ChosenMirrorsPrefix(listed[1..], since, n - 1);
    }
  }

  predicate NewestFirst(listed: seq<Delivery>) {
    forall i, j :: 0 <= i < j < |listed| ==> listed[i].deliveredAt >= listed[j].deliveredAt
  }

  function NotBefore(since: Time): Delivery -> bool { (d: Delivery) => d.deliveredAt >= since }

  /** On a newest-first list, every delivery that is not too old is picked, oldest first, and no other. */
  lemma {:induction false} ChosenMirrorsRecent(listed: seq<Delivery>, since: Time)
    requires NewestFirst(listed)
    ensures var recent := Filter(listed, NotBefore(since));
      && |Chosen(listed, since)| == |recent|
      && forall k :: 0 <= k < |recent| ==> Chosen(listed, since)[k] == recent[|recent| - 1 - k]
    ensures forall d :: d in Chosen(listed, since) <==> d in listed && d.deliveredAt >= since
  {
    var n := FirstOlder(listed, since);
    RecentIsPrefix(listed, since, n);
    ChosenMirrorsPrefix(listed, since, n);
    FilterMembers(listed, NotBefore(since));
    MirrorHasSameMembers(Chosen(listed, since), listed[..n]);
  }

  lemma {:induction false} RecentIsPrefix(listed: seq<Delivery>, since: Time, n: nat)
    requires NewestFirst(listed) && n <= |listed| && (n < |listed| ==> listed[n].deliveredAt < since)
    requires forall k :: 0 <= k < n ==> listed[k].deliveredAt >= since
    ensures Filter(listed, NotBefore(since)) == listed[..n]
  {
    if n == |listed| {
      FilterAllOrNone(listed, NotBefore(since));
    } else {
      var front := listed[..|listed| - 1];
      RecentIsPrefix(front, since, n);
      assert listed[|listed| - 1].deliveredAt <= listed[n].deliveredAt;
    }
  }

  lemma MirrorHasSameMembers(a: seq<Delivery>, b: seq<Delivery>)
    requires |a| == |b| && forall k :: 0 <= k < |a| ==> a[k] == b[|b| - 1 - k]
    ensures forall d :: d in a <==> d in b
  {
    forall d | d in b ensures d in a {
      var k :| 0 <= k < |b| && b[k] == d;
      assert a[|b| - 1 - k] == d;
    }
  }

  function FirstOlder(listed: seq<Delivery>, since: Time): (n: nat)
    ensures n <= |listed| && (n < |listed| ==> listed[n].deliveredAt < since)
    ensures forall k :: 0 <= k < n ==> listed[k].deliveredAt >= since
  {
    if listed == [] || listed[0].deliveredAt < since then 0 else 1 + FirstOlder(listed[1..], since)
  }

  /** After a round the cursor is exactly a second past the newest one picked, and it never moves back. */
  lemma NextSinceIsPastChosen(listed: seq<Delivery>, since: Time)
    requires NewestFirst(listed)
    ensures NextSince(listed, since) >= since
    ensures forall d :: d in Chosen(listed, since) ==> d.deliveredAt + SECOND <= NextSince(listed, since)
    ensures NextSince(listed, since) != since ==>
              exists d :: d in Chosen(listed, since) && NextSince(listed, since) == d.deliveredAt + SECOND
  {
    var n := FirstOlder(listed, since);
    ChosenMirrorsPrefix(listed, since, n);
    var c := Chosen(listed, since);
    if n > 0 {
      assert c[n - 1] == listed[0] && listed[0] in c;
      forall d | d in c ensures d.deliveredAt <= listed[0].deliveredAt {
        var k :| 0 <= k < n && c[k] == d;
        assert d == listed[n - 1 - k];
      }
    }
  }

  // ---------------------------------------------------------------- all rounds

  /** The cursor at the start of round q. */
  function SinceAt(rounds: seq<seq<Delivery>>, start: Time, q: nat): Time
    requires q <= |rounds|
  {
    if q == 0 then start else NextSince(rounds[q - 1], SinceAt(rounds, start, q - 1))
  }

  predicate ChosenIn(rounds: seq<seq<Delivery>>, start: Time, q: nat, d: Delivery)
    requires q < |rounds|
  {
    d in Chosen(rounds[q], SinceAt(rounds, start, q))
  }

  lemma {:induction false} CursorOnlyAdvances(rounds: seq<seq<Delivery>>, start: Time, p: nat, q: nat)
    requires p <= q <= |rounds| && forall i :: 0 <= i < |rounds| ==> NewestFirst(rounds[i])
    ensures SinceAt(rounds, start, p) <= SinceAt(rounds, start, q)
    decreases q
  {
    if p < q {
      CursorOnlyAdvances(rounds, start, p, q - 1);
      NextSinceIsPastChosen(rounds[q - 1], SinceAt(rounds, start, q - 1));
    }
  }

  /** No delivery is picked in two rounds. */
  lemma NothingChosenTwice(rounds: seq<seq<Delivery>>, start: Time, p: nat, q: nat, d: Delivery)
    requires p < q < |rounds| && forall i :: 0 <= i < |rounds| ==> NewestFirst(rounds[i])
    requires ChosenIn(rounds, start, p, d)
    ensures !ChosenIn(rounds, start, q, d)
  {
    NextSinceIsPastChosen(rounds[p], SinceAt(rounds, start, p));
    CursorOnlyAdvances(rounds, start, p + 1, q);
    ChosenMirrorsRecent(rounds[q], SinceAt(rounds, start, q));
  }

  /** A delivery is replayed in some round exactly when the cursor has not passed it when it is first listed;
      missing that round, it is never replayed. */
  lemma ReplayedIffOnTime(rounds: seq<seq<Delivery>>, start: Time, q: nat, d: Delivery)
    requires q < |rounds| && forall i :: 0 <= i < |rounds| ==> NewestFirst(rounds[i])
    requires d in rounds[q] && forall i :: 0 <= i < q ==> d !in rounds[i]
    ensures (exists p :: 0 <= p < |rounds| && ChosenIn(rounds, start, p, d))
       <==> d.deliveredAt >= SinceAt(rounds, start, q)
  {
    ChosenMirrorsRecent(rounds[q], SinceAt(rounds, start, q));
    if d.deliveredAt >= SinceAt(rounds, start, q) {
      assert ChosenIn(rounds, start, q, d);
    } else if p :| 0 <= p < |rounds| && ChosenIn(rounds, start, p, d) {
      ChosenMirrorsRecent(rounds[p], SinceAt(rounds, start, p));
      assert p >= q;
      CursorOnlyAdvances(rounds, start, q, p);
      assert false;
    }
  }

  /** A delivery made less than a second after the newest one, but listed a round later, is lost. */
  lemma LateListingIsLost(start: Time, first: Delivery, late: Delivery)
    requires start <= first.deliveredAt <= late.deliveredAt < first.deliveredAt + SECOND && late != first
    ensures ChosenIn([[first], [late, first]], start, 0, first)
    ensures !ChosenIn([[first], [late, first]], start, 1, late)
    ensures SinceAt([[first], [late, first]], start, 2) > late.deliveredAt
  {
    var rounds := [[first], [late, first]];
    assert [first][1..] == [];
    assert Chosen([first], start) == [first];
    assert SinceAt(rounds, start, 0) == start;
    assert SinceAt(rounds, start, 1) == first.deliveredAt + SECOND;
    assert Chosen([late, first], first.deliveredAt + SECOND) == [];
  }
}
