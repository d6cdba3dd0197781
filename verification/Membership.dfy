/** Membership reconciliation of internal/repository/raft.go: bringing the Raft configuration to the desired
    voter list by adding and removing one server at a time, in whatever order Go's maps yield the IDs. */
module Membership {
  import opened Basics

  // An advertised address, by what net.SplitHostPort and net.ParseIP make of it.
  datatype Address =
    | Unsplittable(text: string)
    | Ip(host: string, port: string)
    | HostName(host: string, port: string)  // host may be empty

  datatype Peer = Peer(id: string, address: Address)

  /** The DNS answers, fixed for the time of a reconciliation. */
  datatype Dns = Dns(exists_: set<string>, resolved: map<Address, Address>)

  type Configuration = map<string, Address>

  predicate Resolvable(dns: Dns, a: Address) {
    match a
    case Unsplittable(_) => true
    case Ip(_, _) => true
    case HostName(host, _) => host == "" || host in dns.exists_
  }

  predicate AddrChanged(dns: Dns, current: Address, desired: Address) {
    current != desired &&
    (!desired.HostName? || desired !in dns.resolved || current != dns.resolved[desired])
  }

  /** The last entry of an ID wins; entries without ID are ignored. */
  function ById(desired: seq<Peer>): map<string, Address> {
    if desired == [] then map[]
    else
      var front, last := ById(desired[..|desired| - 1]), desired[|desired| - 1];
      if last.id == "" then front else front[last.id := last.address]
  }

  /** The IDs are those of the list, each with the address of its last entry. */
  lemma {:induction false} ByIdMeans(desired: seq<Peer>, id: string)
    ensures id in ById(desired) <==> id != "" && exists i :: 0 <= i < |desired| && desired[i].id == id
    ensures id in ById(desired) ==> exists i :: IsLastEntry(desired, i, id) && desired[i].address == ById(desired)[id]
  {
    if desired != [] {
      var front, last := desired[..|desired| - 1], desired[|desired| - 1];
      ByIdMeans(front, id);
      if last.id == id {
        assert IsLastEntry(desired, |desired| - 1, id);
      } else if id in ById(front) {
        var i :| IsLastEntry(front, i, id) && front[i].address == ById(front)[id];
        assert IsLastEntry(desired, i, id);
      }
    }
  }

  predicate IsLastEntry(desired: seq<Peer>, i: int, id: string) {
    0 <= i < |desired| && desired[i].id == id && forall j :: i < j < |desired| ==> desired[j].id != id
  }

  // ---------------------------------------------------------------- the target

  /** Where the configuration ends for one ID. */
  function Goal(dns: Dns, c: Configuration, d: map<string, Address>, id: string): Option<Address> {
    if id !in d then None
    else if id !in c then (if Resolvable(dns, d[id]) then Some(d[id]) else None)
    else if AddrChanged(dns, c[id], d[id]) && Resolvable(dns, d[id]) then Some(d[id])
    else Some(c[id])
  }

  /** The whole final configuration. */
  function Final(dns: Dns, c: Configuration, d: map<string, Address>): Configuration {
    map id | id in c.Keys + d.Keys && Goal(dns, c, d, id).Some? :: Goal(dns, c, d, id).value
  }

  function Entry(c: Configuration, id: string): Option<Address> {
    if id in c then Some(c[id]) else None
  }

  lemma FinalAt(dns: Dns, c: Configuration, d: map<string, Address>, id: string)
    ensures Entry(Final(dns, c, d), id) == Goal(dns, c, d, id)
  {
  }

  lemma EntriesDecide(a: Configuration, b: Configuration)
    requires forall id :: Entry(a, id) == Entry(b, id)
    ensures a == b
  {
    forall id ensures id in a <==> id in b {
      assert Entry(a, id) == Entry(b, id);
    }
    forall id | id in a ensures a[id] == b[id] {
      assert Entry(a, id) == Entry(b, id);
    }
  }

  /** No peer is newly added while its name does not resolve, and every resolvable desired peer is in. */
  lemma FinalMembers(dns: Dns, c: Configuration, d: map<string, Address>, id: string)
    ensures id in Final(dns, c, d) <==> id in d && (id in c || Resolvable(dns, d[id]))
    ensures id in Final(dns, c, d) && id !in c ==> Resolvable(dns, d[id]) && Final(dns, c, d)[id] == d[id]
  {
    FinalAt(dns, c, d, id);
  }

  /** A configuration on the way: each ID is as it was, gone, or as it will be. */
  ghost predicate Between(dns: Dns, c: Configuration, d: map<string, Address>, x: Configuration) {
    forall id :: BetweenAt(dns, c, d, x, id)
  }

  ghost predicate BetweenAt(dns: Dns, c: Configuration, d: map<string, Address>, x: Configuration, id: string) {
    || Entry(x, id) == Entry(c, id)
    || Entry(x, id) == Goal(dns, c, d, id)
    // An address update removes the server before it adds it back.
    || (id !in x && id in c && id in d && AddrChanged(dns, c[id], d[id]) && Resolvable(dns, d[id]))
  }

  /** Does the name of the address exist? Anything but a host name needs no look-up. */
  predicate Exists(dns: Dns, a: Address) {
    a.HostName? && a.host != "" ==> a.host in dns.exists_
  }

  /** What a reconciliation leaves for one ID, by the addresses and the DNS alone. A server that was in gets the
      desired address if that is literal or malformed; if it is a name that exists, it does too, unless the old
      address is what the name resolves to; if the name does not exist, it is left alone. */
  ghost predicate EndsRight(dns: Dns, c: Configuration, d: map<string, Address>, end: Configuration, id: string) {
    && (id !in d ==> id !in end)
    && (id in d && id !in c ==> if Exists(dns, d[id]) then id in end && end[id] == d[id] else id !in end)
    && (id in d && id in c ==> id in end)
    && (id in d && id in c && !d[id].HostName? ==> end[id] == d[id])
    && (id in d && id in c && d[id].HostName? && Exists(dns, d[id]) ==>
          end[id] == if d[id] in dns.resolved && dns.resolved[d[id]] == c[id] then c[id] else d[id])
    && (id in d && id in c && !Exists(dns, d[id]) ==> end[id] == c[id])
  }

  ghost predicate AllEndRight(dns: Dns, c: Configuration, d: map<string, Address>, end: Configuration) {
    forall id :: EndsRight(dns, c, d, end, id)
  }

  lemma FinalEndsRight(dns: Dns, c: Configuration, d: map<string, Address>)
    ensures AllEndRight(dns, c, d, Final(dns, c, d))
  {
    forall id ensures EndsRight(dns, c, d, Final(dns, c, d), id) {
      FinalAt(dns, c, d, id);
    }
  }

  /** A server whose address is the desired one. */
  predicate InPlace(c: Configuration, d: map<string, Address>, id: string) {
    id in c && id in d && c[id] == d[id]
  }

  /** From the n-th configuration on, no server that was in place is ever touched. */
  ghost predicate Untouched(c: Configuration, d: map<string, Address>, history: seq<Configuration>, n: nat) {
    forall id, i :: InPlace(c, d, id) && n <= i < |history| ==> Entry(history[i], id) == Some(c[id])
  }

  lemma StillUntouched(c: Configuration, d: map<string, Address>, history: seq<Configuration>, n: nat, next: Configuration)
    requires Untouched(c, d, history, n) && forall id :: InPlace(c, d, id) ==> Entry(next, id) == Some(c[id])
    ensures Untouched(c, d, history + [next], n)
  {
  }

  /** From anywhere on the way the target is the same, so a run that failed is completed by the next one. */
  lemma SameTargetFromBetween(dns: Dns, c: Configuration, d: map<string, Address>, x: Configuration)
    requires Between(dns, c, d, x)
    ensures Final(dns, x, d) == Final(dns, c, d)
  {
    forall id ensures Entry(Final(dns, x, d), id) == Entry(Final(dns, c, d), id) {
      FinalAt(dns, x, d, id);
      FinalAt(dns, c, d, id);
      assert BetweenAt(dns, c, d, x, id);
    }
    EntriesDecide(Final(dns, x, d), Final(dns, c, d));
  }

  /** A second reconciliation has nothing to do. */
  lemma FinalIsStable(dns: Dns, c: Configuration, d: map<string, Address>)
    ensures Final(dns, Final(dns, c, d), d) == Final(dns, c, d)
    ensures Settled(dns, Final(dns, c, d), d)
  {
    var f := Final(dns, c, d);
    forall id ensures BetweenAt(dns, c, d, f, id) && (id in f ==> id in d) {
      FinalAt(dns, c, d, id);
    }
    SameTargetFromBetween(dns, c, d, f);
    forall id | id in d && !(id in f && !AddrChanged(dns, f[id], d[id])) ensures !Resolvable(dns, d[id]) {
      FinalAt(dns, c, d, id);
    }
  }

  /** Reconciliation makes no call on such a configuration. */
  ghost predicate Settled(dns: Dns, c: Configuration, d: map<string, Address>) {
    && (forall id :: id in c ==> id in d)
    && (forall id :: id in d ==> (id in c && !AddrChanged(dns, c[id], d[id])) || !Resolvable(dns, d[id]))
  }

  // ---------------------------------------------------------------- quorums

  ghost predicate OneServerApart(a: Configuration, b: Configuration) {
    a.Keys == b.Keys || exists id :: b.Keys == a.Keys + {id} || a.Keys == b.Keys + {id}
  }

  /** Every configuration in the history differs from its predecessor by at most one server. */
  ghost predicate SingleServerChanges(history: seq<Configuration>) {
    forall i :: 0 <= i < |history| - 1 ==> OneServerApart(history[i], history[i + 1])
  }

  ghost predicate Majority(q: set<string>, c: set<string>) {
    q <= c && 2 * |q| > |c|
  }

  lemma SubsetSize(a: set<string>, b: set<string>)
    requires a <= b
    ensures |a| <= |b|
  {
    assert b == a + (b - a);
  }

  /** Majorities of a set and of the set with one more server have a server in common. */
  lemma MajoritiesOverlap(small: set<string>, id: string, q: set<string>, r: set<string>)
    requires Majority(q, small) && Majority(r, small + {id})
    ensures q * r != {}
  {
    var all := small + {id};
    assert |all| <= |small| + 1;
    SubsetSize(q + r, all);
    assert |q + r| == |q| + |r| - |q * r|;
  }

  /** Any majority before a single-server change meets any majority after it. */
  lemma MajoritiesIntersect(a: Configuration, b: Configuration, qa: set<string>, qb: set<string>)
    requires OneServerApart(a, b) && Majority(qa, a.Keys) && Majority(qb, b.Keys)
    ensures qa * qb != {}
  {
    if a.Keys == b.Keys {
      SubsetSize(qa + qb, a.Keys);
      assert |qa + qb| == |qa| + |qb| - |qa * qb|;
    } else {
      var id :| b.Keys == a.Keys + {id} || a.Keys == b.Keys + {id};
      if b.Keys == a.Keys + {id} {
        MajoritiesOverlap(a.Keys, id, qa, qb);
      } else {
        MajoritiesOverlap(b.Keys, id, qb, qa);
        assert qa * qb == qb * qa;
      }
    }
  }

  // ---------------------------------------------------------------- the leader

  class RaftLeader {
    var config: Configuration
    ghost var history: seq<Configuration>
    ghost var failures: nat  // calls that did not commit

    ghost predicate Valid()
      reads this
    {
      history != [] && history[|history| - 1] == config && SingleServerChanges(history)
    }

    constructor (initial: Configuration)
      ensures Valid() && config == initial && history == [initial]
    {
      config, history, failures := initial, [initial], 0;
    }

    /** A membership change commits or fails; which is up to the cluster. */
    method AddVoter(id: string, address: Address) returns (ok: bool)
      requires Valid()
      modifies this
      ensures Valid() && Extends(old(history), history)
      ensures config == if ok then old(config)[id := address] else old(config)
      ensures history == if ok then old(history) + [config] else old(history)
      ensures failures == old(failures) + if ok then 0 else 1
    {
      ok := *;
      if ok {
        config := config[id := address];
        assert config.Keys == old(config).Keys + {id};
        history := history + [config];
      } else {
        failures := failures + 1;
      }
    }

    method RemoveServer(id: string) returns (ok: bool)
      requires Valid() && id in config
      modifies this
      ensures Valid() && Extends(old(history), history)
      ensures config == if ok then old(config) - {id} else old(config)
      ensures history == if ok then old(history) + [config] else old(history)
      ensures failures == old(failures) + if ok then 0 else 1
    {
      ok := *;
      if ok {
        config := config - {id};
        assert old(config).Keys == config.Keys + {id};
        history := history + [config];
      } else {
        failures := failures + 1;
      }
    }

    /** Whatever the iteration orders, a run without a failed call ends in Final; a failed call stops it on
        the way there. Configurations change by one server at a time. A settled one is left alone. */
    method ReconcileMembership(dns: Dns, desired: seq<Peer>)
      returns (ok: bool, added: set<string>, updated: set<string>, removed: set<string>)
      requires Valid()
      modifies this
      ensures Valid() && Extends(old(history), history)
      ensures ok <==> failures == old(failures)
      ensures ok ==> Reports(dns, old(config), ById(desired), added, updated, removed)
      ensures ok ==> config == Final(dns, old(config), ById(desired))
      ensures ok ==> AllEndRight(dns, old(config), ById(desired), config)
      ensures Untouched(old(config), ById(desired), history, |old(history)|)
      ensures Between(dns, old(config), ById(desired), config)
      ensures Settled(dns, old(config), ById(desired)) ==> ok && history == old(history)
    {
      var current := config;
      var desiredById := IndexDesired(desired);
      ghost var start := |history|;
      updated, removed := {}, {};
      ok, added := AddMissing(dns, current, desiredById, start);
      if !ok {
        return;
      }
      ok, updated := UpdateAddresses(dns, current, desiredById, start);
      if !ok {
        return;
      }
      ok, removed := RemoveExtra(dns, current, desiredById, start);
      if ok {
        forall id ensures Entry(config, id) == Entry(Final(dns, current, desiredById), id) {
          FinalAt(dns, current, desiredById, id);
        }
        EntriesDecide(config, Final(dns, current, desiredById));
        FinalEndsRight(dns, current, desiredById);
      }
    }

    method IndexDesired(desired: seq<Peer>) returns (byId: map<string, Address>)
      ensures byId == ById(desired)
    {
      byId := map[];
      for i := 0 to |desired|
        invariant byId == ById(desired[..i])
      {
        assert desired[..i + 1][..i] == desired[..i];
        if desired[i].id != "" {
          byId := byId[desired[i].id := desired[i].address];
        }
      }
      assert desired[..|desired|] == desired;
    }

    /** First loop: desired servers that are not in yet. */
    method AddMissing(dns: Dns, current: Configuration, d: map<string, Address>, ghost start: nat)
      returns (ok: bool, added: set<string>)
      requires Valid() && config == current
      requires Untouched(current, d, history, start)
      modifies this
      ensures Valid() && Extends(old(history), history)
      ensures Between(dns, current, d, config)
      ensures Untouched(current, d, history, start)
      ensures ok ==> forall id :: Entry(config, id) == AfterAdding(dns, current, d, id)
      ensures ok <==> failures == old(failures)
      ensures ok ==> forall id :: id in added <==> ToAdd(dns, current, d, id)
      ensures Settled(dns, current, d) ==> ok && history == old(history)
    {
      var todo := d.Keys;
      added := {};
      while todo != {}
        invariant Valid() && Extends(old(history), history)
        invariant Untouched(current, d, history, start)
        invariant todo <= d.Keys
        invariant forall id :: Entry(config, id) == if id in todo then Entry(current, id) else AfterAdding(dns, current, d, id)
        invariant failures == old(failures)
        invariant forall id :: id in added <==> ToAdd(dns, current, d, id) && id !in todo
        invariant Settled(dns, current, d) ==> history == old(history)
        decreases todo
      {
        var id :| id in todo;
        assert Between(dns, current, d, config) by {
          forall x ensures BetweenAt(dns, current, d, config, x) {
          }
        }
        todo := todo - {id};
        if id !in current && Resolvable(dns, d[id]) {
          ghost var beforeAdd := history;
          ok := AddVoter(id, d[id]);
          if !ok {
            return;
          }
          StillUntouched(current, d, beforeAdd, start, config);
          added := added + {id};
        }
      }
      ok := true;
      forall x ensures BetweenAt(dns, current, d, config, x) {
      }
    }

    /** Second loop: servers whose address changed are removed and added back. */
    method UpdateAddresses(dns: Dns, current: Configuration, d: map<string, Address>, ghost start: nat)
      returns (ok: bool, updated: set<string>)
      requires Valid() && forall id :: Entry(config, id) == AfterAdding(dns, current, d, id)
      requires Untouched(current, d, history, start)
      modifies this
      ensures Valid() && Extends(old(history), history)
      ensures Between(dns, current, d, config)
      ensures Untouched(current, d, history, start)
      ensures ok ==> forall id :: Entry(config, id) == AfterUpdating(dns, current, d, id)
      ensures ok <==> failures == old(failures)
      ensures ok ==> forall id :: id in updated <==> ToUpdate(dns, current, d, id)
      ensures Settled(dns, current, d) ==> ok && history == old(history)
    {
      var todo := d.Keys;
      updated := {};
      while todo != {}
        invariant Valid() && Extends(old(history), history)
        invariant Untouched(current, d, history, start)
        invariant todo <= d.Keys
        invariant forall id :: Entry(config, id)
                    == if id in todo then AfterAdding(dns, current, d, id) else AfterUpdating(dns, current, d, id)
        invariant failures == old(failures)
        invariant forall id :: id in updated <==> ToUpdate(dns, current, d, id) && id !in todo
        invariant Settled(dns, current, d) ==> history == old(history)
        decreases todo
      {
        var id :| id in todo;
        todo := todo - {id};
        forall x ensures BetweenAt(dns, current, d, config, x) {
        }
        if id in current && AddrChanged(dns, current[id], d[id]) && Resolvable(dns, d[id]) {
          ok := ReplaceServer(current, d, id, start);
          forall x ensures BetweenAt(dns, current, d, config, x) {
          }
          if !ok {
            return;
          }
          updated := updated + {id};
        }
      }
      ok := true;
      forall x ensures BetweenAt(dns, current, d, config, x) {
      }
    }

    /** Removes a server and adds it back with its new address. */
    method ReplaceServer(current: Configuration, d: map<string, Address>, id: string, ghost start: nat) returns (ok: bool)
      requires Valid() && id in config && id in d && !InPlace(current, d, id)
      requires Untouched(current, d, history, start)
      requires forall x :: InPlace(current, d, x) ==> Entry(config, x) == Some(current[x])
      modifies this
      ensures Valid() && Extends(old(history), history) && Untouched(current, d, history, start)
      ensures ok ==> config == old(config)[id := d[id]]
      ensures !ok ==> config == old(config) || config == old(config) - {id}
      ensures if ok then failures == old(failures) else failures == old(failures) + 1
    {
      ghost var before := history;
      ok := RemoveServer(id);
      if !ok {
        return;
      }
      StillUntouched(current, d, before, start, config);
      ghost var between := history;
      ok := AddVoter(id, d[id]);
      if !ok {
        return;
      }
      StillUntouched(current, d, between, start, config);
      assert config == old(config)[id := d[id]];
    }

    /** Third loop: servers that are no longer desired. */
    method RemoveExtra(dns: Dns, current: Configuration, d: map<string, Address>, ghost start: nat)
      returns (ok: bool, removed: set<string>)
      requires Valid() && forall id :: Entry(config, id) == AfterUpdating(dns, current, d, id)
      requires Untouched(current, d, history, start)
      modifies this
      ensures Valid() && Extends(old(history), history)
      ensures Between(dns, current, d, config)
      ensures Untouched(current, d, history, start)
      ensures ok ==> forall id :: Entry(config, id) == Goal(dns, current, d, id)
      ensures ok <==> failures == old(failures)
      ensures ok ==> forall id :: id in removed <==> ToRemove(current, d, id)
      ensures Settled(dns, current, d) ==> ok && history == old(history)
    {
      var todo := current.Keys;
      removed := {};
      while todo != {}
        invariant Valid() && Extends(old(history), history)
        invariant Untouched(current, d, history, start)
        invariant todo <= current.Keys
        invariant forall id :: Entry(config, id)
                    == if id in todo then AfterUpdating(dns, current, d, id) else Goal(dns, current, d, id)
        invariant failures == old(failures)
        invariant forall id :: id in removed <==> ToRemove(current, d, id) && id !in todo
        invariant Settled(dns, current, d) ==> history == old(history)
        decreases todo
      {
        var id :| id in todo;
        forall x ensures BetweenAt(dns, current, d, config, x) {
        }
        todo := todo - {id};
        if id !in d {
          assert Entry(config, id) == Some(current[id]);
          ghost var before := history;
          ok := RemoveServer(id);
          if !ok {
            return;
          }
          StillUntouched(current, d, before, start, config);
          removed := removed + {id};
        }
      }
      ok := true;
      forall x ensures BetweenAt(dns, current, d, config, x) {
      }
    }
  }

  /** The IDs each loop acts on. */
  predicate ToAdd(dns: Dns, c: Configuration, d: map<string, Address>, id: string) {
    id in d && id !in c && Resolvable(dns, d[id])
  }

  predicate ToUpdate(dns: Dns, c: Configuration, d: map<string, Address>, id: string) {
    id in d && id in c && AddrChanged(dns, c[id], d[id]) && Resolvable(dns, d[id])
  }

  predicate ToRemove(c: Configuration, d: map<string, Address>, id: string) {
    id in c && id !in d
  }

  /** What a successful run reports is what it changed. */
  ghost predicate Reports(dns: Dns, c: Configuration, d: map<string, Address>, added: set<string>, updated: set<string>,
                          removed: set<string>)
  {
    && (forall id :: id in added <==> ToAdd(dns, c, d, id))
    && (forall id :: id in updated <==> ToUpdate(dns, c, d, id))
    && (forall id :: id in removed <==> ToRemove(c, d, id))
  }

  predicate Extends(a: seq<Configuration>, b: seq<Configuration>) {
    |a| <= |b| && b[..|a|] == a
  }

  /** What each loop leaves for one ID. */
  function AfterAdding(dns: Dns, c: Configuration, d: map<string, Address>, id: string): Option<Address> {
    if id in d && id !in c && Resolvable(dns, d[id]) then Some(d[id]) else Entry(c, id)
  }

  function AfterUpdating(dns: Dns, c: Configuration, d: map<string, Address>, id: string): Option<Address> {
    if id in d then Goal(dns, c, d, id) else Entry(c, id)
  }
}
