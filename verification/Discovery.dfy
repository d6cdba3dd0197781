/** Which node seeds the Raft cluster (internal/repository/raft_discovery.go, and resolveBootstrapState in
    raft.go). */
module Discovery {
  import opened Basics
  import opened Text

  datatype Peer = Peer(id: string, address: string)

  datatype Config = Config(
    nodeId: string, advertiseAddr: string, peers: seq<Peer>,
    replicas: int, statefulSet: string, headless: string, namespace: string)

  // ---------------------------------------------------------------- static peers

  function FindById(peers: seq<Peer>, id: string): Option<Peer> {
    if peers == [] then None
    else if peers[0].id == id then Some(peers[0]) else FindById(peers[1..], id)
  }

  function FindByAddress(peers: seq<Peer>, address: string): Option<Peer> {
    if peers == [] then None
    else if peers[0].address == address then Some(peers[0]) else FindByAddress(peers[1..], address)
  }

  /** The explicit entry for this node: by ID first, then by address. */
  function MatchSelf(c: Config): Option<Peer> {
    var byId := if c.nodeId == "" then None else FindById(c.peers, c.nodeId);
    if byId.Some? then byId
    else if c.advertiseAddr == "" then None
    else FindByAddress(c.peers, c.advertiseAddr)
  }

  /** Fails without any identity; `bindHost` is the address derived from the bind address. */
  function SynthesizeSelf(c: Config, bindHost: string): Option<Peer> {
    if c.nodeId == "" && c.advertiseAddr == "" then None
    else Some(Peer(c.nodeId, if c.advertiseAddr == "" then bindHost else c.advertiseAddr))
  }

  function StaticSelf(c: Config, bindHost: string): Option<Peer> {
    if MatchSelf(c).Some? then MatchSelf(c) else SynthesizeSelf(c, bindHost)
  }

  ghost predicate SortedById(peers: seq<Peer>) {
    forall i, j :: 0 <= i < j < |peers| ==> !StrLess(peers[j].id, peers[i].id)
  }

  /** What staticPeerResolver.Resolve may return: the sort is not stable, so only its outcome is fixed. */
  ghost predicate StaticResolvesTo(c: Config, bindHost: string, r: Option<seq<Peer>>) {
    if MatchSelf(c).Some? then r == Some(c.peers)
    else if SynthesizeSelf(c, bindHost).None? then r == None
    else
      && r.Some? && SortedById(r.value)
      && multiset(r.value) == multiset(c.peers) + multiset{SynthesizeSelf(c, bindHost).value}
  }

  method ResolveStatic(c: Config, bindHost: string) returns (r: Option<seq<Peer>>)
    ensures StaticResolvesTo(c, bindHost, r)
  {
    if MatchSelf(c).Some? {
      return Some(c.peers);
    }
    var self := SynthesizeSelf(c, bindHost);
    if self.None? {
      return None;
    }
    var peers := c.peers + [self.value];
    var sorted := SortPeers(peers);
    r := Some(sorted);
  }

  /** sort.Slice by ID, as an insertion sort. */
  method SortPeers(peers: seq<Peer>) returns (sorted: seq<Peer>)
    ensures SortedById(sorted) && multiset(sorted) == multiset(peers)
  {
    sorted := [];
    for i := 0 to |peers|
      invariant SortedById(sorted) && multiset(sorted) == multiset(peers[..i])
    {
      assert peers[..i + 1] == peers[..i] + [peers[i]];
      var k := |sorted|;
      while k > 0 && StrLess(peers[i].id, sorted[k - 1].id)
        invariant 0 <= k <= |sorted|
        invariant forall j :: k <= j < |sorted| ==> StrLess(peers[i].id, sorted[j].id)
      {
        k := k - 1;
      }
      InsertKeepsSorted(sorted, k, peers[i]);
      assert sorted == sorted[..k] + sorted[k..];
      sorted := sorted[..k] + [peers[i]] + sorted[k..];
    }
    assert peers[..|peers|] == peers;
  }

  lemma InsertKeepsSorted(s: seq<Peer>, k: nat, p: Peer)
    requires SortedById(s) && k <= |s|
    requires forall j :: k <= j < |s| ==> StrLess(p.id, s[j].id)
    requires k > 0 ==> !StrLess(p.id, s[k - 1].id)
    ensures SortedById(s[..k] + [p] + s[k..])
  {
    var t := s[..k] + [p] + s[k..];
    forall i, j | 0 <= i < j < |t| ensures !StrLess(t[j].id, t[i].id) {
      if j == k {
        // Everything before the gap is at most s[k-1], which is at most p.
        if StrLess(p.id, t[i].id) && i < k - 1 {
          LessTotal(t[i].id, s[k - 1].id);
          if StrLess(t[i].id, s[k - 1].id) {
            LessTransitive(p.id, t[i].id, s[k - 1].id);
          }
        }
      } else if i == k {
        LessAsymmetric(p.id, t[j].id);
      }
    }
  }

  lemma LessAsymmetric(a: string, b: string)
    requires StrLess(a, b)
    ensures !StrLess(b, a)
  {
    if StrLess(b, a) {
      LessTransitive(a, b, a);
      LessIrreflexive(a);
    }
  }

  // ---------------------------------------------------------------- who bootstraps

  /** resolveBootstrapState: the first peer of the resolved list seeds the cluster. */
  predicate ShouldBootstrap(self: Option<Peer>, resolved: seq<Peer>) {
    if self.None? || resolved == [] then true else self.value.id == resolved[0].id
  }

  ghost predicate DistinctPeers(peers: seq<Peer>) {
    forall i, j :: 0 <= i < j < |peers| ==> peers[i].id != peers[j].id && peers[i].address != peers[j].address
  }

  lemma {:induction false} FindByIdAt(peers: seq<Peer>, i: nat)
    requires i < |peers| && DistinctPeers(peers)
    ensures FindById(peers, peers[i].id) == Some(peers[i])
    ensures FindByAddress(peers, peers[i].address) == Some(peers[i])
  {
    if i > 0 {
      FindByIdAt(peers[1..], i - 1);
    }
  }

  lemma {:induction false} FindNothing(peers: seq<Peer>, id: string, address: string)
    ensures FindById(peers, id).None? <==> forall i :: 0 <= i < |peers| ==> peers[i].id != id
    ensures FindByAddress(peers, address).None? <==> forall i :: 0 <= i < |peers| ==> peers[i].address != address
  {
    if peers != [] {
      FindNothing(peers[1..], id, address);
    }
  }

  /** The identity of node i: its ID, or its address when it has no ID. */
  ghost predicate Identifies(c: Config, p: Peer) {
    (c.nodeId == p.id && c.nodeId != "") || (c.nodeId == "" && c.advertiseAddr == p.address && p.address != "")
  }

  /** All nodes list the same peers, themselves included, in the same order: exactly the first bootstraps. */
  lemma SameListBootstrapsOnce(nodes: seq<Config>, peers: seq<Peer>, bindHosts: seq<string>,
                               resolved: seq<Option<seq<Peer>>>)
    requires |nodes| == |peers| == |bindHosts| == |resolved| > 0 && DistinctPeers(peers)
    requires forall i :: 0 <= i < |nodes| ==> nodes[i].peers == peers && Identifies(nodes[i], peers[i])
    requires forall i :: 0 <= i < |nodes| ==> StaticResolvesTo(nodes[i], bindHosts[i], resolved[i])
    ensures forall i :: 0 <= i < |nodes| ==> resolved[i].Some?
    ensures forall i :: 0 <= i < |nodes| ==>
              (ShouldBootstrap(StaticSelf(nodes[i], bindHosts[i]), resolved[i].value) <==> i == 0)
  {
    forall i | 0 <= i < |nodes|
      ensures resolved[i].Some?
      ensures ShouldBootstrap(StaticSelf(nodes[i], bindHosts[i]), resolved[i].value) <==> i == 0
    {
      FindByIdAt(peers, i);
      assert StaticSelf(nodes[i], bindHosts[i]) == Some(peers[i]) && resolved[i] == Some(peers);
      assert i > 0 ==> peers[0].id != peers[i].id;
    }
  }

  /** The members of the cluster as node i sees them in the "other nodes" form. */
  ghost predicate ListsOthers(c: Config, members: seq<Peer>, i: nat, bindHost: string)
    requires i < |members|
  {
    && c.nodeId != ""
    && SynthesizeSelf(c, bindHost) == Some(members[i])
    && multiset(c.peers) == multiset(members) - multiset{members[i]}
  }

  lemma OthersDoNotMatch(c: Config, members: seq<Peer>, i: nat, bindHost: string)
    requires i < |members| && DistinctPeers(members) && ListsOthers(c, members, i, bindHost)
    ensures MatchSelf(c) == None
  {
    OnlyOnce(members, i);
    forall k | 0 <= k < |c.peers| ensures c.peers[k].id != members[i].id && c.peers[k].address != members[i].address {
      assert c.peers[k] in multiset(c.peers);
      assert c.peers[k] in members && c.peers[k] != members[i];
    }
    FindNothing(c.peers, c.nodeId, c.advertiseAddr);
  }

  lemma OnlyOnce(members: seq<Peer>, i: nat)
    requires i < |members| && DistinctPeers(members)
    ensures multiset(members)[members[i]] == 1
  {
    var a, b := members[..i], members[i + 1..];
    assert members == a + [members[i]] + b;
    assert members[i] !in a && members[i] !in b;
  }

  lemma SeesAllMembers(c: Config, members: seq<Peer>, i: nat, bindHost: string, r: Option<seq<Peer>>)
    requires i < |members| && DistinctPeers(members) && ListsOthers(c, members, i, bindHost)
    requires StaticResolvesTo(c, bindHost, r)
    ensures r.Some? && SortedById(r.value) && multiset(r.value) == multiset(members)
    ensures StaticSelf(c, bindHost) == Some(members[i])
  {
    OthersDoNotMatch(c, members, i, bindHost);
    OnlyOnce(members, i);
    assert members[i] in members;
  }

  ghost predicate Smallest(members: seq<Peer>, i: nat)
    requires i < |members|
  {
    forall j :: 0 <= j < |members| && j != i ==> StrLess(members[i].id, members[j].id)
  }

  /** The head of any sorted arrangement of the members is the one with the smallest ID. */
  lemma HeadIsSmallest(members: seq<Peer>, sorted: seq<Peer>)
    requires members != [] && DistinctPeers(members)
    requires SortedById(sorted) && multiset(sorted) == multiset(members)
    ensures sorted != [] && exists i: nat :: i < |members| && members[i] == sorted[0] && Smallest(members, i)
  {
    assert |sorted| == |multiset(sorted)| == |multiset(members)| == |members|;
    assert sorted[0] in multiset(sorted);
    assert sorted[0] in members;
    var i: nat :| i < |members| && members[i] == sorted[0];
    forall j | 0 <= j < |members| && j != i ensures StrLess(members[i].id, members[j].id) {
      assert members[j] in multiset(members);
      assert members[j] in sorted;
      var k :| 0 <= k < |sorted| && sorted[k] == members[j];
      assert members[i].id != members[j].id;
      assert k > 0;
      LessTotal(members[i].id, members[j].id);
    }
  }

  lemma SmallestUnique(members: seq<Peer>, i: nat, j: nat)
    requires i < |members| && j < |members| && Smallest(members, i) && Smallest(members, j)
    ensures i == j
  {
    if i != j {
      LessAsymmetric(members[i].id, members[j].id);
    }
  }

  lemma SameHead(a: seq<Peer>, b: seq<Peer>)
    requires SortedById(a) && SortedById(b) && multiset(a) == multiset(b) && DistinctPeers(a) && a != []
    ensures b != [] && a[0] == b[0]
  {
    HeadIsSmallest(a, a);
    HeadIsSmallest(a, b);
    var i: nat :| i < |a| && a[i] == a[0] && Smallest(a, i);
    var j: nat :| j < |a| && a[j] == b[0] && Smallest(a, j);
    SmallestUnique(a, i, j);
  }

  /** The sorted arrangement is unique, so every node computes the same list. */
  lemma {:induction false} SortedArrangementUnique(a: seq<Peer>, b: seq<Peer>)
    requires SortedById(a) && SortedById(b) && multiset(a) == multiset(b) && DistinctPeers(a)
    ensures a == b
  {
    if a == [] {
      assert |b| == |multiset(b)| == |multiset(a)| == 0;
    } else {
      SameHead(a, b);
      assert a == [a[0]] + a[1..] && b == [b[0]] + b[1..];
      TailOf(a);
      TailOf(b);
      SortedArrangementUnique(a[1..], b[1..]);
    }
  }

  lemma TailOf(s: seq<Peer>)
    requires s != []
    ensures multiset(s[1..]) == multiset(s) - multiset{s[0]}
  {
    assert s == [s[0]] + s[1..];
  }

  lemma BootstrapsIffSmallest(c: Config, members: seq<Peer>, i: nat, bindHost: string, r: Option<seq<Peer>>, s: nat)
    requires i < |members| && DistinctPeers(members) && ListsOthers(c, members, i, bindHost)
    requires StaticResolvesTo(c, bindHost, r)
    requires s < |members| && Smallest(members, s)
    ensures r.Some? && (ShouldBootstrap(StaticSelf(c, bindHost), r.value) <==> i == s)
  {
    SeesAllMembers(c, members, i, bindHost, r);
    HeadIsSmallest(members, r.value);
    var t: nat :| t < |members| && members[t] == r.value[0] && Smallest(members, t);
    SmallestUnique(members, s, t);
  }

  /** Each node lists exactly the others, in any order: exactly one bootstraps, the one with the smallest
      ID. The order of each list and the outcome of each sort do not matter. */
  lemma OthersListBootstrapsOnce(nodes: seq<Config>, members: seq<Peer>, bindHosts: seq<string>,
                                 resolved: seq<Option<seq<Peer>>>) returns (s: nat)
    requires |nodes| == |members| == |bindHosts| == |resolved| > 0 && DistinctPeers(members)
    requires forall i :: 0 <= i < |nodes| ==> ListsOthers(nodes[i], members, i, bindHosts[i])
    requires forall i :: 0 <= i < |nodes| ==> StaticResolvesTo(nodes[i], bindHosts[i], resolved[i])
    ensures s < |nodes| && Smallest(members, s)
    ensures forall i :: 0 <= i < |nodes| ==> resolved[i].Some?
    ensures forall i :: 0 <= i < |nodes| ==>
              (ShouldBootstrap(StaticSelf(nodes[i], bindHosts[i]), resolved[i].value) <==> i == s)
  {
    SeesAllMembers(nodes[0], members, 0, bindHosts[0], resolved[0]);
    HeadIsSmallest(members, resolved[0].value);
    s :| s < |members| && members[s] == resolved[0].value[0] && Smallest(members, s);
    forall i | 0 <= i < |nodes|
      ensures resolved[i].Some?
      ensures ShouldBootstrap(StaticSelf(nodes[i], bindHosts[i]), resolved[i].value) <==> i == s
    {
      BootstrapsIffSmallest(nodes[i], members, i, bindHosts[i], resolved[i], s);
    }
  }

  /** The others form needs node IDs: a node without one that is not listed itself always bootstraps, since the
      empty ID sorts first. */
  lemma NamelessAlwaysBootstraps(c: Config, bindHost: string, r: Option<seq<Peer>>)
    requires c.nodeId == "" && c.advertiseAddr != "" && MatchSelf(c).None?
    requires StaticResolvesTo(c, bindHost, r)
    ensures r.Some? && ShouldBootstrap(StaticSelf(c, bindHost), r.value)
  {
    var self := SynthesizeSelf(c, bindHost).value;
    assert self in multiset(r.value);
    var j :| 0 <= j < |r.value| && r.value[j] == self;
    if r.value[0].id != "" {
      assert StrLess(r.value[j].id, r.value[0].id);
    }
  }

  // ---------------------------------------------------------------- StatefulSet pods

  function PodName(statefulSet: string, ordinal: nat): string {
    statefulSet + "-" + Decimal(ordinal)
  }

  // strconv.Atoi works on 64-bit integers.
  const MAX_INT: nat := 0x7FFF_FFFF_FFFF_FFFF

  /** The ordinal of a pod host name. */
  function PodOrdinal(host: string, statefulSet: string): Option<nat> {
    if statefulSet == "" || !HasPrefix(host, statefulSet + "-") then None
    else
      var suffix := host[|statefulSet| + 1..];
      // Atoi also accepts a sign; a negative number is refused, but minus zero is zero.
      if suffix != "" && suffix[0] == '+' then ParseDecimal(suffix[1..], MAX_INT + 1)
      else if suffix != "" && suffix[0] == '-' then ParseDecimal(suffix[1..], 1)
      else ParseDecimal(suffix, MAX_INT + 1)
  }

  lemma PodOrdinalOfPodName(statefulSet: string, n: nat)
    requires statefulSet != "" && n <= MAX_INT
    ensures PodOrdinal(PodName(statefulSet, n), statefulSet) == Some(n)
  {
    var host := PodName(statefulSet, n);
    assert host[..|statefulSet| + 1] == statefulSet + "-";
    assert host[|statefulSet| + 1..] == Decimal(n);
    assert IsDigit(Decimal(n)[0]);
    ParseInvertsDecimal(n, MAX_INT + 1);
  }

  /** A host has an ordinal only if it is the StatefulSet's name, a dash, at most a sign, and digits. */
  lemma PodOrdinalOnlyOf(host: string, statefulSet: string)
    requires PodOrdinal(host, statefulSet).Some?
    ensures statefulSet != "" && HasPrefix(host, statefulSet + "-")
    ensures IsSignedNumber(host[|statefulSet| + 1..])
    ensures '-' in host[|statefulSet| + 1..] ==> PodOrdinal(host, statefulSet) == Some(0)
  {
    var suffix := host[|statefulSet| + 1..];
    if suffix[0] == '+' {
      ParsedAreDigits(suffix[1..], MAX_INT + 1);
    } else if suffix[0] == '-' {
      ParsedAreDigits(suffix[1..], 1);
    } else {
      ParsedAreDigits(suffix, MAX_INT + 1);
    }
  }

  predicate IsSignedNumber(s: string) {
    && s != "" && (IsDigit(s[0]) || (s[0] in {'+', '-'} && |s| > 1))
    && forall i :: 1 <= i < |s| ==> IsDigit(s[i])
  }

  /** Pod addresses follow from the host name; `suffix` is the service domain and port. */
  function DnsPeers(c: Config, suffix: string, n: nat): (r: seq<Peer>)
    ensures |r| == n
  {
    seq(n, i requires 0 <= i < n => Peer(PodName(c.statefulSet, i), PodName(c.statefulSet, i) + suffix))
  }

  function ResolveDns(c: Config, suffix: string): Option<seq<Peer>> {
    if c.replicas < 1 || c.statefulSet == "" || c.headless == "" || c.namespace == "" then None
    else Some(DnsPeers(c, suffix, c.replicas))
  }

  function DnsSelf(c: Config, suffix: string, host: string): Option<Peer> {
    if PodOrdinal(host, c.statefulSet).Some? then Some(Peer(host, host + suffix))
    else if c.advertiseAddr != "" then Some(Peer(c.nodeId, c.advertiseAddr))
    else None
  }

  /** Among the pods of a StatefulSet exactly ordinal 0 bootstraps. The server's own test for the bootstrap
      node, a host name ending in "-0", picks the same pod. */
  lemma OnlyOrdinalZeroBootstraps(c: Config, suffix: string, ordinal: nat)
    requires ResolveDns(c, suffix).Some? && ordinal <= MAX_INT
    ensures var host := PodName(c.statefulSet, ordinal);
            && (ShouldBootstrap(DnsSelf(c, suffix, host), ResolveDns(c, suffix).value) <==> ordinal == 0)
            && (HasSuffix(host, "-0") <==> ordinal == 0)
  {
    var host := PodName(c.statefulSet, ordinal);
    PodOrdinalOfPodName(c.statefulSet, ordinal);
    var first := ResolveDns(c, suffix).value[0];
    assert first.id == PodName(c.statefulSet, 0);
    LeadingZero(ordinal);
    LeadingZero(0);
    var d := Decimal(ordinal);
    assert host[|c.statefulSet| + 1..] == d && first.id[|c.statefulSet| + 1..] == Decimal(0);
    assert host[|host| - 1] == d[|d| - 1];
    if ordinal == 0 {
      assert host[|host| - 2..] == "-0";
    } else if |d| >= 2 {
      assert host[|host| - 2] == d[|d| - 2] && IsDigit(d[|d| - 2]);
    } else {
      assert d[0] != '0';
    }
  }
}
