/** Generation fencing over whole runs (internal/server/server.go): a forced recovery of ordinal 0 bumps the
    cluster generation, so that nodes which were down meanwhile give up their old Raft state. Starting a
    node is split into the steps between which it can crash. */
module Fencing {
  import opened Basics
  import opened GenerationStore

  // A Raft configuration that was bootstrapped or forced, told apart from all others by its serial number;
  // `generation` is what the node that made it worked under.
  datatype Conf = Conf(generation: nat, serial: nat)

  // `data` is the configuration in the node's Raft state; it is handed on when a node joins. None: no state.
  datatype Node = Node(file: nat, data: Option<Conf>, phase: Phase)

  datatype Phase =
    | Stopped
    | Starting(cluster: nat, wipe: bool, single: bool, force: bool)  // decided, Raft not open yet
    | Opened(cluster: nat)                                           // Raft open, file not written yet
    | Running

  // calm: no start was interrupted half way, and every file was written. made: the serial number of the next
  // configuration.
  datatype Cluster = Cluster(secret: nat, nodes: seq<Node>, calm: bool, made: nat)

  datatype Step =
    | Begin(i: nat, single: bool, flag: bool, readOk: bool, bumpOk: bool)
    | Wipe(i: nat)
    | Open(i: nat)
    | Record(i: nat, written: bool)
    | Crash(i: nat)
    | Join(leader: nat, i: nat)

  predicate Live(n: Node) { n.phase.Opened? || n.phase.Running? }

  function StartOf(step: Step): Start
    requires step.Begin?
  {
    Start(step.i == 0, step.single, step.flag, step.readOk, step.bumpOk)
  }

  predicate OthersStopped(c: Cluster) {
    forall i :: 0 < i < |c.nodes| ==> c.nodes[i].phase.Stopped?
  }

  predicate Enabled(c: Cluster, step: Step) {
    match step
    case Begin(i, _, _, _, _) => i < |c.nodes| && c.nodes[i].phase.Stopped?
    case Wipe(i) => i < |c.nodes| && c.nodes[i].phase.Starting? && c.nodes[i].phase.wipe
    case Open(i) => i < |c.nodes| && c.nodes[i].phase.Starting? && !c.nodes[i].phase.wipe
    case Record(i, _) => i < |c.nodes| && c.nodes[i].phase.Opened?
    case Crash(i) => i < |c.nodes| && !c.nodes[i].phase.Stopped?
    case Join(l, i) =>
      l < |c.nodes| && i < |c.nodes| && Live(c.nodes[l]) && c.nodes[l].data.Some? && Live(c.nodes[i])
  }

  /** Raft state after opening: ordinal 0 forces its configuration in a single-node recovery, and
      bootstraps when it has no state; other nodes open what they have. */
  function OpenedData(n: Node, i: nat, serial: nat): Option<Conf>
    requires n.phase.Starting?
  {
    if i == 0 && (n.data.None? || n.phase.single) then Some(Conf(n.phase.cluster, serial)) else n.data
  }

  function Do(c: Cluster, step: Step): Cluster
    requires Enabled(c, step)
  {
    var n := c.nodes[step.i];
    match step
    case Begin(i, single, _, _, _) =>
      var d := Decide(c.secret, n.file, StartOf(step));
      var starting := Starting(d.cluster, d.wipe, i == 0 && single && !d.wipe, Recovers(StartOf(step)));
      c.(secret := d.secret, nodes := c.nodes[i := n.(phase := starting)])
    case Wipe(i) => c.(nodes := c.nodes[i := n.(data := None, phase := n.phase.(wipe := false))])
    case Open(i) =>
      c.(nodes := c.nodes[i := Node(n.file, OpenedData(n, i, c.made), Opened(n.phase.cluster))], made := c.made + 1)
    case Record(i, written) =>
      c.(nodes := c.nodes[i := n.(file := if written then n.phase.cluster else n.file, phase := Running)],
         calm := c.calm && written)
    case Crash(i) =>
      c.(nodes := c.nodes[i := n.(phase := Stopped)],
         calm := c.calm && (n.phase.Running? || (n.phase.Starting? && !n.phase.force)))
    case Join(l, i) => c.(nodes := c.nodes[i := n.(data := c.nodes[l].data)])
  }

  function Fresh(count: nat): Cluster {
    Cluster(0, seq(count, _ => Node(0, None, Stopped)), true, 0)
  }

  /** The assumptions: the Secret answers, recovery happens only while every other node is stopped, and the
      generation does not overflow. */
  predicate Allowed(c: Cluster, step: Step) {
    step.Begin? ==>
      step.readOk && step.bumpOk && (Recovers(StartOf(step)) ==> OthersStopped(c) && c.secret + 1 < TWO_64)
  }

  ghost predicate IsRun(steps: seq<Step>, states: seq<Cluster>) {
    && |states| == |steps| + 1
    && states[0] == Fresh(|states[0].nodes|) && |states[0].nodes| > 0
    && forall k :: 0 <= k < |steps| ==> Enabled(states[k], steps[k]) && states[k + 1] == Do(states[k], steps[k])
  }

  ghost predicate AllowedRun(steps: seq<Step>, states: seq<Cluster>) {
    IsRun(steps, states) && forall k :: 0 <= k < |steps| ==> Allowed(states[k], steps[k])
  }

  // ---------------------------------------------------------------- the invariant

  /** A node that will not come up with the Raft state it has. */
  predicate Fenced(n: Node, secret: nat) {
    || n.data.None?
    || (n.phase.Stopped? && n.file < secret)
    || (n.phase.Starting? && n.phase.wipe && n.file < secret)
  }

  /** Ordinal 0 is about to force a new configuration, or has none. */
  predicate NoCurrent(zero: Node) {
    zero.data.None? || (zero.phase.Starting? && zero.phase.force)
  }

  ghost predicate NodeInv(n: Node, zero: Node, secret: nat) {
    && n.file <= secret
    && (n.phase.Starting? || n.phase.Opened? ==> n.phase.cluster == secret)
    && (NoCurrent(zero) ==> Fenced(n, secret))
    && (n.data.Some? && n.data != zero.data ==> Fenced(n, secret))
    && (n.phase.Starting? ==> !n.phase.force && !n.phase.single)
  }

  ghost predicate ZeroInv(zero: Node, secret: nat) {
    && zero.file <= secret
    && (zero.phase.Starting? || zero.phase.Opened? ==> zero.phase.cluster == secret)
    && (zero.phase.Starting? && (zero.phase.wipe || zero.phase.single) ==> zero.phase.force)
    && (zero.phase.Starting? && zero.phase.force && zero.data.Some? ==> zero.phase.wipe || zero.phase.single)
    && (Live(zero) ==> zero.data.Some?)
  }

  predicate KnownConf(n: Node, made: nat) { n.data.Some? ==> n.data.value.serial < made }

  ghost predicate Inv(c: Cluster) {
    && |c.nodes| > 0 && c.secret < TWO_64
    && ZeroInv(c.nodes[0], c.secret)
    && (forall i :: 0 <= i < |c.nodes| ==> KnownConf(c.nodes[i], c.made))
    && forall i :: 0 < i < |c.nodes| ==> NodeInv(c.nodes[i], c.nodes[0], c.secret)
  }

  lemma KnownStaysKnown(c: Cluster, step: Step)
    requires Enabled(c, step) && forall i :: 0 <= i < |c.nodes| ==> KnownConf(c.nodes[i], c.made)
    ensures var c' := Do(c, step); forall i :: 0 <= i < |c'.nodes| ==> KnownConf(c'.nodes[i], c'.made)
  {
    var c' := Do(c, step);
    forall i | 0 <= i < |c'.nodes| ensures KnownConf(c'.nodes[i], c'.made) {
      assert KnownConf(c.nodes[i], c.made);
      assert step.Join? ==> KnownConf(c.nodes[step.leader], c.made);
    }
  }

  lemma BeginKeepsInv(c: Cluster, step: Step)
    requires Inv(c) && step.Begin? && Enabled(c, step) && Allowed(c, step)
    ensures Inv(Do(c, step))
  {
    var c' := Do(c, step);
    KnownStaysKnown(c, step);
    forall i | 0 < i < |c.nodes| ensures NodeInv(c'.nodes[i], c'.nodes[0], c'.secret) {
      assert NodeInv(c.nodes[i], c.nodes[0], c.secret);
    }
  }

  lemma StepKeepsInv(c: Cluster, step: Step)
    requires Inv(c) && Enabled(c, step) && Allowed(c, step)
    ensures Inv(Do(c, step))
  {
    if step.Begin? {
      BeginKeepsInv(c, step);
    } else {
      var c' := Do(c, step);
      KnownStaysKnown(c, step);
      forall i | 0 < i < |c.nodes| ensures NodeInv(c'.nodes[i], c'.nodes[0], c'.secret) {
        assert NodeInv(c.nodes[i], c.nodes[0], c.secret);
        if step.Join? && step.leader > 0 {
          assert NodeInv(c.nodes[step.leader], c.nodes[0], c.secret);
        }
      }
    }
  }

  lemma {:induction false} RunKeepsInv(steps: seq<Step>, states: seq<Cluster>, k: nat)
    requires AllowedRun(steps, states) && k < |states|
    ensures Inv(states[k])
  {
    if k > 0 {
      RunKeepsInv(steps, states, k - 1);
      StepKeepsInv(states[k - 1], steps[k - 1]);
    }
  }

  /** No split brain: in every run, crashes during a start included, all live nodes that hold Raft state
      hold state of the configuration that ordinal 0 has. */
  lemma LiveNodesAgree(steps: seq<Step>, states: seq<Cluster>, k: nat, i: nat, j: nat)
    requires AllowedRun(steps, states) && k < |states| && i < |states[k].nodes| && j < |states[k].nodes|
    requires Live(states[k].nodes[i]) && states[k].nodes[i].data.Some?
    requires Live(states[k].nodes[j]) && states[k].nodes[j].data.Some?
    ensures states[k].nodes[i].data == states[k].nodes[j].data == states[k].nodes[0].data
  {
    RunKeepsInv(steps, states, k);
    assert i > 0 ==> NodeInv(states[k].nodes[i], states[k].nodes[0], states[k].secret);
    assert j > 0 ==> NodeInv(states[k].nodes[j], states[k].nodes[0], states[k].secret);
  }

  /** A stopped node with state of an older configuration is told to wipe it when it starts. */
  lemma StaleNodeIsWiped(steps: seq<Step>, states: seq<Cluster>, k: nat, begin: Step)
    requires AllowedRun(steps, states) && k < |states|
    requires begin.Begin? && 0 < begin.i < |states[k].nodes| && Enabled(states[k], begin) && Allowed(states[k], begin)
    requires var n := states[k].nodes[begin.i]; n.data.Some? && n.data != states[k].nodes[0].data
    ensures var n := Do(states[k], begin).nodes; begin.i < |n| && n[begin.i].phase.Starting? && n[begin.i].phase.wipe
  {
    RunKeepsInv(steps, states, k);
    assert NodeInv(states[k].nodes[begin.i], states[k].nodes[0], states[k].secret);
  }

  // ---------------------------------------------------------------- generations match exactly

  /** While no start was cut short: files and Raft states carry the same generation. */
  ghost predicate Exact(c: Cluster)
    requires |c.nodes| > 0
  {
    c.calm ==>
      && (!NoCurrent(c.nodes[0]) ==> c.nodes[0].data.value.generation == c.secret)
      && forall i :: 0 <= i < |c.nodes| ==> ExactNode(c.nodes[i], c.secret)
  }

  ghost predicate ExactNode(n: Node, secret: nat) {
    && (n.data.Some? && (n.phase.Stopped? || n.phase.Starting?) ==> n.data.value.generation == n.file)
    && (n.phase.Running? ==> n.file == secret)
  }

  lemma StepKeepsExact(c: Cluster, step: Step)
    requires |c.nodes| > 0
    requires Inv(c) && Exact(c) && Enabled(c, step) && Allowed(c, step)
    ensures |Do(c, step).nodes| > 0 && Exact(Do(c, step))
  {
    var c' := Do(c, step);
    if c'.calm {
      forall i | 0 <= i < |c.nodes| ensures ExactNode(c'.nodes[i], c'.secret) {
        assert ExactNode(c.nodes[i], c.secret);
        assert i > 0 ==> NodeInv(c.nodes[i], c.nodes[0], c.secret);
      }
      assert ExactNode(c.nodes[0], c.secret);
      if step.Join? && step.i == 0 && step.leader > 0 {
        assert NodeInv(c.nodes[step.leader], c.nodes[0], c.secret);
      }
    }
  }

  lemma {:induction false} RunKeepsExact(steps: seq<Step>, states: seq<Cluster>, k: nat)
    requires AllowedRun(steps, states) && k < |states|
    ensures Inv(states[k]) && Exact(states[k])
  {
    RunKeepsInv(steps, states, k);
    if k > 0 {
      RunKeepsExact(steps, states, k - 1);
      StepKeepsExact(states[k - 1], steps[k - 1]);
    }
  }

  /** If no start is cut short, a running node with Raft state holds state of the current generation, and a
      stopped node's state has the generation of its file. */
  lemma GenerationsMatch(steps: seq<Step>, states: seq<Cluster>, k: nat, i: nat)
    requires AllowedRun(steps, states) && k < |states| && i < |states[k].nodes| && states[k].calm
    ensures var c := states[k];
            var n := c.nodes[i];
            n.data.Some? ==>
              && (Live(n) ==> n.data.value.generation == c.secret)
              && (n.phase.Stopped? ==> n.data.value.generation == n.file)
  {
    RunKeepsExact(steps, states, k);
    assert ExactNode(states[k].nodes[i], states[k].secret);
    assert i > 0 ==> NodeInv(states[k].nodes[i], states[k].nodes[0], states[k].secret);
  }

  // ---------------------------------------------------------------- when the Secret cannot be read or written

  /** The node holds no configuration, or that of ordinal 0. */
  predicate Agrees(c: Cluster, i: nat)
    requires i < |c.nodes|
  {
    c.nodes[i].data.None? || c.nodes[i].data == c.nodes[0].data
  }

  /** Exactly when a failed read does no harm: the node comes up in agreement with a live ordinal 0 if and only
      if it had no Raft state or its file already carries the current generation. */
  lemma FailedReadHarmlessIff(steps: seq<Step>, states: seq<Cluster>, k: nat, i: nat)
    requires AllowedRun(steps, states) && k < |states| && 0 < i < |states[k].nodes| && states[k].calm
    requires Live(states[k].nodes[0]) && states[k].nodes[i].phase.Stopped?
    ensures var c := states[k];
            var c1 := Do(c, Begin(i, false, false, false, true));
            && Enabled(c1, Open(i))
            && (Agrees(Do(c1, Open(i)), i) <==> c.nodes[i].data.None? || c.nodes[i].file == c.secret)
  {
    RunKeepsExact(steps, states, k);
    var c := states[k];
    assert NodeInv(c.nodes[i], c.nodes[0], c.secret) && ExactNode(c.nodes[i], c.secret);
  }

  /** Ordinal 0 recovers alone, but the bump fails. */
  function UnbumpedRecovery(c: Cluster): Cluster
    requires |c.nodes| > 0 && c.nodes[0].phase.Stopped?
  {
    Do(Do(c, Begin(0, true, false, true, false)), Open(0))
  }

  /** Node i starts with the Secret readable, wiping its state where it is told to. */
  function Started(c: Cluster, i: nat): Cluster
    requires 0 < i < |c.nodes| && c.nodes[i].phase.Stopped?
  {
    var c1 := Do(c, Begin(i, false, false, true, true));
    if c1.nodes[i].phase.wipe then Do(Do(c1, Wipe(i)), Open(i)) else Do(c1, Open(i))
  }

  /** A recovery whose bump fails does no harm to node i exactly if it had no Raft state, or a file that was
      older than the current generation even before. */
  lemma FailedBumpHarmlessIff(steps: seq<Step>, states: seq<Cluster>, k: nat, i: nat)
    requires AllowedRun(steps, states) && k < |states| && 0 < i < |states[k].nodes|
    requires states[k].nodes[0].phase.Stopped? && states[k].nodes[i].phase.Stopped?
    ensures var c := states[k];
            Agrees(Started(UnbumpedRecovery(c), i), i) <==> c.nodes[i].data.None? || c.nodes[i].file < c.secret
  {
    RunKeepsInv(steps, states, k);
    var c := states[k];
    assert KnownConf(c.nodes[i], c.made);
    assert c.nodes[0].data.Some? ==> KnownConf(c.nodes[0], c.made);
  }

  /** The steps take the cluster from c to c'. */
  predicate Leads(c: Cluster, steps: seq<Step>, c': Cluster)
    decreases |steps|
  {
    if steps == [] then c == c'
    else Enabled(c, steps[0]) && Leads(Do(c, steps[0]), steps[1..], c')
  }

  lemma {:induction false} LeadsConcat(a: Cluster, x: seq<Step>, b: Cluster, y: seq<Step>, c: Cluster)
    requires Leads(a, x, b) && Leads(b, y, c)
    ensures Leads(a, x + y, c)
    decreases |x|
  {
    if x == [] {
      assert x + y == y;
    } else {
      assert (x + y)[1..] == x[1..] + y;
      LeadsConcat(Do(a, x[0]), x[1..], b, y, c);
    }
  }

  lemma OneStep(c: Cluster, step: Step)
    requires Enabled(c, step)
    ensures Leads(c, [step], Do(c, step))
  {
    assert [step][1..] == [];
  }

  /** An ordinary start in three steps: what the node holds afterwards. */
  lemma OrdinaryStart(c: Cluster, i: nat)
    requires i < |c.nodes| && c.nodes[i].phase.Stopped? && c.nodes[i].file == c.secret
    ensures var data := if i == 0 && c.nodes[i].data.None? then Some(Conf(c.secret, c.made)) else c.nodes[i].data;
            Leads(c, [Begin(i, false, false, true, true), Open(i), Record(i, true)],
                  c.(nodes := c.nodes[i := Node(c.secret, data, Running)], made := c.made + 1))
  {
    var steps := [Begin(i, false, false, true, true), Open(i), Record(i, true)];
    var c1 := Do(c, steps[0]);
    var c2 := Do(c1, steps[1]);
    var c3 := Do(c2, steps[2]);
    OneStep(c2, steps[2]);
    assert steps[1..] == [steps[1], steps[2]] && [steps[1], steps[2]][1..] == [steps[2]];
    var data := if i == 0 && c.nodes[i].data.None? then Some(Conf(c.secret, c.made)) else c.nodes[i].data;
    assert c3.nodes == c.nodes[i := Node(c.secret, data, Running)];
  }

  /** One failed read breaks the fence: a node that was down during a recovery comes back with its old
      state next to the recovered one. */
  lemma FailedReadBreaksFence() returns (steps: seq<Step>, c: Cluster)
    ensures Leads(Fresh(2), steps, c) && |c.nodes| == 2 && Live(c.nodes[0]) && Live(c.nodes[1])
    ensures c.nodes[0].data == Some(Conf(1, 2)) && c.nodes[1].data == Some(Conf(0, 0))
  {
    var c0 := Fresh(2);
    OrdinaryStart(c0, 0);
    var c1 := c0.(nodes := c0.nodes[0 := Node(0, Some(Conf(0, 0)), Running)], made := 1);
    OrdinaryStart(c1, 1);
    var c2 := c1.(nodes := c1.nodes[1 := Node(0, None, Running)], made := 2);
    var s1, s2 := [Begin(0, false, false, true, true), Open(0), Record(0, true)],
                  [Begin(1, false, false, true, true), Open(1), Record(1, true)];
    LeadsConcat(c0, s1, c1, s2, c2);
    c := RecoverWithFailedRead(c2);
    var rest := [Join(0, 1), Crash(1), Crash(0), Begin(0, true, false, true, true), Open(0),
                 Begin(1, false, false, false, true), Open(1)];
    LeadsConcat(c0, s1 + s2, c2, rest, c);
    steps := s1 + s2 + rest;
  }

  lemma RecoverWithFailedRead(c: Cluster) returns (c7: Cluster)
    requires c == Cluster(0, [Node(0, Some(Conf(0, 0)), Running), Node(0, None, Running)], true, 2)
    ensures c7.nodes == [Node(0, Some(Conf(1, 2)), Opened(1)), Node(0, Some(Conf(0, 0)), Opened(0))]
    ensures Leads(c, [Join(0, 1), Crash(1), Crash(0), Begin(0, true, false, true, true), Open(0),
                      Begin(1, false, false, false, true), Open(1)], c7)
  {
    var c1 := Do(c, Join(0, 1));
    var c2 := Do(c1, Crash(1));
    var c3 := Do(c2, Crash(0));
    var c4 := Do(c3, Begin(0, true, false, true, true));
    var c5 := Do(c4, Open(0));
    var c6 := Do(c5, Begin(1, false, false, false, true));
    c7 := Do(c6, Open(1));
    OneStep(c, Join(0, 1));
    OneStep(c1, Crash(1));
    OneStep(c2, Crash(0));
    OneStep(c3, Begin(0, true, false, true, true));
    OneStep(c4, Open(0));
    OneStep(c5, Begin(1, false, false, false, true));
    OneStep(c6, Open(1));
    LeadsConcat(c, [Join(0, 1)], c1, [Crash(1)], c2);
    LeadsConcat(c, [Join(0, 1)] + [Crash(1)], c2, [Crash(0)], c3);
    LeadsConcat(c, [Join(0, 1)] + [Crash(1)] + [Crash(0)], c3, [Begin(0, true, false, true, true)], c4);
    LeadsConcat(c4, [Open(0)], c5, [Begin(1, false, false, false, true)], c6);
    LeadsConcat(c4, [Open(0)] + [Begin(1, false, false, false, true)], c6, [Open(1)], c7);
    LeadsConcat(c, [Join(0, 1)] + [Crash(1)] + [Crash(0)] + [Begin(0, true, false, true, true)], c4,
                [Open(0)] + [Begin(1, false, false, false, true)] + [Open(1)], c7);
    assert [Join(0, 1)] + [Crash(1)] + [Crash(0)] + [Begin(0, true, false, true, true)]
           + ([Open(0)] + [Begin(1, false, false, false, true)] + [Open(1)])
        == [Join(0, 1), Crash(1), Crash(0), Begin(0, true, false, true, true), Open(0),
            Begin(1, false, false, false, true), Open(1)];
  }
}
