/** Replaying the Raft log on a state that already contains part of it. Snapshot.Persist reads the live
    bucket (internal/repository/fsm.go, bolt.go), so a snapshot taken at one index can already contain
    later entries, which Raft then applies again. */
module FsmReplay {
  import opened Basics
  import opened Fsm

  function Replay(b: Bucket, log: seq<Command>, maxKey: nat): Bucket {
    if log == [] then b
    else ApplyEntry(Replay(b, log[..|log| - 1], maxKey), log[|log| - 1], maxKey).bucket
  }

  lemma {:induction false} ReplayConcat(b: Bucket, x: seq<Command>, y: seq<Command>, maxKey: nat)
    ensures Replay(b, x + y, maxKey) == Replay(Replay(b, x, maxKey), y, maxKey)
  {
    if y == [] {
      assert x + y == x;
    } else {
      assert (x + y)[..|x + y| - 1] == x + y[..|y| - 1];
      ReplayConcat(b, x, y[..|y| - 1], maxKey);
    }
  }

  lemma ReplaySnoc(b: Bucket, log: seq<Command>, cmd: Command, maxKey: nat)
    ensures Replay(b, log + [cmd], maxKey) == ApplyEntry(Replay(b, log, maxKey), cmd, maxKey).bucket
  {
    assert (log + [cmd])[..|log|] == log;
  }

  // ---------------------------------------------------------------- the effect on one key

  // What a log does to one key: nothing, a fixed outcome, or a value only where there was none.
  datatype Effect = Keep | Fix(outcome: Option<Value>) | Create(value: Value)

  function Do(e: Effect, v: Option<Value>): Option<Value> {
    match e
    case Keep => v
    case Fix(o) => o
    case Create(w) => if v.Some? then v else Some(w)
  }

  function AndThen(first: Effect, second: Effect): Effect {
    match second
    case Keep => first
    case Fix(o) => second
    case Create(w) =>
      match first
      case Keep => second
      case Fix(o) => Fix(if o.Some? then o else Some(w))
      case Create(x) => first
  }

  lemma AndThenMeansThen(f: Effect, g: Effect, v: Option<Value>)
    ensures Do(AndThen(f, g), v) == Do(g, Do(f, v))
  {
  }

  /** Doing something twice is doing it once: this is what makes replay harmless. */
  lemma EffectsAreIdempotent(f: Effect, g: Effect)
    ensures AndThen(f, AndThen(f, g)) == AndThen(f, g)
  {
  }

  // ---------------------------------------------------------------- effects of commands

  function ActionEffect(a: Action, key: string): Effect {
    match a
    case Put(k, v) => if k == key then Fix(Some(v)) else Keep
    case Del(k) => if k == key then Fix(None) else Keep
    case Fail(_) => Keep
  }

  function BatchEffect(acts: seq<Action>, key: string): Effect {
    if acts == [] then Keep
    else AndThen(BatchEffect(acts[..|acts| - 1], key), ActionEffect(acts[|acts| - 1], key))
  }

  lemma {:induction false} BatchEffectCorrect(b: Bucket, acts: seq<Action>, key: string, maxKey: nat)
    requires AllHarmless(acts, maxKey)
    ensures Lookup(RunActions(b, acts, maxKey).bucket, key) == Do(BatchEffect(acts, key), Lookup(b, key))
  {
    if acts != [] {
      var front, last := acts[..|acts| - 1], acts[|acts| - 1];
      assert acts == front + [last];
      AllHarmlessConcat(front, [last], maxKey);
      BatchEffectCorrect(b, front, key, maxKey);
      BatchSucceedsIff(b, front, maxKey);
      assert Harmless([last][0], maxKey);
      AndThenMeansThen(BatchEffect(front, key), ActionEffect(last, key), Lookup(b, key));
    }
  }

  /** The commands for which replay converges whatever they contain. */
  predicate Replayable(cmd: Command) {
    !cmd.CreateUser? && !cmd.ApplyBootstrap?
  }

  /** A create-user that succeeds unless its key is taken. */
  predicate GoodCreate(cmd: Command, maxKey: nat) {
    && cmd.CreateUser? && ValidKey(cmd.key) && Storable(cmd.key, maxKey)
    && DecodeUser(cmd.value).Some? && DecodeUser(cmd.value).value.username != ""
    && Storable(IndexOf(cmd), maxKey)
  }

  /** The username index key that a create-user writes besides its own. */
  function IndexOf(cmd: Command): string
    requires cmd.CreateUser? && DecodeUser(cmd.value).Some?
  {
    IndexKey(DecodeUser(cmd.value).value.username)
  }

  predicate Indexes(cmd: Command, key: string, maxKey: nat) {
    GoodCreate(cmd, maxKey) && IndexOf(cmd) == key
  }

  ghost function BatchOrNothing(acts: seq<Action>, key: string, maxKey: nat): Effect {
    if AllHarmless(acts, maxKey) then BatchEffect(acts, key) else Keep
  }

  /** What a command does to a key that it does not index. */
  ghost function CommandEffect(cmd: Command, key: string, maxKey: nat): Effect {
    if !cmd.Malformed? && !cmd.SetMulti? && !cmd.ApplyBootstrap? && !ValidKey(cmd.key) then Keep else
    match cmd
    case Set(k, v) => BatchOrNothing([Put(k, v)], key, maxKey)
    case SetJson(k, v) => BatchOrNothing([Put(k, v)], key, maxKey)
    case Delete(k) => BatchOrNothing([Del(k)], key, maxKey)
    case SetMulti(es) =>
      if es.Some? && AllKeysValid(es.value) then BatchOrNothing(EntryActions(es.value), key, maxKey) else Keep
    case CreateChannel(k, v) => if k == key && Storable(k, maxKey) then Create(v) else Keep
    case CreateUser(k, v) => if k == key && GoodCreate(cmd, maxKey) then Create(v) else Keep
    case ApplyBootstrap(_) => Keep
    case UnknownOp(_) => Keep
    case Malformed => Keep
  }

  lemma BatchCommandEffect(b: Bucket, acts: seq<Action>, key: string, maxKey: nat)
    ensures Lookup(Commit(b, RunActions(b, acts, maxKey)).bucket, key)
         == Do(BatchOrNothing(acts, key, maxKey), Lookup(b, key))
  {
    BatchSucceedsIff(b, acts, maxKey);
    if AllHarmless(acts, maxKey) {
      BatchEffectCorrect(b, acts, key, maxKey);
    }
  }

  lemma CreateChannelEffect(b: Bucket, k: string, v: Value, key: string, maxKey: nat)
    requires ValidKey(k)
    ensures Lookup(ApplyEntry(b, CreateChannel(k, v), maxKey).bucket, key)
         == Do(CommandEffect(CreateChannel(k, v), key, maxKey), Lookup(b, key))
  {
    assert [Put(k, v)] == [] + [Put(k, v)];
    RunActionsSnoc(b, [], Put(k, v), maxKey);
  }

  lemma CreateUserOutcome(b: Bucket, cmd: Command, maxKey: nat)
    requires cmd.CreateUser?
    ensures ApplyEntry(b, cmd, maxKey).bucket ==
      if GoodCreate(cmd, maxKey) && cmd.key !in b
      then b[cmd.key := cmd.value][IndexOf(cmd) := IndexJson(DecodeUser(cmd.value).value.id)]
      else b
  {
    var acts := CreateUserActions(cmd.key, cmd.value);
    BatchSucceedsIff(b, acts, maxKey);
    assert AllHarmless(acts, maxKey) <==> Harmless(acts[0], maxKey) && Harmless(acts[1], maxKey);
    assert acts == [] + [acts[0]] + [acts[1]];
    RunActionsSnoc(b, [], acts[0], maxKey);
    RunActionsSnoc(b, [] + [acts[0]], acts[1], maxKey);
  }

  lemma CommandEffectCorrect(b: Bucket, cmd: Command, key: string, maxKey: nat)
    requires !cmd.ApplyBootstrap? && !Indexes(cmd, key, maxKey)
    ensures Lookup(ApplyEntry(b, cmd, maxKey).bucket, key) == Do(CommandEffect(cmd, key, maxKey), Lookup(b, key))
  {
    match cmd
    case Set(k, v) => BatchCommandEffect(b, [Put(k, v)], key, maxKey);
    case SetJson(k, v) => BatchCommandEffect(b, [Put(k, v)], key, maxKey);
    case Delete(k) => BatchCommandEffect(b, [Del(k)], key, maxKey);
    case SetMulti(es) => if es.Some? { BatchCommandEffect(b, EntryActions(es.value), key, maxKey); }
    case CreateChannel(k, v) => if ValidKey(k) { CreateChannelEffect(b, k, v, key, maxKey); }
    case CreateUser(_, _) => CreateUserOutcome(b, cmd, maxKey);
    case UnknownOp(_) =>
    case Malformed =>
  }

  ghost predicate AllReplayable(log: seq<Command>) {
    forall i :: 0 <= i < |log| ==> Replayable(log[i])
  }

  /** No entry writes the key as a username index, and none is a bootstrap. */
  ghost predicate Direct(log: seq<Command>, key: string, maxKey: nat) {
    forall i :: 0 <= i < |log| ==> !log[i].ApplyBootstrap? && !Indexes(log[i], key, maxKey)
  }

  ghost function LogEffect(log: seq<Command>, key: string, maxKey: nat): Effect {
    if log == [] then Keep
    else AndThen(LogEffect(log[..|log| - 1], key, maxKey), CommandEffect(log[|log| - 1], key, maxKey))
  }

  lemma {:induction false} LogEffectCorrect(b: Bucket, log: seq<Command>, key: string, maxKey: nat)
    requires Direct(log, key, maxKey)
    ensures Lookup(Replay(b, log, maxKey), key) == Do(LogEffect(log, key, maxKey), Lookup(b, key))
  {
    if log != [] {
      var front, last := log[..|log| - 1], log[|log| - 1];
      LogEffectCorrect(b, front, key, maxKey);
      CommandEffectCorrect(Replay(b, front, maxKey), last, key, maxKey);
      AndThenMeansThen(LogEffect(front, key, maxKey), CommandEffect(last, key, maxKey), Lookup(b, key));
    }
  }

  // ---------------------------------------------------------------- convergence

  lemma LookupsDecide(a: Bucket, b: Bucket)
    requires forall key :: Lookup(a, key) == Lookup(b, key)
    ensures a == b
  {
    forall key ensures key in a <==> key in b {
      assert Lookup(a, key) == Lookup(b, key);
    }
    forall key | key in a ensures a[key] == b[key] {
      assert Lookup(a, key) == Lookup(b, key);
    }
  }

  /** Replaying the log on a state that already contains its first n entries ends where one clean run ends. */
  ghost predicate Converges(b: Bucket, log: seq<Command>, n: nat, maxKey: nat)
    requires n <= |log|
  {
    Replay(Replay(b, log[..n], maxKey), log, maxKey) == Replay(b, log, maxKey)
  }

  lemma KeyConverges(b: Bucket, log: seq<Command>, n: nat, key: string, maxKey: nat)
    requires Direct(log, key, maxKey) && n <= |log|
    ensures Lookup(Replay(Replay(b, log[..n], maxKey), log, maxKey), key) == Lookup(Replay(b, log, maxKey), key)
  {
    var l1, l2 := log[..n], log[n..];
    assert log == l1 + l2;
    ReplayConcat(b, l1, l2, maxKey);
    ReplayConcat(Replay(b, l1, maxKey), l1, l2, maxKey);
    var e1 := LogEffect(l1, key, maxKey);
    LogEffectCorrect(b, l1, key, maxKey);
    LogEffectCorrect(Replay(b, l1, maxKey), l1, key, maxKey);
    LogEffectCorrect(Replay(b, l1, maxKey), l2, key, maxKey);
    LogEffectCorrect(Replay(Replay(b, l1, maxKey), l1, maxKey), l2, key, maxKey);
    EffectsAreIdempotent(e1, Keep);
    AndThenMeansThen(e1, e1, Lookup(b, key));
  }

  /** From any state, at any prefix. */
  lemma ReplayConverges(b: Bucket, log: seq<Command>, n: nat, maxKey: nat)
    requires AllReplayable(log) && n <= |log|
    ensures Converges(b, log, n, maxKey)
  {
    forall key
      ensures Lookup(Replay(Replay(b, log[..n], maxKey), log, maxKey), key) == Lookup(Replay(b, log, maxKey), key)
    {
      KeyConverges(b, log, n, key, maxKey);
    }
    LookupsDecide(Replay(Replay(b, log[..n], maxKey), log, maxKey), Replay(b, log, maxKey));
  }

  // ---------------------------------------------------------------- bootstrap

  /** The log after its seeding, if it starts with one. */
  function Tail(log: seq<Command>): seq<Command> {
    if log != [] && log[0].ApplyBootstrap? then log[1..] else log
  }

  /** A log that starts by seeding the empty store: replay either finds a store with data and refuses to seed
      it again, or seeds an emptied one as in the clean run. So what decides is the rest of the log. */
  lemma SeededConvergesIff(boot: Command, rest: seq<Command>, n: nat, maxKey: nat)
    requires boot.ApplyBootstrap? && n <= |rest|
    ensures var seeded := Replay(map[], [boot], maxKey);
            Converges(map[], [boot] + rest, n + 1, maxKey)
            <==> Replay(seeded, rest[..n], maxKey) == map[] || Converges(seeded, rest, n, maxKey)
  {
    var log := [boot] + rest;
    var seeded := Replay(map[], [boot], maxKey);
    assert log[..n + 1] == [boot] + rest[..n];
    ReplayConcat(map[], [boot], rest[..n], maxKey);
    ReplayConcat(map[], [boot], rest, maxKey);
    var s := Replay(seeded, rest[..n], maxKey);
    ReplayConcat(s, [boot], rest, maxKey);
    ReplaySnoc(s, [], boot, maxKey);
    assert [] + [boot] == [boot];
  }

  lemma SeededReplayConverges(log: seq<Command>, n: nat, maxKey: nat)
    requires AllReplayable(Tail(log)) && n <= |log|
    ensures Converges(map[], log, n, maxKey)
  {
    if Tail(log) == log {
      ReplayConverges(map[], log, n, maxKey);
    } else if n > 0 {
      assert log == [log[0]] + log[1..];
      ReplayConverges(Replay(map[], [log[0]], maxKey), log[1..], n - 1, maxKey);
      SeededConvergesIff(log[0], log[1..], n - 1, maxKey);
    }
  }

  function WithoutBootstraps(log: seq<Command>): seq<Command> {
    if log == [] then []
    else
      var front, last := WithoutBootstraps(log[..|log| - 1]), log[|log| - 1];
      if last.ApplyBootstrap? then front else front + [last]
  }

  /** Some key that stays: the store is never empty again. */
  ghost predicate NeverRemoves(log: seq<Command>, key: string, maxKey: nat) {
    forall i :: 0 <= i < |log| ==> CommandEffect(log[i], key, maxKey) != Fix(None)
  }

  /** While a key stays, later bootstraps are refused and might as well not be in the log. */
  lemma {:induction false} LaterBootstrapsVanish(b: Bucket, log: seq<Command>, key: string, maxKey: nat)
    requires key in b && NeverRemoves(log, key, maxKey)
    ensures key in Replay(b, log, maxKey) && Replay(b, log, maxKey) == Replay(b, WithoutBootstraps(log), maxKey)
  {
    if log != [] {
      var front, last := log[..|log| - 1], log[|log| - 1];
      LaterBootstrapsVanish(b, front, key, maxKey);
      EntryKeepsKey(Replay(b, front, maxKey), last, key, maxKey);
      if !last.ApplyBootstrap? {
        ReplaySnoc(b, WithoutBootstraps(front), last, maxKey);
      }
    }
  }

  lemma EntryKeepsKey(b: Bucket, cmd: Command, key: string, maxKey: nat)
    requires key in b && CommandEffect(cmd, key, maxKey) != Fix(None)
    ensures key in ApplyEntry(b, cmd, maxKey).bucket
  {
    if cmd.CreateUser? {
      CreateUserOutcome(b, cmd, maxKey);
    } else if !cmd.ApplyBootstrap? {
      CommandEffectCorrect(b, cmd, key, maxKey);
      assert Lookup(b, key).Some?;
    }
  }

  lemma {:induction false} PrefixWithoutBootstraps(log: seq<Command>, n: nat)
    requires n <= |log|
    ensures var short, long := WithoutBootstraps(log[..n]), WithoutBootstraps(log);
            |short| <= |long| && short == long[..|short|]
  {
    if n < |log| {
      PrefixWithoutBootstraps(log[..|log| - 1], n);
      assert log[..|log| - 1][..n] == log[..n];
    } else {
      assert log[..n] == log;
    }
  }

  /** So repeated bootstraps do not affect convergence either. */
  lemma RepeatedBootstrapsConvergeIff(b: Bucket, log: seq<Command>, n: nat, key: string, maxKey: nat)
    requires key in b && NeverRemoves(log, key, maxKey) && n <= |log|
    ensures |WithoutBootstraps(log[..n])| <= |WithoutBootstraps(log)|
    ensures Converges(b, log, n, maxKey)
       <==> Converges(b, WithoutBootstraps(log), |WithoutBootstraps(log[..n])|, maxKey)
  {
    PrefixWithoutBootstraps(log, n);
    LaterBootstrapsVanish(b, log[..n], key, maxKey);
    LaterBootstrapsVanish(b, log, key, maxKey);
    LaterBootstrapsVanish(Replay(b, log[..n], maxKey), log, key, maxKey);
  }

  // ---------------------------------------------------------------- recovery from a snapshot

  /** The snapshot's index is `taken`, but it was written after entry `written` had been applied. Restoring it
      over any old contents and replaying from `taken` recovers the whole log. */
  ghost predicate Recovers(stale: Bucket, log: seq<Command>, taken: nat, written: nat, maxKey: nat)
    requires taken <= written <= |log|
  {
    var restored := RestoreFrom(stale, Records(Replay(map[], log[..written], maxKey)), maxKey);
    restored.error.None? && Replay(restored.bucket, log[taken..], maxKey) == Replay(map[], log, maxKey)
  }

  lemma RecoversIffConverges(stale: Bucket, log: seq<Command>, taken: nat, written: nat, maxKey: nat)
    requires taken <= written <= |log|
    ensures Recovers(stale, log, taken, written, maxKey)
       <==> Converges(Replay(map[], log[..taken], maxKey), log[taken..], written - taken, maxKey)
  {
    var head, rest := log[..taken], log[taken..];
    assert log[..written] == head + rest[..written - taken];
    assert log == head + rest;
    ReplayConcat(map[], head, rest[..written - taken], maxKey);
    ReplayConcat(map[], head, rest, maxKey);
    ReplayKeepsStorable(log[..written], maxKey);
  }

  /** A log may start by seeding the store. */
  lemma SnapshotRecovers(stale: Bucket, log: seq<Command>, taken: nat, written: nat, maxKey: nat)
    requires taken <= written <= |log| && AllReplayable(Tail(log))
    ensures Recovers(stale, log, taken, written, maxKey)
  {
    RecoversIffConverges(stale, log, taken, written, maxKey);
    if taken == 0 {
      assert log[0..] == log && log[..0] == [];
      SeededReplayConverges(log, written, maxKey);
    } else {
      ReplayConverges(Replay(map[], log[..taken], maxKey), log[taken..], written - taken, maxKey);
    }
  }

  lemma {:induction false} ReplayKeepsStorable(log: seq<Command>, maxKey: nat)
    ensures AllStorable(Replay(map[], log, maxKey), maxKey)
  {
    if log != [] {
      ReplayKeepsStorable(log[..|log| - 1], maxKey);
      EntryKeepsStorable(Replay(map[], log[..|log| - 1], maxKey), log[|log| - 1], maxKey);
    }
  }
}
