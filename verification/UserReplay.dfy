/** When replay of a log with create-user commands converges (internal/repository/fsm.go). create-user writes
    an index key under the condition that another key, the user's own, is absent. Which of these conditions
    come out differently in a replay can be told from the log; the last writer of each index key decides. */
module UserReplay {
  import opened Basics
  import opened Fsm
  import opened FsmReplay
  import opened UserIndex

  /** No bootstrap, and no create command is conditional on a key that a create-user indexes. IDs and names
      without slashes guarantee it (KeptLogIsSeparate). */
  ghost predicate Separate(log: seq<Command>, maxKey: nat) {
    && (forall i :: 0 <= i < |log| ==> !log[i].ApplyBootstrap?)
    && (forall i, j :: 0 <= i < |log| && 0 <= j < |log| && GoodCreate(log[i], maxKey) && Creates(log[j]) ==>
          log[j].key != IndexOf(log[i]))
  }

  predicate Creates(cmd: Command) { cmd.CreateUser? || cmd.CreateChannel? }

  // ---------------------------------------------------------------- which entries take effect

  /** Entry i is not a create-user that finds its key taken. */
  ghost predicate TakesEffect(b: Bucket, log: seq<Command>, i: nat, maxKey: nat)
    requires i < |log|
  {
    GoodCreate(log[i], maxKey) ==> log[i].key !in Replay(b, log[..i], maxKey)
  }

  /** The first entry of the log that touches the key of create-user i is entry i itself. */
  ghost predicate IsFirst(log: seq<Command>, i: nat, maxKey: nat)
    requires i < |log| && log[i].CreateUser?
  {
    forall j :: 0 <= j < i ==> CommandEffect(log[j], log[i].key, maxKey) == Keep
  }

  ghost function Executed(b: Bucket, log: seq<Command>, maxKey: nat): set<int> {
    set i | 0 <= i < |log| && TakesEffect(b, log, i, maxKey)
  }

  /** The entries that take effect again when the log, run from b before, is replayed on s: only a create-user
      that is the first entry for its key depends on where the replay starts. */
  ghost function Redone(b: Bucket, s: Bucket, log: seq<Command>, maxKey: nat): set<int> {
    set i | 0 <= i < |log| &&
      if GoodCreate(log[i], maxKey) && IsFirst(log, i, maxKey) then log[i].key !in s else TakesEffect(b, log, i, maxKey)
  }

  lemma {:induction false} UntouchedIffKept(log: seq<Command>, key: string, maxKey: nat)
    ensures LogEffect(log, key, maxKey) == Keep <==> forall j :: 0 <= j < |log| ==> CommandEffect(log[j], key, maxKey) == Keep
  {
    if log != [] {
      var front := log[..|log| - 1];
      UntouchedIffKept(front, key, maxKey);
      assert forall j :: 0 <= j < |front| ==> front[j] == log[j];
    }
  }

  /** Once touched, a key is present or absent wherever the run started; before that it is as at the start. */
  lemma PresenceAt(a: Bucket, b: Bucket, log: seq<Command>, i: nat, maxKey: nat)
    requires Separate(log, maxKey) && i < |log| && GoodCreate(log[i], maxKey)
    ensures if IsFirst(log, i, maxKey) then log[i].key in Replay(a, log[..i], maxKey) <==> log[i].key in a
            else log[i].key in Replay(a, log[..i], maxKey) <==> log[i].key in Replay(b, log[..i], maxKey)
  {
    var key, front := log[i].key, log[..i];
    assert Direct(front, key, maxKey);
    LogEffectCorrect(a, front, key, maxKey);
    LogEffectCorrect(b, front, key, maxKey);
    UntouchedIffKept(front, key, maxKey);
    assert IsFirst(log, i, maxKey) <==> LogEffect(front, key, maxKey) == Keep;
  }

  lemma RedoneIsExecuted(b: Bucket, s: Bucket, log: seq<Command>, maxKey: nat)
    requires Separate(log, maxKey)
    ensures Executed(s, log, maxKey) == Redone(b, s, log, maxKey)
  {
    forall i | 0 <= i < |log| ensures i in Executed(s, log, maxKey) <==> i in Redone(b, s, log, maxKey) {
      if GoodCreate(log[i], maxKey) {
        PresenceAt(s, b, log, i, maxKey);
      }
    }
  }

  // ---------------------------------------------------------------- the last writer of an index key

  /** What a command writes to an index key when it takes effect. */
  ghost function Writes(cmd: Command, x: string, maxKey: nat): Option<Option<Value>> {
    if Indexes(cmd, x, maxKey) then Some(Some(IndexJson(DecodeUser(cmd.value).value.id)))
    else
      match CommandEffect(cmd, x, maxKey)
      case Fix(o) => Some(o)
      case _ => None
  }

  /** The last write to x among the first i entries, counting those in `done` only. */
  ghost function Last(log: seq<Command>, done: set<int>, x: string, i: nat, maxKey: nat): Option<Option<Value>>
    requires i <= |log|
  {
    if i == 0 then None
    else if i - 1 in done && Writes(log[i - 1], x, maxKey).Some? then Writes(log[i - 1], x, maxKey)
    else Last(log, done, x, i - 1, maxKey)
  }

  ghost predicate Indexed(log: seq<Command>, x: string, maxKey: nat) {
    exists i :: 0 <= i < |log| && Indexes(log[i], x, maxKey)
  }

  lemma EntryWrites(b: Bucket, log: seq<Command>, i: nat, x: string, maxKey: nat)
    requires Separate(log, maxKey) && Indexed(log, x, maxKey) && i < |log|
    ensures var before := Replay(b, log[..i], maxKey);
            Lookup(ApplyEntry(before, log[i], maxKey).bucket, x)
            == if TakesEffect(b, log, i, maxKey) && Writes(log[i], x, maxKey).Some?
               then Writes(log[i], x, maxKey).value else Lookup(before, x)
  {
    var before := Replay(b, log[..i], maxKey);
    NotCreatedThere(log, i, x, maxKey);
    if log[i].CreateUser? {
      CreateUserOutcome(before, log[i], maxKey);
    } else {
      CommandEffectCorrect(before, log[i], x, maxKey);
    }
  }

  lemma NotCreatedThere(log: seq<Command>, i: nat, x: string, maxKey: nat)
    requires Separate(log, maxKey) && Indexed(log, x, maxKey) && i < |log|
    ensures Creates(log[i]) ==> log[i].key != x
    ensures !CommandEffect(log[i], x, maxKey).Create?
    ensures log[i].CreateUser? ==> CommandEffect(log[i], x, maxKey) == Keep
  {
    var j :| 0 <= j < |log| && Indexes(log[j], x, maxKey);
    assert Creates(log[i]) ==> log[i].key != IndexOf(log[j]);
    match log[i] {
      case SetMulti(es) => if es.Some? { BatchNeverCreates(EntryActions(es.value), x); }
      case Set(k, v) => BatchNeverCreates([Put(k, v)], x);
      case SetJson(k, v) => BatchNeverCreates([Put(k, v)], x);
      case Delete(k) => BatchNeverCreates([Del(k)], x);
      case _ =>
    }
  }

  lemma {:induction false} BatchNeverCreates(acts: seq<Action>, key: string)
    ensures !BatchEffect(acts, key).Create?
  {
    if acts != [] {
      BatchNeverCreates(acts[..|acts| - 1], key);
    }
  }

  lemma {:induction false} LastIsRead(b: Bucket, log: seq<Command>, x: string, i: nat, maxKey: nat)
    requires Separate(log, maxKey) && Indexed(log, x, maxKey) && i <= |log|
    ensures var last := Last(log, Executed(b, log, maxKey), x, i, maxKey);
            Lookup(Replay(b, log[..i], maxKey), x) == if last.Some? then last.value else Lookup(b, x)
  {
    if i > 0 {
      LastIsRead(b, log, x, i - 1, maxKey);
      assert log[..i][..i - 1] == log[..i - 1];
      EntryWrites(b, log, i - 1, x, maxKey);
    }
  }

  /** No entry from m up to i writes x. */
  ghost predicate Quiet(log: seq<Command>, done: set<int>, x: string, m: nat, i: nat, maxKey: nat)
    requires i <= |log|
  {
    forall j :: m <= j < i && j in done ==> Writes(log[j], x, maxKey).None?
  }

  lemma {:induction false} LastBeforeQuiet(log: seq<Command>, done: set<int>, x: string, m: nat, i: nat, maxKey: nat)
    requires m <= i <= |log| && Quiet(log, done, x, m, i, maxKey)
    ensures Last(log, done, x, i, maxKey) == Last(log, done, x, m, maxKey)
  {
    if m < i {
      LastBeforeQuiet(log, done, x, m, i - 1, maxKey);
    }
  }

  // ---------------------------------------------------------------- convergence

  /** Create-user m spoils the replay that starts after n entries: it takes effect in only one of the two runs,
      nothing later writes its index key in either, and what the other run leaves there differs. In the first
      case the replay leaves an earlier write that it redoes; in the second m was refused in the clean run. */
  ghost predicate Spoils(b: Bucket, log: seq<Command>, n: nat, m: nat, maxKey: nat)
    requires n <= |log|
  {
    && m < |log| && GoodCreate(log[m], maxKey)
    && var x, s := IndexOf(log[m]), Replay(b, log[..n], maxKey);
       var done, again := Executed(b, log, maxKey), Redone(b, s, log, maxKey);
       var before := Last(log, if m in done then again else done, x, m, maxKey);
       && (m in done) != (m in again)
       && Quiet(log, done + again, x, m + 1, |log|, maxKey)
       && if m in done then before.Some? && before != Writes(log[m], x, maxKey)
          else (if before.Some? then before else Some(Lookup(b, x))) != Writes(log[m], x, maxKey)
  }

  ghost predicate NothingSpoils(b: Bucket, log: seq<Command>, n: nat, maxKey: nat)
    requires n <= |log|
  {
    forall m: nat :: m < |log| ==> !Spoils(b, log, n, m, maxKey)
  }

  lemma Ends(b: Bucket, log: seq<Command>, n: nat, x: string, maxKey: nat)
    requires Separate(log, maxKey) && Indexed(log, x, maxKey) && n <= |log|
    ensures var s := Replay(b, log[..n], maxKey);
            var done, again := Executed(b, log, maxKey), Redone(b, s, log, maxKey);
            var clean, replayed := Last(log, done, x, |log|, maxKey), Last(log, again, x, |log|, maxKey);
            var kept := Last(log, done, x, n, maxKey);
            && Lookup(Replay(b, log, maxKey), x) == (if clean.Some? then clean.value else Lookup(b, x))
            && Lookup(s, x) == (if kept.Some? then kept.value else Lookup(b, x))
            && Lookup(Replay(s, log, maxKey), x) == (if replayed.Some? then replayed.value else Lookup(s, x))
  {
    var s := Replay(b, log[..n], maxKey);
    assert log[..|log|] == log;
    LastIsRead(b, log, x, |log|, maxKey);
    LastIsRead(b, log, x, n, maxKey);
    LastIsRead(s, log, x, |log|, maxKey);
    RedoneIsExecuted(b, s, log, maxKey);
  }

  /** A create-user that the replay refuses although it succeeded before lies in the prefix that s contains. */
  lemma RefusedIsContained(b: Bucket, log: seq<Command>, n: nat, m: nat, maxKey: nat)
    requires Separate(log, maxKey) && n <= |log| && m < |log|
    requires m in Executed(b, log, maxKey) && m !in Redone(b, Replay(b, log[..n], maxKey), log, maxKey)
    ensures GoodCreate(log[m], maxKey) && m < n
  {
    PresenceAt(b, b, log, m, maxKey);
    if n <= m {
      var key, front := log[m].key, log[..n];
      LogEffectCorrect(b, front, key, maxKey);
      UntouchedIffKept(front, key, maxKey);
      assert false;
    }
  }

  /** The last entry that writes x in one of the runs. */
  ghost predicate LastWriter(b: Bucket, log: seq<Command>, n: nat, x: string, m: nat, maxKey: nat)
    requires n <= |log|
  {
    var both := Executed(b, log, maxKey) + Redone(b, Replay(b, log[..n], maxKey), log, maxKey);
    m < |log| && m in both && Writes(log[m], x, maxKey).Some? && Quiet(log, both, x, m + 1, |log|, maxKey)
  }

  lemma LastOf(log: seq<Command>, done: set<int>, both: set<int>, x: string, m: nat, i: nat, maxKey: nat)
    requires m < i <= |log| && done <= both && Quiet(log, both, x, m + 1, |log|, maxKey)
    requires Writes(log[m], x, maxKey).Some?
    ensures Last(log, done, x, i, maxKey)
         == if m in done then Writes(log[m], x, maxKey) else Last(log, done, x, m, maxKey)
  {
    LastBeforeQuiet(log, done, x, m + 1, i, maxKey);
  }

  /** Where both runs execute the last writer, or neither depends on it, they agree. */
  lemma LastWriterDecides(b: Bucket, log: seq<Command>, n: nat, x: string, m: nat, maxKey: nat)
    requires Separate(log, maxKey) && n <= |log| && Indexed(log, x, maxKey) && LastWriter(b, log, n, x, m, maxKey)
    ensures var s := Replay(b, log[..n], maxKey);
            Lookup(Replay(s, log, maxKey), x) != Lookup(Replay(b, log, maxKey), x)
            <==> Indexes(log[m], x, maxKey) && Spoils(b, log, n, m, maxKey)
  {
    var s := Replay(b, log[..n], maxKey);
    var done, again := Executed(b, log, maxKey), Redone(b, s, log, maxKey);
    Ends(b, log, n, x, maxKey);
    LastOf(log, done, done + again, x, m, |log|, maxKey);
    LastOf(log, again, done + again, x, m, |log|, maxKey);
    if (m in done) != (m in again) {
      UnevenIsIndexing(b, log, n, x, m, maxKey);
      if m in done {
        RefusedIsContained(b, log, n, m, maxKey);
        LastOf(log, done, done + again, x, m, n, maxKey);
      }
    }
  }

  lemma UnevenIsIndexing(b: Bucket, log: seq<Command>, n: nat, x: string, m: nat, maxKey: nat)
    requires Separate(log, maxKey) && n <= |log| && Indexed(log, x, maxKey) && LastWriter(b, log, n, x, m, maxKey)
    requires (m in Executed(b, log, maxKey)) != (m in Redone(b, Replay(b, log[..n], maxKey), log, maxKey))
    ensures Indexes(log[m], x, maxKey)
  {
    NotCreatedThere(log, m, x, maxKey);
  }

  lemma {:induction false} SomeWriterIsLast(log: seq<Command>, done: set<int>, x: string, i: nat, maxKey: nat)
    requires i <= |log|
    ensures Quiet(log, done, x, 0, i, maxKey)
         || exists m :: 0 <= m < i && m in done && Writes(log[m], x, maxKey).Some? && Quiet(log, done, x, m + 1, i, maxKey)
  {
    if i > 0 {
      SomeWriterIsLast(log, done, x, i - 1, maxKey);
      if i - 1 in done && Writes(log[i - 1], x, maxKey).Some? {
        assert Quiet(log, done, x, i, i, maxKey);
      } else if m :| 0 <= m < i - 1 && m in done && Writes(log[m], x, maxKey).Some? && Quiet(log, done, x, m + 1, i - 1, maxKey) {
        assert Quiet(log, done, x, m + 1, i, maxKey);
      }
    }
  }

  lemma NothingSpoilt(b: Bucket, log: seq<Command>, n: nat, x: string, maxKey: nat)
    requires Separate(log, maxKey) && n <= |log|
    requires NothingSpoils(b, log, n, maxKey)
    ensures Lookup(Replay(Replay(b, log[..n], maxKey), log, maxKey), x) == Lookup(Replay(b, log, maxKey), x)
  {
    if !Indexed(log, x, maxKey) {
      KeyConverges(b, log, n, x, maxKey);
      return;
    }
    var s := Replay(b, log[..n], maxKey);
    var done, again := Executed(b, log, maxKey), Redone(b, s, log, maxKey);
    SomeWriterIsLast(log, done + again, x, |log|, maxKey);
    if Quiet(log, done + again, x, 0, |log|, maxKey) {
      Ends(b, log, n, x, maxKey);
      LastBeforeQuiet(log, done, x, 0, |log|, maxKey);
      LastBeforeQuiet(log, again, x, 0, |log|, maxKey);
      LastBeforeQuiet(log, done, x, 0, n, maxKey);
    } else {
      var m :| 0 <= m < |log| && m in done + again && Writes(log[m], x, maxKey).Some?
               && Quiet(log, done + again, x, m + 1, |log|, maxKey);
      LastWriterDecides(b, log, n, x, m, maxKey);
    }
  }

  /** Replay converges exactly when no create-user spoils it. */
  lemma ConvergesIff(b: Bucket, log: seq<Command>, n: nat, maxKey: nat)
    requires Separate(log, maxKey) && n <= |log|
    ensures Converges(b, log, n, maxKey) <==> NothingSpoils(b, log, n, maxKey)
  {
    if NothingSpoils(b, log, n, maxKey) {
      forall x ensures Lookup(Replay(Replay(b, log[..n], maxKey), log, maxKey), x) == Lookup(Replay(b, log, maxKey), x) {
        NothingSpoilt(b, log, n, x, maxKey);
      }
      LookupsDecide(Replay(Replay(b, log[..n], maxKey), log, maxKey), Replay(b, log, maxKey));
    } else {
      var m: nat :| m < |log| && Spoils(b, log, n, m, maxKey);
      var x := IndexOf(log[m]);
      assert Indexes(log[m], x, maxKey);
      LastWriterDecides(b, log, n, x, m, maxKey);
    }
  }

  // ---------------------------------------------------------------- names that serve one ID only

  /** Whatever writes the index key of a create-user touches its user key too: the name serves no other ID. */
  ghost predicate OneOwner(log: seq<Command>, maxKey: nat) {
    forall i, j :: 0 <= i < |log| && 0 <= j < |log| && SharesName(log[i], log[j], maxKey) ==>
      CommandEffect(log[j], log[i].key, maxKey) != Keep
  }

  ghost predicate SharesName(create: Command, cmd: Command, maxKey: nat) {
    GoodCreate(create, maxKey) && Writes(cmd, IndexOf(create), maxKey).Some?
  }

  /** A create-user that comes first for its key is not refused. */
  ghost predicate FirstsAreNew(b: Bucket, log: seq<Command>, maxKey: nat) {
    forall i :: 0 <= i < |log| && GoodCreate(log[i], maxKey) && IsFirst(log, i, maxKey) ==> log[i].key !in b
  }

  lemma OneOwnerConverges(b: Bucket, log: seq<Command>, n: nat, maxKey: nat)
    requires Separate(log, maxKey) && OneOwner(log, maxKey) && FirstsAreNew(b, log, maxKey) && n <= |log|
    ensures Converges(b, log, n, maxKey)
  {
    forall m | 0 <= m < |log| ensures !Spoils(b, log, n, m, maxKey) {
      if Spoils(b, log, n, m, maxKey) {
        PresenceAt(b, b, log, m, maxKey);
        var again := Redone(b, Replay(b, log[..n], maxKey), log, maxKey);
        NothingBeforeFirst(log, again, m, m, maxKey);
      }
    }
    ConvergesIff(b, log, n, maxKey);
  }

  lemma {:induction false} NothingBeforeFirst(log: seq<Command>, done: set<int>, m: nat, i: nat, maxKey: nat)
    requires OneOwner(log, maxKey) && i <= m < |log| && GoodCreate(log[m], maxKey) && IsFirst(log, m, maxKey)
    ensures Last(log, done, IndexOf(log[m]), i, maxKey) == None
  {
    if i > 0 {
      NothingBeforeFirst(log, done, m, i - 1, maxKey);
      assert !SharesName(log[m], log[i - 1], maxKey);
    }
  }

  /** The batch of an update or deletion: the record of one ID, then index keys of names that belong to it. */
  ghost predicate BatchFor(es: seq<KV>, id: string, names: seq<string>, owner: string -> string) {
    && Plain(id) && |es| == |names| + 1 && es[0].key == UserKey(id)
    && forall i :: 0 <= i < |names| ==> Plain(names[i]) && owner(names[i]) == id && es[i + 1].key == IndexKey(names[i])
  }

  /** A command that uses each username for its owner only. It may come from a proposer with a stale view. */
  ghost predicate Kept(cmd: Command, owner: string -> string) {
    || LeavesUsersAlone(cmd)
    || (cmd.CreateUser? && cmd.value.UserJson? && var u := cmd.value.user;
        Plain(u.id) && Plain(u.username) && owner(u.username) == u.id && cmd.key == UserKey(u.id))
    || (cmd.SetMulti? && cmd.entries.Some? && exists id, names :: BatchFor(cmd.entries.value, id, names, owner))
  }

  ghost predicate KeptLog(log: seq<Command>, owner: string -> string) {
    forall i :: 0 <= i < |log| ==> Kept(log[i], owner)
  }

  lemma {:induction false} BatchKeepsIff(acts: seq<Action>, key: string)
    ensures BatchEffect(acts, key) == Keep <==> forall i :: 0 <= i < |acts| ==> ActionEffect(acts[i], key) == Keep
  {
    if acts != [] {
      var front := acts[..|acts| - 1];
      BatchKeepsIff(front, key);
      assert forall i :: 0 <= i < |front| ==> front[i] == acts[i];
    }
  }

  lemma OutsidersKeep(cmd: Command, key: string, maxKey: nat)
    requires LeavesUsersAlone(cmd) && UnderUsers(key)
    ensures CommandEffect(cmd, key, maxKey) == Keep
  {
    match cmd
    case Set(k, v) => BatchKeepsIff([Put(k, v)], key);
    case SetJson(k, v) => BatchKeepsIff([Put(k, v)], key);
    case Delete(k) => BatchKeepsIff([Del(k)], key);
    case SetMulti(es) => if es.Some? { BatchKeepsIff(EntryActions(es.value), key); }
    case _ =>
  }

  lemma KeptCreate(cmd: Command, owner: string -> string, maxKey: nat)
    requires Kept(cmd, owner) && GoodCreate(cmd, maxKey)
    ensures cmd.value.UserJson? && var u := cmd.value.user;
            Plain(u.id) && Plain(u.username) && owner(u.username) == u.id
            && cmd.key == UserKey(u.id) && IndexOf(cmd) == IndexKey(u.username) && UnderUsers(IndexOf(cmd))
  {
    assert IndexKey(cmd.value.user.username)[..|USERS|] == USERS;
  }

  lemma KeptLogIsSeparate(log: seq<Command>, owner: string -> string, maxKey: nat)
    requires KeptLog(log, owner)
    ensures Separate(log, maxKey)
  {
    forall i, j | 0 <= i < |log| && 0 <= j < |log| && GoodCreate(log[i], maxKey) && Creates(log[j])
      ensures log[j].key != IndexOf(log[i])
    {
      KeptCreate(log[i], owner, maxKey);
      if log[j].CreateUser? {
        UserKeyIsNoIndexKey(log[j].value.user.id, log[i].value.user.username);
      }
    }
  }

  lemma KeptWriterTouches(c: Command, cmd: Command, owner: string -> string, maxKey: nat)
    requires Kept(c, owner) && GoodCreate(c, maxKey) && Kept(cmd, owner) && Writes(cmd, IndexOf(c), maxKey).Some?
    ensures CommandEffect(cmd, c.key, maxKey) != Keep
  {
    KeptCreate(c, owner, maxKey);
    var u := c.value.user;
    if LeavesUsersAlone(cmd) {
      OutsidersKeep(cmd, IndexOf(c), maxKey);
    } else if cmd.CreateUser? {
      IndexKeysDiffer(u.username, cmd.value.user.username);
    } else {
      var es := cmd.entries.value;
      var id, names :| BatchFor(es, id, names, owner);
      BatchWriterTouches(es, id, names, owner, u.username);
    }
  }

  lemma BatchWriterTouches(es: seq<KV>, id: string, names: seq<string>, owner: string -> string, name: string)
    requires BatchFor(es, id, names, owner) && Plain(name) && BatchEffect(EntryActions(es), IndexKey(name)) != Keep
    ensures owner(name) == id && BatchEffect(EntryActions(es), UserKey(id)) != Keep
  {
    var acts := EntryActions(es);
    BatchKeepsIff(acts, IndexKey(name));
    BatchKeepsIff(acts, UserKey(id));
    var i :| 0 <= i < |acts| && ActionEffect(acts[i], IndexKey(name)) != Keep;
    UserKeyIsNoIndexKey(id, name);
    assert es[i].key == IndexKey(name);
    IndexKeysDiffer(names[i - 1], name);
    assert ActionEffect(acts[0], UserKey(id)) != Keep;
  }

  /** If each username serves one ID, replay converges at every prefix. */
  lemma KeptLogConverges(b: Bucket, log: seq<Command>, n: nat, owner: string -> string, maxKey: nat)
    requires KeptLog(log, owner) && FirstsAreNew(b, log, maxKey) && n <= |log|
    ensures Converges(b, log, n, maxKey)
  {
    KeptLogIsSeparate(log, owner, maxKey);
    forall i, j | 0 <= i < |log| && 0 <= j < |log| && SharesName(log[i], log[j], maxKey)
      ensures CommandEffect(log[j], log[i].key, maxKey) != Keep
    {
      KeptWriterTouches(log[i], log[j], owner, maxKey);
    }
    OneOwnerConverges(b, log, n, maxKey);
  }

  // ---------------------------------------------------------------- runs of the user API

  /** The log entries of a mutation: none where the store returns before applying anything. */
  function CommandsOf(b: Bucket, m: Mutation): seq<Command> {
    match m
    case Creating(u) => if WithId(u).id == "" then [] else [CreateUserCommand(WithId(u))]
    case Updating(u) => [UpdateUserCommand(b, u)]
    case Deleting(id) => if GetUser(b, id).None? then [] else [DeleteUserCommand(id, GetUser(b, id).value)]
    case Seeding(p) => [ApplyBootstrap(Some(p))]
    case Unrelated(cmd) => [cmd]
  }

  function LogOf(ms: seq<Mutation>, maxKey: nat): seq<Command> {
    if ms == [] then []
    else
      var front := ms[..|ms| - 1];
      LogOf(front, maxKey) + CommandsOf(RunMutations(front, maxKey), ms[|ms| - 1])
  }

  lemma {:induction false} LogOfRuns(ms: seq<Mutation>, maxKey: nat)
    ensures Replay(map[], LogOf(ms, maxKey), maxKey) == RunMutations(ms, maxKey)
  {
    if ms != [] {
      var front, last := ms[..|ms| - 1], ms[|ms| - 1];
      LogOfRuns(front, maxKey);
      var before := RunMutations(front, maxKey);
      CommandsMutate(before, last, maxKey);
      ReplayConcat(map[], LogOf(front, maxKey), CommandsOf(before, last), maxKey);
    }
  }

  lemma CommandsMutate(b: Bucket, m: Mutation, maxKey: nat)
    ensures Replay(b, CommandsOf(b, m), maxKey) == Mutate(b, m, maxKey)
  {
    match m
    case Creating(u) => if WithId(u).id != "" { OneEntry(b, CreateUserCommand(WithId(u)), maxKey); }
    case Updating(u) => OneEntry(b, UpdateUserCommand(b, u), maxKey);
    case Deleting(id) => if GetUser(b, id).Some? { OneEntry(b, DeleteUserCommand(id, GetUser(b, id).value), maxKey); }
    case Seeding(p) => OneEntry(b, ApplyBootstrap(Some(p)), maxKey);
    case Unrelated(cmd) => OneEntry(b, cmd, maxKey);
  }

  lemma OneEntry(b: Bucket, cmd: Command, maxKey: nat)
    ensures Replay(b, [cmd], maxKey) == ApplyEntry(b, cmd, maxKey).bucket
  {
    ReplaySnoc(b, [], cmd, maxKey);
    assert [] + [cmd] == [cmd];
  }

  /** The mutation gives a name to its owner only. */
  ghost predicate Respects(m: Mutation, owner: string -> string) {
    && PlainMutation(m) && !m.Seeding?
    && (m.Creating? ==> owner(m.user.username) == WithId(m.user).id)
    && (m.Updating? ==> owner(m.user.username) == m.user.id)
  }

  ghost predicate NamesOwned(b: Bucket, owner: string -> string) {
    forall id :: Plain(id) && UserKey(id) in b ==> NameOwned(b, id, owner)
  }

  ghost predicate NameOwned(b: Bucket, id: string, owner: string -> string) {
    var u := GetUser(b, id);
    u.Some? && Plain(u.value.username) && owner(u.value.username) == id
  }

  lemma PutKeepsOwned(b: Bucket, u: User, owner: string -> string)
    requires NamesOwned(b, owner) && Plain(u.id) && Plain(u.username) && owner(u.username) == u.id
    ensures NamesOwned(PutUser(b, u), owner)
  {
    forall id | Plain(id) && UserKey(id) in PutUser(b, u) ensures NameOwned(PutUser(b, u), id, owner) {
      ReadAfterPut(b, u, id, u.username);
      assert id != u.id ==> NameOwned(b, id, owner);
    }
  }

  lemma DropIndexKeepsOwned(b: Bucket, gone: string, owner: string -> string)
    requires NamesOwned(b, owner) && Plain(gone)
    ensures NamesOwned(b - {IndexKey(gone)}, owner)
  {
    forall id | Plain(id) && UserKey(id) in b - {IndexKey(gone)} ensures NameOwned(b - {IndexKey(gone)}, id, owner) {
      ReadAfterDropIndex(b, gone, id, gone);
      assert NameOwned(b, id, owner);
    }
  }

  lemma DropUserKeepsOwned(b: Bucket, gone: string, owner: string -> string)
    requires NamesOwned(b, owner) && Plain(gone)
    ensures NamesOwned(b - {UserKey(gone)}, owner)
  {
    forall id | Plain(id) && UserKey(id) in b - {UserKey(gone)} ensures NameOwned(b - {UserKey(gone)}, id, owner) {
      ReadAfterDropUser(b, gone, id, "u");
      assert NameOwned(b, id, owner);
    }
  }

  lemma MutationKeepsOwned(b: Bucket, m: Mutation, owner: string -> string, maxKey: nat)
    requires NamesOwned(b, owner) && Respects(m, owner)
    ensures NamesOwned(Mutate(b, m, maxKey), owner)
  {
    match m
    case Creating(u) =>
      CreateOutcome(b, WithId(u), maxKey);
      PutKeepsOwned(b, WithId(u), owner);
    case Updating(u) =>
      UpdateOutcome(b, u, maxKey);
      PutKeepsOwned(b, u, owner);
      if MovedFrom(b, u).Some? {
        assert NameOwned(b, u.id, owner);
        DropIndexKeepsOwned(PutUser(b, u), MovedFrom(b, u).value, owner);
      }
    case Deleting(id) =>
      var u := GetUser(b, id);
      if u.Some? {
        assert NameOwned(b, id, owner);
        DeleteOutcome(b, id, u.value, maxKey);
        DropUserKeepsOwned(b, id, owner);
        DropIndexKeepsOwned(b - {UserKey(id)}, u.value.username, owner);
      }
    case Unrelated(cmd) =>
      UnrelatedKeepsUsers(b, cmd, maxKey);
      forall id | Plain(id) && UserKey(id) in Mutate(b, m, maxKey) ensures NameOwned(Mutate(b, m, maxKey), id, owner) {
        SameUsersSameReads(b, Mutate(b, m, maxKey), id, "u");
        assert NameOwned(b, id, owner);
      }
  }

  lemma MutationIsKept(b: Bucket, m: Mutation, owner: string -> string)
    requires NamesOwned(b, owner) && Respects(m, owner)
    ensures KeptLog(CommandsOf(b, m), owner)
  {
    match m
    case Creating(u) =>
    case Updating(u) =>
      var es := UpdateUserCommand(b, u).entries.value;
      if MovedFrom(b, u).Some? {
        assert NameOwned(b, u.id, owner);
        assert BatchFor(es, u.id, [u.username, MovedFrom(b, u).value], owner);
      } else {
        assert BatchFor(es, u.id, [u.username], owner);
      }
    case Deleting(id) =>
      var u := GetUser(b, id);
      if u.Some? {
        assert NameOwned(b, id, owner);
        assert BatchFor(DeleteUserCommand(id, u.value).entries.value, id, [u.value.username], owner);
      }
    case Unrelated(cmd) =>
  }

  lemma {:induction false} RunIsKept(ms: seq<Mutation>, owner: string -> string, maxKey: nat)
    requires forall i :: 0 <= i < |ms| ==> Respects(ms[i], owner)
    ensures NamesOwned(RunMutations(ms, maxKey), owner) && KeptLog(LogOf(ms, maxKey), owner)
  {
    if ms != [] {
      var front, last := ms[..|ms| - 1], ms[|ms| - 1];
      RunIsKept(front, owner, maxKey);
      MutationKeepsOwned(RunMutations(front, maxKey), last, owner, maxKey);
      MutationIsKept(RunMutations(front, maxKey), last, owner);
    }
  }

  /** Over every run of user creations, updates and deletions, with any other commands between them, in which
      each username is used for one ID only: replaying the log on a state that already contains any prefix of
      it ends where the run ended. */
  lemma UserRunConverges(ms: seq<Mutation>, n: nat, owner: string -> string, maxKey: nat)
    requires forall i :: 0 <= i < |ms| ==> Respects(ms[i], owner)
    requires n <= |LogOf(ms, maxKey)|
    ensures var log := LogOf(ms, maxKey);
            Replay(Replay(map[], log[..n], maxKey), log, maxKey) == RunMutations(ms, maxKey)
  {
    RunIsKept(ms, owner, maxKey);
    LogOfRuns(ms, maxKey);
    KeptLogConverges(map[], LogOf(ms, maxKey), n, owner, maxKey);
  }

  /** For a log that seeds the store first: an emptied store is seeded again, otherwise the rest decides. */
  lemma SeededUserLogConvergesIff(boot: Command, rest: seq<Command>, n: nat, maxKey: nat)
    requires boot.ApplyBootstrap? && Separate(rest, maxKey) && n <= |rest|
    ensures var seeded := Replay(map[], [boot], maxKey);
            Converges(map[], [boot] + rest, n + 1, maxKey)
            <==> Replay(seeded, rest[..n], maxKey) == map[] || NothingSpoils(seeded, rest, n, maxKey)
  {
    SeededConvergesIff(boot, rest, n, maxKey);
    ConvergesIff(Replay(map[], [boot], maxKey), rest, n, maxKey);
  }

  /** Recovery from a snapshot, for logs with create-user commands: exact from the snapshot's index on. What
      came before, bootstrap included, does not matter. */
  lemma UserSnapshotRecoversIff(stale: Bucket, log: seq<Command>, taken: nat, written: nat, maxKey: nat)
    requires taken <= written <= |log| && Separate(log[taken..], maxKey)
    ensures Recovers(stale, log, taken, written, maxKey)
       <==> NothingSpoils(Replay(map[], log[..taken], maxKey), log[taken..], written - taken, maxKey)
  {
    RecoversIffConverges(stale, log, taken, written, maxKey);
    ConvergesIff(Replay(map[], log[..taken], maxKey), log[taken..], written - taken, maxKey);
  }

  // ---------------------------------------------------------------- where replay does not converge

  ghost predicate Usable(id: string, name: string, maxKey: nat) {
    && Plain(id) && Plain(name) && ValidKey(UserKey(id)) && ValidKey(IndexKey(name))
    && Storable(UserKey(id), maxKey) && Storable(IndexKey(name), maxKey)
  }

  function Named(id: string, name: string): User { User(id, name, "hash", [], []) }

  lemma DeleteSucceeds(b: Bucket, id: string, u: User, maxKey: nat)
    requires Usable(id, u.username, maxKey)
    ensures ApplyEntry(b, DeleteUserCommand(id, u), maxKey) == Tx(b - {UserKey(id)} - {IndexKey(u.username)}, None)
  {
    DeleteOutcome(b, id, u, maxKey);
    var acts := EntryActions(DeleteUserCommand(id, u).entries.value);
    BatchSucceedsIff(b, acts, maxKey);
  }

  lemma ThreeEntries(b: Bucket, c1: Command, c2: Command, c3: Command, maxKey: nat)
    ensures Replay(b, [c1, c2, c3], maxKey)
         == ApplyEntry(ApplyEntry(ApplyEntry(b, c1, maxKey).bucket, c2, maxKey).bucket, c3, maxKey).bucket
  {
    assert [c1, c2, c3] == [] + [c1] + [c2] + [c3];
    ReplaySnoc(b, [], c1, maxKey);
    ReplaySnoc(b, [] + [c1], c2, maxKey);
    ReplaySnoc(b, [] + [c1] + [c2], c3, maxKey);
  }

  /** A name that passes to a new ID: create one user, delete it, create another one with its name. Replayed on
      its own result, the log leaves the second user without an index entry. */
  lemma CreateUserReplayLosesIndex(id1: string, id2: string, name: string, maxKey: nat)
    requires Usable(id1, name, maxKey) && Usable(id2, name, maxKey) && id1 != id2
    ensures var u1, u2 := Named(id1, name), Named(id2, name);
            var log := [CreateUserCommand(u1), DeleteUserCommand(id1, u1), CreateUserCommand(u2)];
            var b := Replay(map[], log, maxKey);
            IndexKey(name) in b && IndexKey(name) !in Replay(b, log, maxKey)
  {
    var u1, u2 := Named(id1, name), Named(id2, name);
    var c1, c2, c3 := CreateUserCommand(u1), DeleteUserCommand(id1, u1), CreateUserCommand(u2);
    UserKeysDiffer(id1, id2);
    UserKeyIsNoIndexKey(id1, name);
    UserKeyIsNoIndexKey(id2, name);
    var s1 := PutUser(map[], u1);
    CreateOutcome(map[], u1, maxKey);
    DeleteSucceeds(s1, id1, u1, maxKey);
    CreateOutcome(s1 - {UserKey(id1)} - {IndexKey(name)}, u2, maxKey);
    ThreeEntries(map[], c1, c2, c3, maxKey);
    var b := Replay(map[], [c1, c2, c3], maxKey);
    CreateOutcome(b, u1, maxKey);
    var t1 := PutUser(b, u1);
    DeleteSucceeds(t1, id1, u1, maxKey);
    var t2 := t1 - {UserKey(id1)} - {IndexKey(name)};
    CreateOutcome(t2, u2, maxKey);
    ThreeEntries(b, c1, c2, c3, maxKey);
  }

  /** The second way to spoil a replay: a create that was refused because the ID existed under another name.
      After the deletion of that ID the replay executes it, and an index entry without a user is left. */
  lemma RefusedCreateLeavesIndex(id: string, name: string, other: string, maxKey: nat)
    requires Usable(id, name, maxKey) && Usable(id, other, maxKey) && name != other
    ensures var b := PutUser(map[], Named(id, name));
            var log := [CreateUserCommand(Named(id, other)), DeleteUserCommand(id, Named(id, name))];
            && Replay(b, log, maxKey) == map[]
            && Replay(Replay(b, log, maxKey), log, maxKey) == map[IndexKey(other) := IndexJson(id)]
  {
    var u, v := Named(id, name), Named(id, other);
    var b, log := PutUser(map[], u), [CreateUserCommand(v), DeleteUserCommand(id, u)];
    UserKeyIsNoIndexKey(id, name);
    UserKeyIsNoIndexKey(id, other);
    IndexKeysDiffer(name, other);
    assert log == [] + [log[0]] + [log[1]];
    forall s: Bucket
      ensures Replay(s, log, maxKey) == ApplyEntry(ApplyEntry(s, log[0], maxKey).bucket, log[1], maxKey).bucket
    {
      ReplaySnoc(s, [], log[0], maxKey);
      ReplaySnoc(s, [] + [log[0]], log[1], maxKey);
    }
    CreateOutcome(b, v, maxKey);
    DeleteSucceeds(b, id, u, maxKey);
    CreateOutcome(map[], v, maxKey);
    DeleteSucceeds(PutUser(map[], v), id, u, maxKey);
  }
}
