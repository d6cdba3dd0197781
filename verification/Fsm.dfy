/** The replicated key/value state machine of internal/repository/fsm.go over one bbolt bucket. */
module Fsm {
  import opened Basics

  datatype User = User(id: string, username: string, passwordHash: string, roles: seq<string>, channels: seq<string>)
  const NO_USER := User("", "", "", [], [])

  /** Stored bytes, up to what JSON decoding makes of them. Any other document carries its two decodings. */
  datatype Value =
    | UserJson(user: User)
    | IndexJson(userId: string)
    | Other(text: string, asUser: Option<User>, asIndex: Option<string>)

  function DecodeUser(v: Value): Option<User> {
    match v
    case UserJson(u) => Some(u)
    case IndexJson(_) => Some(NO_USER)
    case Other(_, u, _) => u
  }

  function DecodeIndex(v: Value): Option<string> {
    match v
    case UserJson(_) => Some("")
    case IndexJson(id) => Some(id)
    case Other(_, _, i) => i
  }

  type Bucket = map<string, Value>

  function Lookup(b: Bucket, key: string): Option<Value> {
    if key in b then Some(b[key]) else None
  }

  datatype Error = BadCommand | BadKey | BadValue | AlreadyExists | NotEmpty | PutRefused | UnknownOperation

  datatype KV = KV(key: string, value: Value, delete: bool)

  datatype BootstrapUser = BootstrapUser(username: string, passwordHash: string, password: string,
                                         roles: seq<string>, channels: seq<string>)
  datatype BootstrapChannel = BootstrapChannel(id: string, record: Value)

  // Absent parts are None; the records are already marshalled.
  datatype Bootstrap = Bootstrap(server: Option<Value>, defaults: Option<Value>, users: seq<BootstrapUser>,
                                 channels: seq<BootstrapChannel>, internalAuth: Option<Value>,
                                 oidcProviders: Option<Value>)

  // One log entry. A payload of None is one that does not parse.
  datatype Command =
    | Malformed
    | Set(key: string, value: Value)
    | SetJson(key: string, value: Value)
    | SetMulti(entries: Option<seq<KV>>)
    | Delete(key: string)
    | CreateChannel(key: string, value: Value)
    | CreateUser(key: string, value: Value)
    | ApplyBootstrap(payload: Option<Bootstrap>)
    | UnknownOp(key: string)

  // ---------------------------------------------------------------- keys

  predicate HasDotDot(key: string) {
    exists i :: 0 <= i < |key| - 1 && key[i] == '.' && key[i + 1] == '.'
  }

  predicate ValidKey(key: string) {
    !HasDotDot(key) && |key| > 0 && key[0] == '/'
  }

  function UserKey(id: string): string { "/users/" + id + "/" }
  function UsernameIndexKey(username: string): string { "/users/by-username/" + username }
  function IndexKey(username: string): string { UsernameIndexKey(username) + "/" }
  function ChannelKey(id: string): string { "/channels/" + id + "/" }

  // ---------------------------------------------------------------- transactions

  // What a transaction function does to the bucket, in order.
  datatype Action = Put(key: string, value: Value) | Del(key: string) | Fail(error: Error)

  // A working copy, and the error that stopped the transaction, if any.
  datatype Tx = Tx(bucket: Bucket, error: Option<Error>)

  /** bbolt refuses empty and overlong keys; maxKey is its limit. */
  predicate Storable(key: string, maxKey: nat) {
    0 < |key| <= maxKey
  }

  function Act(b: Bucket, a: Action, maxKey: nat): Tx {
    match a
    case Put(k, v) => if Storable(k, maxKey) then Tx(b[k := v], None) else Tx(b, Some(PutRefused))
    case Del(k) => Tx(b - {k}, None)
    case Fail(e) => Tx(b, Some(e))
  }

  function RunActions(b: Bucket, acts: seq<Action>, maxKey: nat): Tx {
    if acts == [] then Tx(b, None)
    else
      var t := RunActions(b, acts[..|acts| - 1], maxKey);
      if t.error.Some? then t else Act(t.bucket, acts[|acts| - 1], maxKey)
  }

  /** db.Update: the working copy replaces the bucket only when the function returned no error. */
  function Commit(b: Bucket, t: Tx): Tx {
    if t.error.Some? then Tx(b, t.error) else t
  }

  lemma RunActionsSnoc(b: Bucket, acts: seq<Action>, a: Action, maxKey: nat)
    ensures RunActions(b, acts + [a], maxKey)
         == (var t := RunActions(b, acts, maxKey); if t.error.Some? then t else Act(t.bucket, a, maxKey))
  {
    assert (acts + [a])[..|acts|] == acts;
  }

  lemma {:induction false} RunActionsConcat(b: Bucket, x: seq<Action>, y: seq<Action>, maxKey: nat)
    ensures RunActions(b, x + y, maxKey)
         == (var t := RunActions(b, x, maxKey); if t.error.Some? then t else RunActions(t.bucket, y, maxKey))
  {
    if y == [] {
      assert x + y == x;
    } else {
      var front, last := y[..|y| - 1], y[|y| - 1];
      assert x + y == (x + front) + [last];
      RunActionsConcat(b, x, front, maxKey);
      RunActionsSnoc(b, x + front, last, maxKey);
    }
  }

  predicate Harmless(a: Action, maxKey: nat) {
    match a
    case Put(k, _) => Storable(k, maxKey)
    case Del(_) => true
    case Fail(_) => false
  }

  ghost predicate AllHarmless(acts: seq<Action>, maxKey: nat) {
    forall i :: 0 <= i < |acts| ==> Harmless(acts[i], maxKey)
  }

  lemma AllHarmlessConcat(x: seq<Action>, y: seq<Action>, maxKey: nat)
    ensures AllHarmless(x + y, maxKey) <==> AllHarmless(x, maxKey) && AllHarmless(y, maxKey)
  {
    if AllHarmless(x + y, maxKey) {
      assert forall i :: 0 <= i < |x| ==> x[i] == (x + y)[i];
      assert forall i :: 0 <= i < |y| ==> y[i] == (x + y)[|x| + i];
    }
  }

  /** Whether a batch goes through does not depend on what is stored. */
  lemma {:induction false} BatchSucceedsIff(b: Bucket, acts: seq<Action>, maxKey: nat)
    ensures RunActions(b, acts, maxKey).error.None? <==> AllHarmless(acts, maxKey)
  {
    if acts != [] {
      var front, last := acts[..|acts| - 1], acts[|acts| - 1];
      BatchSucceedsIff(b, front, maxKey);
      assert acts == front + [last];
      AllHarmlessConcat(front, [last], maxKey);
      assert AllHarmless([last], maxKey) <==> Harmless([last][0], maxKey);
    }
  }

  // ---------------------------------------------------------------- commands

  function EntryAction(e: KV): Action { if e.delete then Del(e.key) else Put(e.key, e.value) }

  function EntryActions(entries: seq<KV>): seq<Action> {
    seq(|entries|, i requires 0 <= i < |entries| => EntryAction(entries[i]))
  }

  function CreateUserActions(key: string, value: Value): seq<Action> {
    var u := DecodeUser(value);
    [Put(key, value)] +
    (if u.None? || u.value.username == "" then [Fail(BadValue)]
     else [Put(IndexKey(u.value.username), IndexJson(u.value.id))])
  }

  function BootstrapUserActions(u: BootstrapUser): seq<Action> {
    if u.username == "" || u.password != "" || u.passwordHash == "" then [Fail(BadValue)]
    else [Put(UserKey(u.username), UserJson(User(u.username, u.username, u.passwordHash, u.roles, u.channels))),
          Put(IndexKey(u.username), IndexJson(u.username))]
  }

  function BootstrapUsersActions(users: seq<BootstrapUser>): seq<Action> {
    if users == [] then []
    else BootstrapUsersActions(users[..|users| - 1]) + BootstrapUserActions(users[|users| - 1])
  }

  function BootstrapChannelAction(c: BootstrapChannel): Action {
    if c.id == "" then Fail(BadValue) else Put(ChannelKey(c.id), c.record)
  }

  function BootstrapChannelsActions(channels: seq<BootstrapChannel>): seq<Action> {
    if channels == [] then []
    else BootstrapChannelsActions(channels[..|channels| - 1]) + [BootstrapChannelAction(channels[|channels| - 1])]
  }

  function PutOptional(key: string, v: Option<Value>): seq<Action> {
    if v.Some? then [Put(key, v.value)] else []
  }

  function BootstrapActions(p: Bootstrap): seq<Action> {
    PutOptional("/global/server/", p.server) + PutOptional("/global/defaults/", p.defaults)
    + BootstrapUsersActions(p.users) + BootstrapChannelsActions(p.channels)
    + PutOptional("/global/auth/internal_enabled", p.internalAuth)
    + PutOptional("/global/auth/oidc_providers", p.oidcProviders)
  }

  predicate AllKeysValid(entries: seq<KV>) {
    forall i :: 0 <= i < |entries| ==> ValidKey(entries[i].key)
  }

  /** The state machine: the bucket after one log entry, and the error it reports. */
  function ApplyEntry(b: Bucket, cmd: Command, maxKey: nat): Tx {
    if !cmd.Malformed? && !cmd.SetMulti? && !cmd.ApplyBootstrap? && !ValidKey(cmd.key) then Tx(b, Some(BadKey)) else
    match cmd
    case Malformed => Tx(b, Some(BadCommand))
    case Set(k, v) => Commit(b, RunActions(b, [Put(k, v)], maxKey))
    case SetJson(k, v) => Commit(b, RunActions(b, [Put(k, v)], maxKey))
    case Delete(k) => Commit(b, RunActions(b, [Del(k)], maxKey))
    case SetMulti(es) =>
      if es.None? then Tx(b, Some(BadValue))
      else if !AllKeysValid(es.value) then Tx(b, Some(BadKey))
      else Commit(b, RunActions(b, EntryActions(es.value), maxKey))
    case CreateChannel(k, v) =>
      if k in b then Tx(b, Some(AlreadyExists)) else Commit(b, RunActions(b, [Put(k, v)], maxKey))
    case CreateUser(k, v) =>
      if k in b then Tx(b, Some(AlreadyExists)) else Commit(b, RunActions(b, CreateUserActions(k, v), maxKey))
    case ApplyBootstrap(p) =>
      if p.None? then Tx(b, Some(BadValue))
      else if b != map[] then Tx(b, Some(NotEmpty))
      else Commit(b, RunActions(b, BootstrapActions(p.value), maxKey))
    case UnknownOp(_) => Tx(b, Some(UnknownOperation))
  }

  /** Any command that reports an error leaves the bucket as it was. */
  lemma FailedCommandChangesNothing(b: Bucket, cmd: Command, maxKey: nat)
    ensures ApplyEntry(b, cmd, maxKey).error.Some? ==> ApplyEntry(b, cmd, maxKey).bucket == b
  {
  }

  /** The rollback matters: a user without a username fails after its record was put. */
  lemma CreateUserFailsAfterFirstPut(maxKey: nat)
    requires maxKey >= 100
    ensures var u := UserJson(User("7", "", "h", [], []));
            && RunActions(map[], CreateUserActions(UserKey("7"), u), maxKey).bucket == map[UserKey("7") := u]
            && ApplyEntry(map[], CreateUser(UserKey("7"), u), maxKey) == Tx(map[], Some(BadValue))
  {
    var u := UserJson(User("7", "", "h", [], []));
    var first := Put(UserKey("7"), u);
    assert UserKey("7") == "/users/7/";
    assert CreateUserActions(UserKey("7"), u) == [] + [first] + [Fail(BadValue)];
    RunActionsSnoc(map[], [], first, maxKey);
    RunActionsSnoc(map[], [] + [first], Fail(BadValue), maxKey);
    assert !HasDotDot("/users/7/");
  }

  // ---------------------------------------------------------------- what bootstrap accepts

  predicate GoodBootstrapUser(u: BootstrapUser, maxKey: nat) {
    u.username != "" && u.password == "" && u.passwordHash != "" && Storable(IndexKey(u.username), maxKey)
  }

  predicate GoodBootstrapChannel(c: BootstrapChannel, maxKey: nat) {
    c.id != "" && Storable(ChannelKey(c.id), maxKey)
  }

  ghost predicate GoodBootstrap(p: Bootstrap, maxKey: nat) {
    && (forall i :: 0 <= i < |p.users| ==> GoodBootstrapUser(p.users[i], maxKey))
    && (forall i :: 0 <= i < |p.channels| ==> GoodBootstrapChannel(p.channels[i], maxKey))
  }

  lemma UserHarmlessIff(u: BootstrapUser, maxKey: nat)
    ensures AllHarmless(BootstrapUserActions(u), maxKey) <==> GoodBootstrapUser(u, maxKey)
  {
    var acts := BootstrapUserActions(u);
    assert |UserKey(u.username)| < |IndexKey(u.username)|;
    assert AllHarmless(acts, maxKey) ==> Harmless(acts[0], maxKey);
    if |acts| == 2 {
      assert AllHarmless(acts, maxKey) ==> Harmless(acts[1], maxKey);
    }
  }

  lemma {:induction false} UsersHarmlessIff(users: seq<BootstrapUser>, maxKey: nat)
    ensures AllHarmless(BootstrapUsersActions(users), maxKey)
       <==> forall i :: 0 <= i < |users| ==> GoodBootstrapUser(users[i], maxKey)
  {
    if users != [] {
      var front, u := users[..|users| - 1], users[|users| - 1];
      UsersHarmlessIff(front, maxKey);
      UserHarmlessIff(u, maxKey);
      AllHarmlessConcat(BootstrapUsersActions(front), BootstrapUserActions(u), maxKey);
      assert forall i :: 0 <= i < |front| ==> front[i] == users[i];
    }
  }

  lemma {:induction false} ChannelsHarmlessIff(channels: seq<BootstrapChannel>, maxKey: nat)
    ensures AllHarmless(BootstrapChannelsActions(channels), maxKey)
       <==> forall i :: 0 <= i < |channels| ==> GoodBootstrapChannel(channels[i], maxKey)
  {
    if channels != [] {
      var front, c := channels[..|channels| - 1], channels[|channels| - 1];
      ChannelsHarmlessIff(front, maxKey);
      var act := BootstrapChannelAction(c);
      assert Harmless(act, maxKey) <==> GoodBootstrapChannel(c, maxKey);
      AllHarmlessConcat(BootstrapChannelsActions(front), [act], maxKey);
      assert AllHarmless([act], maxKey) <==> Harmless([act][0], maxKey);
      assert forall i :: 0 <= i < |front| ==> front[i] == channels[i];
    }
  }

  lemma OptionalHarmless(key: string, v: Option<Value>, maxKey: nat)
    requires Storable(key, maxKey)
    ensures AllHarmless(PutOptional(key, v), maxKey)
  {
  }

  lemma SixHarmless(a: seq<Action>, b: seq<Action>, c: seq<Action>, d: seq<Action>, e: seq<Action>, f: seq<Action>,
                    maxKey: nat)
    ensures AllHarmless(a + b + c + d + e + f, maxKey) <==>
              AllHarmless(a, maxKey) && AllHarmless(b, maxKey) && AllHarmless(c, maxKey)
              && AllHarmless(d, maxKey) && AllHarmless(e, maxKey) && AllHarmless(f, maxKey)
  {
    AllHarmlessConcat(a, b, maxKey);
    AllHarmlessConcat(a + b, c, maxKey);
    AllHarmlessConcat(a + b + c, d, maxKey);
    AllHarmlessConcat(a + b + c + d, e, maxKey);
    AllHarmlessConcat(a + b + c + d + e, f, maxKey);
  }

  lemma BootstrapHarmlessIff(p: Bootstrap, maxKey: nat)
    requires maxKey >= 100
    ensures AllHarmless(BootstrapActions(p), maxKey) <==> GoodBootstrap(p, maxKey)
  {
    SixHarmless(PutOptional("/global/server/", p.server), PutOptional("/global/defaults/", p.defaults),
                BootstrapUsersActions(p.users), BootstrapChannelsActions(p.channels),
                PutOptional("/global/auth/internal_enabled", p.internalAuth),
                PutOptional("/global/auth/oidc_providers", p.oidcProviders), maxKey);
    UsersHarmlessIff(p.users, maxKey);
    ChannelsHarmlessIff(p.channels, maxKey);
    OptionalHarmless("/global/server/", p.server, maxKey);
    OptionalHarmless("/global/defaults/", p.defaults, maxKey);
    OptionalHarmless("/global/auth/internal_enabled", p.internalAuth, maxKey);
    OptionalHarmless("/global/auth/oidc_providers", p.oidcProviders, maxKey);
  }

  /** Bootstrap succeeds exactly on an empty bucket with hashed users and named channels. maxKey is
      assumed to have room for the fixed keys. */
  lemma BootstrapSucceedsIff(b: Bucket, p: Bootstrap, maxKey: nat)
    requires maxKey >= 100
    ensures ApplyEntry(b, ApplyBootstrap(Some(p)), maxKey).error.None? <==> b == map[] && GoodBootstrap(p, maxKey)
  {
    BootstrapHarmlessIff(p, maxKey);
    BatchSucceedsIff(b, BootstrapActions(p), maxKey);
  }

  // ---------------------------------------------------------------- the object

  // A snapshot stream as Restore reads it: empty, unreadable, or a map of records.
  datatype Stream = Nothing | Garbage | Records(data: Bucket)

  function RestoreFrom(b: Bucket, s: Stream, maxKey: nat): Tx {
    match s
    case Nothing => Tx(map[], None)
    case Garbage => Tx(b, Some(BadValue))
    case Records(data) =>
      if forall k :: k in data ==> Storable(k, maxKey) then Tx(data, None) else Tx(b, Some(PutRefused))
  }

  /** A restore that fails changes nothing; one that succeeds leaves the snapshot alone, and an empty stream
      leaves nothing. */
  lemma RestoreMeans(b: Bucket, s: Stream, maxKey: nat)
    ensures var t := RestoreFrom(b, s, maxKey);
            && (t.error.Some? ==> t.bucket == b)
            && (t.error.None? <==> s.Nothing? || (s.Records? && AllStorable(s.data, maxKey)))
            && (t.error.None? ==> t.bucket == if s.Records? then s.data else map[])
  {
  }

  class FSM {
    const maxKey: nat
    var bucket: Bucket

    constructor (limit: nat)
      ensures bucket == map[] && maxKey == limit
    {
      maxKey, bucket := limit, map[];
    }

    method Apply(cmd: Command) returns (err: Option<Error>)
      modifies this
      ensures Tx(bucket, err) == ApplyEntry(old(bucket), cmd, maxKey)
    {
      if !cmd.SetMulti? && !cmd.ApplyBootstrap? {
        if cmd.Malformed? {
          return Some(BadCommand);
        }
        if !ValidKey(cmd.key) {
          return Some(BadKey);
        }
      }
      match cmd
      case Set(k, v) => err := ApplySet(k, v);
      case SetJson(k, v) => err := ApplySet(k, v);
      case SetMulti(es) => err := ApplySetMulti(es);
      case Delete(k) => err := ApplyDelete(k);
      case CreateChannel(k, v) => err := ApplyCreateChannel(k, v);
      case CreateUser(k, v) => err := ApplyCreateUser(k, v);
      case ApplyBootstrap(p) => err := ApplyBootstrapPayload(p);
      case UnknownOp(_) => err := Some(UnknownOperation);
    }

    method ApplySet(key: string, value: Value) returns (err: Option<Error>)
      modifies this
      ensures Tx(bucket, err) == Commit(old(bucket), RunActions(old(bucket), [Put(key, value)], maxKey))
    {
      assert [Put(key, value)] == [] + [Put(key, value)];
      RunActionsSnoc(bucket, [], Put(key, value), maxKey);
      if !Storable(key, maxKey) {
        return Some(PutRefused);
      }
      bucket := bucket[key := value];
      return None;
    }

    method ApplyDelete(key: string) returns (err: Option<Error>)
      modifies this
      ensures Tx(bucket, err) == Commit(old(bucket), RunActions(old(bucket), [Del(key)], maxKey))
    {
      assert [Del(key)] == [] + [Del(key)];
      RunActionsSnoc(bucket, [], Del(key), maxKey);
      bucket := bucket - {key};
      return None;
    }

    method ApplyCreateChannel(key: string, value: Value) returns (err: Option<Error>)
      modifies this
      ensures Tx(bucket, err) == if key in old(bucket) then Tx(old(bucket), Some(AlreadyExists))
                                 else Commit(old(bucket), RunActions(old(bucket), [Put(key, value)], maxKey))
    {
      if key in bucket {
        return Some(AlreadyExists);
      }
      err := ApplySet(key, value);
    }

    method ApplyCreateUser(key: string, value: Value) returns (err: Option<Error>)
      modifies this
      ensures Tx(bucket, err) == if key in old(bucket) then Tx(old(bucket), Some(AlreadyExists))
                                 else Commit(old(bucket), RunActions(old(bucket), CreateUserActions(key, value), maxKey))
    {
      var tx := bucket;
      if key in tx {
        return Some(AlreadyExists);
      }
      ghost var acts := CreateUserActions(key, value);
      assert acts == [] + [acts[0]] + [acts[1]];
      RunActionsSnoc(bucket, [], acts[0], maxKey);
      RunActionsSnoc(bucket, [] + [acts[0]], acts[1], maxKey);
      if !Storable(key, maxKey) {
        return Some(PutRefused);
      }
      tx := tx[key := value];
      var u := DecodeUser(value);
      if u.None? || u.value.username == "" {
        return Some(BadValue);
      }
      var index := IndexKey(u.value.username);
      if !Storable(index, maxKey) {
        return Some(PutRefused);
      }
      tx := tx[index := IndexJson(u.value.id)];
      bucket := tx;
      return None;
    }

    method ApplySetMulti(payload: Option<seq<KV>>) returns (err: Option<Error>)
      modifies this
      ensures Tx(bucket, err) == ApplyEntry(old(bucket), SetMulti(payload), maxKey)
    {
      if payload.None? {
        return Some(BadValue);
      }
      var entries := payload.value;
      for i := 0 to |entries|
        invariant forall j :: 0 <= j < i ==> ValidKey(entries[j].key)
      {
        if !ValidKey(entries[i].key) {
          return Some(BadKey);
        }
      }
      var tx := bucket;
      ghost var acts := EntryActions(entries);
      for i := 0 to |entries|
        invariant bucket == old(bucket) && RunActions(bucket, acts[..i], maxKey) == Tx(tx, None)
      {
        var e := entries[i];
        assert acts[..i + 1] == acts[..i] + [acts[i]];
        RunActionsSnoc(bucket, acts[..i], acts[i], maxKey);
        if e.delete {
          tx := tx - {e.key};
          continue;
        }
        if !Storable(e.key, maxKey) {
          assert acts == acts[..i + 1] + acts[i + 1..];
          RunActionsConcat(bucket, acts[..i + 1], acts[i + 1..], maxKey);
          return Some(PutRefused);
        }
        tx := tx[e.key := e.value];
      }
      assert acts[..|entries|] == acts;
      bucket := tx;
      return None;
    }

    method ApplyBootstrapPayload(payload: Option<Bootstrap>) returns (err: Option<Error>)
      modifies this
      ensures Tx(bucket, err) == ApplyEntry(old(bucket), ApplyBootstrap(payload), maxKey)
    {
      if payload.None? {
        return Some(BadValue);
      }
      if bucket != map[] {
        return Some(NotEmpty);
      }
      var p := payload.value;
      var tx := PutIf("/global/server/", p.server, Tx(bucket, None), []);
      tx := PutIf("/global/defaults/", p.defaults, tx, PutOptional("/global/server/", p.server));
      ghost var done := PutOptional("/global/server/", p.server) + PutOptional("/global/defaults/", p.defaults);
      tx := WriteUsers(p.users, tx, done);
      done := done + BootstrapUsersActions(p.users);
      tx := WriteChannels(p.channels, tx, done);
      done := done + BootstrapChannelsActions(p.channels);
      tx := PutIf("/global/auth/internal_enabled", p.internalAuth, tx, done);
      done := done + PutOptional("/global/auth/internal_enabled", p.internalAuth);
      tx := PutIf("/global/auth/oidc_providers", p.oidcProviders, tx, done);
      if tx.error.Some? {
        return tx.error;
      }
      bucket := tx.bucket;
      return None;
    }

    /** One optional record of a bootstrap; `done` is what the transaction did before. */
    method PutIf(key: string, v: Option<Value>, tx: Tx, ghost done: seq<Action>) returns (tx': Tx)
      requires tx == RunActions(bucket, done, maxKey)
      ensures tx' == RunActions(bucket, done + PutOptional(key, v), maxKey)
    {
      tx' := tx;
      RunActionsConcat(bucket, done, PutOptional(key, v), maxKey);
      if tx.error.None? && v.Some? {
        assert PutOptional(key, v) == [] + [Put(key, v.value)];
        RunActionsSnoc(tx.bucket, [], Put(key, v.value), maxKey);
        tx' := Act(tx.bucket, Put(key, v.value), maxKey);
      }
    }

    method WriteUsers(users: seq<BootstrapUser>, tx: Tx, ghost done: seq<Action>) returns (tx': Tx)
      requires tx == RunActions(bucket, done, maxKey)
      ensures tx' == RunActions(bucket, done + BootstrapUsersActions(users), maxKey)
    {
      tx' := tx;
      assert done + BootstrapUsersActions(users[..0]) == done;
      for i := 0 to |users|
        invariant tx' == RunActions(bucket, done + BootstrapUsersActions(users[..i]), maxKey)
      {
        assert users[..i + 1][..i] == users[..i];
        ghost var before := done + BootstrapUsersActions(users[..i]);
        assert done + BootstrapUsersActions(users[..i + 1]) == before + BootstrapUserActions(users[i]);
        tx' := WriteUser(users[i], tx', before);
      }
      assert users[..|users|] == users;
    }

    method WriteUser(u: BootstrapUser, tx: Tx, ghost done: seq<Action>) returns (tx': Tx)
      requires tx == RunActions(bucket, done, maxKey)
      ensures tx' == RunActions(bucket, done + BootstrapUserActions(u), maxKey)
    {
      ghost var acts := BootstrapUserActions(u);
      tx' := tx;
      if |acts| == 2 {
        assert done + acts == (done + [acts[0]]) + [acts[1]];
        RunActionsSnoc(bucket, done + [acts[0]], acts[1], maxKey);
      }
      RunActionsSnoc(bucket, done, acts[0], maxKey);
      if tx.error.Some? {
        return;
      }
      if u.username == "" || u.password != "" || u.passwordHash == "" {
        tx' := Tx(tx.bucket, Some(BadValue));
        return;
      }
      var user := User(u.username, u.username, u.passwordHash, u.roles, u.channels);
      tx' := Act(tx.bucket, Put(UserKey(u.username), UserJson(user)), maxKey);
      if tx'.error.None? {
        tx' := Act(tx'.bucket, Put(IndexKey(u.username), IndexJson(u.username)), maxKey);
      }
    }

    method WriteChannels(channels: seq<BootstrapChannel>, tx: Tx, ghost done: seq<Action>) returns (tx': Tx)
      requires tx == RunActions(bucket, done, maxKey)
      ensures tx' == RunActions(bucket, done + BootstrapChannelsActions(channels), maxKey)
    {
      tx' := tx;
      assert done + BootstrapChannelsActions(channels[..0]) == done;
      for i := 0 to |channels|
        invariant tx' == RunActions(bucket, done + BootstrapChannelsActions(channels[..i]), maxKey)
      {
        var c := channels[i];
        assert channels[..i + 1][..i] == channels[..i];
        ghost var before := done + BootstrapChannelsActions(channels[..i]);
        assert done + BootstrapChannelsActions(channels[..i + 1]) == before + [BootstrapChannelAction(c)];
        RunActionsSnoc(bucket, before, BootstrapChannelAction(c), maxKey);
        if tx'.error.None? {
          tx' := if c.id == "" then Tx(tx'.bucket, Some(BadValue))
                 else Act(tx'.bucket, Put(ChannelKey(c.id), c.record), maxKey);
        }
      }
      assert channels[..|channels|] == channels;
    }

    /** Snapshot.Persist reads the live bucket, whatever it holds when the snapshot is written. */
    method Persist() returns (s: Stream)
      ensures s == Records(bucket)
    {
      var todo, copied := bucket.Keys, map[];
      while todo != {}
        invariant todo <= bucket.Keys
        invariant copied == bucket - todo
        decreases todo
      {
        var k :| k in todo;
        copied := copied[k := bucket[k]];
        todo := todo - {k};
      }
      assert copied == bucket;
      s := Records(copied);
    }

    /** Clears the bucket and writes the records back in the map's arbitrary order. */
    method Restore(s: Stream) returns (err: Option<Error>)
      modifies this
      ensures Tx(bucket, err) == RestoreFrom(old(bucket), s, maxKey)
    {
      if s.Garbage? {
        return Some(BadValue);
      }
      var tx := ClearBucket();
      if s.Nothing? {
        bucket := tx;
        return None;
      }
      var todo := s.data.Keys;
      while todo != {}
        invariant todo <= s.data.Keys && bucket == old(bucket)
        invariant tx == s.data - todo
        invariant forall k :: k in s.data && k !in todo ==> Storable(k, maxKey)
        decreases todo
      {
        var k :| k in todo;
        if !Storable(k, maxKey) {
          return Some(PutRefused);
        }
        tx := tx[k := s.data[k]];
        todo := todo - {k};
      }
      assert tx == s.data;
      bucket := tx;
      return None;
    }

    method ClearBucket() returns (tx: Bucket)
      ensures tx == map[]
    {
      tx := bucket;
      var keys := bucket.Keys;
      while keys != {}
        invariant tx.Keys == keys
        decreases keys
      {
        var k :| k in keys;
        tx, keys := tx - {k}, keys - {k};
      }
    }
  }

  ghost predicate AllStorable(b: Bucket, maxKey: nat) {
    forall k :: k in b ==> Storable(k, maxKey)
  }

  lemma {:induction false} ActionsKeepStorable(b: Bucket, acts: seq<Action>, maxKey: nat)
    requires AllStorable(b, maxKey)
    ensures AllStorable(RunActions(b, acts, maxKey).bucket, maxKey)
  {
    if acts != [] {
      ActionsKeepStorable(b, acts[..|acts| - 1], maxKey);
    }
  }

  lemma EntryKeepsStorable(b: Bucket, cmd: Command, maxKey: nat)
    requires AllStorable(b, maxKey)
    ensures AllStorable(ApplyEntry(b, cmd, maxKey).bucket, maxKey)
  {
    match cmd
    case Set(k, v) => ActionsKeepStorable(b, [Put(k, v)], maxKey);
    case SetJson(k, v) => ActionsKeepStorable(b, [Put(k, v)], maxKey);
    case CreateChannel(k, v) => ActionsKeepStorable(b, [Put(k, v)], maxKey);
    case Delete(k) => ActionsKeepStorable(b, [Del(k)], maxKey);
    case CreateUser(k, v) => ActionsKeepStorable(b, CreateUserActions(k, v), maxKey);
    case SetMulti(es) => if es.Some? { ActionsKeepStorable(b, EntryActions(es.value), maxKey); }
    case ApplyBootstrap(p) => if p.Some? { ActionsKeepStorable(b, BootstrapActions(p.value), maxKey); }
    case Malformed =>
    case UnknownOp(_) =>
  }
}
