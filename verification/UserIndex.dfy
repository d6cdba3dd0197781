/** User records and the username index of internal/repository/raft.go, kept in step by the commands that
    create, update and delete users. */
module UserIndex {
  import opened Basics
  import opened Fsm

  // ---------------------------------------------------------------- reading

  function GetUser(b: Bucket, id: string): Option<User> {
    if UserKey(id) in b then DecodeUser(b[UserKey(id)]) else None
  }

  function IndexEntry(b: Bucket, username: string): Option<string> {
    if IndexKey(username) in b then DecodeIndex(b[IndexKey(username)]) else None
  }

  function GetUserByUsername(b: Bucket, username: string): Option<User> {
    var id := IndexEntry(b, username);
    if id.None? then None else GetUser(b, id.value)
  }

  // ---------------------------------------------------------------- the mutations as log entries

  function CreateUserCommand(u: User): Command {
    Command.CreateUser(UserKey(u.id), UserJson(u))
  }

  function UpdateUserCommand(b: Bucket, u: User): Command {
    var before := GetUser(b, u.id);
    var entries := [KV(UserKey(u.id), UserJson(u), false), KV(IndexKey(u.username), IndexJson(u.id), false)];
    if before.Some? && before.value.username != u.username && before.value.username != ""
    then SetMulti(Some(entries + [KV(IndexKey(before.value.username), UserJson(NO_USER), true)]))
    else SetMulti(Some(entries))
  }

  function DeleteUserCommand(id: string, u: User): Command {
    SetMulti(Some([KV(UserKey(id), UserJson(NO_USER), true), KV(IndexKey(u.username), UserJson(NO_USER), true)]))
  }

  datatype Mutation =
    | Creating(user: User)
    | Updating(user: User)
    | Deleting(id: string)
    | Seeding(payload: Bootstrap)
    | Unrelated(cmd: Command)  // a command on keys outside /users/

  /** CreateUser falls back to the username when the ID is empty. */
  function WithId(u: User): User { if u.id == "" then u.(id := u.username) else u }

  /** A given ID is kept, and nothing but a missing ID is filled in. */
  lemma WithIdMeans(u: User)
    ensures u.id != "" ==> WithId(u) == u
    ensures u.id == "" ==> WithId(u) == User(u.username, u.username, u.passwordHash, u.roles, u.channels)
  {
  }

  function Mutate(b: Bucket, m: Mutation, maxKey: nat): Bucket {
    match m
    case Creating(u) => if WithId(u).id == "" then b else ApplyEntry(b, CreateUserCommand(WithId(u)), maxKey).bucket
    case Updating(u) => ApplyEntry(b, UpdateUserCommand(b, u), maxKey).bucket
    case Deleting(id) =>
      var u := GetUser(b, id);
      if u.None? then b else ApplyEntry(b, DeleteUserCommand(id, u.value), maxKey).bucket
    case Seeding(p) => ApplyEntry(b, ApplyBootstrap(Some(p)), maxKey).bucket
    case Unrelated(cmd) => ApplyEntry(b, cmd, maxKey).bucket
  }

  predicate Succeeds(b: Bucket, m: Mutation, maxKey: nat) {
    match m
    case Creating(u) => WithId(u).id != "" && ApplyEntry(b, CreateUserCommand(WithId(u)), maxKey).error.None?
    case Updating(u) => ApplyEntry(b, UpdateUserCommand(b, u), maxKey).error.None?
    case Deleting(id) => GetUser(b, id).Some? && ApplyEntry(b, DeleteUserCommand(id, GetUser(b, id).value), maxKey).error.None?
    case Seeding(p) => ApplyEntry(b, ApplyBootstrap(Some(p)), maxKey).error.None?
    case Unrelated(cmd) => ApplyEntry(b, cmd, maxKey).error.None?
  }

  class UserStore {
    const fsm: FSM

    constructor (machine: FSM)
      ensures fsm == machine
    {
      fsm := machine;
    }

    method CreateUser(user: User) returns (ok: bool)
      modifies fsm
      ensures fsm.bucket == Mutate(old(fsm.bucket), Creating(user), fsm.maxKey)
      ensures ok <==> Succeeds(old(fsm.bucket), Creating(user), fsm.maxKey)
      ensures !ok ==> fsm.bucket == old(fsm.bucket)
    {
      var u := user;
      if u.id == "" {
        u := u.(id := u.username);
      }
      if u.id == "" {
        return false;
      }
      var err := fsm.Apply(CreateUserCommand(u));
      ok := err.None?;
    }

    method UpdateUser(u: User) returns (ok: bool)
      modifies fsm
      ensures fsm.bucket == Mutate(old(fsm.bucket), Updating(u), fsm.maxKey)
      ensures ok <==> Succeeds(old(fsm.bucket), Updating(u), fsm.maxKey)
      ensures !ok ==> fsm.bucket == old(fsm.bucket)
    {
      var before := GetUser(fsm.bucket, u.id);
      var oldUsername := "";
      if before.Some? && before.value.username != u.username && before.value.username != "" {
        oldUsername := before.value.username;
      }
      var entries := [KV(UserKey(u.id), UserJson(u), false), KV(IndexKey(u.username), IndexJson(u.id), false)];
      if oldUsername != "" {
        entries := entries + [KV(IndexKey(oldUsername), UserJson(NO_USER), true)];
      }
      var err := fsm.Apply(SetMulti(Some(entries)));
      ok := err.None?;
    }

    method DeleteUser(id: string) returns (ok: bool)
      modifies fsm
      ensures fsm.bucket == Mutate(old(fsm.bucket), Deleting(id), fsm.maxKey)
      ensures ok <==> Succeeds(old(fsm.bucket), Deleting(id), fsm.maxKey)
      ensures !ok ==> fsm.bucket == old(fsm.bucket)
    {
      var u := GetUser(fsm.bucket, id);
      if u.None? {
        return false;
      }
      var err := fsm.Apply(DeleteUserCommand(id, u.value));
      ok := err.None?;
    }
  }

  // ---------------------------------------------------------------- keys do not collide

  /** A name the store can hold: not empty and free of slashes. */
  predicate Plain(name: string) {
    name != "" && '/' !in name
  }

  const USERS := "/users/"
  const BY_NAME := "/users/by-username/"

  lemma UserKeysDiffer(id: string, other: string)
    ensures UserKey(id) == UserKey(other) <==> id == other
  {
    if UserKey(id) == UserKey(other) {
      assert UserKey(id)[|USERS|..|UserKey(id)| - 1] == id;
      assert UserKey(other)[|USERS|..|UserKey(other)| - 1] == other;
    }
  }

  lemma IndexKeysDiffer(name: string, other: string)
    ensures IndexKey(name) == IndexKey(other) <==> name == other
  {
    if IndexKey(name) == IndexKey(other) {
      assert IndexKey(name)[|BY_NAME|..|IndexKey(name)| - 1] == name;
      assert IndexKey(other)[|BY_NAME|..|IndexKey(other)| - 1] == other;
    }
  }

  lemma UserKeyIsNoIndexKey(id: string, name: string)
    requires Plain(id) && Plain(name)
    ensures UserKey(id) != IndexKey(name)
  {
    var k := |BY_NAME| - 1;
    assert IndexKey(name)[k] == BY_NAME[k] == '/';
    if |UserKey(id)| == |IndexKey(name)| {
      assert UserKey(id)[k] == id[k - |USERS|] && id[k - |USERS|] in id;
    }
  }

  /** The store takes the keys of every plain name without two dots in a row. */
  lemma PlainKeysAreValidIff(name: string)
    requires Plain(name)
    ensures ValidKey(UserKey(name)) <==> !HasDotDot(name)
    ensures ValidKey(IndexKey(name)) <==> !HasDotDot(name)
  {
    DotsBetweenSlashes(USERS, name);
    DotsBetweenSlashes(BY_NAME, name);
    assert UserKey(name) == USERS + name + "/" && IndexKey(name) == BY_NAME + name + "/";
  }

  lemma DotsBetweenSlashes(prefix: string, name: string)
    requires |prefix| > 0 && prefix[|prefix| - 1] == '/' && '.' !in prefix
    ensures HasDotDot(prefix + name + "/") <==> HasDotDot(name)
  {
    var key := prefix + name + "/";
    if i :| 0 <= i < |key| - 1 && key[i] == '.' && key[i + 1] == '.' {
      assert i >= |prefix| && key[i] == name[i - |prefix|] && key[i + 1] == name[i + 1 - |prefix|];
    }
    if i :| 0 <= i < |name| - 1 && name[i] == '.' && name[i + 1] == '.' {
      assert key[|prefix| + i] == '.' && key[|prefix| + i + 1] == '.';
    }
  }

  // ---------------------------------------------------------------- the invariant

  /** Only plain names occur, and every record is stored under its own ID. */
  ghost predicate WellFormed(b: Bucket) {
    && (forall id :: UserKey(id) in b && Plain(id) ==>
          GetUser(b, id).Some? && GetUser(b, id).value.id == id && Plain(GetUser(b, id).value.username))
    && (forall name :: IndexKey(name) in b && Plain(name) ==> IndexEntry(b, name).Some? && Plain(IndexEntry(b, name).value))
  }

  /** Every index entry points to an existing user with that username. */
  ghost predicate IndexSound(b: Bucket) {
    forall name :: IndexKey(name) in b && Plain(name) ==> IndexSoundAt(b, name)
  }

  ghost predicate IndexSoundAt(b: Bucket, name: string) {
    var id := IndexEntry(b, name);
    id.Some? && Plain(id.value) && GetUser(b, id.value).Some? && GetUser(b, id.value).value.username == name
  }

  /** Every user is found through the index. */
  ghost predicate IndexComplete(b: Bucket) {
    forall id :: UserKey(id) in b && Plain(id) ==> IndexCompleteAt(b, id)
  }

  ghost predicate IndexCompleteAt(b: Bucket, id: string) {
    var u := GetUser(b, id);
    u.Some? && IndexEntry(b, u.value.username) == Some(id)
  }

  ghost predicate Inv(b: Bucket) {
    WellFormed(b) && IndexSound(b)
  }

  ghost predicate PlainMutation(m: Mutation) {
    match m
    case Creating(u) => Plain(WithId(u).id) && Plain(u.username)
    case Updating(u) => Plain(u.id) && Plain(u.username)
    case Deleting(id) => Plain(id)
    case Seeding(p) => forall i :: 0 <= i < |p.users| ==> Plain(p.users[i].username)
    case Unrelated(cmd) => LeavesUsersAlone(cmd)
  }

  predicate UnderUsers(key: string) { |key| >= |USERS| && key[..|USERS|] == USERS }

  ghost predicate LeavesUsersAlone(cmd: Command) {
    match cmd
    case Malformed => true
    case SetMulti(es) => es.Some? ==> forall i :: 0 <= i < |es.value| ==> !UnderUsers(es.value[i].key)
    case ApplyBootstrap(_) => false
    case CreateUser(_, _) => false
    case Set(k, _) => !UnderUsers(k)
    case SetJson(k, _) => !UnderUsers(k)
    case Delete(k) => !UnderUsers(k)
    case CreateChannel(k, _) => !UnderUsers(k)
    case UnknownOp(_) => true
  }

  // ---------------------------------------------------------------- what each mutation does

  function PutUser(b: Bucket, u: User): Bucket {
    b[UserKey(u.id) := UserJson(u)][IndexKey(u.username) := IndexJson(u.id)]
  }

  lemma CreateOutcome(b: Bucket, u: User, maxKey: nat)
    requires u.username != ""
    ensures var t := ApplyEntry(b, CreateUserCommand(u), maxKey);
            t.bucket == b || (UserKey(u.id) !in b && t.bucket == PutUser(b, u))
    ensures UserKey(u.id) !in b && ValidKey(UserKey(u.id)) && Storable(UserKey(u.id), maxKey)
            && Storable(IndexKey(u.username), maxKey)
            ==> ApplyEntry(b, CreateUserCommand(u), maxKey) == Tx(PutUser(b, u), None)
  {
    var a1, a2 := Put(UserKey(u.id), UserJson(u)), Put(IndexKey(u.username), IndexJson(u.id));
    assert CreateUserActions(UserKey(u.id), UserJson(u)) == [] + [a1] + [a2];
    RunActionsSnoc(b, [], a1, maxKey);
    RunActionsSnoc(b, [] + [a1], a2, maxKey);
  }

  function MovedFrom(b: Bucket, u: User): Option<string> {
    var before := GetUser(b, u.id);
    if before.Some? && before.value.username != u.username && before.value.username != ""
    then Some(before.value.username) else None
  }

  function AfterUpdate(b: Bucket, u: User): Bucket {
    var b' := PutUser(b, u);
    if MovedFrom(b, u).Some? then b' - {IndexKey(MovedFrom(b, u).value)} else b'
  }

  lemma BatchOutcome(b: Bucket, es: seq<KV>, acts: seq<Action>, result: Bucket, maxKey: nat)
    requires EntryActions(es) == acts
    requires AllHarmless(acts, maxKey) ==> RunActions(b, acts, maxKey).bucket == result
    ensures var t := ApplyEntry(b, SetMulti(Some(es)), maxKey);
            (t.error.Some? && t.bucket == b) || t == Tx(result, None)
  {
    BatchSucceedsIff(b, acts, maxKey);
  }

  lemma PutUserBatch(b: Bucket, u: User, maxKey: nat)
    ensures var acts := [Put(UserKey(u.id), UserJson(u)), Put(IndexKey(u.username), IndexJson(u.id))];
            AllHarmless(acts, maxKey) ==> RunActions(b, acts, maxKey) == Tx(PutUser(b, u), None)
  {
    var a1, a2 := Put(UserKey(u.id), UserJson(u)), Put(IndexKey(u.username), IndexJson(u.id));
    var acts := [a1, a2];
    if AllHarmless(acts, maxKey) {
      assert Harmless(acts[0], maxKey) && Harmless(acts[1], maxKey);
      assert acts == [] + [a1] + [a2];
      RunActionsSnoc(b, [], a1, maxKey);
      RunActionsSnoc(b, [] + [a1], a2, maxKey);
    }
  }

  lemma UpdateOutcome(b: Bucket, u: User, maxKey: nat)
    ensures var t := ApplyEntry(b, UpdateUserCommand(b, u), maxKey);
            (t.error.Some? && t.bucket == b) || t == Tx(AfterUpdate(b, u), None)
  {
    var puts := [Put(UserKey(u.id), UserJson(u)), Put(IndexKey(u.username), IndexJson(u.id))];
    var es := UpdateUserCommand(b, u).entries.value;
    PutUserBatch(b, u, maxKey);
    if MovedFrom(b, u).Some? {
      var drop := Del(IndexKey(MovedFrom(b, u).value));
      assert EntryActions(es) == puts + [drop];
      AllHarmlessConcat(puts, [drop], maxKey);
      RunActionsSnoc(b, puts, drop, maxKey);
      BatchOutcome(b, es, puts + [drop], AfterUpdate(b, u), maxKey);
    } else {
      assert EntryActions(es) == puts;
      BatchOutcome(b, es, puts, AfterUpdate(b, u), maxKey);
    }
  }

  lemma DeleteOutcome(b: Bucket, id: string, u: User, maxKey: nat)
    ensures var t := ApplyEntry(b, DeleteUserCommand(id, u), maxKey);
            (t.error.Some? && t.bucket == b) || t == Tx(b - {UserKey(id)} - {IndexKey(u.username)}, None)
  {
    var a1, a2 := Del(UserKey(id)), Del(IndexKey(u.username));
    assert EntryActions(DeleteUserCommand(id, u).entries.value) == [] + [a1] + [a2];
    RunActionsSnoc(b, [], a1, maxKey);
    RunActionsSnoc(b, [] + [a1], a2, maxKey);
  }

  // ---------------------------------------------------------------- reading after writing

  lemma ReadAfterPut(b: Bucket, u: User, id: string, name: string)
    requires Plain(u.id) && Plain(u.username) && Plain(id) && Plain(name)
    ensures GetUser(PutUser(b, u), id) == if id == u.id then Some(u) else GetUser(b, id)
    ensures UserKey(id) in PutUser(b, u) <==> id == u.id || UserKey(id) in b
    ensures IndexEntry(PutUser(b, u), name) == if name == u.username then Some(u.id) else IndexEntry(b, name)
    ensures IndexKey(name) in PutUser(b, u) <==> name == u.username || IndexKey(name) in b
  {
    UserKeysDiffer(id, u.id);
    IndexKeysDiffer(name, u.username);
    UserKeyIsNoIndexKey(id, u.username);
    UserKeyIsNoIndexKey(u.id, name);
  }

  lemma ReadAfterDropIndex(b: Bucket, gone: string, id: string, name: string)
    requires Plain(gone) && Plain(id) && Plain(name)
    ensures var b' := b - {IndexKey(gone)};
            && GetUser(b', id) == GetUser(b, id) && (UserKey(id) in b' <==> UserKey(id) in b)
            && IndexEntry(b', name) == (if name == gone then None else IndexEntry(b, name))
            && (IndexKey(name) in b' <==> name != gone && IndexKey(name) in b)
  {
    IndexKeysDiffer(name, gone);
    UserKeyIsNoIndexKey(id, gone);
  }

  lemma ReadAfterDropUser(b: Bucket, gone: string, id: string, name: string)
    requires Plain(gone) && Plain(id) && Plain(name)
    ensures var b' := b - {UserKey(gone)};
            && GetUser(b', id) == (if id == gone then None else GetUser(b, id))
            && (UserKey(id) in b' <==> id != gone && UserKey(id) in b)
            && IndexEntry(b', name) == IndexEntry(b, name) && (IndexKey(name) in b' <==> IndexKey(name) in b)
  {
    UserKeysDiffer(id, gone);
    UserKeyIsNoIndexKey(gone, name);
  }

  // ---------------------------------------------------------------- preservation

  /** After a put, index entries of other names must not point at u under its former name. */
  lemma PutKeepsInv(b: Bucket, u: User)
    requires Inv(b) && Plain(u.id) && Plain(u.username)
    requires forall name :: Plain(name) && name != u.username && IndexKey(name) in b ==> IndexEntry(b, name) != Some(u.id)
    ensures Inv(PutUser(b, u))
  {
    var b' := PutUser(b, u);
    forall id | UserKey(id) in b' && Plain(id)
      ensures GetUser(b', id).Some? && GetUser(b', id).value.id == id && Plain(GetUser(b', id).value.username)
    {
      ReadAfterPut(b, u, id, u.username);
    }
    forall name | IndexKey(name) in b' && Plain(name) ensures IndexSoundAt(b', name) {
      ReadAfterPut(b, u, u.id, name);
      if name != u.username {
        assert IndexSoundAt(b, name);
        ReadAfterPut(b, u, IndexEntry(b, name).value, name);
      }
    }
  }

  /** An index entry for another name that still pointed at u would be for u's stored username. */
  lemma OnlyOwnName(b: Bucket, id: string, name: string)
    requires Inv(b) && Plain(name) && IndexKey(name) in b && IndexEntry(b, name) == Some(id)
    ensures GetUser(b, id).Some? && GetUser(b, id).value.username == name
  {
    assert IndexSoundAt(b, name);
  }

  lemma DropIndexKeepsInv(b: Bucket, gone: string)
    requires Inv(b) && Plain(gone)
    ensures Inv(b - {IndexKey(gone)})
  {
    var b' := b - {IndexKey(gone)};
    forall id | UserKey(id) in b' && Plain(id)
      ensures GetUser(b', id).Some? && GetUser(b', id).value.id == id && Plain(GetUser(b', id).value.username)
    {
      ReadAfterDropIndex(b, gone, id, gone);
    }
    forall name | IndexKey(name) in b' && Plain(name) ensures IndexSoundAt(b', name) {
      assert IndexSoundAt(b, name);
      ReadAfterDropIndex(b, gone, IndexEntry(b, name).value, name);
    }
  }

  lemma DropUserKeepsInv(b: Bucket, id: string)
    requires Inv(b) && Plain(id) && GetUser(b, id).Some?
    requires IndexKey(GetUser(b, id).value.username) !in b
    ensures Inv(b - {UserKey(id)})
  {
    var b' := b - {UserKey(id)};
    var own := GetUser(b, id).value.username;
    forall i | UserKey(i) in b' && Plain(i)
      ensures GetUser(b', i).Some? && GetUser(b', i).value.id == i && Plain(GetUser(b', i).value.username)
    {
      ReadAfterDropUser(b, id, i, own);
    }
    forall name | IndexKey(name) in b' && Plain(name) ensures IndexSoundAt(b', name) {
      ReadAfterDropUser(b, id, id, name);
      assert IndexSoundAt(b, name);
      ReadAfterDropUser(b, id, IndexEntry(b, name).value, name);
    }
  }

  lemma CreateKeepsInv(b: Bucket, u: User, maxKey: nat)
    requires Inv(b) && Plain(u.id) && Plain(u.username)
    ensures Inv(ApplyEntry(b, CreateUserCommand(u), maxKey).bucket)
  {
    CreateOutcome(b, u, maxKey);
    if UserKey(u.id) !in b {
      forall name | Plain(name) && name != u.username && IndexKey(name) in b ensures IndexEntry(b, name) != Some(u.id) {
        if IndexEntry(b, name) == Some(u.id) {
          OnlyOwnName(b, u.id, name);
        }
      }
      PutKeepsInv(b, u);
    }
  }

  lemma UpdateKeepsInv(b: Bucket, u: User, maxKey: nat)
    requires Inv(b) && Plain(u.id) && Plain(u.username)
    ensures Inv(ApplyEntry(b, UpdateUserCommand(b, u), maxKey).bucket)
  {
    UpdateOutcome(b, u, maxKey);
    var moved := MovedFrom(b, u);
    if moved.Some? {
      // The order of the put and the deletion does not matter, as they concern different keys.
      var name := moved.value;
      IndexKeysDiffer(name, u.username);
      UserKeyIsNoIndexKey(u.id, name);
      DropIndexKeepsInv(b, name);
      var b' := b - {IndexKey(name)};
      ReadAfterDropIndex(b, name, u.id, u.username);
      forall other | Plain(other) && other != u.username && IndexKey(other) in b'
        ensures IndexEntry(b', other) != Some(u.id)
      {
        ReadAfterDropIndex(b, name, u.id, other);
        if IndexEntry(b', other) == Some(u.id) {
          OnlyOwnName(b, u.id, other);
        }
      }
      PutKeepsInv(b', u);
      assert AfterUpdate(b, u) == PutUser(b', u);
    } else {
      forall other | Plain(other) && other != u.username && IndexKey(other) in b
        ensures IndexEntry(b, other) != Some(u.id)
      {
        if IndexEntry(b, other) == Some(u.id) {
          OnlyOwnName(b, u.id, other);
        }
      }
      PutKeepsInv(b, u);
    }
  }

  lemma DeleteKeepsInv(b: Bucket, id: string, maxKey: nat)
    requires Inv(b) && Plain(id) && GetUser(b, id).Some?
    ensures Inv(ApplyEntry(b, DeleteUserCommand(id, GetUser(b, id).value), maxKey).bucket)
  {
    var u := GetUser(b, id).value;
    DeleteOutcome(b, id, u, maxKey);
    DropIndexKeepsInv(b, u.username);
    ReadAfterDropIndex(b, u.username, id, u.username);
    DropUserKeepsInv(b - {IndexKey(u.username)}, id);
    assert b - {UserKey(id)} - {IndexKey(u.username)} == b - {IndexKey(u.username)} - {UserKey(id)};
  }

  // ---------------------------------------------------------------- commands elsewhere, and bootstrap

  ghost predicate SameUsers(b: Bucket, b': Bucket) {
    forall key :: UnderUsers(key) ==> Lookup(b, key) == Lookup(b', key)
  }

  lemma SameUsersSameReads(b: Bucket, b': Bucket, id: string, name: string)
    requires SameUsers(b, b')
    ensures GetUser(b', id) == GetUser(b, id) && (UserKey(id) in b' <==> UserKey(id) in b)
    ensures IndexEntry(b', name) == IndexEntry(b, name) && (IndexKey(name) in b' <==> IndexKey(name) in b)
  {
    assert UserKey(id)[..|USERS|] == USERS && IndexKey(name)[..|USERS|] == USERS;
    assert Lookup(b, UserKey(id)) == Lookup(b', UserKey(id));
    assert Lookup(b, IndexKey(name)) == Lookup(b', IndexKey(name));
  }

  lemma SameUsersKeepsAll(b: Bucket, b': Bucket)
    requires SameUsers(b, b') && Inv(b)
    ensures Inv(b') && (IndexComplete(b) ==> IndexComplete(b'))
  {
    forall id | UserKey(id) in b' && Plain(id)
      ensures GetUser(b', id).Some? && GetUser(b', id).value.id == id && Plain(GetUser(b', id).value.username)
      ensures IndexComplete(b) ==> IndexCompleteAt(b', id)
    {
      SameUsersSameReads(b, b', id, "");
      SameUsersSameReads(b, b', id, GetUser(b, id).value.username);
      assert IndexComplete(b) ==> IndexCompleteAt(b, id);
    }
    forall name | IndexKey(name) in b' && Plain(name) ensures IndexSoundAt(b', name) {
      SameUsersSameReads(b, b', "", name);
      assert IndexSoundAt(b, name);
      SameUsersSameReads(b, b', IndexEntry(b, name).value, name);
    }
  }

  predicate Outside(a: Action) {
    match a
    case Put(k, _) => !UnderUsers(k)
    case Del(k) => !UnderUsers(k)
    case Fail(_) => true
  }

  lemma {:induction false} OutsideActionsKeepUsers(b: Bucket, acts: seq<Action>, maxKey: nat)
    requires forall i :: 0 <= i < |acts| ==> Outside(acts[i])
    ensures SameUsers(b, RunActions(b, acts, maxKey).bucket)
  {
    if acts != [] {
      OutsideActionsKeepUsers(b, acts[..|acts| - 1], maxKey);
    }
  }

  lemma UnrelatedKeepsUsers(b: Bucket, cmd: Command, maxKey: nat)
    requires LeavesUsersAlone(cmd)
    ensures SameUsers(b, ApplyEntry(b, cmd, maxKey).bucket)
  {
    match cmd
    case Set(k, v) => OutsideActionsKeepUsers(b, [Put(k, v)], maxKey);
    case SetJson(k, v) => OutsideActionsKeepUsers(b, [Put(k, v)], maxKey);
    case CreateChannel(k, v) => OutsideActionsKeepUsers(b, [Put(k, v)], maxKey);
    case Delete(k) => OutsideActionsKeepUsers(b, [Del(k)], maxKey);
    case SetMulti(es) => if es.Some? { OutsideActionsKeepUsers(b, EntryActions(es.value), maxKey); }
    case Malformed =>
    case UnknownOp(_) =>
  }

  /** Seeded users have their username for an ID. */
  ghost predicate Seeded(b: Bucket) {
    && Inv(b) && IndexComplete(b)
    && forall id :: Plain(id) && UserKey(id) in b ==> GetUser(b, id).Some? && GetUser(b, id).value.username == id
  }

  lemma PutKeepsSeeded(b: Bucket, u: User)
    requires Seeded(b) && Plain(u.id) && u.id == u.username
    ensures Seeded(PutUser(b, u))
  {
    forall name | Plain(name) && name != u.username && IndexKey(name) in b ensures IndexEntry(b, name) != Some(u.id) {
      if IndexEntry(b, name) == Some(u.id) {
        OnlyOwnName(b, u.id, name);
      }
    }
    PutKeepsInv(b, u);
    var b' := PutUser(b, u);
    forall id | Plain(id) && UserKey(id) in b'
      ensures GetUser(b', id).Some? && GetUser(b', id).value.username == id && IndexCompleteAt(b', id)
    {
      ReadAfterPut(b, u, id, id);
      assert id != u.id ==> IndexCompleteAt(b, id);
    }
  }

  lemma {:induction false} SeedingUsers(b: Bucket, users: seq<BootstrapUser>, maxKey: nat)
    requires Seeded(b) && AllHarmless(BootstrapUsersActions(users), maxKey)
    requires forall i :: 0 <= i < |users| ==> Plain(users[i].username)
    ensures Seeded(RunActions(b, BootstrapUsersActions(users), maxKey).bucket)
  {
    if users != [] {
      var front, u := users[..|users| - 1], users[|users| - 1];
      var acts := BootstrapUsersActions(front);
      AllHarmlessConcat(acts, BootstrapUserActions(u), maxKey);
      SeedingUsers(b, front, maxKey);
      RunActionsConcat(b, acts, BootstrapUserActions(u), maxKey);
      BatchSucceedsIff(b, acts, maxKey);
      UserHarmlessIff(u, maxKey);
      var user := User(u.username, u.username, u.passwordHash, u.roles, u.channels);
      PutUserBatch(RunActions(b, acts, maxKey).bucket, user, maxKey);
      PutKeepsSeeded(RunActions(b, acts, maxKey).bucket, user);
    }
  }

  lemma ChannelActionsOutside(channels: seq<BootstrapChannel>, i: nat)
    requires i < |BootstrapChannelsActions(channels)|
    ensures Outside(BootstrapChannelsActions(channels)[i])
    decreases |channels|
  {
    var last := channels[|channels| - 1];
    if i < |BootstrapChannelsActions(channels[..|channels| - 1])| {
      ChannelActionsOutside(channels[..|channels| - 1], i);
    } else {
      assert ChannelKey(last.id)[1] == 'c' && USERS[1] == 'u';
    }
  }

  lemma FixedKeysOutside()
    ensures !UnderUsers("/global/server/") && !UnderUsers("/global/defaults/")
    ensures !UnderUsers("/global/auth/internal_enabled") && !UnderUsers("/global/auth/oidc_providers")
  {
    assert "/global/server/"[1] == 'g' && "/global/defaults/"[1] == 'g' && USERS[1] == 'u';
    assert "/global/auth/internal_enabled"[1] == 'g' && "/global/auth/oidc_providers"[1] == 'g';
  }

  function SeedBefore(p: Bootstrap): seq<Action> {
    PutOptional("/global/server/", p.server) + PutOptional("/global/defaults/", p.defaults)
  }

  function SeedAfter(p: Bootstrap): seq<Action> {
    BootstrapChannelsActions(p.channels) + PutOptional("/global/auth/internal_enabled", p.internalAuth)
    + PutOptional("/global/auth/oidc_providers", p.oidcProviders)
  }

  lemma SeedAroundOutside(p: Bootstrap)
    ensures forall i :: 0 <= i < |SeedBefore(p)| ==> Outside(SeedBefore(p)[i])
    ensures forall i :: 0 <= i < |SeedAfter(p)| ==> Outside(SeedAfter(p)[i])
  {
    FixedKeysOutside();
    forall i | 0 <= i < |SeedAfter(p)| ensures Outside(SeedAfter(p)[i]) {
      if i < |BootstrapChannelsActions(p.channels)| {
        ChannelActionsOutside(p.channels, i);
      }
    }
  }

  lemma SeedingSplits(p: Bootstrap, maxKey: nat)
    requires AllHarmless(BootstrapActions(p), maxKey)
    ensures AllHarmless(SeedBefore(p), maxKey) && AllHarmless(BootstrapUsersActions(p.users), maxKey)
    ensures var b1 := RunActions(map[], SeedBefore(p), maxKey).bucket;
            var b2 := RunActions(b1, BootstrapUsersActions(p.users), maxKey).bucket;
            RunActions(map[], BootstrapActions(p), maxKey) == RunActions(b2, SeedAfter(p), maxKey)
  {
    var before, users, after := SeedBefore(p), BootstrapUsersActions(p.users), SeedAfter(p);
    assert BootstrapActions(p) == (before + users) + after;
    AllHarmlessConcat(before + users, after, maxKey);
    AllHarmlessConcat(before, users, maxKey);
    RunActionsConcat(map[], before + users, after, maxKey);
    RunActionsConcat(map[], before, users, maxKey);
    BatchSucceedsIff(map[], before, maxKey);
    BatchSucceedsIff(map[], before + users, maxKey);
  }

  lemma SeedingKeepsAll(p: Bootstrap, maxKey: nat)
    requires forall i :: 0 <= i < |p.users| ==> Plain(p.users[i].username)
    ensures Agrees(ApplyEntry(map[], ApplyBootstrap(Some(p)), maxKey).bucket)
  {
    BatchSucceedsIff(map[], BootstrapActions(p), maxKey);
    if AllHarmless(BootstrapActions(p), maxKey) {
      SeedingSplits(p, maxKey);
      SeedAroundOutside(p);
      var b1 := RunActions(map[], SeedBefore(p), maxKey).bucket;
      OutsideActionsKeepUsers(map[], SeedBefore(p), maxKey);
      SeededFromNothing(b1);
      SeedingUsers(b1, p.users, maxKey);
      var b2 := RunActions(b1, BootstrapUsersActions(p.users), maxKey).bucket;
      OutsideActionsKeepUsers(b2, SeedAfter(p), maxKey);
      SameUsersKeepsAll(b2, RunActions(b2, SeedAfter(p), maxKey).bucket);
    } else {
      SeededFromNothing(map[]);
    }
  }

  lemma SeededFromNothing(b: Bucket)
    requires SameUsers(map[], b)
    ensures Seeded(b)
  {
    SameUsersKeepsAll(map[], b);
    forall id ensures UserKey(id) !in b {
      SameUsersSameReads(map[], b, id, "");
    }
  }

  // ---------------------------------------------------------------- agreement with a scan of all users

  ghost predicate Agrees(b: Bucket) {
    Inv(b) && IndexComplete(b)
  }

  /** No user but `id` carries the name. */
  ghost predicate FreeFor(b: Bucket, name: string, id: string) {
    forall other :: Plain(other) && other != id && UserKey(other) in b ==> !Carries(b, other, name)
  }

  ghost predicate Carries(b: Bucket, id: string, name: string) {
    GetUser(b, id).Some? && GetUser(b, id).value.username == name
  }

  /** Looking a name up through the index finds exactly the one stored user that carries it. */
  lemma LookupIsScan(b: Bucket, name: string, u: User)
    requires Agrees(b) && Plain(name)
    ensures GetUserByUsername(b, name) == Some(u)
       <==> exists id :: Plain(id) && UserKey(id) in b && GetUser(b, id) == Some(u) && Carries(b, id, name)
    ensures forall id, other |
              Plain(id) && Plain(other) && UserKey(id) in b && UserKey(other) in b
              && Carries(b, id, name) && Carries(b, other, name) :: id == other
  {
    forall id | Plain(id) && UserKey(id) in b && Carries(b, id, name) ensures IndexEntry(b, name) == Some(id) {
      assert IndexCompleteAt(b, id);
    }
    if IndexKey(name) in b {
      assert IndexSoundAt(b, name);
    }
  }

  /** A successful create keeps index and scan in agreement exactly when no other user has the name. */
  lemma CreateAgreesIff(b: Bucket, u: User)
    requires Agrees(b) && Plain(u.id) && Plain(u.username) && UserKey(u.id) !in b
    ensures Agrees(PutUser(b, u)) <==> FreeFor(b, u.username, u.id)
  {
    var b' := PutUser(b, u);
    forall name | Plain(name) && name != u.username && IndexKey(name) in b ensures IndexEntry(b, name) != Some(u.id) {
      if IndexEntry(b, name) == Some(u.id) {
        OnlyOwnName(b, u.id, name);
      }
    }
    PutKeepsInv(b, u);
    PutCompleteIff(b, u);
  }

  /** Index and scan agree after a put exactly when no other user has the name. */
  lemma PutCompleteIff(b: Bucket, u: User)
    requires WellFormed(b) && Plain(u.id) && Plain(u.username)
    requires forall id :: Plain(id) && UserKey(id) in b && id != u.id ==> IndexCompleteAt(b, id)
    ensures IndexComplete(PutUser(b, u)) <==> FreeFor(b, u.username, u.id)
  {
    var b' := PutUser(b, u);
    if FreeFor(b, u.username, u.id) {
      forall id | Plain(id) && UserKey(id) in b' ensures IndexCompleteAt(b', id) {
        ReadAfterPut(b, u, id, u.username);
        if id != u.id {
          assert !Carries(b, id, u.username) && IndexCompleteAt(b, id);
          ReadAfterPut(b, u, id, GetUser(b, id).value.username);
        }
      }
    } else {
      var other :| Plain(other) && other != u.id && UserKey(other) in b && Carries(b, other, u.username);
      ReadAfterPut(b, u, other, u.username);
      assert !IndexCompleteAt(b', other);
    }
  }

  /** The same for a successful update, renaming or not. */
  lemma UpdateAgreesIff(b: Bucket, u: User)
    requires Agrees(b) && Plain(u.id) && Plain(u.username)
    ensures IndexComplete(AfterUpdate(b, u)) <==> FreeFor(b, u.username, u.id)
  {
    var moved := MovedFrom(b, u);
    if moved.Some? {
      var name := moved.value;
      var b' := b - {IndexKey(name)};
      IndexKeysDiffer(name, u.username);
      UserKeyIsNoIndexKey(u.id, name);
      assert AfterUpdate(b, u) == PutUser(b', u);
      DropIndexKeepsInv(b, name);
      assert IndexCompleteAt(b, u.id);
      forall id | Plain(id) && UserKey(id) in b' && id != u.id ensures IndexCompleteAt(b', id) {
        ReadAfterDropIndex(b, name, id, name);
        assert IndexCompleteAt(b, id);
        ReadAfterDropIndex(b, name, id, GetUser(b, id).value.username);
      }
      PutCompleteIff(b', u);
      forall id | Plain(id) ensures Carries(b', id, u.username) == Carries(b, id, u.username) && (UserKey(id) in b' <==> UserKey(id) in b) {
        ReadAfterDropIndex(b, name, id, name);
      }
    } else {
      PutCompleteIff(b, u);
    }
  }

  lemma DeleteKeepsComplete(b: Bucket, id: string)
    requires Agrees(b) && Plain(id) && GetUser(b, id).Some?
    ensures IndexComplete(b - {UserKey(id)} - {IndexKey(GetUser(b, id).value.username)})
  {
    var name := GetUser(b, id).value.username;
    var b1 := b - {UserKey(id)};
    assert IndexCompleteAt(b, id);
    forall other | Plain(other) && UserKey(other) in b1 - {IndexKey(name)}
      ensures IndexCompleteAt(b1 - {IndexKey(name)}, other)
    {
      ReadAfterDropIndex(b1, name, other, name);
      ReadAfterDropUser(b, id, other, name);
      assert IndexCompleteAt(b, other);
      var theirs := GetUser(b, other).value.username;
      ReadAfterDropUser(b, id, other, theirs);
      ReadAfterDropIndex(b1, name, other, theirs);
    }
  }

  // ---------------------------------------------------------------- whole runs

  /** The step does not take a username that another user holds. */
  ghost predicate TakesNoName(b: Bucket, m: Mutation) {
    match m
    case Creating(u) => FreeFor(b, u.username, WithId(u).id)
    case Updating(u) => FreeFor(b, u.username, u.id)
    case Deleting(_) => true
    case Seeding(_) => true
    case Unrelated(_) => true
  }

  lemma MutationKeepsInv(b: Bucket, m: Mutation, maxKey: nat)
    requires Inv(b) && PlainMutation(m)
    ensures Inv(Mutate(b, m, maxKey))
  {
    match m
    case Creating(u) => CreateKeepsInv(b, WithId(u), maxKey);
    case Updating(u) => UpdateKeepsInv(b, u, maxKey);
    case Deleting(id) => if GetUser(b, id).Some? { DeleteKeepsInv(b, id, maxKey); }
    case Seeding(p) => SeedingKeepsAll(p, maxKey);
    case Unrelated(cmd) =>
      UnrelatedKeepsUsers(b, cmd, maxKey);
      SameUsersKeepsAll(b, Mutate(b, m, maxKey));
  }

  lemma MutationKeepsAgreement(b: Bucket, m: Mutation, maxKey: nat)
    requires Agrees(b) && PlainMutation(m) && TakesNoName(b, m)
    ensures Agrees(Mutate(b, m, maxKey))
  {
    MutationKeepsInv(b, m, maxKey);
    match m
    case Creating(u) =>
      CreateOutcome(b, WithId(u), maxKey);
      if UserKey(WithId(u).id) !in b { CreateAgreesIff(b, WithId(u)); }
    case Updating(u) =>
      UpdateOutcome(b, u, maxKey);
      UpdateAgreesIff(b, u);
    case Deleting(id) =>
      if GetUser(b, id).Some? {
        DeleteOutcome(b, id, GetUser(b, id).value, maxKey);
        DeleteKeepsComplete(b, id);
      }
    case Seeding(p) => SeedingKeepsAll(p, maxKey);
    case Unrelated(cmd) =>
      UnrelatedKeepsUsers(b, cmd, maxKey);
      SameUsersKeepsAll(b, Mutate(b, m, maxKey));
  }

  function RunMutations(ms: seq<Mutation>, maxKey: nat): Bucket {
    if ms == [] then map[] else Mutate(RunMutations(ms[..|ms| - 1], maxKey), ms[|ms| - 1], maxKey)
  }

  /** In every run over plain names, an index entry always points to an existing user with that username. */
  lemma {:induction false} RunKeepsIndexSound(ms: seq<Mutation>, maxKey: nat)
    requires forall i :: 0 <= i < |ms| ==> PlainMutation(ms[i])
    ensures Inv(RunMutations(ms, maxKey))
  {
    if ms == [] {
    } else {
      RunKeepsIndexSound(ms[..|ms| - 1], maxKey);
      MutationKeepsInv(RunMutations(ms[..|ms| - 1], maxKey), ms[|ms| - 1], maxKey);
    }
  }

  /** If moreover no step takes a name that another user holds, index lookup always equals a scan. */
  lemma {:induction false} RunKeepsAgreement(ms: seq<Mutation>, maxKey: nat)
    requires forall i :: 0 <= i < |ms| ==> PlainMutation(ms[i])
    requires forall i :: 0 <= i < |ms| ==> TakesNoName(RunMutations(ms[..i], maxKey), ms[i])
    ensures Agrees(RunMutations(ms, maxKey))
  {
    if ms == [] {
    } else {
      var front := ms[..|ms| - 1];
      forall i | 0 <= i < |front| ensures TakesNoName(RunMutations(front[..i], maxKey), front[i]) {
        assert front[..i] == ms[..i];
      }
      RunKeepsAgreement(front, maxKey);
      MutationKeepsAgreement(RunMutations(front, maxKey), ms[|ms| - 1], maxKey);
    }
  }
}
