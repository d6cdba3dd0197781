/** What a successful bootstrap stores (internal/repository/fsm.go, applyBootstrap): every user, channel and
    setting of the payload, under its own key and as given. */
module Seeding {
  import opened Basics
  import opened Fsm
  import opened UserIndex

  ghost predicate Avoids(acts: seq<Action>, key: string) {
    forall i :: 0 <= i < |acts| ==> acts[i].Fail? || acts[i].key != key
  }

  lemma AvoidsConcat(x: seq<Action>, y: seq<Action>, key: string)
    requires Avoids(x, key) && Avoids(y, key)
    ensures Avoids(x + y, key)
  {
  }

  /** What nobody writes later stays. */
  lemma {:induction false} PutStays(b: Bucket, before: seq<Action>, key: string, v: Value, after: seq<Action>, maxKey: nat)
    requires Avoids(after, key) && RunActions(b, before + [Put(key, v)] + after, maxKey).error.None?
    ensures Lookup(RunActions(b, before + [Put(key, v)] + after, maxKey).bucket, key) == Some(v)
  {
    var done := before + [Put(key, v)];
    if after == [] {
      assert done + after == done;
      RunActionsSnoc(b, before, Put(key, v), maxKey);
    } else {
      var front, last := after[..|after| - 1], after[|after| - 1];
      assert done + after == done + front + [last];
      RunActionsSnoc(b, done + front, last, maxKey);
      PutStays(b, before, key, v, front, maxKey);
    }
  }

  // ---------------------------------------------------------------- the parts of a payload

  lemma {:induction false} UsersConcat(a: seq<BootstrapUser>, b: seq<BootstrapUser>)
    ensures BootstrapUsersActions(a + b) == BootstrapUsersActions(a) + BootstrapUsersActions(b)
  {
    if b == [] {
      assert a + b == a;
    } else {
      assert (a + b)[..|a + b| - 1] == a + b[..|b| - 1];
      UsersConcat(a, b[..|b| - 1]);
    }
  }

  lemma {:induction false} ChannelsConcat(a: seq<BootstrapChannel>, b: seq<BootstrapChannel>)
    ensures BootstrapChannelsActions(a + b) == BootstrapChannelsActions(a) + BootstrapChannelsActions(b)
  {
    if b == [] {
      assert a + b == a;
    } else {
      assert (a + b)[..|a + b| - 1] == a + b[..|b| - 1];
      ChannelsConcat(a, b[..|b| - 1]);
    }
  }

  lemma {:induction false} UsersAvoid(users: seq<BootstrapUser>, key: string)
    requires forall i :: 0 <= i < |users| ==> UserKey(users[i].username) != key && IndexKey(users[i].username) != key
    ensures Avoids(BootstrapUsersActions(users), key)
  {
    if users != [] {
      UsersAvoid(users[..|users| - 1], key);
    }
  }

  lemma {:induction false} ChannelsAvoid(channels: seq<BootstrapChannel>, key: string)
    requires forall i :: 0 <= i < |channels| ==> ChannelKey(channels[i].id) != key
    ensures Avoids(BootstrapChannelsActions(channels), key)
  {
    if channels != [] {
      ChannelsAvoid(channels[..|channels| - 1], key);
    }
  }

  /** Keys of users, channels and settings differ at the first letter. */
  lemma SectionsDiffer(name: string, id: string)
    ensures UserKey(name)[1] == 'u' && IndexKey(name)[1] == 'u' && ChannelKey(id)[1] == 'c'
  {
  }

  function Settings(p: Bootstrap): seq<Action> {
    PutOptional("/global/auth/internal_enabled", p.internalAuth) + PutOptional("/global/auth/oidc_providers", p.oidcProviders)
  }

  function Globals(p: Bootstrap): seq<Action> {
    PutOptional("/global/server/", p.server) + PutOptional("/global/defaults/", p.defaults)
  }

  lemma SettingsAvoid(p: Bootstrap, key: string)
    requires |key| > 1 && key[1] != 'g'
    ensures Avoids(Settings(p), key)
  {
  }

  lemma InFourParts(p: Bootstrap)
    ensures BootstrapActions(p)
         == Globals(p) + BootstrapUsersActions(p.users) + BootstrapChannelsActions(p.channels) + Settings(p)
  {
  }

  lemma SplitAround<T>(s: seq<T>, i: nat)
    requires i < |s|
    ensures s == s[..i] + [s[i]] + s[i + 1..]
  {
  }

  lemma UsersSnoc(users: seq<BootstrapUser>, u: BootstrapUser)
    ensures BootstrapUsersActions(users + [u]) == BootstrapUsersActions(users) + BootstrapUserActions(u)
  {
    assert (users + [u])[..|users|] == users;
  }

  lemma ChannelsSnoc(channels: seq<BootstrapChannel>, c: BootstrapChannel)
    ensures BootstrapChannelsActions(channels + [c]) == BootstrapChannelsActions(channels) + [BootstrapChannelAction(c)]
  {
    assert (channels + [c])[..|channels|] == channels;
  }

  lemma UsersAt(users: seq<BootstrapUser>, i: nat)
    requires i < |users|
    ensures BootstrapUsersActions(users)
         == BootstrapUsersActions(users[..i]) + BootstrapUserActions(users[i]) + BootstrapUsersActions(users[i + 1..])
  {
    SplitAround(users, i);
    UsersConcat(users[..i] + [users[i]], users[i + 1..]);
    UsersSnoc(users[..i], users[i]);
  }

  lemma ChannelsAt(channels: seq<BootstrapChannel>, i: nat)
    requires i < |channels|
    ensures BootstrapChannelsActions(channels)
         == BootstrapChannelsActions(channels[..i]) + [BootstrapChannelAction(channels[i])]
            + BootstrapChannelsActions(channels[i + 1..])
  {
    SplitAround(channels, i);
    ChannelsConcat(channels[..i] + [channels[i]], channels[i + 1..]);
    ChannelsSnoc(channels[..i], channels[i]);
  }

  lemma RegroupUsers<T>(g: seq<T>, u1: seq<T>, u: seq<T>, u2: seq<T>, c: seq<T>, s: seq<T>)
    ensures g + (u1 + u + u2) + c + s == (g + u1) + u + (u2 + (c + s))
  {
  }

  lemma RegroupChannels<T>(g: seq<T>, u: seq<T>, c1: seq<T>, c: seq<T>, c2: seq<T>, s: seq<T>)
    ensures g + u + (c1 + c + c2) + s == (g + u + c1) + c + (c2 + s)
  {
  }

  // ---------------------------------------------------------------- what is stored

  ghost predicate Seeds(p: Bootstrap, maxKey: nat) {
    ApplyEntry(map[], ApplyBootstrap(Some(p)), maxKey).error.None?
  }

  function After(p: Bootstrap, maxKey: nat): Bucket {
    ApplyEntry(map[], ApplyBootstrap(Some(p)), maxKey).bucket
  }

  /** A write of the payload that nothing later in it overwrites is stored. */
  lemma WriteIsStored(p: Bootstrap, before: seq<Action>, key: string, v: Value, after: seq<Action>, maxKey: nat)
    requires Seeds(p, maxKey) && BootstrapActions(p) == before + [Put(key, v)] + after && Avoids(after, key)
    ensures Lookup(After(p, maxKey), key) == Some(v)
  {
    PutStays(map[], before, key, v, after, maxKey);
  }

  lemma AfterUsersAvoid(p: Bootstrap, key: string)
    requires |key| > 1 && key[1] == 'u'
    ensures Avoids(BootstrapChannelsActions(p.channels) + Settings(p), key)
  {
    forall i | 0 <= i < |p.channels| ensures ChannelKey(p.channels[i].id) != key {
      SectionsDiffer("", p.channels[i].id);
    }
    ChannelsAvoid(p.channels, key);
    SettingsAvoid(p, key);
    AvoidsConcat(BootstrapChannelsActions(p.channels), Settings(p), key);
  }

  function RecordOf(u: BootstrapUser): User { User(u.username, u.username, u.passwordHash, u.roles, u.channels) }

  /** Every user, unless a later one has the same name: the record with the given hash, roles and channels, and
      the index entry. */
  lemma SeededUserIsStored(p: Bootstrap, i: nat, maxKey: nat)
    requires Seeds(p, maxKey) && i < |p.users|
    requires forall j :: 0 <= j < |p.users| ==> Plain(p.users[j].username)
    requires forall j :: i < j < |p.users| ==> p.users[j].username != p.users[i].username
    ensures var u := p.users[i];
            && GetUser(After(p, maxKey), u.username) == Some(User(u.username, u.username, u.passwordHash, u.roles, u.channels))
            && IndexEntry(After(p, maxKey), u.username) == Some(u.username)
  {
    SeededUserWrites(p, i, maxKey);
  }

  lemma SeededUserWrites(p: Bootstrap, i: nat, maxKey: nat)
    requires Seeds(p, maxKey) && i < |p.users|
    requires forall j :: 0 <= j < |p.users| ==> Plain(p.users[j].username)
    requires forall j :: i < j < |p.users| ==> p.users[j].username != p.users[i].username
    ensures Lookup(After(p, maxKey), UserKey(p.users[i].username)) == Some(UserJson(RecordOf(p.users[i])))
    ensures Lookup(After(p, maxKey), IndexKey(p.users[i].username)) == Some(IndexJson(p.users[i].username))
  {
    var u := p.users[i];
    UserActionsAre(p, i, maxKey);
    LaterUsersAvoid(p, i);
    UserKeyIsNoIndexKey(u.username, u.username);
    TwoWritesAreStored(p, BeforeUser(p, i), UserKey(u.username), UserJson(RecordOf(u)), IndexKey(u.username),
                       IndexJson(u.username), AfterUser(p, i), maxKey);
  }

  lemma LaterUsersAvoid(p: Bootstrap, i: nat)
    requires i < |p.users| && forall j :: 0 <= j < |p.users| ==> Plain(p.users[j].username)
    requires forall j :: i < j < |p.users| ==> p.users[j].username != p.users[i].username
    ensures Avoids(AfterUser(p, i), UserKey(p.users[i].username)) && Avoids(AfterUser(p, i), IndexKey(p.users[i].username))
  {
    var name, rest := p.users[i].username, p.users[i + 1..];
    OthersAvoid(name, rest);
    RestAvoids(p, rest, UserKey(name));
    RestAvoids(p, rest, IndexKey(name));
  }

  lemma TwoWritesAreStored(p: Bootstrap, before: seq<Action>, k1: string, v1: Value, k2: string, v2: Value,
                           after: seq<Action>, maxKey: nat)
    requires Seeds(p, maxKey) && BootstrapActions(p) == before + [Put(k1, v1), Put(k2, v2)] + after
    requires k1 != k2 && Avoids(after, k1) && Avoids(after, k2)
    ensures Lookup(After(p, maxKey), k1) == Some(v1) && Lookup(After(p, maxKey), k2) == Some(v2)
  {
    assert before + [Put(k1, v1), Put(k2, v2)] + after == before + [Put(k1, v1)] + ([Put(k2, v2)] + after);
    WriteIsStored(p, before, k1, v1, [Put(k2, v2)] + after, maxKey);
    assert before + [Put(k1, v1), Put(k2, v2)] + after == (before + [Put(k1, v1)]) + [Put(k2, v2)] + after;
    WriteIsStored(p, before + [Put(k1, v1)], k2, v2, after, maxKey);
  }

  lemma OthersAvoid(name: string, rest: seq<BootstrapUser>)
    requires Plain(name) && forall j :: 0 <= j < |rest| ==> Plain(rest[j].username) && rest[j].username != name
    ensures forall j :: 0 <= j < |rest| ==>
              UserKey(rest[j].username) !in {UserKey(name), IndexKey(name)}
              && IndexKey(rest[j].username) !in {UserKey(name), IndexKey(name)}
  {
    forall j | 0 <= j < |rest|
      ensures UserKey(rest[j].username) !in {UserKey(name), IndexKey(name)}
              && IndexKey(rest[j].username) !in {UserKey(name), IndexKey(name)}
    {
      UserKeysDiffer(rest[j].username, name);
      IndexKeysDiffer(rest[j].username, name);
      UserKeyIsNoIndexKey(name, rest[j].username);
      UserKeyIsNoIndexKey(rest[j].username, name);
    }
  }

  function BeforeUser(p: Bootstrap, i: nat): seq<Action>
    requires i < |p.users|
  {
    Globals(p) + BootstrapUsersActions(p.users[..i])
  }

  function AfterUser(p: Bootstrap, i: nat): seq<Action>
    requires i < |p.users|
  {
    BootstrapUsersActions(p.users[i + 1..]) + (BootstrapChannelsActions(p.channels) + Settings(p))
  }

  lemma UserActionsAre(p: Bootstrap, i: nat, maxKey: nat)
    requires Seeds(p, maxKey) && i < |p.users|
    ensures var u := p.users[i];
            BootstrapActions(p) == BeforeUser(p, i)
              + [Put(UserKey(u.username), UserJson(RecordOf(u))), Put(IndexKey(u.username), IndexJson(u.username))]
              + AfterUser(p, i)
  {
    var acts := BootstrapUserActions(p.users[i]);
    InFourParts(p);
    UsersAt(p.users, i);
    RegroupUsers(Globals(p), BootstrapUsersActions(p.users[..i]), acts, BootstrapUsersActions(p.users[i + 1..]),
                 BootstrapChannelsActions(p.channels), Settings(p));
    PartIsHarmless(p, BeforeUser(p, i), acts, AfterUser(p, i), maxKey);
    UserHarmlessIff(p.users[i], maxKey);
  }

  lemma PartIsHarmless(p: Bootstrap, before: seq<Action>, part: seq<Action>, after: seq<Action>, maxKey: nat)
    requires Seeds(p, maxKey) && BootstrapActions(p) == before + part + after
    ensures AllHarmless(part, maxKey)
  {
    BatchSucceedsIff(map[], BootstrapActions(p), maxKey);
    AllHarmlessConcat(before + part, after, maxKey);
    AllHarmlessConcat(before, part, maxKey);
  }

  lemma RestAvoids(p: Bootstrap, rest: seq<BootstrapUser>, key: string)
    requires |key| > 1 && key[1] == 'u'
    requires forall j :: 0 <= j < |rest| ==> UserKey(rest[j].username) != key && IndexKey(rest[j].username) != key
    ensures Avoids(BootstrapUsersActions(rest) + (BootstrapChannelsActions(p.channels) + Settings(p)), key)
  {
    UsersAvoid(rest, key);
    AfterUsersAvoid(p, key);
    AvoidsConcat(BootstrapUsersActions(rest), BootstrapChannelsActions(p.channels) + Settings(p), key);
  }

  /** Every channel, unless a later one has the same ID: the record as given. */
  lemma SeededChannelIsStored(p: Bootstrap, i: nat, maxKey: nat)
    requires Seeds(p, maxKey) && i < |p.channels|
    requires forall j :: i < j < |p.channels| ==> p.channels[j].id != p.channels[i].id
    ensures Lookup(After(p, maxKey), ChannelKey(p.channels[i].id)) == Some(p.channels[i].record)
  {
    var c, rest := p.channels[i], p.channels[i + 1..];
    var before := Globals(p) + BootstrapUsersActions(p.users) + BootstrapChannelsActions(p.channels[..i]);
    var after := BootstrapChannelsActions(rest) + Settings(p);
    InFourParts(p);
    ChannelsAt(p.channels, i);
    RegroupChannels(Globals(p), BootstrapUsersActions(p.users), BootstrapChannelsActions(p.channels[..i]),
                    [BootstrapChannelAction(c)], BootstrapChannelsActions(rest), Settings(p));
    PartIsHarmless(p, before, [BootstrapChannelAction(c)], after, maxKey);
    assert Harmless([BootstrapChannelAction(c)][0], maxKey);
    AfterChannelAvoids(p, c.id, rest);
    WriteIsStored(p, before, ChannelKey(c.id), c.record, after, maxKey);
  }

  lemma AfterChannelAvoids(p: Bootstrap, id: string, rest: seq<BootstrapChannel>)
    requires forall j :: 0 <= j < |rest| ==> rest[j].id != id
    ensures Avoids(BootstrapChannelsActions(rest) + Settings(p), ChannelKey(id))
  {
    var key := ChannelKey(id);
    forall j | 0 <= j < |rest| ensures ChannelKey(rest[j].id) != key {
      ChannelKeysDiffer(rest[j].id, id);
    }
    ChannelsAvoid(rest, key);
    SectionsDiffer("", id);
    SettingsAvoid(p, key);
    AvoidsConcat(BootstrapChannelsActions(rest), Settings(p), key);
  }

  lemma ChannelKeysDiffer(id: string, other: string)
    ensures ChannelKey(id) == ChannelKey(other) <==> id == other
  {
    if ChannelKey(id) == ChannelKey(other) {
      assert ChannelKey(id)[10..|ChannelKey(id)| - 1] == id;
      assert ChannelKey(other)[10..|ChannelKey(other)| - 1] == other;
    }
  }

  /** And the settings that are present. */
  lemma SeededSettingsAreStored(p: Bootstrap, maxKey: nat)
    requires Seeds(p, maxKey)
    ensures var b := After(p, maxKey);
            && (p.server.Some? ==> Lookup(b, "/global/server/") == p.server)
            && (p.defaults.Some? ==> Lookup(b, "/global/defaults/") == p.defaults)
            && (p.internalAuth.Some? ==> Lookup(b, "/global/auth/internal_enabled") == p.internalAuth)
            && (p.oidcProviders.Some? ==> Lookup(b, "/global/auth/oidc_providers") == p.oidcProviders)
  {
    InFourParts(p);
    if p.server.Some? {
      GlobalIsStored(p, "/global/server/", p.server.value, [], PutOptional("/global/defaults/", p.defaults), maxKey);
    }
    if p.defaults.Some? {
      GlobalIsStored(p, "/global/defaults/", p.defaults.value, PutOptional("/global/server/", p.server), [], maxKey);
    }
    var records := Globals(p) + BootstrapUsersActions(p.users) + BootstrapChannelsActions(p.channels);
    var internal, oidc := PutOptional("/global/auth/internal_enabled", p.internalAuth),
                          PutOptional("/global/auth/oidc_providers", p.oidcProviders);
    if p.internalAuth.Some? {
      assert BootstrapActions(p) == records + internal + oidc;
      assert Avoids(oidc, "/global/auth/internal_enabled");
      WriteIsStored(p, records, "/global/auth/internal_enabled", p.internalAuth.value, oidc, maxKey);
    }
    if p.oidcProviders.Some? {
      assert BootstrapActions(p) == (records + internal) + oidc + [];
      WriteIsStored(p, records + internal, "/global/auth/oidc_providers", p.oidcProviders.value, [], maxKey);
    }
  }

  lemma GlobalIsStored(p: Bootstrap, key: string, v: Value, before: seq<Action>, after: seq<Action>, maxKey: nat)
    requires Seeds(p, maxKey) && Globals(p) == before + [Put(key, v)] + after && Avoids(after, key)
    requires key in {"/global/server/", "/global/defaults/"}
    ensures Lookup(After(p, maxKey), key) == Some(v)
  {
    var users, channels := BootstrapUsersActions(p.users), BootstrapChannelsActions(p.channels);
    RecordsAvoid(p, key);
    assert key[8] in {'s', 'd'} && Avoids(Settings(p), key);
    AvoidsConcat(channels, Settings(p), key);
    AvoidsConcat(users, channels + Settings(p), key);
    AvoidsConcat(after, users + (channels + Settings(p)), key);
    InFourParts(p);
    RegroupGlobals(before, [Put(key, v)], after, users, channels, Settings(p));
    WriteIsStored(p, before, key, v, after + (users + (channels + Settings(p))), maxKey);
  }

  lemma RegroupGlobals<T>(b: seq<T>, x: seq<T>, a: seq<T>, u: seq<T>, c: seq<T>, s: seq<T>)
    ensures (b + x + a) + u + c + s == b + x + (a + (u + (c + s)))
  {
  }

  lemma RecordsAvoid(p: Bootstrap, key: string)
    requires |key| > 1 && key[1] == 'g'
    ensures Avoids(BootstrapUsersActions(p.users), key) && Avoids(BootstrapChannelsActions(p.channels), key)
  {
    forall i | 0 <= i < |p.users| ensures UserKey(p.users[i].username) != key && IndexKey(p.users[i].username) != key {
      SectionsDiffer(p.users[i].username, "");
    }
    forall i | 0 <= i < |p.channels| ensures ChannelKey(p.channels[i].id) != key {
      SectionsDiffer("", p.channels[i].id);
    }
    UsersAvoid(p.users, key);
    ChannelsAvoid(p.channels, key);
  }
}
