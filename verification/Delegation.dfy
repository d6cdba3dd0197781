/** Delegated administration: the permission rules of internal/service/authorization.go and the checked
    mutations of internal/handler/api.go. Requests are taken one at a time. */
module Delegation {
  import opened Basics

  datatype User = User(id: string, username: string, roles: seq<string>, channels: seq<string>)
  datatype Mapping = Mapping(id: string, kind: string, subject: string, role: string, scope: string)

  type Roles = map<string, seq<string>>  // role name to permissions

  const ALL := "*"
  const ADMIN := "admin"

  datatype State = State(users: map<string, User>, mappings: seq<Mapping>)

  // ---------------------------------------------------------------- what is granted

  function Permissions(roles: Roles, name: string): set<string> {
    if name in roles then set p | p in roles[name] else {}
  }

  function RolePermissions(roles: Roles, names: seq<string>): (r: set<string>)
    ensures forall p :: p in r <==> exists n :: n in names && p in Permissions(roles, n)
  {
    if names == [] then {}
    else RolePermissions(roles, names[..|names| - 1]) + Permissions(roles, names[|names| - 1])
  }

  predicate MappingMatches(m: Mapping, u: User, groups: seq<string>) {
    if m.kind == "user" then m.subject == u.id || m.subject == u.username
    else if m.kind == "group" then m.subject in groups
    else false
  }

  function MappedRoles(mappings: seq<Mapping>, u: User, groups: seq<string>): (r: seq<string>)
    ensures forall n :: n in r ==> exists m :: m in mappings && m.role == n
  {
    if mappings == [] then []
    else
      var front, last := MappedRoles(mappings[..|mappings| - 1], u, groups), mappings[|mappings| - 1];
      if MappingMatches(last, u, groups) then front + [last.role] else front
  }

  function MappedPermissions(roles: Roles, mappings: seq<Mapping>, u: User, groups: seq<string>): set<string> {
    RolePermissions(roles, MappedRoles(mappings, u, groups))
  }

  lemma MappedStep(roles: Roles, mappings: seq<Mapping>, m: Mapping, u: User, groups: seq<string>)
    ensures MappedPermissions(roles, mappings + [m], u, groups)
         == MappedPermissions(roles, mappings, u, groups)
            + (if MappingMatches(m, u, groups) then Permissions(roles, m.role) else {})
  {
    assert (mappings + [m])[..|mappings|] == mappings;
    RolePermissionsSnoc(roles, MappedRoles(mappings, u, groups), m.role);
  }

  /** Is the mapping meant for the user: by ID or name, or for a group of the session? */
  predicate IsMeantFor(m: Mapping, u: User, groups: seq<string>) {
    (m.kind == "user" && m.subject in {u.id, u.username}) || (m.kind == "group" && m.subject in groups)
  }

  /** A permission comes from the role of some mapping that is meant for the user, and from nowhere else. */
  lemma {:induction false} MappedPermissionsIff(roles: Roles, mappings: seq<Mapping>, u: User, groups: seq<string>, p: string)
    ensures p in MappedPermissions(roles, mappings, u, groups) <==>
              exists m :: m in mappings && IsMeantFor(m, u, groups) && m.role in roles && p in roles[m.role]
  {
    if mappings != [] {
      var front, last := mappings[..|mappings| - 1], mappings[|mappings| - 1];
      assert mappings == front + [last];
      MappedPermissionsIff(roles, front, u, groups, p);
      MappedStep(roles, front, last, u, groups);
    }
  }

  /** A user's permissions, role by role. */
  lemma EffectiveIff(roles: Roles, mappings: seq<Mapping>, u: User, groups: seq<string>, p: string)
    ensures p in Effective(roles, mappings, u, groups) <==>
              || (exists n :: n in u.roles && n in roles && p in roles[n])
              || (exists m :: m in mappings && IsMeantFor(m, u, groups) && m.role in roles && p in roles[m.role])
  {
    MappedPermissionsIff(roles, mappings, u, groups, p);
    if n :| n in u.roles && n in roles && p in roles[n] {
      assert p in Permissions(roles, n);
    }
  }

  /** The flattened permissions of a principal; channel scopes of mappings are not looked at. */
  function Effective(roles: Roles, mappings: seq<Mapping>, u: User, groups: seq<string>): set<string> {
    RolePermissions(roles, u.roles) + MappedPermissions(roles, mappings, u, groups)
  }

  predicate CanAssignRole(roles: Roles, actor: set<string>, name: string) {
    name in roles && forall p :: p in roles[name] ==> ALL in actor || p in actor
  }

  predicate CoversChannel(channels: seq<string>, c: string) {
    ALL in channels || c in channels
  }

  predicate CanAssignRoles(roles: Roles, actor: set<string>, channels: seq<string>, names: seq<string>, scope: string) {
    && (forall n :: n in names ==> CanAssignRole(roles, actor, n))
    && (scope == "" || scope == ALL || CoversChannel(channels, scope))
  }

  predicate CanAssignChannels(channels: seq<string>, granted: seq<string>) {
    forall c :: c in granted ==> CoversChannel(channels, c)
  }

  predicate HasAdminRole(names: seq<string>) { ADMIN in names }

  predicate DropsAdmin(before: seq<string>, after: seq<string>) { HasAdminRole(before) && !HasAdminRole(after) }

  // ---------------------------------------------------------------- requests

  // An actor is a stored user with the groups of the session.
  datatype Request =
    | CreateUser(actor: string, groups: seq<string>, username: string, roles: seq<string>, channels: seq<string>)
    | UpdateUser(actor: string, groups: seq<string>, id: string, username: string,
                 newRoles: Option<seq<string>>, newChannels: Option<seq<string>>)
    | DeleteUser(id: string)
    | UpdateBinding(actor: string, groups: seq<string>, id: string, roles: seq<string>, channels: seq<string>)
    | CreateMapping(actor: string, groups: seq<string>, m: Mapping)
    | DeleteMapping(mapping: string)

  datatype Status = Ok | BadRequest | Unauthorized | Forbidden | NotFound | Conflict | Failed

  predicate IsOtherAdmin(u: User, id: string) { HasAdminRole(u.roles) && u.id != id }

  function AdminsOtherThan(users: map<string, User>, id: string): set<string> {
    set i | i in users && IsOtherAdmin(users[i], id)
  }

  method CountAdmins(users: map<string, User>, id: string) returns (n: nat)
    ensures n == |AdminsOtherThan(users, id)|
  {
    n := 0;
    ghost var counted: set<string> := {};
    var todo := users.Keys;
    while todo != {}
      invariant todo <= users.Keys && n == |counted|
      invariant forall i :: i in counted <==> i in users && i !in todo && IsOtherAdmin(users[i], id)
      decreases todo
    {
      var i :| i in todo;
      todo := todo - {i};
      if IsOtherAdmin(users[i], id) {
        n := n + 1;
        counted := counted + {i};
      }
    }
    assert counted == AdminsOtherThan(users, id);
  }

  class Api {
    const roles: Roles
    var users: map<string, User>
    var mappings: seq<Mapping>

    ghost function Abs(): State
      reads this
    {
      State(users, mappings)
    }

    constructor (fixed: Roles, us: map<string, User>, ms: seq<Mapping>)
      ensures roles == fixed && Abs() == State(us, ms)
    {
      roles, users, mappings := fixed, us, ms;
    }

    method EffectivePermissions(u: User, groups: seq<string>) returns (perms: set<string>)
      ensures perms == Effective(roles, mappings, u, groups)
    {
      perms := AddRolePermissions(u.roles, {});
      for i := 0 to |mappings|
        invariant perms == RolePermissions(roles, u.roles) + MappedPermissions(roles, mappings[..i], u, groups)
      {
        var m := mappings[i];
        assert mappings[..i + 1] == mappings[..i] + [m];
        MappedStep(roles, mappings[..i], m, u, groups);
        if !MappingMatches(m, u, groups) || m.role !in roles {
          continue;
        }
        perms := perms + (set p | p in roles[m.role]);
      }
      assert mappings[..|mappings|] == mappings;
    }

    method AddRolePermissions(names: seq<string>, start: set<string>) returns (perms: set<string>)
      ensures perms == start + RolePermissions(roles, names)
    {
      perms := start;
      for i := 0 to |names|
        invariant perms == start + RolePermissions(roles, names[..i])
      {
        assert names[..i + 1] == names[..i] + [names[i]];
        RolePermissionsSnoc(roles, names[..i], names[i]);
        if names[i] in roles {
          perms := perms + (set p | p in roles[names[i]]);
        }
      }
      assert names[..|names|] == names;
    }

    method MayAssignRoles(actor: User, groups: seq<string>, names: seq<string>, scope: string) returns (ok: bool)
      ensures ok == CanAssignRoles(roles, Effective(roles, mappings, actor, groups), actor.channels, names, scope)
    {
      var perms := EffectivePermissions(actor, groups);
      for i := 0 to |names|
        invariant forall j :: 0 <= j < i ==> CanAssignRole(roles, perms, names[j])
      {
        var name := names[i];
        assert name in names;
        if name !in roles {
          return false;
        }
        var granted := roles[name];
        for k := 0 to |granted|
          invariant forall j :: 0 <= j < k ==> ALL in perms || granted[j] in perms
        {
          if ALL !in perms && granted[k] !in perms {
            assert granted[k] in roles[name];
            return false;
          }
        }
      }
      ok := scope == "" || scope == ALL || CoversChannel(actor.channels, scope);
    }

    method Create(r: Request, hashOk: bool) returns (status: Status)
      requires r.CreateUser?
      modifies this
      ensures Handled(roles, old(Abs()), r, hashOk, Abs(), status)
    {
      if r.username == "" || |r.username| > 128 {
        return BadRequest;
      }
      if r.actor !in users {
        return Forbidden;
      }
      var actor := users[r.actor];
      var may := MayAssignRoles(actor, r.groups, r.roles, ALL);
      if !may || !CanAssignChannels(actor.channels, r.channels) {
        return Forbidden;
      }
      if !hashOk {
        return Failed;
      }
      if r.username in users {
        return Conflict;
      }
      users := users[r.username := User(r.username, r.username, r.roles, r.channels)];
      return Ok;
    }

    method Update(r: Request, hashOk: bool) returns (status: Status)
      requires r.UpdateUser?
      modifies this
      ensures Handled(roles, old(Abs()), r, hashOk, Abs(), status)
    {
      if |r.username| > 128 {
        return BadRequest;
      }
      if r.actor !in users {
        return Unauthorized;
      }
      if r.id !in users {
        return NotFound;
      }
      var actor, u := users[r.actor], users[r.id];
      var may := MayAssignRoles(actor, r.groups, u.roles, ALL);
      if !may {
        return Forbidden;
      }
      if r.newRoles.Some? {
        may := MayAssignRoles(actor, r.groups, r.newRoles.value, ALL);
        if !may {
          return Forbidden;
        }
        if HasAdminRole(u.roles) && !HasAdminRole(r.newRoles.value) {
          return BadRequest;
        }
      }
      if r.newChannels.Some? && !CanAssignChannels(actor.channels, r.newChannels.value) {
        return Forbidden;
      }
      if r.username != "" {
        u := u.(username := r.username);
      }
      if !hashOk {
        return Failed;
      }
      if r.newRoles.Some? {
        u := u.(roles := r.newRoles.value);
      }
      if r.newChannels.Some? {
        u := u.(channels := r.newChannels.value);
      }
      users := users[r.id := u];
      return Ok;
    }

    method Delete(r: Request) returns (status: Status)
      requires r.DeleteUser?
      modifies this
      ensures Handled(roles, old(Abs()), r, true, Abs(), status)
    {
      if r.id !in users {
        return NotFound;
      }
      if HasAdminRole(users[r.id].roles) {
        var admins := CountAdmins(users, r.id);
        if admins == 0 {
          return BadRequest;
        }
      }
      users := users - {r.id};
      return Ok;
    }

    method Bind(r: Request) returns (status: Status)
      requires r.UpdateBinding?
      modifies this
      ensures Handled(roles, old(Abs()), r, true, Abs(), status)
    {
      if r.id !in users {
        return Failed;
      }
      var u := users[r.id];
      if r.actor !in users {
        return Forbidden;
      }
      var actor := users[r.actor];
      var may := MayAssignRoles(actor, r.groups, u.roles, ALL);
      if !may {
        return Forbidden;
      }
      may := MayAssignRoles(actor, r.groups, r.roles, ALL);
      if !may || !CanAssignChannels(actor.channels, r.channels) {
        return Forbidden;
      }
      if HasAdminRole(u.roles) && !HasAdminRole(r.roles) {
        return BadRequest;
      }
      users := users[r.id := u.(roles := r.roles, channels := r.channels)];
      return Ok;
    }

    method MapRole(r: Request, freshId: string) returns (status: Status)
      requires r.CreateMapping?
      modifies this
      ensures Handled(roles, old(Abs()), r, true, Abs(), status)
    {
      var m := r.m;
      if (m.kind != "user" && m.kind != "group") || m.subject == "" || m.role == "" {
        return BadRequest;
      }
      if m.scope == "" {
        m := m.(scope := ALL);
      }
      if r.actor !in users {
        return Forbidden;
      }
      var may := MayAssignRoles(users[r.actor], r.groups, [m.role], m.scope);
      if !may {
        return Forbidden;
      }
      for i := 0 to |mappings|
        invariant Abs() == old(Abs())
        invariant forall k :: 0 <= k < i ==> mappings[k] != m.(id := mappings[k].id)
      {
        var e := mappings[i];
        if e.kind == m.kind && e.subject == m.subject && e.role == m.role && e.scope == m.scope {
          assert AddsMapping(old(mappings), r.m, freshId, mappings);
          return Ok;
        }
      }
      assert !IsListed(mappings, r.m);
      mappings := mappings + [m.(id := freshId)];
      assert AddsMapping(old(mappings), r.m, freshId, mappings);
      return Ok;
    }

    method UnmapRole(r: Request) returns (status: Status)
      requires r.DeleteMapping?
      modifies this
      ensures Handled(roles, old(Abs()), r, true, Abs(), status)
    {
      var keep := NotId(r.mapping);
      mappings := CompactInPlace(mappings, keep);
      return Ok;
    }
  }

  function NotId(id: string): Mapping -> bool { (m: Mapping) => m.id != id }

  lemma RolePermissionsSnoc(roles: Roles, names: seq<string>, n: string)
    ensures RolePermissions(roles, names + [n]) == RolePermissions(roles, names) + Permissions(roles, n)
  {
    assert (names + [n])[..|names|] == names;
  }

  // ---------------------------------------------------------------- what each handler does

  /** The permissions of a stored actor in a session with the given groups. */
  function ActorPermissions(roles: Roles, s: State, actor: string, groups: seq<string>): set<string>
    requires actor in s.users
  {
    Effective(roles, s.mappings, s.users[actor], groups)
  }

  predicate MayGrant(roles: Roles, s: State, actor: string, groups: seq<string>, names: seq<string>) {
    actor in s.users && forall n :: n in names ==> CanAssignRole(roles, ActorPermissions(roles, s, actor, groups), n)
  }

  predicate MayGrantChannels(s: State, actor: string, channels: seq<string>) {
    actor in s.users && CanAssignChannels(s.users[actor].channels, channels)
  }

  /** A user's record after an update. */
  function Updated(u: User, r: Request): User
    requires r.UpdateUser?
  {
    User(u.id, if r.username != "" then r.username else u.username,
         if r.newRoles.Some? then r.newRoles.value else u.roles,
         if r.newChannels.Some? then r.newChannels.value else u.channels)
  }

  /** The answer to a request: the first check that fails decides. */
  ghost function Answer(roles: Roles, s: State, r: Request, hashOk: bool): Status {
    match r
    case CreateUser(actor, groups, name, names, channels) =>
      if name == "" || |name| > 128 then BadRequest
      else if !MayGrant(roles, s, actor, groups, names) || !MayGrantChannels(s, actor, channels) then Forbidden
      else if !hashOk then Failed
      else if name in s.users then Conflict
      else Ok
    case UpdateUser(actor, groups, id, name, newRoles, newChannels) =>
      if |name| > 128 then BadRequest
      else if actor !in s.users then Unauthorized
      else if id !in s.users then NotFound
      else if !MayGrant(roles, s, actor, groups, s.users[id].roles) then Forbidden
      else if newRoles.Some? && !MayGrant(roles, s, actor, groups, newRoles.value) then Forbidden
      else if newRoles.Some? && DropsAdmin(s.users[id].roles, newRoles.value) then BadRequest
      else if newChannels.Some? && !MayGrantChannels(s, actor, newChannels.value) then Forbidden
      else if !hashOk then Failed
      else Ok
    case DeleteUser(id) =>
      if id !in s.users then NotFound
      else if HasAdminRole(s.users[id].roles) && AdminsOtherThan(s.users, id) == {} then BadRequest
      else Ok
    case UpdateBinding(actor, groups, id, names, channels) =>
      if id !in s.users then Failed
      else if !MayGrant(roles, s, actor, groups, s.users[id].roles) then Forbidden
      else if !MayGrant(roles, s, actor, groups, names) || !MayGrantChannels(s, actor, channels) then Forbidden
      else if DropsAdmin(s.users[id].roles, names) then BadRequest
      else Ok
    case CreateMapping(actor, groups, m) =>
      if (m.kind != "user" && m.kind != "group") || m.subject == "" || m.role == "" then BadRequest
      else if !MayGrant(roles, s, actor, groups, [m.role]) then Forbidden
      else if m.scope != "" && m.scope != ALL && !MayGrantChannels(s, actor, [m.scope]) then Forbidden
      else Ok
    case DeleteMapping(_) => Ok
  }

  /** A request is answered as its checks say; refused, it changes nothing; otherwise it does what it asks. */
  ghost predicate Handled(roles: Roles, s: State, r: Request, hashOk: bool, s': State, status: Status) {
    && status == Answer(roles, s, r, hashOk)
    && if status != Ok then s' == s
       else match r
         case CreateUser(_, _, name, names, channels) =>
           s' == s.(users := s.users[name := User(name, name, names, channels)])
         case UpdateUser(_, _, id, _, _, _) =>
           s' == s.(users := s.users[id := Updated(s.users[id], r)])
         case DeleteUser(id) => s' == s.(users := s.users - {id})
         case UpdateBinding(_, _, id, names, channels) =>
           s' == s.(users := s.users[id := s.users[id].(roles := names, channels := channels)])
         case CreateMapping(_, _, m) =>
           s'.users == s.users && exists newId :: AddsMapping(s.mappings, m, newId, s'.mappings)
         case DeleteMapping(id) => s' == s.(mappings := Filter(s.mappings, NotId(id)))
  }

  function Normal(m: Mapping): Mapping {
    if m.scope == "" then m.(scope := ALL) else m
  }

  ghost predicate IsListed(mappings: seq<Mapping>, m: Mapping) {
    exists i :: 0 <= i < |mappings| && mappings[i] == Normal(m).(id := mappings[i].id)
  }

  /** A mapping that differs from a listed one at most in its ID is not added again. */
  ghost predicate AddsMapping(before: seq<Mapping>, m: Mapping, id: string, after: seq<Mapping>) {
    after == if IsListed(before, m) then before else before + [Normal(m).(id := id)]
  }

  // ---------------------------------------------------------------- no escalation

  /** Every permission name that some user or some mapping grants. */
  ghost predicate Granted(roles: Roles, s: State, p: string) {
    || (exists id :: id in s.users && p in RolePermissions(roles, s.users[id].roles))
    || (exists i :: 0 <= i < |s.mappings| && p in Permissions(roles, s.mappings[i].role))
  }

  /** What a principal can do is granted somewhere. */
  lemma ActorHoldsGranted(roles: Roles, s: State, actor: string, groups: seq<string>, p: string)
    requires actor in s.users && p in ActorPermissions(roles, s, actor, groups)
    ensures Granted(roles, s, p)
  {
    if p !in RolePermissions(roles, s.users[actor].roles) {
      var mapped := MappedRoles(s.mappings, s.users[actor], groups);
      var n :| n in mapped && p in Permissions(roles, n);
      var m :| m in s.mappings && m.role == n;
      var i :| 0 <= i < |s.mappings| && s.mappings[i] == m;
    }
  }

  /** Roles that may be granted bring no new permission, unless the wildcard is around already. */
  lemma GrantsNothingNew(roles: Roles, s: State, actor: string, groups: seq<string>, names: seq<string>, p: string)
    requires MayGrant(roles, s, actor, groups, names) && p in RolePermissions(roles, names)
    ensures Granted(roles, s, p) || Granted(roles, s, ALL)
  {
    var n :| n in names && p in Permissions(roles, n);
    assert CanAssignRole(roles, ActorPermissions(roles, s, actor, groups), n);
    if ALL in ActorPermissions(roles, s, actor, groups) {
      ActorHoldsGranted(roles, s, actor, groups, ALL);
    } else {
      ActorHoldsGranted(roles, s, actor, groups, p);
    }
  }

  ghost predicate Step(roles: Roles, s: State, s': State) {
    exists r, hashOk, status :: Handled(roles, s, r, hashOk, s', status)
  }

  ghost predicate IsRun(roles: Roles, states: seq<State>) {
    states != [] && forall i :: 0 <= i < |states| - 1 ==> Step(roles, states[i], states[i + 1])
  }

  lemma RunFront(roles: Roles, states: seq<State>)
    requires IsRun(roles, states) && |states| > 1
    ensures IsRun(roles, states[..|states| - 1]) && Step(roles, states[|states| - 2], states[|states| - 1])
  {
    var front := states[..|states| - 1];
    assert Step(roles, states[|states| - 2], states[|states| - 2 + 1]);
    forall i | 0 <= i < |front| - 1 ensures Step(roles, front[i], front[i + 1]) {
      assert Step(roles, states[i], states[i + 1]);
    }
  }

  /** No request makes a permission appear that nobody could use before, unless the wildcard was granted. */
  lemma HandledGrantsNothingNew(roles: Roles, s: State, r: Request, hashOk: bool, s': State, status: Status, p: string)
    requires Handled(roles, s, r, hashOk, s', status) && Granted(roles, s', p)
    ensures Granted(roles, s, p) || Granted(roles, s, ALL)
  {
    if status != Ok {
      return;
    }
    if id :| id in s'.users && p in RolePermissions(roles, s'.users[id].roles) {
      if id in s.users && s'.users[id].roles == s.users[id].roles {
        return;
      }
      GrantsNothingNew(roles, s, r.actor, r.groups, s'.users[id].roles, p);
    } else {
      var i :| 0 <= i < |s'.mappings| && p in Permissions(roles, s'.mappings[i].role);
      var m := s'.mappings[i];
      if r.DeleteMapping? {
        FilterMembers(s.mappings, NotId(r.mapping));
        assert m in s.mappings;
      } else if m !in s.mappings {
        assert m.role == r.m.role;
        assert [m.role][..0] == [];
        assert p in RolePermissions(roles, [m.role]);
        GrantsNothingNew(roles, s, r.actor, r.groups, [m.role], p);
      }
      if m in s.mappings {
        var k :| 0 <= k < |s.mappings| && s.mappings[k] == m;
      }
    }
  }

  lemma StepGrantsNothingNew(roles: Roles, s: State, s': State, p: string)
    requires Step(roles, s, s') && Granted(roles, s', p)
    ensures Granted(roles, s, p) || Granted(roles, s, ALL)
  {
    var r, hashOk, status :| Handled(roles, s, r, hashOk, s', status);
    HandledGrantsNothingNew(roles, s, r, hashOk, s', status, p);
  }

  lemma {:induction false} RunGrantsNothingNew(roles: Roles, states: seq<State>, p: string)
    requires IsRun(roles, states) && Granted(roles, states[|states| - 1], p)
    ensures Granted(roles, states[0], p) || Granted(roles, states[0], ALL)
  {
    if |states| > 1 {
      var front := states[..|states| - 1];
      var s, s' := states[|states| - 2], states[|states| - 1];
      RunFront(roles, states);
      StepGrantsNothingNew(roles, s, s', p);
      if Granted(roles, s, p) {
        RunGrantsNothingNew(roles, front, p);
      } else {
        RunGrantsNothingNew(roles, front, ALL);
      }
    }
  }

  /** Whatever a user of the last state can do, in any session, somebody was granted in the first state. */
  lemma RunNeverEscalates(roles: Roles, states: seq<State>, user: string, groups: seq<string>, p: string)
    requires IsRun(roles, states)
    requires var last := states[|states| - 1]; user in last.users && p in ActorPermissions(roles, last, user, groups)
    ensures Granted(roles, states[0], p) || Granted(roles, states[0], ALL)
  {
    ActorHoldsGranted(roles, states[|states| - 1], user, groups, p);
    RunGrantsNothingNew(roles, states, p);
  }

  // ---------------------------------------------------------------- channels of users

  ghost predicate Reached(s: State, c: string) {
    exists id :: id in s.users && c in s.users[id].channels
  }

  lemma HandledReachesNothingNew(roles: Roles, s: State, r: Request, hashOk: bool, s': State, status: Status, c: string)
    requires Handled(roles, s, r, hashOk, s', status) && Reached(s', c)
    ensures Reached(s, c) || Reached(s, ALL)
  {
    if status != Ok {
      return;
    }
    var id :| id in s'.users && c in s'.users[id].channels;
    if id in s.users && s'.users[id].channels == s.users[id].channels {
      return;
    }
    assert MayGrantChannels(s, r.actor, s'.users[id].channels);
    assert CoversChannel(s.users[r.actor].channels, c);
  }

  /** No channel becomes reachable that no user could reach at the start, unless one could reach all. */
  lemma {:induction false} RunReachesNothingNew(roles: Roles, states: seq<State>, c: string)
    requires IsRun(roles, states) && Reached(states[|states| - 1], c)
    ensures Reached(states[0], c) || Reached(states[0], ALL)
  {
    if |states| > 1 {
      var front := states[..|states| - 1];
      var s, s' := states[|states| - 2], states[|states| - 1];
      RunFront(roles, states);
      var r, hashOk, status :| Handled(roles, s, r, hashOk, s', status);
      HandledReachesNothingNew(roles, s, r, hashOk, s', status, c);
      if Reached(s, c) {
        RunReachesNothingNew(roles, front, c);
      } else {
        RunReachesNothingNew(roles, front, ALL);
      }
    }
  }

  // ---------------------------------------------------------------- the last administrator

  ghost predicate HasAdmin(s: State) {
    exists id :: id in s.users && HasAdminRole(s.users[id].roles)
  }

  /** Records are stored under their own IDs. */
  ghost predicate WellKeyed(s: State) {
    forall id :: id in s.users ==> s.users[id].id == id
  }

  lemma HandledKeepsAdmin(roles: Roles, s: State, r: Request, hashOk: bool, s': State, status: Status)
    requires Handled(roles, s, r, hashOk, s', status) && WellKeyed(s)
    ensures WellKeyed(s')
    ensures HasAdmin(s) ==> HasAdmin(s')
  {
    if status == Ok && HasAdmin(s) {
      var id :| id in s.users && HasAdminRole(s.users[id].roles);
      if r.DeleteUser? && r.id == id {
        var other :| other in AdminsOtherThan(s.users, id);
        assert other in s'.users;
      } else {
        assert id in s'.users && HasAdminRole(s'.users[id].roles);
      }
    }
  }

  /** Once some user is an administrator, some user always is. */
  lemma {:induction false} RunKeepsAdmin(roles: Roles, states: seq<State>)
    requires IsRun(roles, states) && WellKeyed(states[0]) && HasAdmin(states[0])
    ensures forall i :: 0 <= i < |states| ==> WellKeyed(states[i]) && HasAdmin(states[i])
  {
    if |states| > 1 {
      var front := states[..|states| - 1];
      var s, s' := states[|states| - 2], states[|states| - 1];
      RunFront(roles, states);
      RunKeepsAdmin(roles, front);
      assert front[|states| - 2] == s;
      var r, hashOk, status :| Handled(roles, s, r, hashOk, s', status);
      HandledKeepsAdmin(roles, s, r, hashOk, s', status);
      forall i | 0 <= i < |states| ensures WellKeyed(states[i]) && HasAdmin(states[i]) {
        if i < |states| - 1 {
          assert states[i] == front[i];
        }
      }
    }
  }

  // ---------------------------------------------------------------- who may change whom

  /** The actor is stored and holds, in this session, every permission of every one of the roles, or the
      wildcard; and all the roles exist. */
  ghost predicate HoldsRoles(roles: Roles, s: State, actor: string, groups: seq<string>, names: seq<string>) {
    actor in s.users && forall n :: n in names ==> HoldsRole(roles, s, actor, groups, n)
  }

  ghost predicate HoldsRole(roles: Roles, s: State, actor: string, groups: seq<string>, name: string)
    requires actor in s.users
  {
    name in roles && forall p :: p in roles[name] ==> HasPermission(roles, s, actor, groups, p)
  }

  ghost predicate HasPermission(roles: Roles, s: State, actor: string, groups: seq<string>, p: string)
    requires actor in s.users
  {
    p in ActorPermissions(roles, s, actor, groups) || ALL in ActorPermissions(roles, s, actor, groups)
  }

  /** The actor's own channels include each of these, or all. */
  ghost predicate ReachesChannels(s: State, actor: string, channels: seq<string>) {
    actor in s.users && forall c :: c in channels ==> ALL in s.users[actor].channels || c in s.users[actor].channels
  }

  lemma MayGrantIff(roles: Roles, s: State, actor: string, groups: seq<string>, names: seq<string>)
    ensures MayGrant(roles, s, actor, groups, names) <==> HoldsRoles(roles, s, actor, groups, names)
  {
    if actor in s.users {
      forall n
        ensures CanAssignRole(roles, ActorPermissions(roles, s, actor, groups), n) <==> HoldsRole(roles, s, actor, groups, n)
      {
        CanAssignIff(roles, s, actor, groups, n);
      }
    }
  }

  lemma CanAssignIff(roles: Roles, s: State, actor: string, groups: seq<string>, name: string)
    requires actor in s.users
    ensures CanAssignRole(roles, ActorPermissions(roles, s, actor, groups), name) <==> HoldsRole(roles, s, actor, groups, name)
  {
    assert name in roles && !HoldsRole(roles, s, actor, groups, name) ==>
      exists p :: p in roles[name] && !HasPermission(roles, s, actor, groups, p);
  }

  lemma MayGrantChannelsIff(s: State, actor: string, channels: seq<string>)
    ensures MayGrantChannels(s, actor, channels) <==> ReachesChannels(s, actor, channels)
  {
    if MayGrantChannels(s, actor, channels) {
      forall c | c in channels ensures ALL in s.users[actor].channels || c in s.users[actor].channels {
        assert CoversChannel(s.users[actor].channels, c);
      }
    }
  }

  /** A stored record is changed only by an actor who holds all that its roles give, before the change, and all
      that the new roles and channels give. */
  lemma ChangeNeedsTargetsRoles(roles: Roles, s: State, r: Request, hashOk: bool, s': State, status: Status, id: string)
    requires Handled(roles, s, r, hashOk, s', status)
    requires id in s.users && id in s'.users && s'.users[id] != s.users[id]
    ensures (r.UpdateUser? || r.UpdateBinding?) && r.id == id
    ensures HoldsRoles(roles, s, r.actor, r.groups, s.users[id].roles)
    ensures HoldsRoles(roles, s, r.actor, r.groups, s'.users[id].roles)
    ensures s'.users[id].channels != s.users[id].channels ==> ReachesChannels(s, r.actor, s'.users[id].channels)
    ensures HasAdminRole(s.users[id].roles) ==> HasAdminRole(s'.users[id].roles)
  {
    MayGrantIff(roles, s, r.actor, r.groups, s.users[id].roles);
    MayGrantIff(roles, s, r.actor, r.groups, s'.users[id].roles);
    MayGrantChannelsIff(s, r.actor, s'.users[id].channels);
  }

  /** A new record or mapping gives only what the actor holds and reaches. */
  lemma AdditionNeedsRoles(roles: Roles, s: State, r: Request, hashOk: bool, s': State)
    requires Handled(roles, s, r, hashOk, s', Ok)
    ensures r.CreateUser? ==> r.username !in s.users && HoldsRoles(roles, s, r.actor, r.groups, r.roles)
                              && ReachesChannels(s, r.actor, r.channels)
    ensures r.CreateMapping? ==> HoldsRoles(roles, s, r.actor, r.groups, [r.m.role])
                                 && (r.m.scope in {"", ALL} || ReachesChannels(s, r.actor, [r.m.scope]))
  {
    if r.CreateUser? {
      MayGrantIff(roles, s, r.actor, r.groups, r.roles);
      MayGrantChannelsIff(s, r.actor, r.channels);
    } else if r.CreateMapping? {
      MayGrantIff(roles, s, r.actor, r.groups, [r.m.role]);
      MayGrantChannelsIff(s, r.actor, [r.m.scope]);
    }
  }

  /** The other direction: who holds the target's roles and what is given, and reaches the channels, changes the
      record as asked, if admin stays and the password can be hashed. */
  lemma AllowedUpdateIsOk(roles: Roles, s: State, r: Request, s': State, status: Status)
    requires Handled(roles, s, r, true, s', status) && r.UpdateUser? && r.id in s.users && |r.username| <= 128
    requires HoldsRoles(roles, s, r.actor, r.groups, s.users[r.id].roles)
    requires r.newRoles.Some? ==> HoldsRoles(roles, s, r.actor, r.groups, r.newRoles.value)
    requires r.newRoles.Some? && ADMIN in s.users[r.id].roles ==> ADMIN in r.newRoles.value
    requires r.newChannels.Some? ==> ReachesChannels(s, r.actor, r.newChannels.value)
    ensures status == Ok && s'.mappings == s.mappings && s'.users.Keys == s.users.Keys
    ensures forall id :: id in s.users && id != r.id ==> s'.users[id] == s.users[id]
    ensures var u, u' := s.users[r.id], s'.users[r.id];
            && u'.id == u.id
            && u'.username == (if r.username == "" then u.username else r.username)
            && u'.roles == (if r.newRoles.Some? then r.newRoles.value else u.roles)
            && u'.channels == (if r.newChannels.Some? then r.newChannels.value else u.channels)
  {
    MayGrantIff(roles, s, r.actor, r.groups, s.users[r.id].roles);
    if r.newRoles.Some? {
      MayGrantIff(roles, s, r.actor, r.groups, r.newRoles.value);
    }
    if r.newChannels.Some? {
      MayGrantChannelsIff(s, r.actor, r.newChannels.value);
    }
  }

  lemma AllowedBindingIsOk(roles: Roles, s: State, r: Request, s': State, status: Status)
    requires Handled(roles, s, r, true, s', status) && r.UpdateBinding? && r.id in s.users
    requires HoldsRoles(roles, s, r.actor, r.groups, s.users[r.id].roles)
    requires HoldsRoles(roles, s, r.actor, r.groups, r.roles) && ReachesChannels(s, r.actor, r.channels)
    requires ADMIN in s.users[r.id].roles ==> ADMIN in r.roles
    ensures status == Ok && s'.mappings == s.mappings && s'.users.Keys == s.users.Keys
    ensures forall id :: id in s.users && id != r.id ==> s'.users[id] == s.users[id]
    ensures var u, u' := s.users[r.id], s'.users[r.id];
            u'.id == u.id && u'.username == u.username && u'.roles == r.roles && u'.channels == r.channels
  {
    MayGrantIff(roles, s, r.actor, r.groups, s.users[r.id].roles);
    MayGrantIff(roles, s, r.actor, r.groups, r.roles);
    MayGrantChannelsIff(s, r.actor, r.channels);
  }

  lemma AllowedCreationIsOk(roles: Roles, s: State, r: Request, s': State, status: Status)
    requires Handled(roles, s, r, true, s', status) && r.CreateUser? && 0 < |r.username| <= 128 && r.username !in s.users
    requires HoldsRoles(roles, s, r.actor, r.groups, r.roles) && ReachesChannels(s, r.actor, r.channels)
    ensures status == Ok && s'.mappings == s.mappings && s'.users.Keys == s.users.Keys + {r.username}
    ensures s'.users[r.username] == User(r.username, r.username, r.roles, r.channels)
    ensures forall id :: id in s.users ==> s'.users[id] == s.users[id]
  {
    MayGrantIff(roles, s, r.actor, r.groups, r.roles);
    MayGrantChannelsIff(s, r.actor, r.channels);
  }

  /** What is missing decides how a request is refused. */
  lemma MissingIsRefused(roles: Roles, s: State, r: Request, hashOk: bool, s': State, status: Status)
    requires Handled(roles, s, r, hashOk, s', status)
    ensures status != Ok ==> s' == s
    ensures r.UpdateUser? && |r.username| <= 128 && r.actor !in s.users ==> status == Unauthorized
    ensures r.UpdateUser? && |r.username| <= 128 && r.actor in s.users && r.id !in s.users ==> status == NotFound
    ensures r.DeleteUser? && r.id !in s.users ==> status == NotFound
    ensures r.UpdateBinding? && r.id !in s.users ==> status == Failed
    ensures r.CreateUser? && status == Conflict ==> r.username in s.users
    ensures (r.CreateUser? || r.UpdateUser?) && status == Ok ==> hashOk && |r.username| <= 128
    ensures (r.CreateUser? || r.UpdateBinding? || r.CreateMapping?) && status == Ok ==> r.actor in s.users
    ensures r.CreateMapping? && status == Ok ==> r.m.kind in {"user", "group"} && r.m.subject != "" && r.m.role != ""
  {
  }

  /** Deletion is refused for the last administrator only. */
  lemma DeletionIsOkIff(roles: Roles, s: State, r: Request, s': State, status: Status)
    requires Handled(roles, s, r, true, s', status) && r.DeleteUser? && WellKeyed(s) && r.id in s.users
    ensures status == Ok <==> ADMIN !in s.users[r.id].roles
                              || exists other :: other in s.users && other != r.id && ADMIN in s.users[other].roles
    ensures status == Ok ==> s'.mappings == s.mappings && s'.users == s.users - {r.id}
  {
    if other :| other in s.users && other != r.id && ADMIN in s.users[other].roles {
      assert other in AdminsOtherThan(s.users, r.id);
    }
  }

  /** An allowed mapping takes effect: afterwards the role is mapped to the subject with the scope, all of them if
      none was given, and nothing else has changed. */
  lemma AllowedMappingIsOk(roles: Roles, s: State, r: Request, s': State, status: Status)
    requires Handled(roles, s, r, true, s', status) && r.CreateMapping?
    requires r.m.kind in {"user", "group"} && r.m.subject != "" && r.m.role != ""
    requires HoldsRoles(roles, s, r.actor, r.groups, [r.m.role])
    requires r.m.scope in {"", ALL} || ReachesChannels(s, r.actor, [r.m.scope])
    ensures status == Ok && s'.users == s.users && s.mappings <= s'.mappings && |s'.mappings| <= |s.mappings| + 1
    ensures exists m :: m in s'.mappings && m.kind == r.m.kind && m.subject == r.m.subject && m.role == r.m.role
                        && m.scope == if r.m.scope == "" then ALL else r.m.scope
  {
    MayGrantIff(roles, s, r.actor, r.groups, [r.m.role]);
    MayGrantChannelsIff(s, r.actor, [r.m.scope]);
    var newId :| AddsMapping(s.mappings, r.m, newId, s'.mappings);
    if IsListed(s.mappings, r.m) {
      var i :| 0 <= i < |s.mappings| && s.mappings[i] == Normal(r.m).(id := s.mappings[i].id);
      assert s.mappings[i] in s'.mappings;
    } else {
      assert Normal(r.m).(id := newId) in s'.mappings;
    }
  }

  /** Deleting a mapping removes it alone. */
  lemma UnmappingIsOk(roles: Roles, s: State, r: Request, s': State, status: Status)
    requires Handled(roles, s, r, true, s', status) && r.DeleteMapping?
    ensures status == Ok && s'.users == s.users
    ensures forall m :: m in s'.mappings <==> m in s.mappings && m.id != r.mapping
  {
    FilterMembers(s.mappings, NotId(r.mapping));
  }

  // ---------------------------------------------------------------- administrators' records

  /** A user with role admin, where that role gives the wildcard. */
  predicate IsFullAdmin(roles: Roles, s: State, id: string) {
    id in s.users && ADMIN in s.users[id].roles && ADMIN in roles && ALL in roles[ADMIN]
  }

  /** The step is a change of this user's record by an actor who holds the wildcard. */
  ghost predicate WildcardStep(roles: Roles, s: State, s': State, id: string) {
    exists r, hashOk, status :: Handled(roles, s, r, hashOk, s', status) && ByWildcard(roles, s, r, id)
  }

  ghost predicate ByWildcard(roles: Roles, s: State, r: Request, id: string) {
    && (r.UpdateUser? || r.UpdateBinding?) && r.id == id && r.actor in s.users
    && ALL in ActorPermissions(roles, s, r.actor, r.groups)
  }

  lemma AdminChangesByWildcard(roles: Roles, s: State, s': State, id: string)
    requires Step(roles, s, s') && IsFullAdmin(roles, s, id)
    ensures id !in s'.users || s'.users[id] == s.users[id] || WildcardStep(roles, s, s', id)
  {
    var r, hashOk, status :| Handled(roles, s, r, hashOk, s', status);
    if id in s'.users && s'.users[id] != s.users[id] {
      ChangeNeedsTargetsRoles(roles, s, r, hashOk, s', status, id);
      assert HoldsRole(roles, s, r.actor, r.groups, ADMIN);
      assert HasPermission(roles, s, r.actor, r.groups, ALL);
      assert ByWildcard(roles, s, r, id);
    }
  }

  /** Over every run, the record of an administrator stays as it is until it is deleted, or changed by an actor who
      holds the wildcard. */
  lemma {:induction false} RunGuardsAdmins(roles: Roles, states: seq<State>, id: string)
    requires IsRun(roles, states) && IsFullAdmin(roles, states[0], id)
    requires forall i :: 0 <= i < |states| ==> id in states[i].users
    requires forall i :: 0 <= i < |states| - 1 ==> !WildcardStep(roles, states[i], states[i + 1], id)
    ensures forall i :: 0 <= i < |states| ==> states[i].users[id] == states[0].users[id]
  {
    if |states| > 1 {
      var front := states[..|states| - 1];
      RunFront(roles, states);
      forall i | 0 <= i < |front| - 1 ensures !WildcardStep(roles, front[i], front[i + 1], id) {
        assert !WildcardStep(roles, states[i], states[i + 1], id);
      }
      RunGuardsAdmins(roles, front, id);
      var n := |states| - 2;
      assert front[n] == states[n] && states[n].users[id] == states[0].users[id];
      assert !WildcardStep(roles, states[n], states[n + 1], id);
      AdminChangesByWildcard(roles, states[n], states[n + 1], id);
      forall i | 0 <= i < |states| ensures states[i].users[id] == states[0].users[id] {
        if i <= n {
          assert states[i] == front[i];
        }
      }
    }
  }
}
