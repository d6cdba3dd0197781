/** The permission check of internal/service/authorization.go, and how it relates to the effective
    permissions that delegation is decided on. */
module Authorization {
  import opened Basics
  import opened Delegation

  datatype Acl = Acl(kind: string, subject: string, role: string)

  const CHANNEL_PREFIX := "channel:"
  const CHANNEL_READ := "channel:read"
  const CHANNEL_WRITE := "channel:write"

  predicate IsChannelPermission(perm: string) {
    |perm| >= |CHANNEL_PREFIX| && perm[..|CHANNEL_PREFIX|] == CHANNEL_PREFIX
  }

  lemma ChannelPermissionIff(perm: string)
    ensures IsChannelPermission(perm) <==> exists rest :: perm == CHANNEL_PREFIX + rest
  {
    if IsChannelPermission(perm) {
      assert perm == CHANNEL_PREFIX + perm[|CHANNEL_PREFIX|..];
    }
  }

  function Level(role: string): nat {
    if role == "owner" then 3 else if role == "write" then 2 else if role == "read" then 1 else 0
  }

  function RequiredLevel(perm: string): nat { if perm == CHANNEL_WRITE then 2 else 1 }

  predicate AclMatches(a: Acl, u: User, groups: seq<string>) {
    MappingMatches(Mapping("", a.kind, a.subject, "", ""), u, groups)
  }

  /** The channel itself admits the user: by its access list, or because the user created it. */
  ghost predicate Admits(acls: seq<Acl>, creator: Option<string>, u: User, groups: seq<string>, perm: string) {
    || (perm in {CHANNEL_READ, CHANNEL_WRITE}
        && exists a :: a in acls && AclMatches(a, u, groups) && Level(a.role) >= RequiredLevel(perm))
    || creator == Some(u.id) || creator == Some(u.username)
  }

  // ---------------------------------------------------------------- permissions within a channel

  function InScope(channel: string): Mapping -> bool {
    (m: Mapping) => m.scope == ALL || (channel != "" && m.scope == channel)
  }

  /** What the user's own roles give in a channel ("" is no particular one): outside the user's channels
      neither channel permissions nor the wildcard. */
  function OwnPermissions(roles: Roles, u: User, perm: string, channel: string): set<string> {
    var own := RolePermissions(roles, u.roles);
    if channel == "" || CoversChannel(u.channels, channel) then own
    else if IsChannelPermission(perm) then {}
    else own - {ALL}
  }

  function ScopedPermissions(roles: Roles, mappings: seq<Mapping>, u: User, groups: seq<string>, channel: string): set<string> {
    MappedPermissions(roles, Filter(mappings, InScope(channel)), u, groups)
  }

  /** The permissions that count in a channel: only mappings whose scope covers it add to the user's own. */
  function EffectiveIn(roles: Roles, mappings: seq<Mapping>, u: User, groups: seq<string>, perm: string,
                       channel: string): set<string>
  {
    OwnPermissions(roles, u, perm, channel)
      + ScopedPermissions(roles, mappings, u, groups, channel)
  }

  predicate Holds(perms: set<string>, perm: string) { perm in perms || ALL in perms }

  lemma HoldsSplits(a: set<string>, b: set<string>, perm: string)
    ensures Holds(a + b, perm) <==> Holds(a, perm) || Holds(b, perm)
  {
  }

  // ---------------------------------------------------------------- the same, element by element

  predicate Gives(roles: Roles, name: string, perm: string) {
    name in roles && (perm in roles[name] || ALL in roles[name])
  }

  /** Some role of the user gives the permission, or the wildcard. Outside the user's channels only a permission
      that is not about channels counts, and it must be given by name. */
  ghost predicate RolePasses(roles: Roles, u: User, perm: string, channel: string) {
    exists n :: n in u.roles && RolePassesBy(roles, n, u.channels, perm, channel)
  }

  predicate RolePassesBy(roles: Roles, name: string, channels: seq<string>, perm: string, channel: string) {
    && Gives(roles, name, perm)
    && (channel == "" || ALL in channels || channel in channels
        || (!IsChannelPermission(perm) && perm != ALL && perm in roles[name]))
  }

  /** Some mapping meant for the user gives it, in this very channel or in all. */
  ghost predicate MappingPasses(roles: Roles, mappings: seq<Mapping>, u: User, groups: seq<string>, perm: string,
                                channel: string)
  {
    exists m :: m in mappings && IsMeantFor(m, u, groups) && Gives(roles, m.role, perm)
      && (m.scope == ALL || (channel != "" && m.scope == channel))
  }

  /** Some entry of the channel's access list meant for the user is high enough, or the user created the channel. */
  ghost predicate ChannelPasses(acls: seq<Acl>, creator: Option<string>, u: User, groups: seq<string>, perm: string) {
    || (exists a :: a in acls
          && ((a.kind == "user" && a.subject in {u.id, u.username}) || (a.kind == "group" && a.subject in groups))
          && ((perm == CHANNEL_READ && a.role in {"read", "write", "owner"})
              || (perm == CHANNEL_WRITE && a.role in {"write", "owner"})))
    || creator == Some(u.id) || creator == Some(u.username)
  }

  lemma RolePassesIff(roles: Roles, u: User, perm: string, channel: string)
    ensures Holds(OwnPermissions(roles, u, perm, channel), perm) <==> RolePasses(roles, u, perm, channel)
  {
    forall p ensures p in RolePermissions(roles, u.roles) <==> exists n :: n in u.roles && n in roles && p in roles[n] {
      if n :| n in u.roles && n in roles && p in roles[n] {
        assert p in Permissions(roles, n);
      }
    }
  }

  lemma MappingPassesIff(roles: Roles, mappings: seq<Mapping>, u: User, groups: seq<string>, perm: string, channel: string)
    ensures Holds(ScopedPermissions(roles, mappings, u, groups, channel), perm)
       <==> MappingPasses(roles, mappings, u, groups, perm, channel)
  {
    var kept := Filter(mappings, InScope(channel));
    FilterMembers(mappings, InScope(channel));
    MappedPermissionsIff(roles, kept, u, groups, perm);
    MappedPermissionsIff(roles, kept, u, groups, ALL);
  }

  lemma ChannelPassesIff(acls: seq<Acl>, creator: Option<string>, u: User, groups: seq<string>, perm: string)
    ensures Admits(acls, creator, u, groups, perm) <==> ChannelPasses(acls, creator, u, groups, perm)
  {
  }

  /** A user without roles whose mappings are all for single channels passes no check that asks for no channel,
      nor one for a channel that none of them names. */
  lemma ScopedUserPassesNowhereElse(roles: Roles, mappings: seq<Mapping>, u: User, groups: seq<string>, perm: string,
                                    channel: string)
    requires u.roles == []
    requires forall m :: m in mappings && IsMeantFor(m, u, groups) ==> m.scope != ALL && (channel == "" || m.scope != channel)
    ensures !Holds(EffectiveIn(roles, mappings, u, groups, perm, channel), perm)
  {
    RolePassesIff(roles, u, perm, channel);
    MappingPassesIff(roles, mappings, u, groups, perm, channel);
  }

  class Authorizer {
    const roles: Roles
    var mappings: seq<Mapping>
    var acls: map<string, seq<Acl>>
    var creators: map<string, string>

    constructor (fixed: Roles, ms: seq<Mapping>, lists: map<string, seq<Acl>>, owners: map<string, string>)
      ensures roles == fixed && mappings == ms && acls == lists && creators == owners
    {
      roles, mappings, acls, creators := fixed, ms, lists, owners;
    }

    function AclsOf(channel: string): seq<Acl>
      reads this
    {
      if channel in acls then acls[channel] else []
    }

    function CreatorOf(channel: string): Option<string>
      reads this
    {
      if channel in creators then Some(creators[channel]) else None
    }

    /** The check passes exactly if the permission or the wildcard counts in the channel, or the channel
        itself admits the user. */
    method UserHasPermission(u: User, groups: seq<string>, perm: string, channel: string) returns (ok: bool)
      ensures ok <==>
                || Holds(EffectiveIn(roles, mappings, u, groups, perm, channel), perm)
                || (channel != "" && IsChannelPermission(perm)
                    && Admits(AclsOf(channel), CreatorOf(channel), u, groups, perm))
      ensures ok <==>
                || RolePasses(roles, u, perm, channel)
                || MappingPasses(roles, mappings, u, groups, perm, channel)
                || (channel != "" && IsChannelPermission(perm)
                    && ChannelPasses(AclsOf(channel), CreatorOf(channel), u, groups, perm))
    {
      RolePassesIff(roles, u, perm, channel);
      MappingPassesIff(roles, mappings, u, groups, perm, channel);
      ChannelPassesIff(AclsOf(channel), CreatorOf(channel), u, groups, perm);
      HoldsSplits(OwnPermissions(roles, u, perm, channel),
                  ScopedPermissions(roles, mappings, u, groups, channel), perm);
      ok := CheckGlobalRoles(u, perm, channel);
      if ok {
        return;
      }
      ok := CheckMappings(u, groups, perm, channel);
      if ok {
        return;
      }
      if channel != "" && IsChannelPermission(perm) {
        if perm == CHANNEL_WRITE || perm == CHANNEL_READ {
          ok := CheckAcls(u, groups, perm, channel);
          if ok {
            return;
          }
        }
        ok := CreatorOf(channel) == Some(u.id) || CreatorOf(channel) == Some(u.username);
      }
    }

    method CheckGlobalRoles(u: User, perm: string, channel: string) returns (ok: bool)
      ensures ok <==> Holds(OwnPermissions(roles, u, perm, channel), perm)
      ensures ok <==> RolePasses(roles, u, perm, channel)
    {
      RolePassesIff(roles, u, perm, channel);
      for i := 0 to |u.roles|
        invariant forall j :: 0 <= j < i ==> !RolePassesBy(roles, u.roles[j], u.channels, perm, channel)
      {
        var name := u.roles[i];
        if name !in roles {
          continue;
        }
        var found := RoleGives(roles[name], u.channels, perm, channel);
        if found {
          assert RolePassesBy(roles, name, u.channels, perm, channel) && name in u.roles;
          return true;
        }
      }
      ok := false;
    }

    /** The inner loop: does one role pass the check? */
    method RoleGives(granted: seq<string>, channels: seq<string>, perm: string, channel: string) returns (ok: bool)
      ensures ok <==> exists p :: p in granted && Counts(p, channels, perm, channel)
    {
      for k := 0 to |granted|
        invariant forall j :: 0 <= j < k ==> !Counts(granted[j], channels, perm, channel)
      {
        var p := granted[k];
        assert p in granted;
        if p == perm || p == ALL {
          if IsChannelPermission(perm) && channel != "" {
            if CoversChannel(channels, channel) {
              return true;
            }
            continue;
          }
          if p == ALL && channel != "" {
            if CoversChannel(channels, channel) {
              return true;
            }
            continue;
          }
          return true;
        }
      }
      ok := false;
    }

    method CheckMappings(u: User, groups: seq<string>, perm: string, channel: string) returns (ok: bool)
      ensures ok <==> Holds(ScopedPermissions(roles, mappings, u, groups, channel), perm)
      ensures ok <==> MappingPasses(roles, mappings, u, groups, perm, channel)
    {
      MappingPassesIff(roles, mappings, u, groups, perm, channel);
      for i := 0 to |mappings|
        invariant !Holds(ScopedPermissions(roles, mappings[..i], u, groups, channel), perm)
      {
        var m := mappings[i];
        ScopedHolds(roles, mappings, i, u, groups, channel, perm);
        if !MappingMatches(m, u, groups) || m.role !in roles {
          continue;
        }
        var gives := Contains(roles[m.role], perm);
        if gives {
          if channel == "" {
            if m.scope == ALL {
              return true;
            }
            continue;
          }
          if m.scope == ALL || m.scope == channel {
            return true;
          }
        }
      }
      assert mappings[..|mappings|] == mappings;
      ok := false;
    }

    method Contains(granted: seq<string>, perm: string) returns (ok: bool)
      ensures ok <==> perm in granted || ALL in granted
    {
      for k := 0 to |granted|
        invariant perm !in granted[..k] && ALL !in granted[..k]
      {
        if granted[k] == perm || granted[k] == ALL {
          return true;
        }
        assert granted[..k + 1] == granted[..k] + [granted[k]];
      }
      assert granted[..|granted|] == granted;
      ok := false;
    }

    method CheckAcls(u: User, groups: seq<string>, perm: string, channel: string) returns (ok: bool)
      ensures ok <==> exists a ::
                a in AclsOf(channel) && AclMatches(a, u, groups) && Level(a.role) >= RequiredLevel(perm)
    {
      var list := AclsOf(channel);
      for i := 0 to |list|
        invariant forall j :: 0 <= j < i ==>
          !(AclMatches(list[j], u, groups) && Level(list[j].role) >= RequiredLevel(perm))
      {
        var a := list[i];
        assert a in list;
        if !AclMatches(a, u, groups) {
          continue;
        }
        if Level(a.role) >= RequiredLevel(perm) {
          return true;
        }
      }
      ok := false;
    }
  }

  /** A granted permission that counts for the requested one in the channel. */
  predicate Counts(p: string, channels: seq<string>, perm: string, channel: string) {
    && (p == perm || p == ALL)
    && (channel != "" && (IsChannelPermission(perm) || p == ALL) ==> CoversChannel(channels, channel))
  }

  /** More mappings never take a permission away. */
  lemma MappedConcat(roles: Roles, a: seq<Mapping>, b: seq<Mapping>, u: User, groups: seq<string>)
    ensures MappedPermissions(roles, a, u, groups) <= MappedPermissions(roles, a + b, u, groups)
    decreases |b|
  {
    if b == [] {
      assert a + b == a;
    } else {
      var front := b[..|b| - 1];
      MappedConcat(roles, a, front, u, groups);
      MappedStep(roles, a + front, b[|b| - 1], u, groups);
      assert a + b == a + front + [b[|b| - 1]];
    }
  }

  lemma ScopedStep(roles: Roles, mappings: seq<Mapping>, i: nat, u: User, groups: seq<string>, channel: string)
    requires i < |mappings|
    ensures var m := mappings[i];
      ScopedPermissions(roles, mappings[..i + 1], u, groups, channel)
        == ScopedPermissions(roles, mappings[..i], u, groups, channel)
           + (if InScope(channel)(m) && MappingMatches(m, u, groups) then Permissions(roles, m.role) else {})
  {
    FilterStep(mappings, i, InScope(channel));
    var kept := Filter(mappings[..i], InScope(channel));
    assert kept + [] == kept;
    MappedStep(roles, kept, mappings[i], u, groups);
  }

  lemma ScopedPrefix(roles: Roles, mappings: seq<Mapping>, i: nat, u: User, groups: seq<string>, channel: string)
    requires i <= |mappings|
    ensures ScopedPermissions(roles, mappings[..i], u, groups, channel)
         <= ScopedPermissions(roles, mappings, u, groups, channel)
  {
    assert mappings == mappings[..i] + mappings[i..];
    FilterConcat(mappings[..i], mappings[i..], InScope(channel));
    MappedConcat(roles, Filter(mappings[..i], InScope(channel)), Filter(mappings[i..], InScope(channel)), u, groups);
  }

  /** What one more mapping adds to the check, and that it decides it. */
  lemma ScopedHolds(roles: Roles, mappings: seq<Mapping>, i: nat, u: User, groups: seq<string>, channel: string,
                    perm: string)
    requires i < |mappings|
    ensures var m := mappings[i];
      var before, after := ScopedPermissions(roles, mappings[..i], u, groups, channel),
                           ScopedPermissions(roles, mappings[..i + 1], u, groups, channel);
      var adds := InScope(channel)(m) && MappingMatches(m, u, groups) && Holds(Permissions(roles, m.role), perm);
      && (Holds(after, perm) <==> Holds(before, perm) || adds)
      && (Holds(after, perm) ==> Holds(ScopedPermissions(roles, mappings, u, groups, channel), perm))
  {
    ScopedStep(roles, mappings, i, u, groups, channel);
    ScopedPrefix(roles, mappings, i + 1, u, groups, channel);
  }

  // ---------------------------------------------------------------- against the effective permissions

  lemma {:induction false} FewerMappings(roles: Roles, mappings: seq<Mapping>, keep: Mapping -> bool, u: User,
                                         groups: seq<string>)
    ensures MappedPermissions(roles, Filter(mappings, keep), u, groups) <= MappedPermissions(roles, mappings, u, groups)
  {
    if mappings != [] {
      var front, m := mappings[..|mappings| - 1], mappings[|mappings| - 1];
      FewerMappings(roles, front, keep, u, groups);
      MappedStep(roles, front, m, u, groups);
      assert mappings == front + [m];
      if keep(m) {
        MappedStep(roles, Filter(front, keep), m, u, groups);
      } else {
        assert Filter(mappings, keep) == Filter(front, keep);
      }
    }
  }

  /** What counts in a channel never exceeds what delegation is decided on, and it is all of that where the
      user's channels and the scopes of all mappings reach. */
  lemma EffectiveInIsEffective(roles: Roles, mappings: seq<Mapping>, u: User, groups: seq<string>, perm: string,
                               channel: string)
    ensures EffectiveIn(roles, mappings, u, groups, perm, channel) <= Effective(roles, mappings, u, groups)
    ensures (channel == "" || CoversChannel(u.channels, channel))
            && (forall m :: m in mappings ==> InScope(channel)(m))
            ==> EffectiveIn(roles, mappings, u, groups, perm, channel) == Effective(roles, mappings, u, groups)
  {
    FewerMappings(roles, mappings, InScope(channel), u, groups);
    FilterAllOrNone(mappings, InScope(channel));
  }

  /** The user passes the check in the channel through roles or mappings. */
  predicate Passes(roles: Roles, s: State, user: string, groups: seq<string>, perm: string, channel: string) {
    user in s.users && Holds(EffectiveIn(roles, s.mappings, s.users[user], groups, perm, channel), perm)
  }

  /** Both together: whatever a user passes a check for at the end of a run of requests, through
      roles or mappings, in any channel and session, was granted to somebody at the start, or the wildcard was. */
  lemma RunAuthorizesNothingNew(roles: Roles, states: seq<State>, user: string, groups: seq<string>, perm: string,
                                channel: string)
    requires IsRun(roles, states)
    requires Passes(roles, states[|states| - 1], user, groups, perm, channel)
    ensures Granted(roles, states[0], perm) || Granted(roles, states[0], ALL)
  {
    var last := states[|states| - 1];
    EffectiveInIsEffective(roles, last.mappings, last.users[user], groups, perm, channel);
    if perm in EffectiveIn(roles, last.mappings, last.users[user], groups, perm, channel) {
      RunNeverEscalates(roles, states, user, groups, perm);
    } else {
      RunNeverEscalates(roles, states, user, groups, ALL);
    }
  }
}
