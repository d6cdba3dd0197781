/** At-rest encryption of sensitive fields and key rotation (internal/repository/cryptokeeper.go, and the
    seal/open functions and MigrateAtRest in raft.go). Cryptography is symbolic: opening a ciphertext gives
    back the plaintext exactly when key and context match. */
module AtRest {
  import opened Basics

  type KeyBytes = seq<int>
  const CONTEXT := "gohookbridge.at-rest.v1"
  const ALG := "A256GCM"

  /** A stored or plain string, by whether it parses as an envelope; `spelling` tells apart the JSON texts
      of the same envelope. */
  datatype Text = Raw(chars: string) | Json(envelope: Envelope, spelling: string)

  datatype Envelope = Envelope(kid: string, alg: string, ver: int, nonce: seq<int>, ctx: string, ct: Cipher)

  datatype Cipher = NoCipher | Sealed(key: KeyBytes, nonce: seq<int>, plain: Text, ctx: string) | Unreadable(bytes: seq<int>)

  const EMPTY := Raw("")

  datatype Keeper = Keeper(keys: map<string, KeyBytes>, primary: string)

  // ---------------------------------------------------------------- envelopes

  function Encrypt(k: Keeper, plain: Text, nonce: seq<int>): Option<Envelope> {
    if k.primary !in k.keys then None
    else Some(Envelope(k.primary, ALG, 1, nonce, CONTEXT, Sealed(k.keys[k.primary], nonce, plain, CONTEXT)))
  }

  function Decrypt(k: Keeper, ev: Envelope): Option<Text> {
    if ev.alg != ALG || ev.ver != 1 || ev.kid !in k.keys then None
    else match ev.ct
      case Sealed(key, nonce, plain, ctx) =>
        if key == k.keys[ev.kid] && nonce == ev.nonce && ctx == ev.ctx then Some(plain) else None
      case _ => None
  }

  /** Without a keeper, and for the empty string, sealing does nothing. */
  function Seal(k: Option<Keeper>, plain: Text, nonce: seq<int>): Option<Text> {
    if k.None? || plain == EMPTY then Some(plain)
    else
      var ev := Encrypt(k.value, plain, nonce);
      if ev.None? then None else Some(Json(ev.value, ""))
  }

  /** What is not an envelope is legacy plaintext. */
  function Open(k: Option<Keeper>, stored: Text): Option<Text> {
    if k.None? || stored == EMPTY then Some(stored)
    else if stored.Raw? || stored.envelope.alg == "" || stored.envelope.ct.NoCipher? then Some(stored)
    else Decrypt(k.value, stored.envelope)
  }

  predicate Usable(k: Keeper) { k.primary in k.keys }

  /** The other key set still contains the primary key of k, if k has one. */
  predicate HasPrimaryOf(other: Keeper, k: Keeper) {
    Usable(k) ==> k.primary in other.keys && other.keys[k.primary] == k.keys[k.primary]
  }

  /** A sealed value opens to what was sealed, even if that itself looks like an envelope, under any key
      set that still contains the key it was sealed with. */
  lemma OpenInvertsSeal(k: Keeper, other: Keeper, plain: Text, nonce: seq<int>)
    requires HasPrimaryOf(other, k)
    ensures Usable(k) ==> Seal(Some(k), plain, nonce).Some?
    ensures Seal(Some(k), plain, nonce).Some? ==> Open(Some(other), Seal(Some(k), plain, nonce).value) == Some(plain)
  {
  }

  /** An envelope that holds its text encrypted under the primary key. */
  predicate IsEncrypted(k: Keeper, t: Text) {
    && t.Json? && t.envelope.kid == k.primary && t.envelope.alg == ALG && Usable(k)
    && t.envelope.ct.Sealed? && t.envelope.ct.key == k.keys[k.primary]
  }

  /** Nothing is stored in clear: what is not empty is encrypted. */
  predicate Hidden(k: Keeper, t: Text) { t == EMPTY || IsEncrypted(k, t) }

  /** Without the key an encrypted text does not open. */
  lemma EncryptedNeedsKey(k: Keeper, t: Text, other: Keeper)
    requires IsEncrypted(k, t) && forall id :: id in other.keys ==> other.keys[id] != k.keys[k.primary]
    ensures Open(Some(other), t) == None
  {
  }

  /** Plaintext that looks like an envelope cannot be left unsealed: reading it fails or changes it. */
  lemma EnvelopeLookalikeIsNotPlain(k: Keeper, ev: Envelope)
    requires ev.alg != "" && !ev.ct.NoCipher?
    ensures Open(Some(k), Json(ev, "")) != Some(Json(ev, ""))
  {
    if ev.ct.Sealed? {
      assert ev.ct.plain != Json(ev, "") by {
        PlainIsSmaller(ev);
      }
    }
  }

  lemma PlainIsSmaller(ev: Envelope)
    requires ev.ct.Sealed?
    ensures ev.ct.plain != Json(ev, "")
  {
    assert Depth(Json(ev, "")) > Depth(ev.ct.plain);
  }

  ghost function Depth(t: Text): nat {
    match t
    case Raw(_) => 0
    case Json(ev, _) => if ev.ct.Sealed? then 1 + Depth(ev.ct.plain) else 0
  }

  // ---------------------------------------------------------------- records

  datatype Channel = Channel(id: string, webhookSecret: Text, encryptionKey: Text, encryptionPrivateKey: Text,
                             webhookSignatures: seq<Text>, encryptionMode: string, encryptionEnabled: bool, rest: string)

  datatype GlobalConfig = GlobalConfig(sessionSecret: Text, serverRest: string, webhookSecret: Text, defaultsRest: string)

  datatype Provider = Provider(clientSecret: Text, rest: string)

  function OpenAll(k: Option<Keeper>, s: seq<Text>): Option<seq<Text>> {
    if s == [] then Some([])
    else
      var front, last := OpenAll(k, s[..|s| - 1]), Open(k, s[|s| - 1]);
      if front.None? || last.None? then None else Some(front.value + [last.value])
  }

  /** t is some sealing of s under k, whatever the nonces. */
  ghost predicate IsSealOf(k: Option<Keeper>, s: Text, t: Text) {
    exists nonce :: Seal(k, s, nonce) == Some(t)
  }

  lemma SealingIsSealOf(k: Option<Keeper>, s: Text, nonce: seq<int>, t: Text)
    requires Seal(k, s, nonce) == Some(t)
    ensures IsSealOf(k, s, t)
  {
  }

  lemma SealHides(k: Keeper, s: Text, t: Text)
    requires IsSealOf(Some(k), s, t)
    ensures Hidden(k, t) && (t == EMPTY <==> s == EMPTY) && (s != EMPTY ==> t.envelope.ct.plain == s)
  {
  }

  ghost predicate AreSealsOf(k: Option<Keeper>, s: seq<Text>, t: seq<Text>) {
    |s| == |t| && forall i :: 0 <= i < |s| ==> IsSealOf(k, s[i], t[i])
  }

  function OpenChannel(k: Option<Keeper>, c: Channel): Option<Channel> {
    var a, b, d := Open(k, c.webhookSecret), Open(k, c.encryptionKey), Open(k, c.encryptionPrivateKey);
    var s := OpenAll(k, c.webhookSignatures);
    if a.None? || b.None? || d.None? || s.None? then None
    else Some(c.(webhookSecret := a.value, encryptionKey := b.value, encryptionPrivateKey := d.value,
                 webhookSignatures := s.value))
  }

  function OpenConfig(k: Option<Keeper>, c: GlobalConfig): Option<GlobalConfig> {
    var a, b := Open(k, c.sessionSecret), Open(k, c.webhookSecret);
    if a.None? || b.None? then None else Some(c.(sessionSecret := a.value, webhookSecret := b.value))
  }

  function OpenProviders(k: Option<Keeper>, ps: seq<Provider>): Option<seq<Provider>> {
    if ps == [] then Some([])
    else
      var front, last := OpenProviders(k, ps[..|ps| - 1]), Open(k, ps[|ps| - 1].clientSecret);
      if front.None? || last.None? then None
      else Some(front.value + [ps[|ps| - 1].(clientSecret := last.value)])
  }

  /** Legacy channel records are promoted to the current schema. */
  function MigrateChannel(c: Channel): Channel {
    var c1 := if c.webhookSecret == EMPTY && c.webhookSignatures != []
              then c.(webhookSecret := c.webhookSignatures[0]) else c;
    var c2 := if c1.encryptionMode == "" && c1.encryptionEnabled then c1.(encryptionMode := "e2e") else c1;
    if c2.encryptionMode == "provider_side" then c2.(encryptionMode := "e2e") else c2
  }

  /** Only the webhook secret and the encryption mode can change: a missing secret is taken from the first
      signature, and both ways to ask for end-to-end encryption become one. */
  lemma MigrateChannelMeans(c: Channel)
    ensures var m := MigrateChannel(c);
            && m == c.(webhookSecret := m.webhookSecret, encryptionMode := m.encryptionMode)
            && (m.webhookSecret != c.webhookSecret ==>
                  c.webhookSecret == EMPTY && c.webhookSignatures != [] && m.webhookSecret == c.webhookSignatures[0])
            && (m.webhookSecret == EMPTY ==> c.webhookSignatures == [] || c.webhookSignatures[0] == EMPTY)
            && (m.encryptionMode == "e2e" <==>
                  c.encryptionMode in {"e2e", "provider_side"} || (c.encryptionMode == "" && c.encryptionEnabled))
            && (m.encryptionMode != "e2e" ==> m.encryptionMode == c.encryptionMode)
  {
  }

  lemma MigrateChannelIdempotent(c: Channel)
    ensures MigrateChannel(MigrateChannel(c)) == MigrateChannel(c)
  {
  }

  // ---------------------------------------------------------------- the store

  // Stored records; configuration halves and providers may be absent.
  datatype Records = Records(channels: map<string, Channel>, server: Option<GlobalConfig>, defaults: Option<GlobalConfig>,
                             providers: Option<seq<Provider>>)

  const DEFAULTS := GlobalConfig(EMPTY, "default server", EMPTY, "default defaults")

  function RawConfig(r: Records): GlobalConfig {
    var c := if r.server.Some?
             then DEFAULTS.(sessionSecret := r.server.value.sessionSecret, serverRest := r.server.value.serverRest)
             else DEFAULTS;
    if r.defaults.Some?
    then c.(webhookSecret := r.defaults.value.webhookSecret, defaultsRest := r.defaults.value.defaultsRest)
    else c
  }

  /** Each half of the configuration comes from its own record, or is the default. */
  lemma RawConfigMeans(r: Records)
    ensures var c := RawConfig(r);
            && c.sessionSecret == (if r.server.Some? then r.server.value.sessionSecret else EMPTY)
            && c.webhookSecret == (if r.defaults.Some? then r.defaults.value.webhookSecret else EMPTY)
            && (r.server.Some? ==> c.serverRest == r.server.value.serverRest)
            && (r.defaults.Some? ==> c.defaultsRest == r.defaults.value.defaultsRest)
  {
  }

  /** The three reads of the API. */
  function GetChannel(k: Option<Keeper>, r: Records, id: string): Option<Channel> {
    if id in r.channels then OpenChannel(k, r.channels[id]) else None
  }

  function GetGlobalConfig(k: Option<Keeper>, r: Records): Option<GlobalConfig> {
    OpenConfig(k, RawConfig(r))
  }

  function OidcProviders(k: Option<Keeper>, r: Records): Option<seq<Provider>> {
    if r.providers.None? then Some([]) else OpenProviders(k, r.providers.value)
  }

  ghost predicate WellKeyed(r: Records) {
    forall id :: id in r.channels ==> r.channels[id].id == id && id != ""
  }

  ghost predicate ChannelReadsAsBefore(k: Option<Keeper>, r: Records, other: Option<Keeper>, r': Records, id: string) {
    var before, after := GetChannel(k, r, id), GetChannel(other, r', id);
    before.Some? ==> after.Some? && MigrateChannel(after.value) == MigrateChannel(before.value)
  }

  ghost predicate ChannelsReadAsBefore(k: Option<Keeper>, r: Records, other: Option<Keeper>, r': Records) {
    && r'.channels.Keys == r.channels.Keys
    && forall id :: id in r.channels ==> ChannelReadsAsBefore(k, r, other, r', id)
  }

  ghost predicate ConfigReadsAsBefore(k: Option<Keeper>, r: Records, other: Option<Keeper>, r': Records) {
    GetGlobalConfig(k, r).Some? ==> GetGlobalConfig(other, r') == GetGlobalConfig(k, r)
  }

  ghost predicate ProvidersReadAsBefore(k: Option<Keeper>, r: Records, other: Option<Keeper>, r': Records) {
    OidcProviders(k, r).Some? ==> OidcProviders(other, r') == OidcProviders(k, r)
  }

  /** Under `other`, everything in r' reads as it did in r under k; channels up to the schema promotion. */
  ghost predicate ReadsAsBefore(k: Option<Keeper>, r: Records, other: Option<Keeper>, r': Records) {
    ChannelsReadAsBefore(k, r, other, r') && ConfigReadsAsBefore(k, r, other, r') && ProvidersReadAsBefore(k, r, other, r')
  }

  /** The same under every key set that contains the primary key. */
  ghost predicate ReadableEverywhere(k: Keeper, r: Records, r': Records) {
    forall other :: HasPrimaryOf(other, k) ==> ReadsAsBefore(Some(k), r, Some(other), r')
  }

  ghost predicate ChannelsEverywhere(k: Keeper, r: Records, r': Records) {
    forall other :: HasPrimaryOf(other, k) ==> ChannelsReadAsBefore(Some(k), r, Some(other), r')
  }

  ghost predicate ConfigEverywhere(k: Keeper, r: Records, r': Records) {
    forall other :: HasPrimaryOf(other, k) ==> ConfigReadsAsBefore(Some(k), r, Some(other), r')
  }

  ghost predicate ProvidersEverywhere(k: Keeper, r: Records, r': Records) {
    forall other :: HasPrimaryOf(other, k) ==> ProvidersReadAsBefore(Some(k), r, Some(other), r')
  }

  /** r1, r2 and r3 follow from r0 by re-sealing the channels, the configuration and the providers. */
  ghost predicate Stages(r0: Records, r1: Records, r2: Records, r3: Records) {
    && r1 == r0.(channels := r1.channels)
    && r2 == r1.(server := r2.server, defaults := r2.defaults)
    && r3 == r2.(providers := r3.providers)
  }

  lemma ReadsCompose(k: Keeper, r0: Records, r1: Records, r2: Records, r3: Records, other: Keeper)
    requires Stages(r0, r1, r2, r3)
    requires ChannelsReadAsBefore(Some(k), r0, Some(other), r1)
    requires ConfigReadsAsBefore(Some(k), r1, Some(other), r2) || (other == k && r1 == r2)
    requires ProvidersReadAsBefore(Some(k), r2, Some(other), r3) || (other == k && r2 == r3)
    ensures ReadsAsBefore(Some(k), r0, Some(other), r3)
  {
    forall id | id in r0.channels ensures ChannelReadsAsBefore(Some(k), r0, Some(other), r3, id) {
      assert ChannelReadsAsBefore(Some(k), r0, Some(other), r1, id);
    }
    assert RawConfig(r1) == RawConfig(r0) && RawConfig(r3) == RawConfig(r2);
  }

  lemma ReadsComposeEverywhere(k: Keeper, r0: Records, r1: Records, r2: Records, r3: Records)
    requires Stages(r0, r1, r2, r3)
    requires ChannelsEverywhere(k, r0, r1) && ConfigEverywhere(k, r1, r2) && ProvidersEverywhere(k, r2, r3)
    ensures ReadableEverywhere(k, r0, r3)
  {
    forall other | HasPrimaryOf(other, k) ensures ReadsAsBefore(Some(k), r0, Some(other), r3) {
      ReadsCompose(k, r0, r1, r2, r3, other);
    }
  }

  lemma SealOpens(k: Keeper, other: Keeper, s: Text, t: Text)
    requires HasPrimaryOf(other, k) && IsSealOf(Some(k), s, t)
    ensures Open(Some(other), t) == Some(s)
  {
    var nonce :| Seal(Some(k), s, nonce) == Some(t);
    OpenInvertsSeal(k, other, s, nonce);
  }

  lemma {:induction false} SealsOpen(k: Keeper, other: Keeper, s: seq<Text>, t: seq<Text>)
    requires HasPrimaryOf(other, k) && AreSealsOf(Some(k), s, t)
    ensures OpenAll(Some(other), t) == Some(s)
  {
    if s != [] {
      var n := |s| - 1;
      SealsOpen(k, other, s[..n], t[..n]);
      SealOpens(k, other, s[n], t[n]);
      assert s == s[..n] + [s[n]];
    }
  }

  ghost predicate ChannelSealOf(k: Option<Keeper>, c: Channel, t: Channel) {
    && t == c.(webhookSecret := t.webhookSecret, encryptionKey := t.encryptionKey,
               encryptionPrivateKey := t.encryptionPrivateKey, webhookSignatures := t.webhookSignatures)
    && IsSealOf(k, c.webhookSecret, t.webhookSecret)
    && IsSealOf(k, c.encryptionKey, t.encryptionKey)
    && IsSealOf(k, c.encryptionPrivateKey, t.encryptionPrivateKey)
    && AreSealsOf(k, c.webhookSignatures, t.webhookSignatures)
  }

  lemma SealedChannelOpens(k: Keeper, other: Keeper, c: Channel, t: Channel)
    requires HasPrimaryOf(other, k) && ChannelSealOf(Some(k), c, t)
    ensures OpenChannel(Some(other), t) == Some(c)
  {
    SealOpens(k, other, c.webhookSecret, t.webhookSecret);
    SealOpens(k, other, c.encryptionKey, t.encryptionKey);
    SealOpens(k, other, c.encryptionPrivateKey, t.encryptionPrivateKey);
    SealsOpen(k, other, c.webhookSignatures, t.webhookSignatures);
  }

  ghost predicate ProvidersSealOf(k: Option<Keeper>, ps: seq<Provider>, ts: seq<Provider>) {
    |ps| == |ts| && forall i :: 0 <= i < |ps| ==>
      ts[i] == ps[i].(clientSecret := ts[i].clientSecret) && IsSealOf(k, ps[i].clientSecret, ts[i].clientSecret)
  }

  lemma {:induction false} SealedProvidersOpen(k: Keeper, other: Keeper, ps: seq<Provider>, ts: seq<Provider>)
    requires HasPrimaryOf(other, k) && ProvidersSealOf(Some(k), ps, ts)
    ensures OpenProviders(Some(other), ts) == Some(ps)
  {
    if ps != [] {
      var n := |ps| - 1;
      SealedProvidersOpen(k, other, ps[..n], ts[..n]);
      SealOpens(k, other, ps[n].clientSecret, ts[n].clientSecret);
      assert ps == ps[..n] + [ps[n]];
    }
  }

  predicate ChannelHidden(k: Keeper, c: Channel) {
    && Hidden(k, c.webhookSecret) && Hidden(k, c.encryptionKey) && Hidden(k, c.encryptionPrivateKey)
    && forall i :: 0 <= i < |c.webhookSignatures| ==> Hidden(k, c.webhookSignatures[i])
  }

  predicate ProvidersHidden(k: Keeper, ps: seq<Provider>) {
    forall i :: 0 <= i < |ps| ==> Hidden(k, ps[i].clientSecret)
  }

  predicate ChannelsHidden(k: Keeper, r: Records) {
    forall id :: id in r.channels ==> ChannelHidden(k, r.channels[id])
  }

  predicate ConfigHidden(k: Keeper, r: Records) {
    && (r.server.Some? ==> Hidden(k, r.server.value.sessionSecret))
    && (r.defaults.Some? ==> Hidden(k, r.defaults.value.webhookSecret))
  }

  /** No secret of any record is stored in clear. */
  predicate AllHidden(k: Keeper, r: Records) {
    && ChannelsHidden(k, r) && ConfigHidden(k, r)
    && (r.providers.Some? ==> ProvidersHidden(k, r.providers.value))
  }

  lemma SealedChannelIsHidden(k: Keeper, c: Channel, t: Channel)
    requires ChannelSealOf(Some(k), c, t)
    ensures ChannelHidden(k, t)
  {
    SealHides(k, c.webhookSecret, t.webhookSecret);
    SealHides(k, c.encryptionKey, t.encryptionKey);
    SealHides(k, c.encryptionPrivateKey, t.encryptionPrivateKey);
    forall i | 0 <= i < |t.webhookSignatures| ensures Hidden(k, t.webhookSignatures[i]) {
      SealHides(k, c.webhookSignatures[i], t.webhookSignatures[i]);
    }
  }

  lemma SealedProvidersAreHidden(k: Keeper, ps: seq<Provider>, ts: seq<Provider>)
    requires ProvidersSealOf(Some(k), ps, ts)
    ensures ProvidersHidden(k, ts)
  {
    forall i | 0 <= i < |ts| ensures Hidden(k, ts[i].clientSecret) {
      SealHides(k, ps[i].clientSecret, ts[i].clientSecret);
    }
  }

  class RaftStore {
    const keeper: Option<Keeper>
    var records: Records
    ghost var refused: nat  // replicated writes that failed

    constructor (k: Option<Keeper>, r: Records)
      ensures keeper == k && records == r
    {
      keeper, records, refused := k, r, 0;
    }

    /** Each call draws a fresh nonce. */
    method SealString(plain: Text) returns (sealed: Option<Text>)
      ensures sealed.Some? ==> IsSealOf(keeper, plain, sealed.value)
      ensures keeper.None? || plain == EMPTY ==> sealed == Some(plain)
      ensures sealed.Some? && keeper.Some? && plain != EMPTY ==>
                IsEncrypted(keeper.value, sealed.value) && sealed.value.envelope.ct.plain == plain
      ensures sealed.None? ==> keeper.Some? && !Usable(keeper.value)
    {
      var nonce: seq<int> := *;
      sealed := Seal(keeper, plain, nonce);
      if sealed.Some? {
        SealingIsSealOf(keeper, plain, nonce, sealed.value);
      }
    }

    method SealChannel(c: Channel) returns (sealed: Option<Channel>)
      ensures sealed.Some? ==> ChannelSealOf(keeper, c, sealed.value)
      ensures sealed.Some? && keeper.Some? ==> ChannelHidden(keeper.value, sealed.value)
      ensures sealed.None? ==> keeper.Some? && !Usable(keeper.value)
    {
      var a := SealString(c.webhookSecret);
      if a.None? { return None; }
      var b := SealString(c.encryptionKey);
      if b.None? { return None; }
      var d := SealString(c.encryptionPrivateKey);
      if d.None? { return None; }
      var sigs := c.webhookSignatures;
      for i := 0 to |sigs|
        invariant |sigs| == |c.webhookSignatures| && sigs[i..] == c.webhookSignatures[i..]
        invariant AreSealsOf(keeper, c.webhookSignatures[..i], sigs[..i])
      {
        var s := SealString(sigs[i]);
        if s.None? { return None; }
        sigs := sigs[i := s.value];
      }
      assert sigs[..|sigs|] == sigs && c.webhookSignatures[..|sigs|] == c.webhookSignatures;
      sealed := Some(c.(webhookSecret := a.value, encryptionKey := b.value, encryptionPrivateKey := d.value,
                        webhookSignatures := sigs));
      if keeper.Some? {
        SealedChannelIsHidden(keeper.value, c, sealed.value);
      }
    }

    method SealProviders(ps: seq<Provider>) returns (sealed: Option<seq<Provider>>)
      ensures sealed.Some? ==> ProvidersSealOf(keeper, ps, sealed.value)
      ensures sealed.Some? && keeper.Some? ==> ProvidersHidden(keeper.value, sealed.value)
      ensures sealed.None? ==> keeper.Some? && !Usable(keeper.value)
    {
      var ts := ps;
      for i := 0 to |ps|
        invariant |ts| == |ps| && ts[i..] == ps[i..]
        invariant ProvidersSealOf(keeper, ps[..i], ts[..i])
      {
        var s := SealString(ts[i].clientSecret);
        if s.None? { return None; }
        ts := ts[i := ts[i].(clientSecret := s.value)];
      }
      assert ts[..|ts|] == ts && ps[..|ts|] == ps;
      sealed := Some(ts);
      if keeper.Some? {
        SealedProvidersAreHidden(keeper.value, ps, ts);
      }
    }

    /** A replicated write may fail, and then changes nothing. */
    method UpdateChannel(c: Channel) returns (ok: bool)
      requires c.id != ""
      modifies this
      ensures !ok ==> records == old(records)
      ensures refused >= old(refused)
      ensures ok ==> refused == old(refused)
      ensures CanSeal(keeper) ==> (ok <==> refused == old(refused))
      ensures ok ==> exists t :: ChannelSealOf(keeper, c, t)
                       && records == old(records).(channels := old(records).channels[c.id := t])
    {
      ok := false;
      var t := SealChannel(c);
      var applied: bool := *;
      if t.Some? && applied {
        records := records.(channels := records.channels[c.id := t.value]);
        ok := true;
      } else if t.Some? {
        refused := refused + 1;
      }
    }

    /** Both halves are written in one transaction. */
    method UpdateGlobalConfig(c: GlobalConfig) returns (ok: bool)
      modifies this
      ensures !ok ==> records == old(records)
      ensures refused >= old(refused)
      ensures ok ==> refused == old(refused)
      ensures CanSeal(keeper) ==> (ok <==> refused == old(refused))
      ensures ok ==> exists t: GlobalConfig ::
                IsSealOf(keeper, c.sessionSecret, t.sessionSecret) && IsSealOf(keeper, c.webhookSecret, t.webhookSecret)
                && t.serverRest == c.serverRest && t.defaultsRest == c.defaultsRest
                && records == old(records).(server := Some(t), defaults := Some(t))
    {
      ok := false;
      var a := SealString(c.sessionSecret);
      if a.None? { return; }
      var b := SealString(c.webhookSecret);
      if b.None? { return; }
      var t := c.(sessionSecret := a.value, webhookSecret := b.value);
      var applied: bool := *;
      if applied {
        records := records.(server := Some(t), defaults := Some(t));
        ok := true;
      } else {
        refused := refused + 1;
      }
    }

    method SetOidcProviders(ps: seq<Provider>) returns (ok: bool)
      modifies this
      ensures !ok ==> records == old(records)
      ensures refused >= old(refused)
      ensures ok ==> refused == old(refused)
      ensures CanSeal(keeper) ==> (ok <==> refused == old(refused))
      ensures ok ==> exists ts :: ProvidersSealOf(keeper, ps, ts) && records == old(records).(providers := Some(ts))
    {
      ok := false;
      var ts := SealProviders(ps);
      var applied: bool := *;
      if ts.Some? && applied {
        records := records.(providers := ts);
        ok := true;
      } else if ts.Some? {
        refused := refused + 1;
      }
    }

    /** The records a listing reads: opened and promoted. */
    method ListChannels() returns (list: Option<map<string, Channel>>)
      ensures list.Some? <==> ChannelsReadable(keeper, records)
      ensures list.Some? ==> list.value.Keys == records.channels.Keys
      ensures list.Some? ==> forall id :: id in list.value ==> ListedAs(keeper, records, id, list.value[id])
    {
      var todo, got := records.channels.Keys, map[];
      while todo != {}
        invariant todo <= records.channels.Keys && got.Keys == records.channels.Keys - todo
        invariant forall id :: id in got ==> ListedAs(keeper, records, id, got[id])
        decreases todo
      {
        var id :| id in todo;
        todo := todo - {id};
        var c := OpenChannel(keeper, records.channels[id]);
        if c.None? {
          return None;
        }
        got := got[id := MigrateChannel(c.value)];
      }
      forall id | id in records.channels ensures GetChannel(keeper, records, id).Some? {
        assert ListedAs(keeper, records, id, got[id]);
      }
      list := Some(got);
    }

    /** Re-seals every sensitive record under the primary key. Even when it stops half way, everything reads
        as before; after success it also does under any key set that contains the primary key. It succeeds
        if everything can be read and sealed and no write is refused. */
    method MigrateAtRest() returns (ok: bool)
      requires WellKeyed(records)
      modifies this
      ensures WellKeyed(records) && ReadsAsBefore(keeper, old(records), keeper, records)
      ensures ok ==> keeper.Some? && Readable(keeper, old(records)) && refused == old(refused)
      ensures ok ==> ReadableEverywhere(keeper.value, old(records), records) && AllHidden(keeper.value, records)
      ensures keeper.Some? && Usable(keeper.value) ==>
                (ok <==> Readable(keeper, old(records)) && refused == old(refused))
    {
      ok := false;
      if keeper.None? {
        return;
      }
      ghost var k, r0 := keeper.value, records;
      var list := ListChannels();
      if list.None? {
        return;
      }
      ok := ResealChannels(list.value);
      ghost var r1 := records;
      if !ok {
        ReadsCompose(k, r0, r1, r1, r1, k);
        return;
      }
      ok := ResealConfig();
      ghost var r2 := records;
      if !ok {
        ReadsCompose(k, r0, r1, r2, r2, k);
        return;
      }
      ok := ResealProviders();
      ReadsCompose(k, r0, r1, r2, records, k);
      if ok {
        ReadsComposeEverywhere(k, r0, r1, r2, records);
      }
    }

    method ResealChannels(list: map<string, Channel>) returns (ok: bool)
      requires WellKeyed(records) && keeper.Some? && list.Keys == records.channels.Keys
      requires forall id :: id in list ==> ListedAs(keeper, records, id, list[id])
      modifies this
      ensures WellKeyed(records) && records == old(records).(channels := records.channels)
      ensures ChannelsReadAsBefore(keeper, old(records), keeper, records)
      ensures ok ==> ChannelsEverywhere(keeper.value, old(records), records) && ChannelsHidden(keeper.value, records)
      ensures refused >= old(refused)
      ensures ok ==> refused == old(refused)
      ensures CanSeal(keeper) ==> (ok <==> refused == old(refused))
    {
      var todo := list.Keys;
      while todo != {}
        invariant todo <= list.Keys && WellKeyed(records) && refused == old(refused)
        invariant records == old(records).(channels := records.channels) && records.channels.Keys == list.Keys
        invariant Resealed(keeper.value, old(records), records, list, todo)
        decreases todo
      {
        var id :| id in todo;
        ListedId(keeper, old(records), id, list[id]);
        ghost var before := records;
        ok := UpdateChannel(list[id]);
        if !ok {
          ResealedChannelsRead(keeper.value, old(records), records, list, todo, keeper.value);
          return;
        }
        ResealedStep(keeper.value, old(records), before, records, list, todo, id);
        todo := todo - {id};
      }
      ok := true;
      ResealedChannelsAreHidden(keeper.value, old(records), records, list);
      AllResealedChannelsRead(keeper.value, old(records), records, list);
    }

    method ResealConfig() returns (ok: bool)
      requires keeper.Some?
      modifies this
      ensures records == old(records).(server := records.server, defaults := records.defaults)
      ensures ConfigReadsAsBefore(keeper, old(records), keeper, records)
      ensures ok ==> ConfigEverywhere(keeper.value, old(records), records) && ConfigHidden(keeper.value, records)
      ensures refused >= old(refused)
      ensures ok ==> GetGlobalConfig(keeper, old(records)).Some? && refused == old(refused)
      ensures CanSeal(keeper) ==> (ok <==> GetGlobalConfig(keeper, old(records)).Some? && refused == old(refused))
    {
      var cfg := GetGlobalConfig(keeper, records);
      if cfg.None? {
        return false;
      }
      ok := UpdateGlobalConfig(cfg.value);
      if ok {
        SealHides(keeper.value, cfg.value.sessionSecret, records.server.value.sessionSecret);
        SealHides(keeper.value, cfg.value.webhookSecret, records.defaults.value.webhookSecret);
        ConfigResealed(keeper.value, cfg.value, records);
        assert HasPrimaryOf(keeper.value, keeper.value);
      }
    }

    method ResealProviders() returns (ok: bool)
      requires keeper.Some?
      modifies this
      ensures records == old(records).(providers := records.providers)
      ensures ProvidersReadAsBefore(keeper, old(records), keeper, records)
      ensures ok ==> ProvidersEverywhere(keeper.value, old(records), records)
      ensures ok && records.providers.Some? ==> ProvidersHidden(keeper.value, records.providers.value)
      ensures refused >= old(refused)
      ensures ok ==> OidcProviders(keeper, old(records)).Some? && refused == old(refused)
      ensures CanSeal(keeper) ==> (ok <==> OidcProviders(keeper, old(records)).Some? && refused == old(refused))
    {
      var providers := OidcProviders(keeper, records);
      if providers.None? {
        return false;
      }
      ok := true;
      if |providers.value| > 0 {
        ok := SetOidcProviders(providers.value);
        if ok {
          SealedProvidersAreHidden(keeper.value, providers.value, records.providers.value);
          ProvidersResealed(keeper.value, providers.value, records);
          assert HasPrimaryOf(keeper.value, keeper.value);
        }
      } else {
        OpensToNothing(keeper, records);
      }
    }
  }

  predicate CanSeal(k: Option<Keeper>) { k.Some? ==> Usable(k.value) }

  ghost predicate ChannelsReadable(k: Option<Keeper>, r: Records) {
    forall id :: id in r.channels ==> GetChannel(k, r, id).Some?
  }

  ghost predicate Readable(k: Option<Keeper>, r: Records) {
    ChannelsReadable(k, r) && GetGlobalConfig(k, r).Some? && OidcProviders(k, r).Some?
  }

  ghost predicate ListedAs(k: Option<Keeper>, r: Records, id: string, c: Channel) {
    GetChannel(k, r, id).Some? && c == MigrateChannel(GetChannel(k, r, id).value)
  }

  /** The channels outside `todo` have been re-sealed, the others are untouched. */
  ghost predicate Resealed(k: Keeper, r: Records, r': Records, list: map<string, Channel>, todo: set<string>)
    requires list.Keys == r'.channels.Keys
  {
    forall id :: id in list ==>
      if id in todo then Lookup(r'.channels, id) == Lookup(r.channels, id) else ChannelSealOf(Some(k), list[id], r'.channels[id])
  }

  function Lookup(m: map<string, Channel>, id: string): Option<Channel> {
    if id in m then Some(m[id]) else None
  }

  /** Channels already re-sealed read the same under any key set with the primary key. */
  lemma ResealedChannelsRead(k: Keeper, r: Records, r': Records, list: map<string, Channel>, todo: set<string>, other: Keeper)
    requires list.Keys == r.channels.Keys == r'.channels.Keys && HasPrimaryOf(other, k)
    requires todo == {} || other == k
    requires forall id :: id in list ==> ListedAs(Some(k), r, id, list[id])
    requires Resealed(k, r, r', list, todo)
    ensures ChannelsReadAsBefore(Some(k), r, Some(other), r')
  {
    forall id | id in r.channels ensures ChannelReadsAsBefore(Some(k), r, Some(other), r', id) {
      assert ListedAs(Some(k), r, id, list[id]);
      if id !in todo {
        SealedChannelOpens(k, other, list[id], r'.channels[id]);
        MigrateChannelIdempotent(GetChannel(Some(k), r, id).value);
      } else {
        assert Lookup(r'.channels, id) == Lookup(r.channels, id);
      }
    }
  }

  lemma ResealedChannelsAreHidden(k: Keeper, r: Records, r': Records, list: map<string, Channel>)
    requires list.Keys == r'.channels.Keys && Resealed(k, r, r', list, {})
    ensures ChannelsHidden(k, r')
  {
    forall id | id in r'.channels ensures ChannelHidden(k, r'.channels[id]) {
      SealedChannelIsHidden(k, list[id], r'.channels[id]);
    }
  }

  lemma AllResealedChannelsRead(k: Keeper, r: Records, r': Records, list: map<string, Channel>)
    requires list.Keys == r.channels.Keys == r'.channels.Keys
    requires forall id :: id in list ==> ListedAs(Some(k), r, id, list[id])
    requires Resealed(k, r, r', list, {})
    ensures ChannelsEverywhere(k, r, r') && ChannelsReadAsBefore(Some(k), r, Some(k), r')
  {
    forall other | HasPrimaryOf(other, k) ensures ChannelsReadAsBefore(Some(k), r, Some(other), r') {
      ResealedChannelsRead(k, r, r', list, {}, other);
    }
    assert HasPrimaryOf(k, k);
  }

  lemma ListedId(k: Option<Keeper>, r: Records, id: string, c: Channel)
    requires WellKeyed(r) && ListedAs(k, r, id, c)
    ensures c.id == id && id != ""
  {
  }

  lemma ResealedStep(k: Keeper, r: Records, before: Records, after: Records, list: map<string, Channel>,
                     todo: set<string>, id: string)
    requires list.Keys == before.channels.Keys && id in todo && id in list
    requires Resealed(k, r, before, list, todo)
    requires WellKeyed(before) && list[id].id == id
    requires exists t :: ChannelSealOf(Some(k), list[id], t) && after == before.(channels := before.channels[id := t])
    ensures WellKeyed(after)
    ensures list.Keys == after.channels.Keys && Resealed(k, r, after, list, todo - {id})
  {
    var t :| ChannelSealOf(Some(k), list[id], t) && after == before.(channels := before.channels[id := t]);
    forall x | x in list
      ensures if x in todo - {id} then Lookup(after.channels, x) == Lookup(r.channels, x)
              else ChannelSealOf(Some(k), list[x], after.channels[x])
    {
      assert x in todo ==> Lookup(before.channels, x) == Lookup(r.channels, x);
    }
  }

  lemma ConfigResealed(k: Keeper, cfg: GlobalConfig, r': Records)
    requires r'.server.Some? && r'.defaults == r'.server
    requires var t := r'.server.value;
             IsSealOf(Some(k), cfg.sessionSecret, t.sessionSecret) && IsSealOf(Some(k), cfg.webhookSecret, t.webhookSecret)
             && t.serverRest == cfg.serverRest && t.defaultsRest == cfg.defaultsRest
    ensures forall other :: HasPrimaryOf(other, k) ==> GetGlobalConfig(Some(other), r') == Some(cfg)
  {
    forall other | HasPrimaryOf(other, k) ensures GetGlobalConfig(Some(other), r') == Some(cfg) {
      SealOpens(k, other, cfg.sessionSecret, r'.server.value.sessionSecret);
      SealOpens(k, other, cfg.webhookSecret, r'.server.value.webhookSecret);
    }
  }

  lemma ProvidersResealed(k: Keeper, ps: seq<Provider>, r': Records)
    requires r'.providers.Some? && ProvidersSealOf(Some(k), ps, r'.providers.value)
    ensures forall other :: HasPrimaryOf(other, k) ==> OidcProviders(Some(other), r') == Some(ps)
  {
    forall other | HasPrimaryOf(other, k) ensures OidcProviders(Some(other), r') == Some(ps) {
      SealedProvidersOpen(k, other, ps, r'.providers.value);
    }
  }

  lemma OpensToNothing(k: Option<Keeper>, r: Records)
    requires OidcProviders(k, r) == Some([])
    ensures forall other :: OidcProviders(Some(other), r) == Some([])
  {
    assert r.providers.Some? ==> r.providers.value == [];
  }
}
