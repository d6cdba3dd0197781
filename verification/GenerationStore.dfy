/** The cluster generation in the CA Secret and in each node's file (internal/server/raft_generation.go),
    and what a starting node concludes from them (internal/server/server.go). */
module GenerationStore {
  import opened Basics
  import opened Text

  const TWO_64: nat := 0x1_0000_0000_0000_0000

  /** The number a stored text stands for; anything missing or unreadable counts as generation 0. */
  function Read(raw: Option<string>): (Option<nat>) {
    if raw.None? then None else ParseDecimal(raw.value, TWO_64)
  }

  function GenerationOf(raw: Option<string>): nat {
    if Read(raw).Some? then Read(raw).value else 0
  }

  class RaftGenerationStore {
    // None is a missing Secret; Some(None) a Secret without the generation key.
    var secret: Option<Option<string>>

    constructor (initial: Option<Option<string>>)
      ensures secret == initial
    {
      secret := initial;
    }

    ghost function Generation(): nat
      reads this
    {
      if secret.None? then 0 else GenerationOf(secret.value)
    }

    /** `reachable` tells whether the API call succeeds. */
    method ReadGeneration(reachable: bool) returns (gen: nat, ok: bool)
      ensures reachable ==> gen == Generation()
      ensures !reachable ==> gen == 0 && !ok
      ensures ok ==> secret.Some? && Read(secret.value) == Some(gen)
      ensures ok <==> reachable && secret.Some? && Read(secret.value).Some?
    {
      if !reachable || secret.None? {
        return 0, false;
      }
      var raw := secret.value;
      if raw.None? {
        return 0, false;
      }
      var parsed := ParseDecimal(raw.value, TWO_64);
      if parsed.None? {
        return 0, false;
      }
      return parsed.value, true;
    }

    /** Increments a uint64, so the greatest generation wraps to 0. */
    method Bump(reachable: bool) returns (next: Option<nat>)
      modifies this
      ensures next.None? <==> !reachable || old(secret).None?
      ensures next.None? ==> secret == old(secret)
      ensures next.Some? ==> next.value == Generation() == (old(Generation()) + 1) % TWO_64
    {
      if !reachable || secret.None? {
        return None;
      }
      var current := 0;
      if secret.value.Some? {
        var parsed := ParseDecimal(secret.value.value, TWO_64);
        if parsed.Some? {
          current := parsed.value;
        }
      }
      ParsedInRange(secret.value);
      var n := if current + 1 == TWO_64 then 0 else current + 1;
      ParseInvertsDecimal(n, TWO_64);
      secret := Some(Some(Decimal(n)));
      return Some(n);
    }
  }

  lemma ParsedInRange(raw: Option<string>)
    ensures GenerationOf(raw) < TWO_64
  {
  }

  class GenerationFile {
    var content: Option<string>

    constructor ()
      ensures content == None
    {
      content := None;
    }

    method ReadLocal() returns (gen: nat, ok: bool)
      ensures gen == GenerationOf(content) && (ok <==> Read(content).Some?)
    {
      if content.None? {
        return 0, false;
      }
      var parsed := ParseDecimal(content.value, TWO_64);
      if parsed.None? {
        return 0, false;
      }
      return parsed.value, true;
    }

    /** What is written reads back as written. */
    method WriteLocal(gen: nat)
      requires gen < TWO_64
      modifies this
      ensures Read(content) == Some(gen) && GenerationOf(content) == gen
    {
      ParseInvertsDecimal(gen, TWO_64);
      content := Some(Decimal(gen));
    }
  }

  // ---------------------------------------------------------------- the decision at start

  // How a node is started: as ordinal 0 or not, in which recovery mode, and which API calls succeed.
  datatype Start = Start(bootstrapNode: bool, single: bool, flag: bool, readOk: bool, bumpOk: bool)

  // What it concludes: the generation it works under, and whether its Raft state must go.
  datatype Decision = Decision(secret: nat, cluster: nat, wipe: bool)

  predicate Recovers(st: Start) { st.bootstrapNode && (st.single || st.flag) }

  function Decide(secret: nat, file: nat, st: Start): Decision {
    var cluster := if st.readOk then secret else 0;
    if Recovers(st) && st.bumpOk then
      var next := (secret + 1) % TWO_64;
      Decision(next, next, st.flag)
    else
      Decision(secret, cluster, st.flag || (!st.bootstrapNode && cluster > file))
  }

  /** Only a recovering ordinal 0 changes the Secret, and only if the bump succeeds. */
  lemma DecideBumpsIff(secret: nat, file: nat, st: Start)
    requires secret < TWO_64
    ensures var d := Decide(secret, file, st);
            && (d.secret != secret <==> st.bootstrapNode && (st.single || st.flag) && st.bumpOk)
            && (d.secret != secret ==> d.secret == (if secret == TWO_64 - 1 then 0 else secret + 1) && d.cluster == d.secret)
            && (d.secret == secret ==> d.cluster == if st.readOk then secret else 0)
  {
  }

  /** The recovery flag wipes any node; otherwise only a node other than ordinal 0 is wiped, if its file is older
      than a generation that it could read. */
  lemma DecideWipesIff(secret: nat, file: nat, st: Start)
    ensures Decide(secret, file, st).wipe <==> st.flag || (!st.bootstrapNode && st.readOk && file < secret)
  {
  }

  /** The opening of NewServer: read both generations, bump on recovery, and compare. A missing Secret reads as
      generation 0 and cannot be bumped. */
  method DecideAtStart(store: RaftGenerationStore, file: GenerationFile, st: Start) returns (cluster: nat, recoveryMode: bool)
    modifies store
    ensures var d := Decide(old(store.Generation()), GenerationOf(file.content),
                            st.(bumpOk := st.bumpOk && old(store.secret).Some?));
            store.Generation() == d.secret && cluster == d.cluster && recoveryMode == d.wipe
  {
    ghost var was := store.Generation();
    var clusterGeneration, found := store.ReadGeneration(st.readOk);
    var localGeneration, present := file.ReadLocal();
    if st.bootstrapNode && (st.single || st.flag) {
      var next := store.Bump(st.bumpOk);
      if next.Some? {
        clusterGeneration := next.value;
        localGeneration := next.value;
      }
    }
    var stale := !st.bootstrapNode && clusterGeneration > localGeneration;
    cluster, recoveryMode := clusterGeneration, st.flag || stale;
  }

  /** At the greatest uint64 a recovery would reset the generation, and no node would look stale. */
  lemma WrapDefeatsFencing(file: nat)
    requires file < TWO_64
    ensures var d := Decide(TWO_64 - 1, 0, Start(true, true, false, true, true));
            d.secret == 0 && !Decide(d.secret, file, Start(false, false, false, true, true)).wipe
  {
  }
}
