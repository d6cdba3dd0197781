/** Prefix scans over the bucket's cursor, and the listings built on them (internal/repository/bolt.go and
    raft.go). A record is None when it does not decode. */
module PrefixScan {
  import opened Basics
  import opened Text

  /** The bucket's keys as its cursor walks them. */
  ghost predicate CursorOrder<R>(keys: seq<string>, bucket: map<string, Option<R>>) {
    Increasing(keys) && forall k :: k in keys <==> k in bucket
  }

  function WithPrefix(prefix: string): string -> bool {
    s => HasPrefix(s, prefix)
  }

  /** Seeks to the prefix and stops at the first key without it; this finds every key that has it. */
  method ListKeys(keys: seq<string>, prefix: string) returns (found: seq<string>)
    requires Increasing(keys)
    ensures found == Filter(keys, WithPrefix(prefix))
  {
    var has := WithPrefix(prefix);
    var i := 0;
    found := [];
    while i < |keys| && StrLess(keys[i], prefix)
      invariant 0 <= i <= |keys|
      invariant Filter(keys[..i], has) == []
    {
      FilterStep(keys, i, has);
      if HasPrefix(keys[i], prefix) {
        PrefixIsNotAbove(keys[i], prefix);
      }
      i := i + 1;
    }
    ghost var start := i;
    while i < |keys| && HasPrefix(keys[i], prefix)
      invariant start <= i <= |keys|
      invariant found == Filter(keys[..i], has)
      invariant start < |keys| ==> !StrLess(keys[start], prefix)
    {
      FilterStep(keys, i, has);
      found := found + [keys[i]];
      i := i + 1;
    }
    RestHasNoPrefix(keys, prefix, start, i);
    FilterFront(keys, i, has);
  }

  lemma FilterFront(s: seq<string>, i: nat, keep: string -> bool)
    requires i <= |s| && Filter(s[i..], keep) == []
    ensures Filter(s, keep) == Filter(s[..i], keep)
  {
    assert s == s[..i] + s[i..];
    FilterConcat(s[..i], s[i..], keep);
  }

  lemma RestHasNoPrefix(keys: seq<string>, prefix: string, start: nat, i: nat)
    requires Increasing(keys) && start <= i <= |keys|
    requires start < |keys| ==> !StrLess(keys[start], prefix)
    requires i < |keys| ==> !HasPrefix(keys[i], prefix)
    ensures Filter(keys[i..], WithPrefix(prefix)) == []
  {
    if i < |keys| {
      NotBelow(keys, prefix, start, i);
      forall k | k in keys[i..] ensures !HasPrefix(k, prefix) {
        var j :| i <= j < |keys| && keys[j] == k;
        if j > i {
          PrefixRunEnds(prefix, keys[i], keys[j]);
        }
      }
      FilterAllOrNone(keys[i..], WithPrefix(prefix));
    }
  }

  lemma NotBelow(keys: seq<string>, prefix: string, start: nat, i: nat)
    requires Increasing(keys) && start <= i < |keys| && !StrLess(keys[start], prefix)
    ensures !StrLess(keys[i], prefix)
  {
    if i > start && StrLess(keys[i], prefix) {
      LessTransitive(keys[start], keys[i], prefix);
    }
  }

  // ---------------------------------------------------------------- listings

  /** The segment of a key that follows the prefix. */
  function IdOf(key: string, prefix: string): string
    requires HasPrefix(key, prefix)
  {
    FirstPart(key[|prefix|..])
  }

  function RecordKey(prefix: string, id: string): string { prefix + id + "/" }

  lemma IdOfRecordKey(prefix: string, id: string)
    requires '/' !in id
    ensures HasPrefix(RecordKey(prefix, id), prefix) && IdOf(RecordKey(prefix, id), prefix) == id
  {
    assert RecordKey(prefix, id)[|prefix|..] == id + "/" + "";
    assert RecordKey(prefix, id)[..|prefix|] == prefix;
    FirstPartOf(id, "");
  }

  predicate Distinct(ids: seq<string>) {
    forall i, j :: 0 <= i < j < |ids| ==> ids[i] != ids[j]
  }

  /** The IDs a listing ranges over: a plain, unreserved ID whose own record is stored. */
  predicate Listed<R>(bucket: map<string, Option<R>>, prefix: string, reserved: string, id: string) {
    id != "" && '/' !in id && id != reserved && RecordKey(prefix, id) in bucket
  }

  /** Every stored record appears exactly once, and nothing else does. */
  ghost predicate ListsExactly<R>(bucket: map<string, Option<R>>, prefix: string, reserved: string,
                                  ids: seq<string>, records: seq<R>) {
    && |ids| == |records| && Distinct(ids)
    && (forall i :: 0 <= i < |ids| ==>
          Listed(bucket, prefix, reserved, ids[i]) && bucket[RecordKey(prefix, ids[i])] == Some(records[i]))
    && (forall id :: Listed(bucket, prefix, reserved, id) && bucket[RecordKey(prefix, id)].Some? ==> id in ids)
  }

  /** What holds after the first keys: `seen` are the IDs met, `ids` those with a record that decodes. */
  ghost predicate ScanState<R>(bucket: map<string, Option<R>>, prefix: string, reserved: string,
                               met: seq<string>, seen: set<string>, ids: seq<string>, records: seq<R>) {
    && |ids| == |records| && Distinct(ids)
    && (forall k | k in met && HasPrefix(k, prefix) && IdOf(k, prefix) != "" && IdOf(k, prefix) != reserved ::
          IdOf(k, prefix) in seen)
    && (forall i | 0 <= i < |ids| ::
          ids[i] in seen && Listed(bucket, prefix, reserved, ids[i])
          && bucket[RecordKey(prefix, ids[i])] == Some(records[i]))
    && (forall id :: id in seen && Listed(bucket, prefix, reserved, id) && bucket[RecordKey(prefix, id)].Some? ==> id in ids)
  }

  /** One more key: an ID met before is skipped; a new one is listed if its own record is there and decodes. */
  lemma ScanStep<R>(bucket: map<string, Option<R>>, prefix: string, reserved: string, met: seq<string>, key: string,
                    seen: set<string>, ids: seq<string>, records: seq<R>)
    requires HasPrefix(key, prefix) && ScanState(bucket, prefix, reserved, met, seen, ids, records)
    ensures var id := IdOf(key, prefix);
      if id == "" || id == reserved || id in seen then
        ScanState(bucket, prefix, reserved, met + [key], seen, ids, records)
      else if RecordKey(prefix, id) !in bucket || bucket[RecordKey(prefix, id)].None? then
        ScanState(bucket, prefix, reserved, met + [key], seen + {id}, ids, records)
      else
        ScanState(bucket, prefix, reserved, met + [key], seen + {id}, ids + [id],
                  records + [bucket[RecordKey(prefix, id)].value])
  {
  }

  lemma ScanComplete<R>(bucket: map<string, Option<R>>, prefix: string, reserved: string, keys: seq<string>,
                        seen: set<string>, ids: seq<string>, records: seq<R>)
    requires CursorOrder(keys, bucket)
    requires ScanState(bucket, prefix, reserved, Filter(keys, WithPrefix(prefix)), seen, ids, records)
    ensures ListsExactly(bucket, prefix, reserved, ids, records)
  {
    FilterMembers(keys, WithPrefix(prefix));
    forall id | Listed(bucket, prefix, reserved, id) && bucket[RecordKey(prefix, id)].Some? ensures id in ids {
      IdOfRecordKey(prefix, id);
      assert RecordKey(prefix, id) in Filter(keys, WithPrefix(prefix));
    }
  }

  const CHANNELS := "/channels/"
  const USERS := "/users/"
  const BY_USERNAME := "by-username"

  /** ListChannels: an undecodable channel record is an error. */
  method ListChannels<R>(keys: seq<string>, bucket: map<string, Option<R>>)
    returns (channels: Option<seq<R>>)
    requires CursorOrder(keys, bucket)
    ensures channels.Some? ==> exists ids :: ListsExactly(bucket, CHANNELS, "", ids, channels.value)
    ensures channels.None? <==> exists id :: Listed(bucket, CHANNELS, "", id) && bucket[RecordKey(CHANNELS, id)].None?
  {
    var found := ListKeys(keys, CHANNELS);
    FilterMembers(keys, WithPrefix(CHANNELS));
    var list: seq<R>, seen: set<string> := [], {};
    ghost var ids := [];
    for i := 0 to |found|
      invariant ScanState(bucket, CHANNELS, "", found[..i], seen, ids, list)
      invariant forall id :: id in seen && Listed(bucket, CHANNELS, "", id) ==> bucket[RecordKey(CHANNELS, id)].Some?
    {
      assert found[i] in found && found[..i + 1] == found[..i] + [found[i]];
      ScanStep(bucket, CHANNELS, "", found[..i], found[i], seen, ids, list);
      var id := IdOf(found[i], CHANNELS);
      if id == "" || id in seen {
        continue;
      }
      seen := seen + {id};
      if RecordKey(CHANNELS, id) !in bucket {
        continue;
      }
      var record := bucket[RecordKey(CHANNELS, id)];
      if record.None? {
        return None;
      }
      list, ids := list + [record.value], ids + [id];
    }
    assert found[..|found|] == found;
    ScanComplete(bucket, CHANNELS, "", keys, seen, ids, list);
    forall id | Listed(bucket, CHANNELS, "", id) ensures bucket[RecordKey(CHANNELS, id)].Some? {
      IdOfRecordKey(CHANNELS, id);
      assert RecordKey(CHANNELS, id) in found;
    }
    channels := Some(list);
  }

  /** ListUsers: index entries are skipped, and so are undecodable records. */
  method ListUsers<R>(keys: seq<string>, bucket: map<string, Option<R>>) returns (users: seq<R>)
    requires CursorOrder(keys, bucket)
    ensures exists ids :: ListsExactly(bucket, USERS, BY_USERNAME, ids, users)
  {
    var found := ListKeys(keys, USERS);
    FilterMembers(keys, WithPrefix(USERS));
    var seen: set<string> := {};
    users := [];
    ghost var ids := [];
    for i := 0 to |found|
      invariant ScanState(bucket, USERS, BY_USERNAME, found[..i], seen, ids, users)
    {
      assert found[i] in found && found[..i + 1] == found[..i] + [found[i]];
      ScanStep(bucket, USERS, BY_USERNAME, found[..i], found[i], seen, ids, users);
      var id := IdOf(found[i], USERS);
      if id == "" || id == BY_USERNAME || id in seen {
        continue;
      }
      seen := seen + {id};
      if RecordKey(USERS, id) !in bucket || bucket[RecordKey(USERS, id)].None? {
        continue;
      }
      users, ids := users + [bucket[RecordKey(USERS, id)].value], ids + [id];
    }
    assert found[..|found|] == found;
    ScanComplete(bucket, USERS, BY_USERNAME, keys, seen, ids, users);
  }

  /** No other key can stand in for a record: extra keys under the prefix change nothing. */
  lemma ListingIgnoresOtherKeys<R>(bucket: map<string, Option<R>>, more: map<string, Option<R>>, prefix: string,
                                   reserved: string, ids: seq<string>, records: seq<R>)
    requires ListsExactly(bucket, prefix, reserved, ids, records)
    requires forall id :: '/' !in id ==> RecordKey(prefix, id) !in more
    ensures ListsExactly(bucket + more, prefix, reserved, ids, records)
  {
    forall id ensures Listed(bucket + more, prefix, reserved, id) <==> Listed(bucket, prefix, reserved, id) {
    }
  }

  /** Access-list keys under a channel are such keys. */
  lemma AclKeysAreNoRecords(channel: string, entry: string, id: string)
    requires '/' !in id
    ensures CHANNELS + channel + "/acl/" + entry + "/" != RecordKey(CHANNELS, id)
  {
    var acl := CHANNELS + channel + "/acl/" + entry + "/";
    var k := |CHANNELS| + |channel|;
    assert acl[k] == '/' && k < |acl| - 1;
    if |acl| == |RecordKey(CHANNELS, id)| {
      assert RecordKey(CHANNELS, id)[k] == id[k - |CHANNELS|] && id[k - |CHANNELS|] in id;
    }
  }
}
