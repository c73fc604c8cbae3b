/** What an accepted index is, said of its contents alone: every key, record, signature, log entry and
    the checkpoint, without the scan that verifies them. */
module RegistryMeaning {
  import opened MortSyntax
  import opened Registry
  import opened RegistryAdmin

  /** 64 zeros stand for the hash before the first entry. */
  function HashBefore(log: seq<Entry>, i: nat): Hash
    requires i <= |log|
  {
    if i == 0 then "0000000000000000000000000000000000000000000000000000000000000000" else log[i - 1].hash
  }

  predicate KeysGenuine(env: Env, x: Index)
  {
    && (forall id | id in x.publishers :: env.goodKeyId(id) && env.goodKey(x.publishers[id].publicKey))
    && forall id | id in x.publishers && x.publishers[id].revocation.Some? :: env.goodTime(x.publishers[id].revocation.value.at)
  }

  /** A record is signed with the key its publisher has registered, over its own package, version and fields. */
  predicate RecordGenuine(env: Env, x: Index, p: string, v: string)
    requires HasRecord(x, p, v)
  {
    var r := x.packages[p][v];
    && env.goodName(p) && env.goodVersion(v) && env.goodFields(r.fields) && r.fields.keyId in x.publishers
    && r.signature == env.sign(x.publishers[r.fields.keyId].publicKey, RecordPayload(p, v, r.fields))
  }

  /** An event says something that is so, and repeats none of the entries before. */
  predicate EventGenuine(env: Env, x: Index, before: seq<Entry>, event: LogEvent)
  {
    match event
    case AddKey(id, keyHash) =>
      && id in x.publishers && keyHash == env.hash(PublisherIdentity(x.publishers[id].publicKey))
      && !Added(before, id)
    case Publish(p, v, recordHash) =>
      && HasRecord(x, p, v) && recordHash == env.hash(WholeRecord(x.packages[p][v]))
      && !Published(before, p, v) && Added(before, x.packages[p][v].fields.keyId)
    case RevokeKey(id, revocation) =>
      && id in x.publishers && x.publishers[id].revocation == Some(revocation)
      && !Revoked(before, id)
  }

  /** An entry is numbered, and chained to the one before it. */
  predicate EntryGenuine(env: Env, x: Index, log: seq<Entry>, i: nat)
    requires i < |log|
  {
    && log[i].sequence == i && log[i].previous == HashBefore(log, i)
    && log[i].hash == env.hash(EntryPayload(i, HashBefore(log, i), log[i].event))
    && EventGenuine(env, x, log[..i], log[i].event)
  }

  /** Nothing the index holds is missing from the log. */
  predicate EverythingLogged(x: Index)
  {
    && (forall p, v | p in x.packages && v in x.packages[p] :: Published(x.log, p, v))
    && (forall id | id in x.publishers :: Added(x.log, id))
    && (forall id | id in x.publishers && x.publishers[id].revocation.Some? :: Revoked(x.log, id))
  }

  /** A trusted operator has signed the size of the log, its last hash and all publishers. */
  predicate SealGenuine(env: Env, x: Index, trusted: map<string, Key>)
  {
    var root := HashBefore(x.log, |x.log|);
    var publishersHash := env.hash(AllPublishers(x.publishers));
    && x.checkpoint.size == |x.log| && x.checkpoint.root == root && x.checkpoint.publishersHash == publishersHash
    && x.checkpoint.keyId in trusted && env.goodKey(trusted[x.checkpoint.keyId])
    && x.checkpoint.signature ==
       env.sign(trusted[x.checkpoint.keyId], CheckpointPayload(x.checkpoint.keyId, |x.log|, root, publishersHash))
  }

  predicate Genuine(env: Env, x: Index, trusted: map<string, Key>)
  {
    && KeysGenuine(env, x)
    && (forall p | p in x.packages :: env.goodName(p))
    && (forall p, v | p in x.packages && v in x.packages[p] :: RecordGenuine(env, x, p, v))
    && (forall i | 0 <= i < |x.log| :: EntryGenuine(env, x, x.log, i))
    && EverythingLogged(x)
    && SealGenuine(env, x, trusted)
  }

  // ----- the scan -----

  lemma {:induction false} GenuineInFront(env: Env, x: Index, log: seq<Entry>, n: nat, i: nat)
    requires i < n <= |log|
    ensures EntryGenuine(env, x, log[..n], i) <==> EntryGenuine(env, x, log, i)
  {
    assert log[..n][..i] == log[..i];
    assert HashBefore(log[..n], i) == HashBefore(log, i);
  }

  lemma {:induction false} RootIs(log: seq<Entry>)
    ensures Root(log) == HashBefore(log, |log|)
  {
  }

  lemma {:induction false} LastGenuine(env: Env, x: Index, log: seq<Entry>)
    requires log != [] && ScanLog(env, x, log[..|log| - 1]).Some?
    ensures ScanLog(env, x, log).Some? <==> EntryGenuine(env, x, log, |log| - 1)
  {
    var n := |log| - 1;
    var s := ScanLog(env, x, log[..n]).value;
    ScanPrevious(env, x, log[..n]);
    RootIs(log[..n]);
    assert HashBefore(log[..n], n) == HashBefore(log, n);
    hide Published, Added, Revoked;
    match log[n].event
    case AddKey(id, _) => ScanCollects(env, x, log[..n], "", "", id);
    case Publish(p, v, _) => ScanCollects(env, x, log[..n], p, v, if HasRecord(x, p, v) then RecordOf(x, p, v).fields.keyId else "");
    case RevokeKey(id, _) => ScanCollects(env, x, log[..n], "", "", id);
  }

  /** The scan goes through exactly if every entry is genuine. */
  lemma {:induction false} ScanIff(env: Env, x: Index, log: seq<Entry>)
    ensures ScanLog(env, x, log).Some? <==> forall i | 0 <= i < |log| :: EntryGenuine(env, x, log, i)
    decreases |log|
  {
    hide EntryGenuine, EntryOk;
    if log != [] {
      var n := |log| - 1;
      ScanIff(env, x, log[..n]);
      forall i | 0 <= i < n ensures EntryGenuine(env, x, log[..n], i) <==> EntryGenuine(env, x, log, i) {
        GenuineInFront(env, x, log, n, i);
      }
      if ScanLog(env, x, log[..n]).Some? {
        LastGenuine(env, x, log);
      } else {
        var i :| 0 <= i < n && !EntryGenuine(env, x, log[..n], i);
        assert !EntryGenuine(env, x, log, i);
      }
    }
  }

  lemma {:induction false} LoggedExists(env: Env, x: Index, log: seq<Entry>, p: string, v: string, id: string)
    requires forall i | 0 <= i < |log| :: EntryGenuine(env, x, log, i)
    ensures Published(log, p, v) ==> HasRecord(x, p, v)
    ensures Added(log, id) ==> id in x.publishers
    ensures Revoked(log, id) ==> id in x.publishers && x.publishers[id].revocation.Some?
  {
    if i :| 0 <= i < |log| && Publishes(log[i], p, v) { assert EntryGenuine(env, x, log, i); }
    if i :| 0 <= i < |log| && Adds(log[i], id) { assert EntryGenuine(env, x, log, i); }
    if i :| 0 <= i < |log| && Revokes(log[i], id) { assert EntryGenuine(env, x, log, i); }
  }

  lemma {:induction false} CompleteIff(env: Env, x: Index)
    ensures LogComplete(env, x) <==> (forall i | 0 <= i < |x.log| :: EntryGenuine(env, x, x.log, i)) && EverythingLogged(x)
  {
    ScanIff(env, x, x.log);
    if ScanLog(env, x, x.log).Some? {
      var s := ScanLog(env, x, x.log).value;
      forall p, v ensures ((p, v) in s.published <==> Published(x.log, p, v)) && (Published(x.log, p, v) ==> HasRecord(x, p, v)) {
        ScanCollects(env, x, x.log, p, v, "");
        LoggedExists(env, x, x.log, p, v, "");
      }
      forall id
        ensures (id in s.added <==> Added(x.log, id)) && (Added(x.log, id) ==> id in x.publishers)
        ensures (id in s.revoked <==> Revoked(x.log, id)) && (Revoked(x.log, id) ==> id in x.publishers && x.publishers[id].revocation.Some?)
      {
        ScanCollects(env, x, x.log, "", "", id);
        LoggedExists(env, x, x.log, "", "", id);
      }
      hide ScanLog, EntryGenuine, Published, Added, Revoked;
      SetsAgree(x, s);
    }
  }

  /** The collected sets are those of the index if and only if nothing is missing. */
  lemma {:induction false} SetsAgree(x: Index, s: Scan)
    requires forall p, v :: (p, v) in s.published <==> Published(x.log, p, v)
    requires forall id :: (id in s.added <==> Added(x.log, id)) && (id in s.revoked <==> Revoked(x.log, id))
    requires forall p, v :: Published(x.log, p, v) ==> HasRecord(x, p, v)
    requires forall id :: (Added(x.log, id) ==> id in x.publishers) && (Revoked(x.log, id) ==> id in x.publishers && x.publishers[id].revocation.Some?)
    ensures (s.published == RecordKeys(x) && s.added == x.publishers.Keys && s.revoked == RevokedKeys(x)) <==> EverythingLogged(x)
  {
    hide Published, Added, Revoked;
    if EverythingLogged(x) {
      forall k ensures k in s.published <==> k in RecordKeys(x) { var (p, v) := k; }
      assert s.published == RecordKeys(x);
      assert s.added == x.publishers.Keys;
      assert s.revoked == RevokedKeys(x);
    }
    if s.published == RecordKeys(x) && s.added == x.publishers.Keys && s.revoked == RevokedKeys(x) {
      forall p, v | p in x.packages && v in x.packages[p] ensures Published(x.log, p, v) { assert (p, v) in RecordKeys(x); }
      forall id | id in x.publishers ensures Added(x.log, id) { assert id in x.publishers.Keys; }
      forall id | id in x.publishers && x.publishers[id].revocation.Some? ensures Revoked(x.log, id) { assert id in RevokedKeys(x); }
    }
  }

  /** Verification accepts exactly the genuine indexes. */
  lemma {:induction false} AcceptedIffGenuine(env: Env, x: Index, trusted: map<string, Key>)
    ensures Accepted(env, x, trusted) <==> Genuine(env, x, trusted)
  {
    CompleteIff(env, x);
    RootIs(x.log);
    assert CheckpointOk(env, x, trusted) <==> SealGenuine(env, x, trusted);
    assert PublishersOk(env, x) <==> KeysGenuine(env, x) by { KeysIff(env, x); }
    RecordsIff(env, x);
    hide LogComplete, CheckpointOk, SealGenuine, PublishersOk, KeysGenuine, RecordsOk, RecordGenuine, EntryGenuine, EverythingLogged;
  }

  lemma {:induction false} KeysIff(env: Env, x: Index)
    ensures PublishersOk(env, x) <==> KeysGenuine(env, x)
  {
  }

  lemma {:induction false} RecordsIff(env: Env, x: Index)
    ensures RecordsOk(env, x) <==>
      (forall p | p in x.packages :: env.goodName(p)) && (forall p, v | p in x.packages && v in x.packages[p] :: RecordGenuine(env, x, p, v))
  {
    if RecordsOk(env, x) {
      forall p, v | p in x.packages && v in x.packages[p] ensures RecordGenuine(env, x, p, v) {
        assert RecordOk(env, x, p, v, x.packages[p][v]);
      }
    }
    if (forall p | p in x.packages :: env.goodName(p)) && (forall p, v | p in x.packages && v in x.packages[p] :: RecordGenuine(env, x, p, v)) {
      forall p, v | p in x.packages && v in x.packages[p] ensures RecordOk(env, x, p, v, x.packages[p][v]) {
        assert RecordGenuine(env, x, p, v);
      }
    }
  }

  // ----- forgeries -----

  /** Every record of an accepted index is signed with its registered publisher's key over its own
      package, version and fields. */
  lemma {:induction false} RecordsAreSigned(env: Env, x: Index, trusted: map<string, Key>, p: string, v: string)
    requires Accepted(env, x, trusted) && HasRecord(x, p, v)
    ensures var r := x.packages[p][v];
      && r.fields.keyId in x.publishers
      && r.signature == env.sign(x.publishers[r.fields.keyId].publicKey, RecordPayload(p, v, r.fields))
  {
    AcceptedIffGenuine(env, x, trusted);
    assert RecordGenuine(env, x, p, v);
  }

  /** The checkpoint of an accepted index is signed by a trusted operator over its log's size and root
      and over all its publishers. */
  lemma {:induction false} IndexIsSealed(env: Env, x: Index, trusted: map<string, Key>)
    requires Accepted(env, x, trusted)
    ensures x.checkpoint.keyId in trusted
    ensures x.checkpoint.signature == env.sign(trusted[x.checkpoint.keyId],
      CheckpointPayload(x.checkpoint.keyId, |x.log|, HashBefore(x.log, |x.log|), env.hash(AllPublishers(x.publishers))))
  {
    AcceptedIffGenuine(env, x, trusted);
  }

  /** Changing the signature of one record of an accepted index makes it one that is refused. */
  lemma {:induction false} ChangedSignatureRefused(env: Env, x: Index, trusted: map<string, Key>, p: string, v: string, signature: Signature)
    requires Accepted(env, x, trusted) && HasRecord(x, p, v) && signature != x.packages[p][v].signature
    ensures !Accepted(env, x.(packages := x.packages[p := x.packages[p][v := x.packages[p][v].(signature := signature)]]), trusted)
  {
    RecordsAreSigned(env, x, trusted, p, v);
    var y := x.(packages := x.packages[p := x.packages[p][v := x.packages[p][v].(signature := signature)]]);
    assert y.packages[p][v] == x.packages[p][v].(signature := signature);
    hide Accepted;
    if Accepted(env, y, trusted) { RecordsAreSigned(env, y, trusted, p, v); }
  }

  lemma {:induction false} ChangedSealRefused(env: Env, x: Index, trusted: map<string, Key>, signature: Signature)
    requires Accepted(env, x, trusted) && signature != x.checkpoint.signature
    ensures !Accepted(env, x.(checkpoint := x.checkpoint.(signature := signature)), trusted)
  {
    AcceptedIffGenuine(env, x, trusted);
    AcceptedIffGenuine(env, x.(checkpoint := x.checkpoint.(signature := signature)), trusted);
    hide Accepted;
  }

  /** No index is accepted that no trusted operator has sealed. */
  lemma {:induction false} NobodyTrusted(env: Env, x: Index, trusted: map<string, Key>)
    requires x.checkpoint.keyId !in trusted
    ensures !Accepted(env, x, trusted)
  {
    AcceptedIffGenuine(env, x, trusted);
    hide Accepted;
  }

  /** Where hashes do not collide, nothing in an accepted index can be changed without changing its log
      or its publishers: two accepted indexes with the same log and the same publishers hold the same records. */
  lemma {:induction false} ChangedRecordRefused(env: Env, x: Index, y: Index, trustX: map<string, Key>, trustY: map<string, Key>, p: string, v: string)
    requires Injective(env) && Accepted(env, x, trustX) && y.log == x.log && HasRecord(x, p, v)
    requires !HasRecord(y, p, v) || RecordOf(y, p, v) != RecordOf(x, p, v)
    ensures !Accepted(env, y, trustY)
  {
    if Accepted(env, y, trustY) { SameRecord(env, x, y, p, v); }
  }

  // ----- what the commands do -----

  /** One entry more, with this event, and the entries before it unchanged. */
  predicate LogsOne(x: Index, y: Index, event: LogEvent)
  {
    |y.log| == |x.log| + 1 && (forall i | 0 <= i < |x.log| :: y.log[i] == x.log[i]) && y.log[|x.log|].event == event
  }

  ghost predicate SameRecords(x: Index, y: Index)
  {
    && (forall p, v :: HasRecord(x, p, v) <==> HasRecord(y, p, v))
    && (forall p, v | HasRecord(x, p, v) && HasRecord(y, p, v) :: RecordOf(y, p, v) == RecordOf(x, p, v))
  }

  ghost predicate SamePublishersBut(x: Index, y: Index, id: string)
  {
    forall k | k != id :: (k in y.publishers <==> k in x.publishers) && (k in x.publishers ==> y.publishers[k] == x.publishers[k])
  }

  /** Publishing adds this one record, signed by its publisher, and the entry that holds its hash; it is
      refused for a key that is unknown, revoked or not the publisher's, for a version that exists, and
      for ill-formed names. */
  lemma {:induction false} PublishEffect(env: Env, x: Index, p: string, v: string, fields: RecordFields, publisher: Key, keyId: string, operator: Key)
    ensures var y := Execute(env, x, DoPublish(p, v, fields, publisher), keyId, operator);
      if fields.keyId in x.publishers && x.publishers[fields.keyId].publicKey == publisher && x.publishers[fields.keyId].revocation.None?
        && !HasRecord(x, p, v) && env.goodName(p) && env.goodVersion(v) && env.goodFields(fields)
      then
        var r := Record(fields, env.sign(publisher, RecordPayload(p, v, fields)));
        && y.publishers == x.publishers && HasRecord(y, p, v) && RecordOf(y, p, v) == r
        && (forall q, w | (q, w) != (p, v) :: HasRecord(y, q, w) <==> HasRecord(x, q, w))
        && (forall q, w | (q, w) != (p, v) && HasRecord(x, q, w) && HasRecord(y, q, w) :: RecordOf(y, q, w) == RecordOf(x, q, w))
        && LogsOne(x, y, Publish(p, v, env.hash(WholeRecord(r))))
      else y == x
  {
  }

  /** Adding a publisher registers the key, unrevoked, and logs the hash of it. */
  lemma {:induction false} AddEffect(env: Env, x: Index, id: string, publicKey: Key, keyId: string, operator: Key)
    ensures var y := Execute(env, x, DoAdd(id, publicKey), keyId, operator);
      if id !in x.publishers && env.goodKeyId(id) && env.goodKey(publicKey)
      then
        && SameRecords(x, y) && SamePublishersBut(x, y, id)
        && id in y.publishers && y.publishers[id] == Publisher(publicKey, None)
        && LogsOne(x, y, AddKey(id, env.hash(PublisherIdentity(publicKey))))
      else y == x
  {
  }

  /** Revoking marks the key with the time and the reason given, and logs both. */
  lemma {:induction false} RevokeEffect(env: Env, x: Index, id: string, revocation: Revocation, keyId: string, operator: Key)
    ensures var y := Execute(env, x, DoRevoke(id, revocation), keyId, operator);
      if id in x.publishers && x.publishers[id].revocation.None? && env.goodTime(revocation.at)
      then
        && SameRecords(x, y) && SamePublishersBut(x, y, id)
        && id in y.publishers && y.publishers[id] == Publisher(x.publishers[id].publicKey, Some(revocation))
        && LogsOne(x, y, RevokeKey(id, revocation))
      else y == x
  {
  }

  // ----- what a client takes over -----

  predicate Longer(x: Index, y: Index)
  {
    |x.log| <= |y.log| && forall i | 0 <= i < |x.log| :: y.log[i] == x.log[i]
  }

  /** A client moves to the index it fetches exactly if that one is genuine and continues the log of
      the one it has, which must be genuine still; where nothing is fetched it keeps what it has. */
  lemma {:induction false} ClientMovesIff(env: Env, trusted: map<string, Key>, cached: Option<Index>, a: Attempt)
    ensures var r := Loaded(env, trusted, cached, a);
      var intact := cached.None? || Genuine(env, cached.value, trusted);
      if a.fetched.Some? && (a.local || !a.offline)
      then
        if intact && Genuine(env, a.fetched.value, trusted) && (cached.None? || Longer(cached.value, a.fetched.value))
        then r == a.fetched else r == None
      else if intact then r == cached else r == None
  {
    if cached.Some? { AcceptedIffGenuine(env, cached.value, trusted); }
    if a.fetched.Some? { AcceptedIffGenuine(env, a.fetched.value, trusted); }
    hide Accepted, Genuine;
    if cached.Some? && a.fetched.Some? {
      var x, y := cached.value.log, a.fetched.value.log;
      if |x| <= |y| && (forall i | 0 <= i < |x| :: y[i] == x[i]) { assert y[..|x|] == x; }
    }
  }
}
