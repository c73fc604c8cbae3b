/** The authenticated package registry: what a verified index is, the loop that verifies one, and what
    its checkpoint pins down.  Hashing is an injective function, a signature is what the key's
    signing function gives for a message, and field formats are predicates. */
module Registry {
  import opened MortSyntax

  type Hash = string
  type Key = string
  type Signature = string

  datatype Revocation = Revocation(at: string, reason: string)

  datatype Publisher = Publisher(publicKey: Key, revocation: Option<Revocation>)

  datatype RecordFields = RecordFields(git: string, ref: string, commit: string, contentHash: string, publishedAt: string, keyId: string)

  datatype Record = Record(fields: RecordFields, signature: Signature)

  datatype LogEvent =
    | AddKey(keyId: string, keyHash: Hash)
    | Publish(package: string, version: string, recordHash: Hash)
    | RevokeKey(keyId: string, revocation: Revocation)

  datatype Entry = Entry(sequence: int, previous: Hash, event: LogEvent, hash: Hash)

  datatype Checkpoint = Checkpoint(keyId: string, size: int, root: Hash, publishersHash: Hash, signature: Signature)

  datatype Index = Index(
    publishers: map<string, Publisher>,
    packages: map<string, map<string, Record>>,
    log: seq<Entry>,
    checkpoint: Checkpoint)

  /** What is hashed or signed. */
  datatype Document =
    | EntryPayload(sequence: int, previous: Hash, event: LogEvent)
    | WholeRecord(record: Record)
    | RecordPayload(package: string, version: string, fields: RecordFields)
    | PublisherIdentity(publicKey: Key)
    | AllPublishers(publishers: map<string, Publisher>)
    | CheckpointPayload(keyId: string, size: int, root: Hash, publishersHash: Hash)

  datatype Env = Env(
    hash: Document -> Hash,
    sign: (Key, Document) -> Signature,
    goodKeyId: string -> bool,
    goodKey: Key -> bool,
    goodTime: string -> bool,
    goodName: string -> bool,
    goodVersion: string -> bool,
    goodFields: RecordFields -> bool)

  const EMPTY_ROOT: Hash := "0000000000000000000000000000000000000000000000000000000000000000"

  // ----- records -----

  predicate HasRecord(x: Index, package: string, version: string)
  {
    package in x.packages && version in x.packages[package]
  }

  function RecordOf(x: Index, package: string, version: string): Record
    requires HasRecord(x, package, version)
  {
    x.packages[package][version]
  }

  predicate PublisherOk(env: Env, id: string, p: Publisher)
  {
    env.goodKeyId(id) && env.goodKey(p.publicKey) && (p.revocation.Some? ==> env.goodTime(p.revocation.value.at))
  }

  predicate PublishersOk(env: Env, x: Index)
  {
    forall id | id in x.publishers :: PublisherOk(env, id, x.publishers[id])
  }

  predicate RecordOk(env: Env, x: Index, package: string, version: string, r: Record)
  {
    && env.goodVersion(version) && env.goodFields(r.fields)
    && r.fields.keyId in x.publishers
    && r.signature == env.sign(x.publishers[r.fields.keyId].publicKey, RecordPayload(package, version, r.fields))
  }

  predicate RecordsOk(env: Env, x: Index)
  {
    && (forall p | p in x.packages :: env.goodName(p))
    && (forall p, v | p in x.packages && v in x.packages[p] :: RecordOk(env, x, p, v, x.packages[p][v]))
  }

  // ----- the log -----

  /** Where the scan of the log stands. */
  datatype Scan = Scan(previous: Hash, published: set<(string, string)>, added: set<string>, revoked: set<string>)

  const START := Scan(EMPTY_ROOT, {}, {}, {})

  predicate EventOk(env: Env, x: Index, s: Scan, event: LogEvent)
  {
    match event
    case AddKey(id, keyHash) =>
      id in x.publishers && keyHash == env.hash(PublisherIdentity(x.publishers[id].publicKey)) && id !in s.added
    case Publish(p, v, recordHash) =>
      && HasRecord(x, p, v) && recordHash == env.hash(WholeRecord(RecordOf(x, p, v)))
      && (p, v) !in s.published && RecordOf(x, p, v).fields.keyId in s.added
    case RevokeKey(id, revocation) =>
      id in x.publishers && x.publishers[id].revocation == Some(revocation) && id !in s.revoked
  }

  function AfterEvent(s: Scan, event: LogEvent): Scan
  {
    match event
    case AddKey(id, _) => s.(added := s.added + {id})
    case Publish(p, v, _) => s.(published := s.published + {(p, v)})
    case RevokeKey(id, _) => s.(revoked := s.revoked + {id})
  }

  predicate EntryOk(env: Env, x: Index, s: Scan, sequence: int, e: Entry)
  {
    && e.sequence == sequence && e.previous == s.previous
    && e.hash == env.hash(EntryPayload(e.sequence, e.previous, e.event))
    && EventOk(env, x, s, e.event)
  }

  /** The scan after the first n entries, if they are all in order. */
  function ScanLog(env: Env, x: Index, log: seq<Entry>): Option<Scan>
  {
    if log == [] then Some(START)
    else
      var n := |log| - 1;
      var s := ScanLog(env, x, log[..n]);
      if s.Some? && EntryOk(env, x, s.value, n, log[n])
      then Some(AfterEvent(s.value, log[n].event).(previous := log[n].hash))
      else None
  }

  function RecordKeys(x: Index): set<(string, string)>
  {
    set p, v | p in x.packages && v in x.packages[p] :: (p, v)
  }

  function RevokedKeys(x: Index): set<string>
  {
    set id | id in x.publishers && x.publishers[id].revocation.Some?
  }

  /** Records, keys and revocations are each in the log exactly once. */
  predicate LogComplete(env: Env, x: Index)
  {
    var s := ScanLog(env, x, x.log);
    s.Some? && s.value.published == RecordKeys(x) && s.value.added == x.publishers.Keys && s.value.revoked == RevokedKeys(x)
  }

  function Root(log: seq<Entry>): Hash { if log == [] then EMPTY_ROOT else log[|log| - 1].hash }

  predicate CheckpointOk(env: Env, x: Index, trusted: map<string, Key>)
  {
    var c := x.checkpoint;
    && c.size == |x.log| && c.root == Root(x.log) && c.publishersHash == env.hash(AllPublishers(x.publishers))
    && c.keyId in trusted && env.goodKey(trusted[c.keyId])
    && c.signature == env.sign(trusted[c.keyId], CheckpointPayload(c.keyId, c.size, c.root, c.publishersHash))
  }

  /** `verify_registry` accepts the index. */
  predicate Accepted(env: Env, x: Index, trusted: map<string, Key>)
  {
    PublishersOk(env, x) && RecordsOk(env, x) && LogComplete(env, x) && CheckpointOk(env, x, trusted)
  }

  lemma {:induction false} ScanPrevious(env: Env, x: Index, log: seq<Entry>)
    requires ScanLog(env, x, log).Some?
    ensures ScanLog(env, x, log).value.previous == Root(log)
  {
  }

  lemma {:induction false} ScanPrefix(env: Env, x: Index, log: seq<Entry>, n: nat)
    requires ScanLog(env, x, log).Some? && n <= |log|
    ensures ScanLog(env, x, log[..n]).Some?
    decreases |log|
  {
    if n < |log| {
      var front := log[..|log| - 1];
      ScanPrefix(env, x, front, n);
      assert front[..n] == log[..n];
    } else {
      assert log[..n] == log;
    }
  }

  lemma {:induction false} ScanStep(env: Env, x: Index, log: seq<Entry>, n: nat)
    requires n < |log|
    ensures var s := ScanLog(env, x, log[..n]);
      ScanLog(env, x, log[..n + 1]) ==
        if s.Some? && EntryOk(env, x, s.value, n, log[n])
        then Some(AfterEvent(s.value, log[n].event).(previous := log[n].hash)) else None
  {
    assert log[..n + 1][..n] == log[..n];
  }

  /** `verify_registry`: the scan as a loop over the log. */
  method VerifyRegistry(env: Env, x: Index, trusted: map<string, Key>) returns (ok: bool)
    ensures ok <==> Accepted(env, x, trusted)
  {
    hide EntryOk, RecordOk, PublisherOk;
    if !PublishersOk(env, x) || !RecordsOk(env, x) { return false; }
    var previous := EMPTY_ROOT;
    var published: set<(string, string)> := {};
    var added: set<string> := {};
    var revoked: set<string> := {};
    for i := 0 to |x.log|
      invariant ScanLog(env, x, x.log[..i]) == Some(Scan(previous, published, added, revoked))
    {
      var e := x.log[i];
      ScanStep(env, x, x.log, i);
      if !EntryOk(env, x, Scan(previous, published, added, revoked), i, e) {
        Rejected(env, x, i);
        return false;
      }
      match e.event {
        case AddKey(id, _) => added := added + {id};
        case Publish(p, v, _) => published := published + {(p, v)};
        case RevokeKey(id, _) => revoked := revoked + {id};
      }
      previous := e.hash;
    }
    assert x.log[..|x.log|] == x.log;
    ScanPrevious(env, x, x.log);
    ok := published == RecordKeys(x) && added == x.publishers.Keys && revoked == RevokedKeys(x) && CheckpointOk(env, x, trusted);
  }

  lemma {:induction false} Rejected(env: Env, x: Index, i: nat)
    requires i < |x.log| && ScanLog(env, x, x.log[..i + 1]).None?
    ensures !LogComplete(env, x)
  {
    if ScanLog(env, x, x.log).Some? { ScanPrefix(env, x, x.log, i + 1); }
  }

  // ----- what a checkpoint determines -----

  ghost predicate Injective(env: Env)
  {
    forall a, b :: env.hash(a) == env.hash(b) ==> a == b
  }

  lemma {:induction false} ScannedEntry(env: Env, x: Index, log: seq<Entry>)
    requires ScanLog(env, x, log).Some? && log != []
    ensures var n := |log| - 1;
      && ScanLog(env, x, log[..n]).Some?
      && log[n].hash == env.hash(EntryPayload(n, Root(log[..n]), log[n].event))
      && log[n].sequence == n && log[n].previous == Root(log[..n])
  {
    ScanPrevious(env, x, log[..|log| - 1]);
  }

  /** Down the chain: equal roots and sizes mean equal logs. */
  lemma {:induction false} RootDeterminesLog(env: Env, x: Index, y: Index, a: seq<Entry>, b: seq<Entry>)
    requires Injective(env) && ScanLog(env, x, a).Some? && ScanLog(env, y, b).Some?
    requires |a| == |b| && Root(a) == Root(b)
    ensures a == b
    decreases |a|
  {
    hide ScanLog;
    if a != [] {
      var n := |a| - 1;
      ScannedEntry(env, x, a);
      ScannedEntry(env, y, b);
      assert EntryPayload(n, Root(a[..n]), a[n].event) == EntryPayload(n, Root(b[..n]), b[n].event);
      RootDeterminesLog(env, x, y, a[..n], b[..n]);
      assert a == a[..n] + [a[n]] && b == b[..n] + [b[n]];
    }
  }

  /** A published record is the one whose hash the log holds. */
  lemma {:induction false} PublishedRecord(env: Env, x: Index, log: seq<Entry>, p: string, v: string)
    requires ScanLog(env, x, log).Some? && (p, v) in ScanLog(env, x, log).value.published
    ensures HasRecord(x, p, v)
    ensures exists i :: 0 <= i < |log| && log[i].event == Publish(p, v, env.hash(WholeRecord(RecordOf(x, p, v))))
    decreases |log|
  {
    var n := |log| - 1;
    var s := ScanLog(env, x, log[..n]).value;
    if log[n].event.Publish? && log[n].event.package == p && log[n].event.version == v {
      assert log[n].event == Publish(p, v, env.hash(WholeRecord(RecordOf(x, p, v))));
    } else {
      PublishedRecord(env, x, log[..n], p, v);
      var i :| 0 <= i < n && log[..n][i].event == Publish(p, v, env.hash(WholeRecord(RecordOf(x, p, v))));
      assert log[i] == log[..n][i];
    }
  }

  /** A publish entry of an accepted log names the record the index holds. */
  lemma {:induction false} LoggedRecord(env: Env, x: Index, log: seq<Entry>, i: nat)
    requires ScanLog(env, x, log).Some? && i < |log| && log[i].event.Publish?
    ensures var e := log[i].event;
      HasRecord(x, e.package, e.version) && e.recordHash == env.hash(WholeRecord(RecordOf(x, e.package, e.version)))
  {
    ScanPrefix(env, x, log, i + 1);
    ScanStep(env, x, log, i);
  }

  lemma {:induction false} SameRecord(env: Env, x: Index, y: Index, p: string, v: string)
    requires Injective(env) && LogComplete(env, x) && LogComplete(env, y) && x.log == y.log && HasRecord(x, p, v)
    ensures HasRecord(y, p, v) && RecordOf(y, p, v) == RecordOf(x, p, v)
  {
    hide ScanLog;
    assert (p, v) in RecordKeys(x);
    PublishedRecord(env, x, x.log, p, v);
    var i :| 0 <= i < |x.log| && x.log[i].event == Publish(p, v, env.hash(WholeRecord(RecordOf(x, p, v))));
    LoggedRecord(env, y, y.log, i);
  }

  /** Two accepted indexes whose checkpoints agree on log size, log root and publishers hash are the
      same registry: the same log, the same publishers, the same records. */
  lemma {:induction false} CheckpointDeterminesRegistry(env: Env, x: Index, y: Index, trustX: map<string, Key>, trustY: map<string, Key>)
    requires Injective(env) && Accepted(env, x, trustX) && Accepted(env, y, trustY)
    requires x.checkpoint.size == y.checkpoint.size && x.checkpoint.root == y.checkpoint.root
    requires x.checkpoint.publishersHash == y.checkpoint.publishersHash
    ensures x.log == y.log && x.publishers == y.publishers
    ensures forall p, v :: HasRecord(x, p, v) <==> HasRecord(y, p, v)
    ensures forall p, v | HasRecord(x, p, v) && HasRecord(y, p, v) :: RecordOf(x, p, v) == RecordOf(y, p, v)
  {
    hide ScanLog, PublishersOk, RecordsOk;
    RootDeterminesLog(env, x, y, x.log, y.log);
    assert AllPublishers(x.publishers) == AllPublishers(y.publishers);
    forall p, v ensures HasRecord(x, p, v) <==> HasRecord(y, p, v) {
      if HasRecord(x, p, v) { SameRecord(env, x, y, p, v); }
      if HasRecord(y, p, v) { SameRecord(env, y, x, p, v); }
    }
    forall p, v | HasRecord(x, p, v) && HasRecord(y, p, v) ensures RecordOf(x, p, v) == RecordOf(y, p, v) {
      SameRecord(env, x, y, p, v);
    }
  }

  // ----- once each, and keys first -----

  predicate Publishes(e: Entry, p: string, v: string) { e.event.Publish? && e.event.package == p && e.event.version == v }

  predicate Adds(e: Entry, id: string) { e.event.AddKey? && e.event.keyId == id }

  predicate Revokes(e: Entry, id: string) { e.event.RevokeKey? && e.event.keyId == id }

  predicate Published(log: seq<Entry>, p: string, v: string) { exists i :: 0 <= i < |log| && Publishes(log[i], p, v) }

  predicate Added(log: seq<Entry>, id: string) { exists i :: 0 <= i < |log| && Adds(log[i], id) }

  predicate Revoked(log: seq<Entry>, id: string) { exists i :: 0 <= i < |log| && Revokes(log[i], id) }

  lemma {:induction false} LastEntry(log: seq<Entry>, p: string, v: string, id: string)
    requires log != []
    ensures var n := |log| - 1;
      && (Published(log, p, v) <==> Published(log[..n], p, v) || Publishes(log[n], p, v))
      && (Added(log, id) <==> Added(log[..n], id) || Adds(log[n], id))
      && (Revoked(log, id) <==> Revoked(log[..n], id) || Revokes(log[n], id))
  {
    var n := |log| - 1;
    assert forall i | 0 <= i < n :: log[..n][i] == log[i];
    if i :| 0 <= i < |log| && Publishes(log[i], p, v) && i < n { assert Publishes(log[..n][i], p, v); }
    if i :| 0 <= i < |log| && Adds(log[i], id) && i < n { assert Adds(log[..n][i], id); }
    if i :| 0 <= i < |log| && Revokes(log[i], id) && i < n { assert Revokes(log[..n][i], id); }
  }

  /** What the scan has collected is what the entries say. */
  lemma {:induction false} ScanCollects(env: Env, x: Index, log: seq<Entry>, p: string, v: string, id: string)
    requires ScanLog(env, x, log).Some?
    ensures var s := ScanLog(env, x, log).value;
      && ((p, v) in s.published <==> Published(log, p, v))
      && (id in s.added <==> Added(log, id))
      && (id in s.revoked <==> Revoked(log, id))
    decreases |log|
  {
    hide EntryOk, Published, Added, Revoked;
    if log == [] {
      NothingLogged(p, v, id);
    } else {
      ScanCollects(env, x, log[..|log| - 1], p, v, id);
      LastEntry(log, p, v, id);
    }
  }

  lemma {:induction false} NothingLogged(p: string, v: string, id: string)
    ensures !Published([], p, v) && !Added([], id) && !Revoked([], id)
  {
  }

  /** No two entries publish the same record, add the same key or revoke the same key. */
  lemma {:induction false} NothingTwice(env: Env, x: Index, log: seq<Entry>, i: nat, j: nat, p: string, v: string, id: string)
    requires ScanLog(env, x, log).Some? && i < j < |log|
    ensures !(Publishes(log[i], p, v) && Publishes(log[j], p, v))
    ensures !(Adds(log[i], id) && Adds(log[j], id))
    ensures !(Revokes(log[i], id) && Revokes(log[j], id))
  {
    hide ScanLog;
    ScanPrefix(env, x, log, j + 1);
    ScanPrefix(env, x, log, j);
    ScanStep(env, x, log, j);
    ScanCollects(env, x, log[..j], p, v, id);
    assert log[..j][i] == log[i];
  }

  /** In a verified registry every record is published by exactly one log entry, which holds its hash,
      and its key is added by exactly one entry, which comes before. */
  lemma {:induction false} LoggedOnceAfterKey(env: Env, x: Index, p: string, v: string) returns (i: nat, k: nat)
    requires LogComplete(env, x) && HasRecord(x, p, v)
    ensures k < i < |x.log|
    ensures x.log[i].event == Publish(p, v, env.hash(WholeRecord(RecordOf(x, p, v))))
    ensures forall j | 0 <= j < |x.log| :: Publishes(x.log[j], p, v) ==> j == i
    ensures forall j | 0 <= j < |x.log| :: Adds(x.log[j], RecordOf(x, p, v).fields.keyId) <==> j == k
  {
    hide ScanLog;
    var keyId := RecordOf(x, p, v).fields.keyId;
    assert (p, v) in RecordKeys(x);
    PublishedRecord(env, x, x.log, p, v);
    i :| 0 <= i < |x.log| && x.log[i].event == Publish(p, v, env.hash(WholeRecord(RecordOf(x, p, v))));
    ScanPrefix(env, x, x.log, i + 1);
    ScanPrefix(env, x, x.log, i);
    ScanStep(env, x, x.log, i);
    ScanCollects(env, x, x.log[..i], p, v, keyId);
    k :| 0 <= k < i && Adds(x.log[..i][k], keyId);
    assert Adds(x.log[k], keyId);
    forall j | 0 <= j < |x.log| ensures Publishes(x.log[j], p, v) ==> j == i {
      if j < i { NothingTwice(env, x, x.log, j, i, p, v, keyId); }
      if i < j { NothingTwice(env, x, x.log, i, j, p, v, keyId); }
    }
    forall j | 0 <= j < |x.log| ensures Adds(x.log[j], keyId) <==> j == k {
      if j < k { NothingTwice(env, x, x.log, j, k, p, v, keyId); }
      if k < j { NothingTwice(env, x, x.log, k, j, p, v, keyId); }
    }
  }

  // ----- a client's cache -----

  /** `verify_append_only`. */
  predicate AppendOnly(previous: Index, current: Index) { previous.log <= current.log }

  /** One call of the loader: what the source delivers, if it can be reached, and the two switches. */
  datatype Attempt = Attempt(fetched: Option<Index>, offline: bool, local: bool)

  /** What a call returns, from what is cached. */
  function Loaded(env: Env, trusted: map<string, Key>, cached: Option<Index>, a: Attempt): Option<Index>
  {
    if cached.Some? && !Accepted(env, cached.value, trusted) then None
    else if (a.offline && !a.local) || a.fetched.None? then cached
    else if Accepted(env, a.fetched.value, trusted) && (cached.Some? ==> AppendOnly(cached.value, a.fetched.value)) then a.fetched
    else None
  }

  /** What is cached after a call: a call that fails leaves the cache alone. */
  function CacheAfter(env: Env, trusted: map<string, Key>, cached: Option<Index>, a: Attempt): Option<Index>
  {
    var r := Loaded(env, trusted, cached, a);
    if r.Some? then r else cached
  }

  /** A client keeps the last index it accepted; a later one must extend its log. */
  class Client {
    var cached: Option<Index>
    const trusted: map<string, Key>

    constructor (trusted: map<string, Key>)
      ensures this.trusted == trusted && cached == None
    {
      this.trusted, cached := trusted, None;
    }

    /** `_load_registry_index`: `fetched` is what the source delivered, if it did; a cache that no
        longer verifies is an error, as is an index that rewrites or shortens the log. */
    method Load(env: Env, fetched: Option<Index>, offline: bool, local: bool) returns (r: Option<Index>)
      modifies this
      ensures r.Some? ==> Accepted(env, r.value, trusted) && cached == r
      ensures r.None? ==> cached == old(cached)
      ensures old(cached).Some? && r.Some? ==> AppendOnly(old(cached).value, r.value)
      ensures r == Loaded(env, trusted, old(cached), Attempt(fetched, offline, local))
      ensures cached == CacheAfter(env, trusted, old(cached), Attempt(fetched, offline, local))
    {
      if cached.Some? {
        var good := VerifyRegistry(env, cached.value, trusted);
        if !good { return None; }
      }
      if (!offline || local) && fetched.Some? {
        var ok := VerifyRegistry(env, fetched.value, trusted);
        if !ok { return None; }
        if cached.Some? && !(cached.value.log <= fetched.value.log) { return None; }
        cached := fetched;
        return fetched;
      }
      r := cached;
    }
  }

  /** What a client has cached before and after each of its calls. */
  predicate IsCacheHistory(env: Env, trusted: map<string, Key>, caches: seq<Option<Index>>, calls: seq<Attempt>)
  {
    && |caches| == |calls| + 1
    && forall n | 0 <= n < |calls| :: caches[n + 1] == CacheAfter(env, trusted, caches[n], calls[n])
  }

  /** Over any run of calls, failing and offline ones included and from whatever was cached before:
      the cached logs form a chain of prefixes, a cache is never lost, and a cache that has changed or
      been returned verifies. */
  lemma {:induction false} CachedLogsFormChain(env: Env, trusted: map<string, Key>, caches: seq<Option<Index>>, calls: seq<Attempt>, i: nat, j: nat)
    requires IsCacheHistory(env, trusted, caches, calls) && i <= j < |caches|
    ensures caches[i].Some? ==> caches[j].Some? && caches[i].value.log <= caches[j].value.log
    ensures caches[j] != caches[i] ==> caches[j].Some? && Accepted(env, caches[j].value, trusted)
    decreases j
  {
    hide Accepted;
    if i < j {
      CachedLogsFormChain(env, trusted, caches, calls, i, j - 1);
      assert caches[j - 1 + 1] == CacheAfter(env, trusted, caches[j - 1], calls[j - 1]);
    }
  }

  /** A client whose cache once fails to verify never advances again. */
  lemma {:induction false} BadCacheStays(env: Env, trusted: map<string, Key>, caches: seq<Option<Index>>, calls: seq<Attempt>, i: nat, j: nat)
    requires IsCacheHistory(env, trusted, caches, calls) && i <= j < |caches|
    requires caches[i].Some? && !Accepted(env, caches[i].value, trusted)
    ensures caches[j] == caches[i]
    decreases j
  {
    hide Accepted;
    if i < j {
      BadCacheStays(env, trusted, caches, calls, i, j - 1);
      assert caches[j - 1 + 1] == CacheAfter(env, trusted, caches[j - 1], calls[j - 1]);
    }
  }
}
