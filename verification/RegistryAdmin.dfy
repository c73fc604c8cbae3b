/** The offline administration commands as transitions of one registry index: what they change, when
    they are refused, and that every run of them keeps the registry verifiable and its log append-only. */
module RegistryAdmin {
  import opened MortSyntax
  import opened Registry

  // ----- the transitions -----

  /** `_append`: the event becomes the next link of the chain. */
  function Linked(env: Env, log: seq<Entry>, event: LogEvent): Entry
  {
    Entry(|log|, Root(log), event, env.hash(EntryPayload(|log|, Root(log), event)))
  }

  /** `_checkpoint`: signed by the operator. */
  function Sealed(env: Env, x: Index, keyId: string, operator: Key): Checkpoint
  {
    var size, root, publishersHash := |x.log|, Root(x.log), env.hash(AllPublishers(x.publishers));
    Checkpoint(keyId, size, root, publishersHash, env.sign(operator, CheckpointPayload(keyId, size, root, publishersHash)))
  }

  function WithEvent(env: Env, x: Index, event: LogEvent): Index { x.(log := x.log + [Linked(env, x.log, event)]) }

  function AfterAdd(env: Env, x: Index, id: string, publicKey: Key): Index
  {
    WithEvent(env, x.(publishers := x.publishers[id := Publisher(publicKey, None)]),
              AddKey(id, env.hash(PublisherIdentity(publicKey))))
  }

  function Versions(x: Index, package: string): map<string, Record>
  {
    if package in x.packages then x.packages[package] else map[]
  }

  function Signed(env: Env, x: Index, package: string, version: string, fields: RecordFields): Record
    requires fields.keyId in x.publishers
  {
    Record(fields, env.sign(x.publishers[fields.keyId].publicKey, RecordPayload(package, version, fields)))
  }

  function AfterPublish(env: Env, x: Index, package: string, version: string, fields: RecordFields): Index
    requires fields.keyId in x.publishers
  {
    var r := Signed(env, x, package, version, fields);
    WithEvent(env, x.(packages := x.packages[package := Versions(x, package)[version := r]]),
              Publish(package, version, env.hash(WholeRecord(r))))
  }

  function AfterRevoke(env: Env, x: Index, id: string, revocation: Revocation): Index
    requires id in x.publishers
  {
    WithEvent(env, x.(publishers := x.publishers[id := x.publishers[id].(revocation := Some(revocation))]),
              RevokeKey(id, revocation))
  }

  // ----- what an extended index shares with the one before -----

  /** Publishers keep their keys and revocations, records stay as they are. */
  predicate Extends(x: Index, y: Index)
  {
    && (forall id | id in x.publishers ::
         && id in y.publishers && y.publishers[id].publicKey == x.publishers[id].publicKey
         && (x.publishers[id].revocation.Some? ==> y.publishers[id].revocation == x.publishers[id].revocation))
    && (forall p, v | p in x.packages && v in x.packages[p] ::
         p in y.packages && v in y.packages[p] && y.packages[p][v] == x.packages[p][v])
  }

  lemma {:induction false} EventStaysOk(env: Env, x: Index, y: Index, s: Scan, event: LogEvent)
    requires Extends(x, y) && EventOk(env, x, s, event)
    ensures EventOk(env, y, s, event)
  {
    match event
    case AddKey(id, _) =>
    case Publish(p, v, _) => assert p in x.packages && v in x.packages[p];
    case RevokeKey(id, _) =>
  }

  /** A log that scans against an index scans alike against any extension of it. */
  lemma {:induction false} ScanStays(env: Env, x: Index, y: Index, log: seq<Entry>)
    requires Extends(x, y) && ScanLog(env, x, log).Some?
    ensures ScanLog(env, y, log) == ScanLog(env, x, log)
    decreases |log|
  {
    hide Extends, EventOk;
    if log != [] {
      var n := |log| - 1;
      ScanStays(env, x, y, log[..n]);
      EventStaysOk(env, x, y, ScanLog(env, x, log[..n]).value, log[n].event);
    }
  }

  /** Appending a correct event to a scanned log. */
  lemma {:induction false} ScanAppend(env: Env, y: Index, log: seq<Entry>, event: LogEvent)
    requires ScanLog(env, y, log).Some? && EventOk(env, y, ScanLog(env, y, log).value, event)
    ensures var s := ScanLog(env, y, log + [Linked(env, log, event)]);
      s.Some? && s.value == AfterEvent(ScanLog(env, y, log).value, event).(previous := Linked(env, log, event).hash)
  {
    var more := log + [Linked(env, log, event)];
    assert more[..|log|] == log;
    ScanPrevious(env, y, log);
  }

  /** Everything the verifier checks except the checkpoint, which each command renews. */
  predicate BodyOk(env: Env, x: Index) { PublishersOk(env, x) && RecordsOk(env, x) && LogComplete(env, x) }

  lemma {:induction false} ExtendsRefl(x: Index)
    ensures Extends(x, x)
  {
  }

  lemma {:induction false} SealedIsOk(env: Env, x: Index, keyId: string, operator: Key)
    requires env.goodKey(operator)
    ensures var y := x.(checkpoint := Sealed(env, x, keyId, operator)); CheckpointOk(env, y, map[keyId := operator])
  {
  }

  lemma {:induction false} SealKeepsBody(env: Env, x: Index, c: Checkpoint)
    ensures BodyOk(env, x.(checkpoint := c)) <==> BodyOk(env, x)
  {
    var y := x.(checkpoint := c);
    assert Extends(x, y) && Extends(y, x);
    if ScanLog(env, x, x.log).Some? { ScanStays(env, x, y, x.log); }
    if ScanLog(env, y, x.log).Some? { ScanStays(env, y, x, x.log); }
    assert RecordKeys(x) == RecordKeys(y) && RevokedKeys(x) == RevokedKeys(y);
  }

  // ----- each command keeps the body in order, exactly for well-formed arguments -----

  lemma {:induction false} AddKeepsBody(env: Env, x: Index, id: string, publicKey: Key)
    requires BodyOk(env, x) && id !in x.publishers
    ensures BodyOk(env, AfterAdd(env, x, id, publicKey)) <==> env.goodKeyId(id) && env.goodKey(publicKey)
    ensures Extends(x, AfterAdd(env, x, id, publicKey))
  {
    var y := AfterAdd(env, x, id, publicKey);
    assert y.publishers[id] == Publisher(publicKey, None);
    if env.goodKeyId(id) && env.goodKey(publicKey) {
      assert PublishersOk(env, y);
      AddKeepsRecords(env, x, y);
      AddKeepsLog(env, x, id, publicKey);
    } else {
      assert !PublisherOk(env, id, y.publishers[id]);
    }
  }

  lemma {:induction false} AddKeepsRecords(env: Env, x: Index, y: Index)
    requires RecordsOk(env, x) && Extends(x, y) && y.packages == x.packages
    ensures RecordsOk(env, y)
  {
    forall p, v | p in y.packages && v in y.packages[p] ensures RecordOk(env, y, p, v, y.packages[p][v]) {
      assert RecordOk(env, x, p, v, x.packages[p][v]);
    }
  }

  lemma {:induction false} AddKeepsLog(env: Env, x: Index, id: string, publicKey: Key)
    requires LogComplete(env, x) && id !in x.publishers
    ensures LogComplete(env, AfterAdd(env, x, id, publicKey))
  {
    hide ScanLog;
    var y := AfterAdd(env, x, id, publicKey);
    ScanStays(env, x, y, x.log);
    ScanAppend(env, y, x.log, AddKey(id, env.hash(PublisherIdentity(publicKey))));
    assert y.publishers.Keys == x.publishers.Keys + {id};
    assert RecordKeys(y) == RecordKeys(x);
    assert RevokedKeys(y) == RevokedKeys(x);
  }

  lemma {:induction false} PublishKeepsBody(env: Env, x: Index, package: string, version: string, fields: RecordFields)
    requires BodyOk(env, x) && fields.keyId in x.publishers && !HasRecord(x, package, version)
    ensures BodyOk(env, AfterPublish(env, x, package, version, fields)) <==>
      env.goodName(package) && env.goodVersion(version) && env.goodFields(fields)
    ensures Extends(x, AfterPublish(env, x, package, version, fields))
  {
    hide ScanLog;
    var y := AfterPublish(env, x, package, version, fields);
    var r := Signed(env, x, package, version, fields);
    assert y.packages[package][version] == r;
    if env.goodName(package) && env.goodVersion(version) && env.goodFields(fields) {
      forall p, v | p in y.packages && v in y.packages[p] ensures RecordOk(env, y, p, v, y.packages[p][v]) {
        if (p, v) != (package, version) { assert RecordOk(env, x, p, v, x.packages[p][v]); }
      }
      PublishKeepsLog(env, x, package, version, fields);
    } else {
      assert !RecordOk(env, y, package, version, r) || !env.goodName(package);
      assert package in y.packages && version in y.packages[package];
    }
  }

  lemma {:induction false} PublishKeepsLog(env: Env, x: Index, package: string, version: string, fields: RecordFields)
    requires LogComplete(env, x) && fields.keyId in x.publishers && !HasRecord(x, package, version)
    ensures LogComplete(env, AfterPublish(env, x, package, version, fields))
  {
    hide ScanLog;
    var y := AfterPublish(env, x, package, version, fields);
    assert Extends(x, y);
    ScanStays(env, x, y, x.log);
    assert RecordKeys(y) == RecordKeys(x) + {(package, version)} by {
      forall p, v ensures (p, v) in RecordKeys(y) <==> (p, v) in RecordKeys(x) || (p, v) == (package, version) {
        assert (p, v) in RecordKeys(y) <==> p in y.packages && v in y.packages[p];
        assert (p, v) in RecordKeys(x) <==> p in x.packages && v in x.packages[p];
      }
    }
    assert (package, version) !in RecordKeys(x);
    ScanAppend(env, y, x.log, Publish(package, version, env.hash(WholeRecord(RecordOf(y, package, version)))));
    assert RevokedKeys(y) == RevokedKeys(x);
  }

  lemma {:induction false} RevokeKeepsBody(env: Env, x: Index, id: string, revocation: Revocation)
    requires BodyOk(env, x) && id in x.publishers && x.publishers[id].revocation.None?
    ensures BodyOk(env, AfterRevoke(env, x, id, revocation)) <==> env.goodTime(revocation.at)
    ensures Extends(x, AfterRevoke(env, x, id, revocation))
  {
    hide ScanLog;
    var y := AfterRevoke(env, x, id, revocation);
    assert y.publishers[id] == x.publishers[id].(revocation := Some(revocation));
    if env.goodTime(revocation.at) {
      assert PublishersOk(env, y) by {
        forall k | k in y.publishers ensures PublisherOk(env, k, y.publishers[k]) {
          assert PublisherOk(env, k, x.publishers[k]);
        }
      }
      AddKeepsRecords(env, x, y);
      RevokeKeepsLog(env, x, id, revocation);
    } else {
      assert !PublisherOk(env, id, y.publishers[id]);
    }
  }

  lemma {:induction false} RevokeKeepsLog(env: Env, x: Index, id: string, revocation: Revocation)
    requires LogComplete(env, x) && id in x.publishers && x.publishers[id].revocation.None?
    ensures LogComplete(env, AfterRevoke(env, x, id, revocation))
  {
    hide ScanLog;
    var y := AfterRevoke(env, x, id, revocation);
    assert Extends(x, y);
    ScanStays(env, x, y, x.log);
    ScanAppend(env, y, x.log, RevokeKey(id, revocation));
    assert y.publishers.Keys == x.publishers.Keys;
    assert RecordKeys(y) == RecordKeys(x);
    assert RevokedKeys(y) == RevokedKeys(x) + {id};
  }

  // ----- the commands -----

  /** One registry file.  A command that is refused, or whose result does not verify, leaves it alone. */
  class Registrar {
    var index: Index

    /** `initialize`: an empty registry under a fresh operator key. */
    constructor Initialize(env: Env, keyId: string, operator: Key)
      requires env.goodKey(operator)
      ensures Accepted(env, index, map[keyId := operator])
      ensures index.log == [] && index.publishers == map[] && index.packages == map[]
    {
      var empty := Index(map[], map[], [], Checkpoint(keyId, 0, EMPTY_ROOT, "", ""));
      index := empty.(checkpoint := Sealed(env, empty, keyId, operator));
      EmptyIsOk(env, empty);
      SealKeepsBody(env, empty, Sealed(env, empty, keyId, operator));
      SealedIsOk(env, empty, keyId, operator);
    }

    /** `_operator_update`: seal the mutated index, verify it, and only then write it. */
    method OperatorUpdate(env: Env, mutated: Index, keyId: string, operator: Key) returns (ok: bool)
      modifies this
      ensures ok <==> BodyOk(env, mutated) && env.goodKey(operator)
      ensures index == if ok then mutated.(checkpoint := Sealed(env, mutated, keyId, operator)) else old(index)
      ensures ok ==> Accepted(env, index, map[keyId := operator])
    {
      var result := mutated.(checkpoint := Sealed(env, mutated, keyId, operator));
      SealKeepsBody(env, mutated, result.checkpoint);
      if env.goodKey(operator) { SealedIsOk(env, mutated, keyId, operator); }
      ok := VerifyRegistry(env, result, map[keyId := operator]);
      if ok { index := result; }
    }

    /** `add-publisher`. */
    method AddPublisher(env: Env, keyId: string, operator: Key, id: string, publicKey: Key) returns (ok: bool)
      requires BodyOk(env, index)
      modifies this
      ensures ok <==> id !in old(index).publishers && env.goodKeyId(id) && env.goodKey(publicKey) && env.goodKey(operator)
      ensures env.goodKey(operator) ==> index == Execute(env, old(index), DoAdd(id, publicKey), keyId, operator)
      ensures Kept(env, old(index), index, ok, keyId, operator)
    {
      if id in index.publishers { return false; }
      AddKeepsBody(env, index, id, publicKey);
      ok := OperatorUpdate(env, AfterAdd(env, index, id, publicKey), keyId, operator);
    }

    /** `publish`: the publisher's key must be registered, not revoked, and the one it signs with; a
        version is published once. */
    method PublishRecord(env: Env, keyId: string, operator: Key, package: string, version: string, fields: RecordFields, publisher: Key)
      returns (ok: bool)
      requires BodyOk(env, index)
      modifies this
      ensures ok <==>
        && fields.keyId in old(index).publishers && old(index).publishers[fields.keyId] == Publisher(publisher, None)
        && !HasRecord(old(index), package, version)
        && env.goodName(package) && env.goodVersion(version) && env.goodFields(fields) && env.goodKey(operator)
      ensures env.goodKey(operator) ==>
        index == Execute(env, old(index), DoPublish(package, version, fields, publisher), keyId, operator)
      ensures Kept(env, old(index), index, ok, keyId, operator)
    {
      if fields.keyId !in index.publishers || index.publishers[fields.keyId].revocation.Some? { return false; }
      if index.publishers[fields.keyId].publicKey != publisher { return false; }
      if version in Versions(index, package) { return false; }
      PublishKeepsBody(env, index, package, version, fields);
      ok := OperatorUpdate(env, AfterPublish(env, index, package, version, fields), keyId, operator);
    }

    /** `revoke`. */
    method Revoke(env: Env, keyId: string, operator: Key, id: string, revocation: Revocation) returns (ok: bool)
      requires BodyOk(env, index)
      modifies this
      ensures ok <==>
        && id in old(index).publishers && old(index).publishers[id].revocation.None?
        && env.goodTime(revocation.at) && env.goodKey(operator)
      ensures env.goodKey(operator) ==> index == Execute(env, old(index), DoRevoke(id, revocation), keyId, operator)
      ensures Kept(env, old(index), index, ok, keyId, operator)
    {
      if id !in index.publishers || index.publishers[id].revocation.Some? { return false; }
      RevokeKeepsBody(env, index, id, revocation);
      ok := OperatorUpdate(env, AfterRevoke(env, index, id, revocation), keyId, operator);
    }
  }

  /** What every command keeps: the registry verifies under the operator who sealed it, old clients
      accept it as a successor, and nothing already registered or published has changed. */
  predicate Kept(env: Env, x: Index, y: Index, ok: bool, keyId: string, operator: Key)
  {
    && BodyOk(env, y) && AppendOnly(x, y) && Extends(x, y)
    && (if ok then Accepted(env, y, map[keyId := operator]) && |y.log| == |x.log| + 1 else y == x)
  }

  lemma EmptyIsOk(env: Env, x: Index)
    requires x.publishers == map[] && x.packages == map[] && x.log == []
    ensures BodyOk(env, x)
  {
    assert RecordKeys(x) == {} && RevokedKeys(x) == {};
  }

  // ----- every run of commands -----

  datatype Command =
    | DoAdd(id: string, publicKey: Key)
    | DoPublish(package: string, version: string, fields: RecordFields, publisher: Key)
    | DoRevoke(id: string, revocation: Revocation)

  /** The index after a command: unchanged if the command is refused. */
  function Execute(env: Env, x: Index, c: Command, keyId: string, operator: Key): Index
  {
    var mutated := match c
      case DoAdd(id, publicKey) =>
        if id !in x.publishers && env.goodKeyId(id) && env.goodKey(publicKey) then AfterAdd(env, x, id, publicKey) else x
      case DoPublish(p, v, fields, publisher) =>
        if fields.keyId in x.publishers && x.publishers[fields.keyId] == Publisher(publisher, None) && !HasRecord(x, p, v)
           && env.goodName(p) && env.goodVersion(v) && env.goodFields(fields)
        then AfterPublish(env, x, p, v, fields) else x
      case DoRevoke(id, revocation) =>
        if id in x.publishers && x.publishers[id].revocation.None? && env.goodTime(revocation.at)
        then AfterRevoke(env, x, id, revocation) else x;
    if mutated == x then x else mutated.(checkpoint := Sealed(env, mutated, keyId, operator))
  }

  lemma {:induction false} ExecuteKeeps(env: Env, x: Index, c: Command, keyId: string, operator: Key)
    requires BodyOk(env, x) && env.goodKey(operator)
    ensures var y := Execute(env, x, c, keyId, operator);
      && BodyOk(env, y) && AppendOnly(x, y) && Extends(x, y)
      && (y != x ==> Accepted(env, y, map[keyId := operator]))
  {
    hide BodyOk, ScanLog, LogComplete, RecordsOk, PublishersOk;
    ExtendsRefl(x);
    match c
    case DoAdd(id, publicKey) =>
      if id !in x.publishers && env.goodKeyId(id) && env.goodKey(publicKey) {
        AddKeepsBody(env, x, id, publicKey);
        SealAll(env, x, AfterAdd(env, x, id, publicKey), keyId, operator);
      }
    case DoPublish(p, v, fields, publisher) =>
      if fields.keyId in x.publishers && x.publishers[fields.keyId] == Publisher(publisher, None) && !HasRecord(x, p, v)
         && env.goodName(p) && env.goodVersion(v) && env.goodFields(fields) {
        PublishKeepsBody(env, x, p, v, fields);
        SealAll(env, x, AfterPublish(env, x, p, v, fields), keyId, operator);
      }
    case DoRevoke(id, revocation) =>
      if id in x.publishers && x.publishers[id].revocation.None? && env.goodTime(revocation.at) {
        RevokeKeepsBody(env, x, id, revocation);
        SealAll(env, x, AfterRevoke(env, x, id, revocation), keyId, operator);
      }
  }

  lemma {:induction false} SealAll(env: Env, x: Index, mutated: Index, keyId: string, operator: Key)
    requires BodyOk(env, mutated) && Extends(x, mutated) && AppendOnly(x, mutated) && env.goodKey(operator)
    ensures var y := mutated.(checkpoint := Sealed(env, mutated, keyId, operator));
      BodyOk(env, y) && Accepted(env, y, map[keyId := operator]) && Extends(x, y) && AppendOnly(x, y)
  {
    SealKeepsBody(env, mutated, Sealed(env, mutated, keyId, operator));
    SealedIsOk(env, mutated, keyId, operator);
  }

  /** A run: each index comes from the one before by some command of some operator. */
  predicate IsHistory(env: Env, history: seq<Index>, commands: seq<Command>, keyIds: seq<string>, operators: seq<Key>)
  {
    && history != [] && |commands| == |keyIds| == |operators| == |history| - 1
    && forall i | 0 <= i < |commands| ::
         env.goodKey(operators[i]) && history[i + 1] == Execute(env, history[i], commands[i], keyIds[i], operators[i])
  }

  lemma {:induction false} ExtendsTrans(x: Index, y: Index, z: Index)
    requires Extends(x, y) && Extends(y, z)
    ensures Extends(x, z)
  {
    forall p, v | p in x.packages && v in x.packages[p]
      ensures p in z.packages && v in z.packages[p] && z.packages[p][v] == x.packages[p][v] {
      assert p in y.packages && v in y.packages[p];
    }
  }

  /** Every run of commands from a verified registry reaches only indexes whose records, keys and
      revocations are each logged exactly once in a sound chain, and every earlier index is accepted
      as predecessor of every later one, which has all its publishers and records unchanged. */
  lemma {:induction false} HistoryIsAppendOnly(env: Env, history: seq<Index>, commands: seq<Command>, keyIds: seq<string>,
                                               operators: seq<Key>, m: nat, n: nat)
    requires IsHistory(env, history, commands, keyIds, operators) && BodyOk(env, history[0]) && m <= n < |history|
    ensures BodyOk(env, history[n]) && AppendOnly(history[m], history[n]) && Extends(history[m], history[n])
    ensures n > 0 && history[n] != history[n - 1] ==> Accepted(env, history[n], map[keyIds[n - 1] := operators[n - 1]])
    decreases n
  {
    hide BodyOk, Extends, Execute, Accepted;
    ExtendsRefl(history[n]);
    if n > 0 {
      HistoryIsAppendOnly(env, history, commands, keyIds, operators, if m < n then m else 0, n - 1);
      assert history[n - 1 + 1] == Execute(env, history[n - 1], commands[n - 1], keyIds[n - 1], operators[n - 1]);
      ExecuteKeeps(env, history[n - 1], commands[n - 1], keyIds[n - 1], operators[n - 1]);
      if m < n { ExtendsTrans(history[m], history[n - 1], history[n]); }
    }
  }

  /** So in every index of every run each record is logged exactly once, after its key, and where it was
      logged it stays. */
  lemma {:induction false} HistoryLogsOnce(env: Env, history: seq<Index>, commands: seq<Command>, keyIds: seq<string>,
                                           operators: seq<Key>, m: nat, n: nat, p: string, v: string) returns (i: nat, k: nat)
    requires IsHistory(env, history, commands, keyIds, operators) && BodyOk(env, history[0]) && m <= n < |history|
    requires HasRecord(history[m], p, v)
    ensures k < i < |history[m].log| && i < |history[n].log|
    ensures Publishes(history[m].log[i], p, v)
    ensures forall j | 0 <= j < |history[n].log| :: Publishes(history[n].log[j], p, v) <==> j == i
    ensures forall j | 0 <= j < |history[n].log| :: Adds(history[n].log[j], RecordOf(history[m], p, v).fields.keyId) <==> j == k
  {
    hide Execute, Accepted;
    HistoryIsAppendOnly(env, history, commands, keyIds, operators, m, m);
    HistoryIsAppendOnly(env, history, commands, keyIds, operators, m, n);
    i, k := LoggedOnceAfterKey(env, history[m], p, v);
    var i1, k1 := LoggedOnceAfterKey(env, history[n], p, v);
    assert history[n].log[i] == history[m].log[i] && history[n].log[k] == history[m].log[k];
    assert Publishes(history[m].log[i], p, v);
    assert Adds(history[m].log[k], RecordOf(history[m], p, v).fields.keyId);
  }
}
