/**
 * The document-store primitives the ETL service calls: `MarketData.bulkWrite`
 * with `updateOne` upserts (with the automatic `createdAt`/`updatedAt` of
 * `timestamps: true`), and insert and update of `EtlRun` documents.
 */
module DocumentStore {
  import opened Wrappers
  import opened MarketDataModel
  import opened EtlRunModel

  /** A stored market-data document with its automatic timestamps. */
  datatype StoredDoc = StoredDoc(record: MarketRecord, createdAt: int, updatedAt: int)

  /** `{ updateOne: { filter, update: { $set: update }, upsert: true } }`. */
  datatype UpdateOne = UpdateOne(filter: Key, update: MarketRecord)

  /** The two counters of a bulk-write result that the service reads. */
  datatype WriteCounts = WriteCounts(upserted: nat, modified: nat)

  /** An error thrown by a call, with its message and stack trace. */
  datatype JsError = JsError(message: string, stack: string)

  /** The collection is indexed by its unique key: every document sits under its own key. */
  ghost predicate Keyed(docs: map<Key, StoredDoc>) {
    forall k :: k in docs ==> KeyOf(docs[k].record) == k
  }

  /** Each upsert replaces its document with exactly the record it filters on. */
  ghost predicate Consistent(ops: seq<UpdateOne>) {
    forall i :: 0 <= i < |ops| ==> ops[i].filter == KeyOf(ops[i].update)
  }

  /** The documents of the collection without their automatic timestamps. */
  function Records(docs: map<Key, StoredDoc>): (r: map<Key, MarketRecord>)
    ensures r.Keys == docs.Keys
    ensures forall k :: k in r ==> r[k] == docs[k].record
  {
    map k | k in docs :: docs[k].record
  }

  /** A keyed collection satisfies the unique index. */
  lemma KeyedIsUnique(docs: map<Key, StoredDoc>)
    requires Keyed(docs)
    ensures UniqueIndex(set k | k in docs :: docs[k].record)
  {
  }

  /** One upsert at time `now`: `$set` replaces the record and `updatedAt`, or a new document is inserted. */
  function ApplyOne(docs: map<Key, StoredDoc>, op: UpdateOne, now: int): map<Key, StoredDoc> {
    if op.filter in docs then docs[op.filter := StoredDoc(op.update, docs[op.filter].createdAt, now)]
    else docs[op.filter := StoredDoc(op.update, now, now)]
  }

  /** The collection after the upserts of `ops`, applied in order. */
  function Upserted(docs: map<Key, StoredDoc>, ops: seq<UpdateOne>, now: int): map<Key, StoredDoc>
    decreases |ops|
  {
    if ops == [] then docs else ApplyOne(Upserted(docs, ops[..|ops| - 1], now), ops[|ops| - 1], now)
  }

  /** `upsertedCount` and `modifiedCount`: an op upserts when its key is new, and modifies when the matched document changes. */
  function Counts(docs: map<Key, StoredDoc>, ops: seq<UpdateOne>, now: int): WriteCounts
    decreases |ops|
  {
    if ops == [] then WriteCounts(0, 0)
    else
      var before := Upserted(docs, ops[..|ops| - 1], now);
      var c := Counts(docs, ops[..|ops| - 1], now);
      var op := ops[|ops| - 1];
      if op.filter !in before then c.(upserted := c.upserted + 1)
      else if ApplyOne(before, op, now)[op.filter] != before[op.filter] then c.(modified := c.modified + 1)
      else c
  }

  /** The keys a batch filters on. */
  function BatchKeys(ops: seq<UpdateOne>): (ks: set<Key>)
    ensures forall i :: 0 <= i < |ops| ==> ops[i].filter in ks
    ensures forall k :: k in ks ==> exists i :: 0 <= i < |ops| && ops[i].filter == k
  {
    set i | 0 <= i < |ops| :: ops[i].filter
  }

  /** The last record each key of a batch is set to. */
  function BatchRecords(ops: seq<UpdateOne>): map<Key, MarketRecord>
    decreases |ops|
  {
    if ops == [] then map[] else BatchRecords(ops[..|ops| - 1])[ops[|ops| - 1].filter := ops[|ops| - 1].update]
  }

  lemma {:induction false} BatchRecordsKeys(ops: seq<UpdateOne>)
    ensures BatchRecords(ops).Keys == BatchKeys(ops)
    decreases |ops|
  {
    if ops != [] {
      var p := ops[..|ops| - 1];
      BatchRecordsKeys(p);
      assert BatchKeys(ops) == BatchKeys(p) + {ops[|ops| - 1].filter} by {
        forall k | k in BatchKeys(ops) ensures k in BatchKeys(p) + {ops[|ops| - 1].filter} {
          var i :| 0 <= i < |ops| && ops[i].filter == k;
          if i < |ops| - 1 { assert p[i] == ops[i]; }
        }
      }
    }
  }

  /** Each batch key ends up holding the update of the last op in the batch that filters on it. */
  lemma {:induction false} BatchRecordsLast(ops: seq<UpdateOne>, j: nat)
    requires j < |ops|
    requires forall i :: j < i < |ops| ==> ops[i].filter != ops[j].filter
    ensures ops[j].filter in BatchRecords(ops) && BatchRecords(ops)[ops[j].filter] == ops[j].update
    decreases |ops|
  {
    if j < |ops| - 1 {
      var p := ops[..|ops| - 1];
      assert p[j] == ops[j];
      BatchRecordsLast(p, j);
    }
  }

  /** After a batch, the records are the old ones overridden by the batch's last record per key. */
  lemma {:induction false} UpsertedRecords(docs: map<Key, StoredDoc>, ops: seq<UpdateOne>, now: int)
    ensures Records(Upserted(docs, ops, now)) == Records(docs) + BatchRecords(ops)
    decreases |ops|
  {
    if ops != [] {
      UpsertedRecords(docs, ops[..|ops| - 1], now);
    }
  }

  /** Documents whose key the batch does not mention are untouched, timestamps included. */
  lemma {:induction false} UpsertedFrame(docs: map<Key, StoredDoc>, ops: seq<UpdateOne>, now: int, k: Key)
    requires k !in BatchKeys(ops)
    ensures k in Upserted(docs, ops, now) <==> k in docs
    ensures k in docs ==> Upserted(docs, ops, now)[k] == docs[k]
    decreases |ops|
  {
    if ops != [] {
      var p := ops[..|ops| - 1];
      assert forall i :: 0 <= i < |p| ==> p[i] == ops[i];
      UpsertedFrame(docs, p, now, k);
    }
  }

  /** Applying a batch a second time, at any time, leaves the same records as applying it once. */
  lemma UpsertIdempotent(docs: map<Key, StoredDoc>, ops: seq<UpdateOne>, t1: int, t2: int)
    ensures Records(Upserted(Upserted(docs, ops, t1), ops, t2)) == Records(Upserted(docs, ops, t1))
  {
    UpsertedRecords(docs, ops, t1);
    UpsertedRecords(Upserted(docs, ops, t1), ops, t2);
    var r, b := Records(docs), BatchRecords(ops);
    assert (r + b) + b == r + b;
  }

  /** Upserts of consistent ops keep the collection keyed, so the unique index is never violated. */
  lemma {:induction false} UpsertedKeyed(docs: map<Key, StoredDoc>, ops: seq<UpdateOne>, now: int)
    requires Keyed(docs) && Consistent(ops)
    ensures Keyed(Upserted(docs, ops, now))
    decreases |ops|
  {
    if ops != [] {
      var p := ops[..|ops| - 1];
      assert Consistent(p) by {
        forall i | 0 <= i < |p| ensures p[i].filter == KeyOf(p[i].update) { assert p[i] == ops[i]; }
      }
      UpsertedKeyed(docs, p, now);
      assert ops[|ops| - 1].filter == KeyOf(ops[|ops| - 1].update);
    }
  }

  lemma {:induction false} UpsertedKeys(docs: map<Key, StoredDoc>, ops: seq<UpdateOne>, now: int)
    ensures Upserted(docs, ops, now).Keys == docs.Keys + BatchKeys(ops)
  {
    UpsertedRecords(docs, ops, now);
    BatchRecordsKeys(ops);
  }

  lemma AddNewKey<T>(a: set<T>, m: set<T>, k: T)
    requires k !in a && k !in m
    ensures |(a + {k}) - m| == |a - m| + 1
  {
    assert (a + {k}) - m == (a - m) + {k};
  }

  lemma AddKnownKey<T>(a: set<T>, m: set<T>, k: T)
    requires k in a || k in m
    ensures (a + {k}) - m == a - m
  {
  }

  /** `upsertedCount` is the number of distinct batch keys that were not in the collection before. */
  lemma {:induction false} UpsertedCountIsNewKeys(docs: map<Key, StoredDoc>, ops: seq<UpdateOne>, now: int)
    ensures Counts(docs, ops, now).upserted == |BatchKeys(ops) - docs.Keys|
    decreases |ops|
  {
    if ops == [] {
      assert BatchKeys(ops) == {};
    } else {
      var p := ops[..|ops| - 1];
      var k := ops[|ops| - 1].filter;
      var before := Upserted(docs, p, now);
      UpsertedCountIsNewKeys(docs, p, now);
      UpsertedKeys(docs, p, now);
      BatchKeysSnoc(ops);
      var c := Counts(docs, p, now);
      if k !in before {
        assert Counts(docs, ops, now).upserted == c.upserted + 1;
        AddNewKey(BatchKeys(p), docs.Keys, k);
      } else {
        assert Counts(docs, ops, now).upserted == c.upserted;
        AddKnownKey(BatchKeys(p), docs.Keys, k);
      }
    }
  }

  /** Each op counts at most once: rows reported never exceed the ops issued. */
  lemma {:induction false} CountsBound(docs: map<Key, StoredDoc>, ops: seq<UpdateOne>, now: int)
    ensures Counts(docs, ops, now).upserted + Counts(docs, ops, now).modified <= |ops|
    decreases |ops|
  {
    if ops != [] {
      CountsBound(docs, ops[..|ops| - 1], now);
    }
  }

  lemma BatchKeysSnoc(ops: seq<UpdateOne>)
    requires ops != []
    ensures BatchKeys(ops) == BatchKeys(ops[..|ops| - 1]) + {ops[|ops| - 1].filter}
  {
    var p := ops[..|ops| - 1];
    forall k | k in BatchKeys(ops) ensures k in BatchKeys(p) + {ops[|ops| - 1].filter} {
      var i :| 0 <= i < |ops| && ops[i].filter == k;
      if i < |p| {
        assert p[i] == ops[i];
      }
    }
    forall k | k in BatchKeys(p) ensures k in BatchKeys(ops) {
      var i :| 0 <= i < |p| && p[i].filter == k;
      assert ops[i] == p[i];
    }
  }

  lemma {:induction false} DistinctBatchKeys(ops: seq<UpdateOne>)
    requires forall i, j :: 0 <= i < j < |ops| ==> ops[i].filter != ops[j].filter
    ensures |BatchKeys(ops)| == |ops|
    decreases |ops|
  {
    if ops != [] {
      var p := ops[..|ops| - 1];
      var last := ops[|ops| - 1].filter;
      assert forall i, j :: 0 <= i < j < |p| ==> p[i].filter != p[j].filter by {
        forall i, j | 0 <= i < j < |p| ensures p[i].filter != p[j].filter {
          assert p[i] == ops[i] && p[j] == ops[j];
        }
      }
      DistinctBatchKeys(p);
      BatchKeysSnoc(ops);
      forall i | 0 <= i < |p| ensures p[i].filter != last {
        assert p[i] == ops[i];
      }
      assert last !in BatchKeys(p);
    }
  }

  /** A batch of distinct new keys is reported row for row, all of them as upserts. */
  lemma {:induction false} FreshBatchCounts(docs: map<Key, StoredDoc>, ops: seq<UpdateOne>, now: int)
    requires forall i, j :: 0 <= i < j < |ops| ==> ops[i].filter != ops[j].filter
    requires forall i :: 0 <= i < |ops| ==> ops[i].filter !in docs
    ensures Counts(docs, ops, now) == WriteCounts(|ops|, 0)
  {
    UpsertedCountIsNewKeys(docs, ops, now);
    DistinctBatchKeys(ops);
    FreshKeys(docs, ops);
    CountsBound(docs, ops, now);
  }

  lemma {:induction false} FreshKeys(docs: map<Key, StoredDoc>, ops: seq<UpdateOne>)
    requires forall i :: 0 <= i < |ops| ==> ops[i].filter !in docs
    ensures BatchKeys(ops) - docs.Keys == BatchKeys(ops)
  {
    forall k | k in BatchKeys(ops) ensures k !in docs.Keys {
      var i :| 0 <= i < |ops| && ops[i].filter == k;
    }
  }

  /** Re-applying a batch inserts nothing: every one of its keys is already present. */
  lemma ReapplyUpsertsNothing(docs: map<Key, StoredDoc>, ops: seq<UpdateOne>, t1: int, t2: int)
    ensures Counts(Upserted(docs, ops, t1), ops, t2).upserted == 0
  {
    UpsertedKeys(docs, ops, t1);
    UpsertedCountIsNewKeys(Upserted(docs, ops, t1), ops, t2);
    assert BatchKeys(ops) - Upserted(docs, ops, t1).Keys == {};
  }

  /** The `MarketData` collection, indexed by its unique (symbol, timestamp) key. */
  class MarketDataCollection {
    var docs: map<Key, StoredDoc>

    constructor()
      ensures docs == map[]
    {
      docs := map[];
    }

    /**
     * `MarketData.bulkWrite(ops)` at time `now`.  `fault` stands for a store
     * that rejects the call; it then throws before writing anything.
     */
    method BulkWrite(ops: seq<UpdateOne>, now: int, fault: Option<JsError>) returns (r: Result<WriteCounts, JsError>)
      modifies this
      ensures fault.Some? ==> r == Err(fault.value) && docs == old(docs)
      ensures fault.None? ==> r == Ok(Counts(old(docs), ops, now)) && docs == Upserted(old(docs), ops, now)
    {
      if fault.Some? {
        return Err(fault.value);
      }
      var upserted, modified := 0, 0;
      var i := 0;
      while i < |ops|
        invariant 0 <= i <= |ops|
        invariant docs == Upserted(old(docs), ops[..i], now)
        invariant WriteCounts(upserted, modified) == Counts(old(docs), ops[..i], now)
      {
        var op := ops[i];
        assert ops[..i + 1][..i] == ops[..i];
        if op.filter in docs {
          var updated := StoredDoc(op.update, docs[op.filter].createdAt, now);
          if updated != docs[op.filter] {
            modified := modified + 1;
          }
          docs := docs[op.filter := updated];
        } else {
          docs := docs[op.filter := StoredDoc(op.update, now, now)];
          upserted := upserted + 1;
        }
        i := i + 1;
      }
      assert ops[..|ops|] == ops;
      r := Ok(WriteCounts(upserted, modified));
    }
  }

  /** The `EtlRun` collection, indexed by its unique `run_id`. */
  class RunCollection {
    var runs: map<string, EtlRun>

    ghost predicate Valid()
      reads this
    {
      forall id :: id in runs ==> runs[id].run_id == id
    }

    constructor()
      ensures Valid() && runs == map[]
    {
      runs := map[];
    }

    /** Saving a new run: refused when its `run_id` is already taken. */
    method Insert(run: EtlRun) returns (ok: bool)
      requires Valid()
      modifies this
      ensures Valid()
      ensures ok <==> run.run_id !in old(runs)
      ensures runs == if ok then old(runs)[run.run_id := run] else old(runs)
    {
      ok := run.run_id !in runs;
      if ok {
        runs := runs[run.run_id := run];
      }
    }

    /** Saving an existing run again: its document is replaced. */
    method Update(run: EtlRun)
      requires Valid() && run.run_id in runs
      modifies this
      ensures Valid()
      ensures runs == old(runs)[run.run_id := run]
    {
      runs := runs[run.run_id := run];
    }
  }
}
