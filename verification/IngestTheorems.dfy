// What the ingestion tables keep over any run of ingests, deletions and dataset versions.
module IngestTheorems {
  import opened Basics
  import opened Ingest

  // -- the invariant --------------------------------------------------------------------------------

  ghost predicate BatchOk(db: Db, i: nat)
    requires i < |db.batches|
  {
    var b := db.batches[i];
    && b.receipt < |db.receipts|
    && db.receipts[b.receipt] == Receipt(b.tenant, b.batchId, b.digest, b.count)
    && RowsOf(db.records, i) == b.count
  }

  // A record row belongs to a batch of its tenant and is deleted exactly when the batch is.
  ghost predicate RecordOk(db: Db, i: nat)
    requires i < |db.records|
  {
    var r := db.records[i];
    r.batch < |db.batches| && r.tenant == db.batches[r.batch].tenant && r.deleted == db.batches[r.batch].deleted
  }

  // A member that is not excluded comes from a training record that is not deleted, of the tenant
  // that owns the dataset.
  ghost predicate MemberOk(db: Db, i: nat)
    requires i < |db.members|
  {
    var m := db.members[i];
    && m.version < |db.versions| && db.versions[m.version].dataset < |db.datasets|
    && m.source < |db.records|
    && var r := db.records[m.source];
       && r.recordId == m.recordId
       && r.category == Some("training")
       && r.tenant == db.datasets[db.versions[m.version].dataset].tenant
       && (!m.excluded ==> !r.deleted)
  }

  ghost predicate OneBatchPerKey(bs: seq<Batch>) {
    forall i, j :: 0 <= i < j < |bs| ==> bs[i].tenant != bs[j].tenant || bs[i].key != bs[j].key
  }

  ghost predicate Inv(db: Db) {
    && OneBatchPerKey(db.batches)
    && (forall i {:trigger BatchOk(db, i)} :: 0 <= i < |db.batches| ==> BatchOk(db, i))
    && (forall i {:trigger RecordOk(db, i)} :: 0 <= i < |db.records| ==> RecordOk(db, i))
    && (forall i {:trigger MemberOk(db, i)} :: 0 <= i < |db.members| ==> MemberOk(db, i))
  }

  lemma {:induction false} RowsOfConcat(a: seq<Record>, b: seq<Record>, pk: nat)
    ensures RowsOf(a + b, pk) == RowsOf(a, pk) + RowsOf(b, pk)
  {
    if b == [] {
      assert a + b == a;
    } else {
      assert (a + b)[..|a + b| - 1] == a + b[..|b| - 1];
      RowsOfConcat(a, b[..|b| - 1], pk);
    }
  }

  lemma {:induction false} RowsOfAll(rs: seq<Record>, batch: nat, pk: nat)
    requires forall i :: 0 <= i < |rs| ==> rs[i].batch == batch
    ensures RowsOf(rs, pk) == if pk == batch then |rs| else 0
  {
    if rs != [] {
      RowsOfAll(rs[..|rs| - 1], batch, pk);
    }
  }

  lemma {:induction false} RowsOfNone(rs: seq<Record>, pk: nat)
    requires forall i :: 0 <= i < |rs| ==> rs[i].batch != pk
    ensures RowsOf(rs, pk) == 0
  {
    if rs != [] {
      RowsOfNone(rs[..|rs| - 1], pk);
    }
  }

  lemma {:induction false} RowsOfMarked(rs: seq<Record>, pk: nat, q: nat)
    ensures RowsOf(MarkDeleted(rs, q), pk) == RowsOf(rs, pk)
  {
    if rs != [] {
      assert MarkDeleted(rs, q)[..|rs| - 1] == MarkDeleted(rs[..|rs| - 1], q);
      RowsOfMarked(rs[..|rs| - 1], pk, q);
    }
  }

  lemma StoreKeeps(env: Env, db: Db, tenant: Id, node: Id, key: string, body: Bytes, b: Bundle, newId: Id)
    requires Inv(db) && AllValid(b.records)
    requires forall i :: 0 <= i < |db.batches| ==> !HasKey(db.batches[i], tenant, key)
    ensures Inv(Store(env, db, tenant, node, key, body, b, newId))
  {
    var r := Store(env, db, tenant, node, key, body, b, newId);
    var pk, rows := |db.batches|, RowsFor(|db.batches|, tenant, b.records);
    forall i | 0 <= i < |r.batches| ensures BatchOk(r, i) {
      RowsOfConcat(db.records, rows, i);
      RowsOfAll(rows, pk, i);
      if i < pk {
        assert BatchOk(db, i);
      } else {
        forall j | 0 <= j < |db.records| ensures db.records[j].batch != pk {
          assert RecordOk(db, j);
        }
        RowsOfNone(db.records, pk);
      }
    }
    forall i | 0 <= i < |r.records| ensures RecordOk(r, i) {
      if i < |db.records| {
        assert RecordOk(db, i);
      }
    }
    forall i | 0 <= i < |r.members| ensures MemberOk(r, i) {
      assert MemberOk(db, i);
    }
    forall i, j | 0 <= i < j < |r.batches|
      ensures r.batches[i].tenant != r.batches[j].tenant || r.batches[i].key != r.batches[j].key
    {
      if j == pk {
        assert !HasKey(db.batches[i], tenant, key);
      }
    }
  }

  // Tables that differ only in their logs are equally consistent.
  lemma LogsDoNotMatter(db: Db, r: Db)
    requires Inv(db)
    requires r.batches == db.batches && r.records == db.records && r.receipts == db.receipts
      && r.datasets == db.datasets && r.versions == db.versions && r.members == db.members
    ensures Inv(r)
  {
    forall i | 0 <= i < |r.batches| ensures BatchOk(r, i) { assert BatchOk(db, i); }
    forall i | 0 <= i < |r.records| ensures RecordOk(r, i) { assert RecordOk(db, i); }
    forall i | 0 <= i < |r.members| ensures MemberOk(r, i) { assert MemberOk(db, i); }
  }

  lemma IngestKeeps(env: Env, db: Db, tenant: Id, node: Id, key: string, body: Bytes, newId: Id)
    requires Inv(db)
    ensures Inv(IngestBatch(env, db, tenant, node, key, body, newId).0)
  {
    var (r, res) := IngestBatch(env, db, tenant, node, key, body, newId);
    if r.batches == db.batches {
      LogsDoNotMatter(db, r);
    } else {
      StoreKeeps(env, db, tenant, node, key, body, env.open(body).value, newId);
    }
  }

  lemma DeleteKeeps(db: Db, tenant: Id, scope: string, target: Option<Id>, pk: Option<nat>)
    requires Inv(db) && Picks(db, tenant, scope, target, pk)
    ensures Inv(DeleteBatch(db, tenant, scope, target, pk))
  {
    var r := DeleteBatch(db, tenant, scope, target, pk);
    if pk.None? {
      LogsDoNotMatter(db, r);
    } else {
      forall i | 0 <= i < |r.batches| ensures BatchOk(r, i) {
        assert BatchOk(db, i);
        RowsOfMarked(db.records, i, pk.value);
      }
      forall i | 0 <= i < |r.records| ensures RecordOk(r, i) {
        assert RecordOk(db, i);
      }
      forall i | 0 <= i < |r.members| ensures MemberOk(r, i) {
        assert MemberOk(db, i);
        var s := db.members[i].source;
        assert RecordOk(db, s);
        if db.records[s].batch == pk.value {
          assert db.records[s] in db.records;
        }
      }
    }
  }

  lemma CreateVersionKeeps(db: Db, tenant: Id, dataset: nat)
    requires Inv(db)
    ensures Inv(CreateVersion(db, tenant, dataset).0)
  {
    var r := CreateVersion(db, tenant, dataset).0;
    forall i | 0 <= i < |r.batches| ensures BatchOk(r, i) { assert BatchOk(db, i); }
    forall i | 0 <= i < |r.records| ensures RecordOk(r, i) { assert RecordOk(db, i); }
    var ms := MembersFor(db.records, tenant, |db.versions|);
    forall i | 0 <= i < |r.members| ensures MemberOk(r, i) {
      if i < |db.members| {
        assert MemberOk(db, i);
      } else {
        assert ms[i - |db.members|] in ms;
      }
    }
  }

  lemma CreateDatasetKeeps(db: Db, tenant: Id, name: string)
    requires Inv(db)
    ensures Inv(CreateDataset(db, tenant, name))
  {
    var r := CreateDataset(db, tenant, name);
    forall i | 0 <= i < |r.batches| ensures BatchOk(r, i) { assert BatchOk(db, i); }
    forall i | 0 <= i < |r.records| ensures RecordOk(r, i) { assert RecordOk(db, i); }
    forall i | 0 <= i < |r.members| ensures MemberOk(r, i) { assert MemberOk(db, i); }
  }

  // -- runs -------------------------------------------------------------------------------------------

  datatype Op =
    | DoIngest(tenant: Id, node: Id, key: string, body: Bytes, newId: Id)
    | DoDelete(tenant: Id, scope: string, target: Option<Id>, pick: Option<nat>)
    | DoDataset(tenant: Id, name: string)
    | DoVersion(tenant: Id, dataset: nat)

  ghost predicate Possible(db: Db, op: Op) {
    op.DoDelete? ==> Picks(db, op.tenant, op.scope, op.target, op.pick)
  }

  ghost function Step(env: Env, db: Db, op: Op): Db
    requires Possible(db, op)
  {
    match op
    case DoIngest(t, n, k, b, f) => IngestBatch(env, db, t, n, k, b, f).0
    case DoDelete(t, s, x, p) => DeleteBatch(db, t, s, x, p)
    case DoDataset(t, n) => CreateDataset(db, t, n)
    case DoVersion(t, d) => CreateVersion(db, t, d).0
  }

  // states[i + 1] is what the i-th operation makes of states[i].
  ghost predicate IsRun(env: Env, states: seq<Db>, ops: seq<Op>) {
    && |states| == |ops| + 1 && states[0] == EMPTY
    && forall i {:trigger Possible(states[i], ops[i])} :: 0 <= i < |ops| ==>
         Possible(states[i], ops[i]) && states[i + 1] == Step(env, states[i], ops[i])
  }

  lemma {:induction false} RunKeeps(env: Env, states: seq<Db>, ops: seq<Op>, n: nat)
    requires IsRun(env, states, ops) && n < |states|
    ensures Inv(states[n])
  {
    if n > 0 {
      RunKeeps(env, states, ops, n - 1);
      var db := states[n - 1];
      assert Possible(db, ops[n - 1]);
      match ops[n - 1]
      case DoIngest(t, nd, k, b, f) => IngestKeeps(env, db, t, nd, k, b, f);
      case DoDelete(t, s, x, p) => DeleteKeeps(db, t, s, x, p);
      case DoDataset(t, nm) => CreateDatasetKeeps(db, t, nm);
      case DoVersion(t, d) => CreateVersionKeeps(db, t, d);
    }
  }

  // At any point of any run: one batch per tenant and idempotency key; every batch has as many record
  // rows as its receipt says; and a dataset member that is not excluded comes from a training record,
  // of the dataset's tenant, that is not deleted.
  lemma TablesAgree(env: Env, states: seq<Db>, ops: seq<Op>, n: nat)
    requires IsRun(env, states, ops) && n < |states|
    ensures var db := states[n];
      && OneBatchPerKey(db.batches)
      && (forall i :: 0 <= i < |db.batches| ==>
            db.batches[i].receipt < |db.receipts| && RowsOf(db.records, i) == db.receipts[db.batches[i].receipt].count)
      && (forall i :: 0 <= i < |db.members| && !db.members[i].excluded ==>
            && db.members[i].version < |db.versions| && db.versions[db.members[i].version].dataset < |db.datasets|
            && db.members[i].source < |db.records|
            && var r := db.records[db.members[i].source];
               && r.recordId == db.members[i].recordId && r.category == Some("training") && !r.deleted
               && r.tenant == db.datasets[db.versions[db.members[i].version].dataset].tenant)
  {
    var db := states[n];
    RunKeeps(env, states, ops, n);
    forall i | 0 <= i < |db.batches|
      ensures db.batches[i].receipt < |db.receipts| && RowsOf(db.records, i) == db.receipts[db.batches[i].receipt].count
    {
      assert BatchOk(db, i);
    }
    forall i | 0 <= i < |db.members| && !db.members[i].excluded ensures MemberOk(db, i) {
      assert MemberOk(db, i);
    }
  }

  // What a batch was received with never changes again.
  ghost predicate SameBatch(a: Batch, b: Batch) { b == a.(deleted := b.deleted) }

  lemma {:induction false} BatchesStay(env: Env, states: seq<Db>, ops: seq<Op>, m: nat, n: nat, pk: nat)
    requires IsRun(env, states, ops) && m <= n < |states| && pk < |states[m].batches|
    ensures pk < |states[n].batches| && SameBatch(states[m].batches[pk], states[n].batches[pk])
  {
    if m < n {
      BatchesStay(env, states, ops, m, n - 1, pk);
      assert Possible(states[n - 1], ops[n - 1]);
      StepKeepsBatch(env, states[n - 1], ops[n - 1], pk);
    }
  }

  lemma StepKeepsBatch(env: Env, db: Db, op: Op, pk: nat)
    requires Possible(db, op) && pk < |db.batches|
    ensures pk < |Step(env, db, op).batches| && SameBatch(db.batches[pk], Step(env, db, op).batches[pk])
  {
  }

  // A retry with the same key is answered with the first receipt and changes nothing, whatever
  // happened in between and whatever bundle it carries, as long as it is not oversized.
  lemma RetryGetsFirstReceipt(env: Env, states: seq<Db>, ops: seq<Op>, m: nat, n: nat, tenant: Id, node: Id,
                              key: string, body: Bytes, newId: Id, node2: Id, body2: Bytes, newId2: Id)
    requires IsRun(env, states, ops) && m < n < |states|
    requires ops[m] == DoIngest(tenant, node, key, body, newId)
    requires IngestBatch(env, states[m], tenant, node, key, body, newId).1.Ok?
    requires |body2| <= env.maxBytes
    ensures IngestBatch(env, states[n], tenant, node2, key, body2, newId2)
      == (states[n], IngestBatch(env, states[m], tenant, node, key, body, newId).1)
  {
    var (r, res) := IngestBatch(env, states[m], tenant, node, key, body, newId);
    assert Possible(states[m], ops[m]);
    assert states[m + 1] == r;
    var known := FindKey(states[m].batches, tenant, key);
    var pk := if known.Some? then known.value else |states[m].batches|;
    assert HasKey(r.batches[pk], tenant, key) && res.value == ReplyOf(r.batches[pk]);
    BatchesStay(env, states, ops, m + 1, n, pk);
    RunKeeps(env, states, ops, n);
    var found := FindKey(states[n].batches, tenant, key);
    assert HasKey(states[n].batches[pk], tenant, key);
    assert found.Some? && found.value == pk;
  }

  // Versions of a dataset are numbered 1, 2, 3, ... in the order they are made.
  ghost predicate Numbered(vs: seq<Version>) {
    forall i :: 0 <= i < |vs| ==> vs[i].number == 1 + VersionsOf(vs[..i], vs[i].dataset)
  }

  ghost function VersionsOf(vs: seq<Version>, dataset: nat): nat {
    if vs == [] then 0 else VersionsOf(vs[..|vs| - 1], dataset) + (if vs[|vs| - 1].dataset == dataset then 1 else 0)
  }

  lemma {:induction false} MaxIsCount(vs: seq<Version>, dataset: nat)
    requires Numbered(vs)
    ensures MaxVersion(vs, dataset) == VersionsOf(vs, dataset)
  {
    if vs != [] {
      var rest := vs[..|vs| - 1];
      forall i | 0 <= i < |rest| ensures rest[i].number == 1 + VersionsOf(rest[..i], rest[i].dataset) {
        assert rest[..i] == vs[..i];
      }
      MaxIsCount(rest, dataset);
    }
  }

  lemma {:induction false} VersionsAreNumbered(env: Env, states: seq<Db>, ops: seq<Op>, n: nat)
    requires IsRun(env, states, ops) && n < |states|
    ensures Numbered(states[n].versions)
  {
    if n > 0 {
      VersionsAreNumbered(env, states, ops, n - 1);
      var db, r := states[n - 1], states[n];
      assert Possible(db, ops[n - 1]);
      match ops[n - 1]
      case DoVersion(t, d) => NextVersionIsNumbered(db, t, d);
      case _ => assert r.versions == db.versions;
    }
  }

  lemma NextVersionIsNumbered(db: Db, tenant: Id, dataset: nat)
    requires Numbered(db.versions)
    ensures Numbered(CreateVersion(db, tenant, dataset).0.versions)
  {
    var vs, us := db.versions, CreateVersion(db, tenant, dataset).0.versions;
    if us != vs {
      MaxIsCount(vs, dataset);
      forall i | 0 <= i < |us| ensures us[i].number == 1 + VersionsOf(us[..i], us[i].dataset) {
        assert us[..i] == vs[..i];
        if i == |vs| {
          assert vs[..i] == vs;
        }
      }
    }
  }

  // -- how far a deletion reaches -------------------------------------------------------------------

  // The record row k carries the id and its batch, of whatever tenant, the batch id.
  ghost predicate Carries(db: Db, k: int, recordId: Id, batchId: Id) {
    && 0 <= k < |db.records| && db.records[k].recordId == recordId
    && db.records[k].batch < |db.batches| && db.batches[db.records[k].batch].batchId == batchId
  }

  // A deletion excludes a member exactly when the member's record id occurs in some batch, of any
  // tenant, with the deleted batch's id; and it deletes exactly the rows of the batch it picked.
  lemma DeletionReach(db: Db, tenant: Id, scope: string, target: Option<Id>, pk: nat, i: nat, j: nat)
    requires Picks(db, tenant, scope, target, Some(pk)) && i < |db.members| && j < |db.records|
    ensures var r := DeleteBatch(db, tenant, scope, target, Some(pk));
      && (r.members[i].excluded <==>
            (db.members[i].excluded || exists k :: Carries(db, k, db.members[i].recordId, db.batches[pk].batchId)))
      && (r.records[j].deleted <==> db.records[j].deleted || db.records[j].batch == pk)
  {
    var id, batchId := db.members[i].recordId, db.batches[pk].batchId;
    if id in IdsUnder(db, batchId) {
      var r :| r in db.records && r.batch < |db.batches| && db.batches[r.batch].batchId == batchId && r.recordId == id;
      var k :| 0 <= k < |db.records| && db.records[k] == r;
      assert Carries(db, k, id, batchId);
    }
    if exists k :: Carries(db, k, id, batchId) {
      var k :| Carries(db, k, id, batchId);
      assert db.records[k] in db.records;
    }
  }
}
