// What a deletion takes away from others: the bundles of batches with the same content, and the dataset
// members of other tenants with the same record ids.
module DeletionEffects {
  import opened Basics
  import opened Ingest
  import opened IngestTheorems

  // -- bundles are stored under their content -------------------------------------------------------

  // A deletion takes the bundle of a batch exactly when the batch was uploaded with the same content as
  // the deleted one.
  lemma DeletionTakesIff(db: Db, tenant: Id, scope: string, target: Option<Id>, pk: nat, i: nat)
    requires Picks(db, tenant, scope, target, Some(pk)) && i < |db.batches| && db.batches[i].path in db.blobs
    ensures db.batches[i].path !in DeleteBatch(db, tenant, scope, target, Some(pk)).blobs
      <==> db.batches[i].path == db.batches[pk].path
  {
  }

  // The operation adds a batch whose bundle is stored under p.
  ghost predicate Stores(env: Env, db: Db, op: Op, p: string)
    requires Possible(db, op)
  {
    var r := Step(env, db, op);
    |r.batches| > |db.batches| && r.batches[|db.batches|].path == p
  }

  // The operation deletes a batch whose bundle is stored under p.
  ghost predicate Deletes(db: Db, op: Op, p: string) {
    op.DoDelete? && op.pick.Some? && op.pick.value < |db.batches| && db.batches[op.pick.value].path == p
  }

  lemma StepBlobs(env: Env, db: Db, op: Op, p: string)
    requires Possible(db, op)
    ensures p in Step(env, db, op).blobs <==> Stores(env, db, op, p) || (p in db.blobs && !Deletes(db, op, p))
    ensures !(Stores(env, db, op, p) && Deletes(db, op, p))
  {
  }

  ghost predicate StoredAt(env: Env, states: seq<Db>, ops: seq<Op>, k: int, p: string)
    requires IsRun(env, states, ops)
  {
    0 <= k < |ops| && Possible(states[k], ops[k]) && Stores(env, states[k], ops[k], p)
  }

  ghost predicate DeletedAt(env: Env, states: seq<Db>, ops: seq<Op>, k: int, p: string)
    requires IsRun(env, states, ops)
  {
    0 <= k < |ops| && Deletes(states[k], ops[k], p)
  }

  // A batch with this content has been deleted since the content was last stored.
  ghost predicate LostSince(env: Env, states: seq<Db>, ops: seq<Op>, n: nat, p: string)
    requires IsRun(env, states, ops)
  {
    exists j :: 0 <= j < n && DeletedAt(env, states, ops, j, p)
      && forall k :: j < k < n ==> !StoredAt(env, states, ops, k, p)
  }

  // At any point of any run the bundle of a batch, deleted or not, is in the store exactly when no batch
  // with the same content has been deleted since that content was last stored.
  lemma {:induction false} BundlesAreKept(env: Env, states: seq<Db>, ops: seq<Op>, n: nat, i: nat)
    requires IsRun(env, states, ops) && n < |states| && i < |states[n].batches|
    ensures states[n].batches[i].path in states[n].blobs <==> !LostSince(env, states, ops, n, states[n].batches[i].path)
  {
    if n > 0 {
      var db, op, p := states[n - 1], ops[n - 1], states[n].batches[i].path;
      assert Possible(db, op);
      StepBlobs(env, db, op, p);
      if Deletes(db, op, p) {
        assert DeletedAt(env, states, ops, n - 1, p);
      } else if Stores(env, db, op, p) {
        assert StoredAt(env, states, ops, n - 1, p);
      } else {
        OldBatch(env, db, op, i, p);
        BundlesAreKept(env, states, ops, n - 1, i);
        LostLonger(env, states, ops, n, p);
      }
    }
  }

  lemma OldBatch(env: Env, db: Db, op: Op, i: nat, p: string)
    requires Possible(db, op) && !Stores(env, db, op, p)
    requires i < |Step(env, db, op).batches| && Step(env, db, op).batches[i].path == p
    ensures i < |db.batches| && db.batches[i].path == p
  {
    if i < |db.batches| {
      StepKeepsBatch(env, db, op, i);
    }
  }

  lemma LostLonger(env: Env, states: seq<Db>, ops: seq<Op>, n: nat, p: string)
    requires IsRun(env, states, ops) && 0 < n < |states|
    requires !DeletedAt(env, states, ops, n - 1, p) && !StoredAt(env, states, ops, n - 1, p)
    ensures LostSince(env, states, ops, n, p) <==> LostSince(env, states, ops, n - 1, p)
  {
    if LostSince(env, states, ops, n - 1, p) {
      var j :| 0 <= j < n - 1 && DeletedAt(env, states, ops, j, p)
        && forall k :: j < k < n - 1 ==> !StoredAt(env, states, ops, k, p);
      assert forall k :: j < k < n ==> !StoredAt(env, states, ops, k, p);
    }
  }

  // A batch with the empty list of records, stored under the next primary key.
  lemma StoresEmpty(env: Env, db: Db, tenant: Id, node: Id, key: string, body: Bytes, newId: Id)
    requires |body| <= env.maxBytes && key != "" && FindKey(db.batches, tenant, key).None?
    requires env.open(body) == Some(Bundle(Some(tenant), None, None, []))
    ensures IngestBatch(env, db, tenant, node, key, body, newId).0
      == db.(batches := db.batches + [Batch(newId, tenant, node, key, 0, None, env.path(body), |db.receipts|, false)],
             receipts := db.receipts + [Receipt(tenant, newId, None, 0)],
             blobs := if env.path(body) in db.blobs then db.blobs else db.blobs[env.path(body) := body])
  {
    assert AllValid([]);
    assert db.records + RowsFor(|db.batches|, tenant, []) == db.records;
  }

  lemma RunExtends(env: Env, states: seq<Db>, ops: seq<Op>, op: Op)
    requires IsRun(env, states, ops) && Possible(states[|ops|], op)
    ensures IsRun(env, states + [Step(env, states[|ops|], op)], ops + [op])
  {
    var ss, os := states + [Step(env, states[|ops|], op)], ops + [op];
    forall i | 0 <= i < |os| ensures Possible(ss[i], os[i]) && ss[i + 1] == Step(env, ss[i], os[i]) {
      if i < |ops| {
        assert Possible(states[i], ops[i]);
      }
    }
  }

  // Two batches of one tenant with the same bundle under different keys: deleting the first leaves
  // the second without its bundle, however the store names its objects.
  lemma SharedBundleIsLost(path: Bytes -> string, tenant: Id, node: Id, key1: string, key2: string, id1: Id, id2: Id,
                           body: Bytes)
    returns (env: Env, states: seq<Db>, ops: seq<Op>)
    requires key1 != key2 && key1 != "" && key2 != "" && id1 != ""
    ensures env.path == path && IsRun(env, states, ops) && |states| == 4 && LacksBundle(states[3], 1)
  {
    env := Env(_ => Some(Bundle(Some(tenant), None, None, [])), path, |body|);
    var op1, op2 := DoIngest(tenant, node, key1, body, id1), DoIngest(tenant, node, key2, body, id2);
    var op3 := DoDelete(tenant, "batch", Some(id1), Some(0));
    states, ops := [EMPTY], [];
    StoresEmpty(env, EMPTY, tenant, node, key1, body, id1);
    RunExtends(env, states, ops, op1);
    var s1 := Step(env, EMPTY, op1);
    states, ops := states + [s1], ops + [op1];
    StoresEmpty(env, s1, tenant, node, key2, body, id2);
    RunExtends(env, states, ops, op2);
    var s2 := Step(env, s1, op2);
    states, ops := states + [s2], ops + [op2];
    assert IsTarget(s2, tenant, id1, 0);
    DeletionTakesIff(s2, tenant, "batch", Some(id1), 0, 1);
    RunExtends(env, states, ops, op3);
    states, ops := states + [Step(env, s2, op3)], ops + [op3];
  }

  ghost predicate LacksBundle(db: Db, i: nat) {
    i < |db.batches| && !db.batches[i].deleted && db.batches[i].path !in db.blobs
  }

  // -- members follow record ids, whoever they belong to --------------------------------------------

  lemma StoresOne(env: Env, db: Db, tenant: Id, body: Bytes, batchId: Id, rec: RecordIn)
    requires |body| <= env.maxBytes && FindKey(db.batches, tenant, "key").None?
    requires env.open(body) == Some(Bundle(Some(tenant), Some(batchId), None, [Some(rec)]))
    ensures var r := IngestBatch(env, db, tenant, "node", "key", body, "").0;
      && r.batches == db.batches
           + [Batch(batchId, tenant, "node", "key", 1, None, env.path(body), |db.receipts|, false)]
      && r.records == db.records + [Record(|db.batches|, tenant, rec.recordId, rec.category, rec.payloadDigest, false)]
      && r.datasets == db.datasets && r.versions == db.versions && r.members == db.members
  {
    assert AllValid([Some(rec)]);
  }

  // The first tenant deletes its batch; the only member of the second tenant's dataset is excluded,
  // although the record it was made from is not deleted.
  ghost predicate ExcludesForeignMember(db: Db, deleter: Id, owner: Id) {
    && |db.deletions| == 1 && db.deletions[0].tenant == deleter && deleter != owner
    && |db.members| == 1 && db.members[0].excluded
    && db.members[0].source < |db.records|
    && var r := db.records[db.members[0].source];
       r.tenant == owner && r.recordId == db.members[0].recordId && !r.deleted
  }

  // Two tenants, each with one bundle of one training record, both records with the same id, and any way
  // to name stored objects.
  datatype Pair = Pair(deleter: Id, owner: Id, body1: Bytes, body2: Bytes, record: Id, path: Bytes -> string)

  predicate IsPair(x: Pair) { x.deleter != x.owner && x.body1 != x.body2 }

  function RecOf(x: Pair): RecordIn { RecordIn(x.record, Some("training"), None) }

  function EnvOf(x: Pair): Env {
    Env(body => if body == x.body1 then Some(Bundle(Some(x.deleter), Some("x"), None, [Some(RecOf(x))]))
                else Some(Bundle(Some(x.owner), Some("y"), None, [Some(RecOf(x))])),
        x.path, |x.body1| + |x.body2|)
  }

  function RowFor(batch: nat, tenant: Id, x: Pair): Record {
    Record(batch, tenant, x.record, Some("training"), None, false)
  }

  // Both bundles are in, and the owner has made a dataset with one version from its record.
  ghost predicate IsReady(x: Pair, db: Db) {
    && |db.batches| == 2 && db.batches[0].tenant == x.deleter && db.batches[0].batchId == "x"
    && db.records == [RowFor(0, x.deleter, x), RowFor(1, x.owner, x)]
    && db.members == [Member(0, x.record, 1, false)] && db.deletions == []
  }

  lemma MakeReady(x: Pair) returns (states: seq<Db>, ops: seq<Op>)
    requires IsPair(x)
    ensures IsRun(EnvOf(x), states, ops) && |states| == 5 && IsReady(x, states[4])
  {
    var env := EnvOf(x);
    states, ops := [EMPTY], [];
    StoresOne(env, EMPTY, x.deleter, x.body1, "x", RecOf(x));
    states, ops := Extend(env, states, ops, DoIngest(x.deleter, "node", "key", x.body1, ""));
    StoresOne(env, states[1], x.owner, x.body2, "y", RecOf(x));
    states, ops := Extend(env, states, ops, DoIngest(x.owner, "node", "key", x.body2, ""));
    states, ops := Extend(env, states, ops, DoDataset(x.owner, "set"));
    OneMember(states[3], x);
    states, ops := Extend(env, states, ops, DoVersion(x.owner, 0));
  }

  lemma ForeignMemberIsExcluded(x: Pair) returns (states: seq<Db>, ops: seq<Op>)
    requires IsPair(x)
    ensures IsRun(EnvOf(x), states, ops) && |states| == 6 && ExcludesForeignMember(states[5], x.deleter, x.owner)
  {
    states, ops := MakeReady(x);
    assert IsTarget(states[4], x.deleter, "x", 0);
    DeletionExcludes(x, states[4]);
    states, ops := Extend(EnvOf(x), states, ops, DoDelete(x.deleter, "batch", Some("x"), Some(0)));
  }

  lemma DeletionExcludes(x: Pair, db: Db)
    requires IsPair(x) && IsReady(x, db) && Picks(db, x.deleter, "batch", Some("x"), Some(0))
    ensures ExcludesForeignMember(DeleteBatch(db, x.deleter, "batch", Some("x"), Some(0)), x.deleter, x.owner)
  {
    DeletionReach(db, x.deleter, "batch", Some("x"), 0, 0, 1);
    assert Carries(db, 0, x.record, "x");
  }

  lemma Extend(env: Env, states: seq<Db>, ops: seq<Op>, op: Op) returns (more: seq<Db>, longer: seq<Op>)
    requires IsRun(env, states, ops) && Possible(states[|ops|], op)
    ensures more == states + [Step(env, states[|ops|], op)] && longer == ops + [op] && IsRun(env, more, longer)
  {
    RunExtends(env, states, ops, op);
    more, longer := states + [Step(env, states[|ops|], op)], ops + [op];
  }

  lemma OneMember(db: Db, x: Pair)
    requires IsPair(x) && db.records == [RowFor(0, x.deleter, x), RowFor(1, x.owner, x)]
    ensures MembersFor(db.records, x.owner, 0) == [Member(0, x.record, 1, false)]
  {
    assert db.records[..1][..0] == [];
    assert MembersFor(db.records[..1], x.owner, 0) == [];
  }
}
