// What the research archive keeps over any interleaving of uploads and worker runs.
module ResearchTheorems {
  import opened Basics
  import opened Paths
  import opened Research

  // The number of ledger rows of package p with this action.
  ghost function Rows(ledger: seq<Entry>, p: nat, action: Action): nat {
    if ledger == [] then 0
    else
      var e := ledger[|ledger| - 1];
      Rows(ledger[..|ledger| - 1], p, action) + (if e.package == Some(p) && e.action == action then 1 else 0)
  }

  lemma RowsAppend(ledger: seq<Entry>, e: Entry, p: nat, action: Action)
    ensures Rows(ledger + [e], p, action)
      == Rows(ledger, p, action) + (if e.package == Some(p) && e.action == action then 1 else 0)
  {
    assert (ledger + [e])[..|ledger|] == ledger;
  }

  lemma {:induction false} RowsOfNobody(ledger: seq<Entry>, p: nat, action: Action)
    requires forall i :: 0 <= i < |ledger| ==> ledger[i].package != Some(p)
    ensures Rows(ledger, p, action) == 0
  {
    if ledger != [] {
      RowsOfNobody(ledger[..|ledger| - 1], p, action);
    }
  }

  // Package i has one job, whose status is what the ledger says happened to the package.
  ghost predicate PackageOk(db: Db, i: nat) {
    && i < |db.packages| && i < |db.jobs|
    && var job := db.jobs[i];
       && job.package == i && job.tenant == db.packages[i].tenant && job.node == db.packages[i].node
       && Rows(db.ledger, i, AcceptedPackage) == 1
       && Rows(db.ledger, i, Archived) == (if job.status == Synced then 1 else 0)
       && Rows(db.ledger, i, ArchiveFailed) == (if job.status == Failed then 1 else 0)
       && (job.status == Synced <==> job.fileId.Some?)
  }

  ghost predicate Inv(db: Db) {
    && |db.jobs| == |db.packages|
    && (forall i, j :: 0 <= i < j < |db.packages| ==>
          db.packages[i].tenant != db.packages[j].tenant || db.packages[i].sha != db.packages[j].sha)
    && (forall i {:trigger PackageOk(db, i)} :: 0 <= i < |db.packages| ==> PackageOk(db, i))
    && (forall i :: 0 <= i < |db.ledger| && db.ledger[i].package.Some? ==> db.ledger[i].package.value < |db.packages|)
  }

  lemma UploadKeeps(env: Env, db: Db, tenant: Id, node: Id, body: Bytes, limit: nat, storeFails: bool)
    requires Inv(db)
    ensures Inv(Upload(env, db, tenant, node, body, limit, storeFails).0)
  {
    var (r, answer) := Upload(env, db, tenant, node, body, limit, storeFails);
    if answer.Accepted? || answer.Quarantined? {
      var e := r.ledger[|db.ledger|];
      assert r.ledger == db.ledger + [e];
      forall i | 0 <= i < |r.packages| ensures PackageOk(r, i) {
        RowsAppend(db.ledger, e, i, AcceptedPackage);
        RowsAppend(db.ledger, e, i, Archived);
        RowsAppend(db.ledger, e, i, ArchiveFailed);
        if i < |db.packages| {
          assert PackageOk(db, i);
        } else {
          RowsOfNobody(db.ledger, i, AcceptedPackage);
          RowsOfNobody(db.ledger, i, Archived);
          RowsOfNobody(db.ledger, i, ArchiveFailed);
        }
      }
    }
  }

  lemma HandleKeeps(w: Work, j: nat, out: Outcome)
    requires Inv(w.db) && j < |w.db.jobs| && w.db.jobs[j].status == Queued
    ensures Inv(Handle(w, j, out).db)
  {
    var r := Handle(w, j, out).db;
    assert PackageOk(w.db, j);
    if r != w.db {
      var e := r.ledger[|w.db.ledger|];
      assert r.ledger == w.db.ledger + [e];
      forall i | 0 <= i < |r.packages| ensures PackageOk(r, i) {
        assert PackageOk(w.db, i);
        RowsAppend(w.db.ledger, e, i, AcceptedPackage);
        RowsAppend(w.db.ledger, e, i, Archived);
        RowsAppend(w.db.ledger, e, i, ArchiveFailed);
      }
    }
  }

  // After n turns of its loop the worker has finished the first k selected jobs and touched no other;
  // it has stopped early exactly if k < n.
  ghost predicate Progress(db: Db, batch: seq<nat>, n: nat, w: Work)
    requires n <= |batch| && |w.db.jobs| == |db.jobs|
    requires forall i :: 0 <= i < |batch| ==> batch[i] < |db.jobs|
  {
    var k := w.synced + w.failed;
    && k <= n && (w.degraded.None? <==> k == n)
    && (forall i :: 0 <= i < k ==> w.db.jobs[batch[i]].status != Queued)
    && (forall j :: 0 <= j < |db.jobs| && j !in batch[..k] ==> w.db.jobs[j] == db.jobs[j])
    && |w.db.ledger| == |db.ledger| + k
  }

  lemma HandleAdvances(db: Db, batch: seq<nat>, limit: nat, n: nat, w: Work, out: Outcome)
    requires IsSelection(db, batch, limit) && n < |batch| && |w.db.jobs| == |db.jobs|
    requires Progress(db, batch, n, w) && w.degraded.None? && Inv(w.db)
    ensures Inv(Handle(w, batch[n], out).db)
    ensures Progress(db, batch, n + 1, Handle(w, batch[n], out))
  {
    var j, r := batch[n], Handle(w, batch[n], out);
    assert j !in batch[..n];
    assert w.db.jobs[j] == db.jobs[j];
    HandleKeeps(w, j, out);
    assert PackageOk(w.db, j);
    assert batch[..n + 1] == batch[..n] + [j];
    if r.degraded.None? {
      forall i | 0 <= i < n + 1 ensures r.db.jobs[batch[i]].status != Queued {
        if i < n {
          assert batch[i] != j;
        }
      }
    }
  }

  // The worker finishes the selected jobs one after the other; when it stops early, at a job it
  // cannot write, that job and every other unfinished one are exactly as they were.
  lemma {:induction false} WorkerProgress(db: Db, batch: seq<nat>, outs: seq<Outcome>, limit: nat, n: nat)
    requires Inv(db) && IsSelection(db, batch, limit) && n <= |batch| == |outs|
    ensures Inv(HandleFirst(db, batch, outs, n).db)
    ensures Progress(db, batch, n, HandleFirst(db, batch, outs, n))
  {
    if n > 0 {
      WorkerProgress(db, batch, outs, limit, n - 1);
      var w := HandleFirst(db, batch, outs, n - 1);
      if w.degraded.None? {
        HandleAdvances(db, batch, limit, n - 1, w, outs[n - 1]);
        assert HandleFirst(db, batch, outs, n) == Handle(w, batch[n - 1], outs[n - 1]);
      } else {
        assert HandleFirst(db, batch, outs, n) == w;
      }
    }
  }

  // -- runs -------------------------------------------------------------------------------------------

  datatype Op =
    | DoUpload(tenant: Id, node: Id, body: Bytes, limit: nat, storeFails: bool)
    | DoWork(limit: nat, batch: seq<nat>, outs: seq<Outcome>)
    | DoFlag(reason: Option<string>)

  ghost predicate Possible(db: Db, op: Op) {
    op.DoWork? ==> IsSelection(db, op.batch, op.limit) && |op.batch| == |op.outs|
  }

  ghost function Step(env: Env, db: Db, op: Op): Db
    requires Possible(db, op)
  {
    match op
    case DoUpload(t, n, b, l, s) => Upload(env, db, t, n, b, l, s).0
    case DoWork(_, b, o) => ProcessJobs(db, b, o).db
    case DoFlag(r) => NoWriter(db, r)
  }

  ghost predicate IsRun(env: Env, states: seq<Db>, ops: seq<Op>) {
    && |states| == |ops| + 1
    && states[0].packages == [] && states[0].jobs == [] && states[0].ledger == []
    && forall i {:trigger Possible(states[i], ops[i])} :: 0 <= i < |ops| ==>
         Possible(states[i], ops[i]) && states[i + 1] == Step(env, states[i], ops[i])
  }

  // Only the packages, jobs and ledger matter to the invariant.
  lemma ConnectionDoesNotMatter(db: Db, r: Db)
    requires Inv(db) && r.packages == db.packages && r.jobs == db.jobs && r.ledger == db.ledger
    ensures Inv(r)
  {
    forall i | 0 <= i < |r.packages| ensures PackageOk(r, i) {
      assert PackageOk(db, i);
    }
  }

  lemma StepKeeps(env: Env, db: Db, op: Op)
    requires Inv(db) && Possible(db, op)
    ensures Inv(Step(env, db, op))
  {
    match op
    case DoUpload(t, n, b, l, s) => UploadKeeps(env, db, t, n, b, l, s);
    case DoWork(limit, batch, outs) =>
      WorkerProgress(db, batch, outs, limit, |batch|);
      ConnectionDoesNotMatter(HandleFirst(db, batch, outs, |batch|).db, Step(env, db, op));
    case DoFlag(r) => ConnectionDoesNotMatter(db, Step(env, db, op));
  }

  lemma {:induction false} RunKeeps(env: Env, states: seq<Db>, ops: seq<Op>, n: nat)
    requires IsRun(env, states, ops) && n < |states|
    ensures Inv(states[n])
  {
    if n > 0 {
      RunKeeps(env, states, ops, n - 1);
      assert Possible(states[n - 1], ops[n - 1]);
      StepKeeps(env, states[n - 1], ops[n - 1]);
    }
  }

  // At any point of any run: one package per tenant and digest, one job per package and no other
  // job, and a job is synced (failed) exactly when the ledger has one archived (failed) row for its
  // package, and none otherwise.
  lemma ArchiveIsConsistent(env: Env, states: seq<Db>, ops: seq<Op>, n: nat, i: nat)
    requires IsRun(env, states, ops) && n < |states| && i < |states[n].packages|
    ensures var db := states[n];
      && |db.jobs| == |db.packages| && db.jobs[i].package == i
      && (forall j | 0 <= j < |db.packages| ::
            db.packages[j].tenant == db.packages[i].tenant && db.packages[j].sha == db.packages[i].sha ==> j == i)
      && Rows(db.ledger, i, AcceptedPackage) == 1
      && Rows(db.ledger, i, Archived) == (if db.jobs[i].status == Synced then 1 else 0)
      && Rows(db.ledger, i, ArchiveFailed) == (if db.jobs[i].status == Failed then 1 else 0)
  {
    RunKeeps(env, states, ops, n);
    assert PackageOk(states[n], i);
  }

  // Packages never change, and a job that is synced or failed never changes again.
  lemma {:induction false} FinishedForGood(env: Env, states: seq<Db>, ops: seq<Op>, m: nat, n: nat, i: nat)
    requires IsRun(env, states, ops) && m <= n < |states| && i < |states[m].packages|
    ensures i < |states[m].jobs| && i < |states[n].jobs| && i < |states[n].packages|
    ensures states[n].packages[i] == states[m].packages[i]
    ensures states[m].jobs[i].status != Queued ==> states[n].jobs[i] == states[m].jobs[i]
  {
    RunKeeps(env, states, ops, m);
    if m < n {
      FinishedForGood(env, states, ops, m, n - 1, i);
      RunKeeps(env, states, ops, n - 1);
      assert Possible(states[n - 1], ops[n - 1]);
      StepKeepsFinished(env, states[n - 1], ops[n - 1], i);
    }
  }

  lemma StepKeepsFinished(env: Env, db: Db, op: Op, i: nat)
    requires Inv(db) && Possible(db, op) && i < |db.packages|
    ensures var r := Step(env, db, op);
      && i < |r.jobs| && i < |r.packages| && r.packages[i] == db.packages[i]
      && (db.jobs[i].status != Queued ==> r.jobs[i] == db.jobs[i])
  {
    if op.DoWork? {
      WorkerProgress(db, op.batch, op.outs, op.limit, |op.batch|);
      var w := HandleFirst(db, op.batch, op.outs, |op.batch|);
      if db.jobs[i].status != Queued {
        assert i !in op.batch[..w.synced + w.failed];
      }
    }
  }

  // A package is accepted once: the same content from the same tenant, whichever node sends it and
  // whatever happened in between, is answered as a duplicate of it and changes nothing.
  lemma AcceptedOnce(env: Env, states: seq<Db>, ops: seq<Op>, m: nat, n: nat, again: Op)
    requires IsRun(env, states, ops) && m < n < |states| && ops[m].DoUpload? && again.DoUpload?
    requires AnswerTo(env, states[m], ops[m]).Accepted?
    requires again.tenant == ops[m].tenant && env.hex(again.body) == env.hex(ops[m].body)
    requires 0 < |again.body| <= MAX_PACKAGE_BYTES && |again.body| <= again.limit
    ensures AnswerTo(env, states[n], again) == Duplicate(AnswerTo(env, states[m], ops[m]).package)
    ensures Step(env, states[n], again) == states[n]
  {
    var p := AnswerTo(env, states[m], ops[m]).package;
    assert Possible(states[m], ops[m]);
    UploadOutcomes(env, states[m], ops[m].tenant, ops[m].node, ops[m].body, ops[m].limit, ops[m].storeFails);
    FinishedForGood(env, states, ops, m + 1, n, p);
    RunKeeps(env, states, ops, n);
    var found := FindPackage(states[n].packages, again.tenant, Digest(env.hex(again.body)));
    assert found.Some? && found.value == p;
  }

  ghost function AnswerTo(env: Env, db: Db, op: Op): Answer
    requires op.DoUpload?
  {
    Upload(env, db, op.tenant, op.node, op.body, op.limit, op.storeFails).1
  }

  // The bytes of an accepted package stay in the store as they were sent, in runs in which no two uploads of
  // different contents share an object reference.
  lemma {:induction false} AcceptedBytesStay(env: Env, states: seq<Db>, ops: seq<Op>, m: nat, n: nat)
    requires IsRun(env, states, ops) && m < n < |states| && ops[m].DoUpload?
    requires AnswerTo(env, states[m], ops[m]).Accepted? && RefsApart(env, ops)
    ensures Stored(states[n], ops[m].tenant, ops[m].node, env.hex(ops[m].body), ops[m].body)
  {
    assert Possible(states[n - 1], ops[n - 1]);
    if m == n - 1 {
      StoredAtOnce(env, states[m], ops[m]);
    } else {
      AcceptedBytesStay(env, states, ops, m, n - 1);
      assert ops[m] in ops && ops[n - 1] in ops;
      assert ops[n - 1].DoUpload? ==> MayShare(env, ops[n - 1], ops[m]);
      StepKeepsStored(env, states[n - 1], ops[n - 1], ops[m].tenant, ops[m].node, env.hex(ops[m].body), ops[m].body);
    }
  }

  // Two uploads share an object reference only if they are of one content, or one tenant's of one digest (so
  // that the second is a duplicate).
  ghost predicate RefsApart(env: Env, ops: seq<Op>) {
    forall p, q :: p in ops && q in ops && p.DoUpload? && q.DoUpload? ==> MayShare(env, p, q)
  }

  ghost predicate MayShare(env: Env, p: Op, q: Op)
    requires p.DoUpload? && q.DoUpload?
  {
    ObjectRef(p.tenant, p.node, env.hex(p.body)) == ObjectRef(q.tenant, q.node, env.hex(q.body)) ==>
      p.body == q.body || (p.tenant == q.tenant && env.hex(p.body) == env.hex(q.body))
  }

  // That is so when tenants and nodes have no slash in their names, and also when digests tell contents
  // apart and have none.
  lemma RefsAreApart(env: Env, ops: seq<Op>)
    requires SlashFreeOps(ops) || TellsApart(env)
    ensures RefsApart(env, ops)
  {
    forall p, q | p in ops && q in ops && p.DoUpload? && q.DoUpload? ensures MayShare(env, p, q) {
      var h1, h2 := env.hex(p.body), env.hex(q.body);
      if ObjectRef(p.tenant, p.node, h1) == ObjectRef(q.tenant, q.node, h2) {
        if SlashFreeOps(ops) {
          RefIsInjective(p.tenant, p.node, h1, q.tenant, q.node, h2);
        } else {
          RefEndsInDigest(p.tenant, p.node, h1, q.tenant, q.node, h2);
        }
      }
    }
  }

  ghost predicate SlashFreeOps(ops: seq<Op>) {
    forall op :: op in ops && op.DoUpload? ==> SlashFree(op.tenant) && SlashFree(op.node)
  }

  ghost predicate TellsApart(env: Env) {
    forall a, b {:trigger env.hex(a), env.hex(b)} :: SlashFree(env.hex(a)) && (env.hex(a) == env.hex(b) ==> a == b)
  }

  lemma RefIsInjective(t1: Id, n1: Id, h1: string, t2: Id, n2: Id, h2: string)
    requires SlashFree(t1) && SlashFree(n1) && SlashFree(t2) && SlashFree(n2)
    requires ObjectRef(t1, n1, h1) == ObjectRef(t2, n2, h2)
    ensures t1 == t2 && n1 == n2 && h1 == h2
  {
    var f1, f2 := h1 + ".bin", h2 + ".bin";
    var r1, r2 := n1 + "/" + f1, n2 + "/" + f2;
    assert ObjectRef(t1, n1, h1) == "research/" + (t1 + "/" + r1);
    assert ObjectRef(t2, n2, h2) == "research/" + (t2 + "/" + r2);
    assert t1 + "/" + r1 == ObjectRef(t1, n1, h1)[|"research/"|..];
    assert t2 + "/" + r2 == ObjectRef(t2, n2, h2)[|"research/"|..];
    FirstSegment(t1, t2, r1, r2);
    FirstSegment(n1, n2, f1, f2);
    assert h1 == f1[..|f1| - 4] && h2 == f2[..|f2| - 4];
  }

  lemma RefEndsInDigest(t1: Id, n1: Id, h1: string, t2: Id, n2: Id, h2: string)
    requires SlashFree(h1) && SlashFree(h2) && ObjectRef(t1, n1, h1) == ObjectRef(t2, n2, h2)
    ensures h1 == h2
  {
    var f1, f2 := h1 + ".bin", h2 + ".bin";
    assert ObjectRef(t1, n1, h1) == "research/" + t1 + "/" + n1 + "/" + f1;
    assert ObjectRef(t2, n2, h2) == "research/" + t2 + "/" + n2 + "/" + f2;
    LastSegment("research/" + t1 + "/" + n1, "research/" + t2 + "/" + n2, f1, f2);
    assert h1 == f1[..|f1| - 4] && h2 == f2[..|f2| - 4];
  }

  // A package of the tenant has this digest, and body is stored where it says.
  ghost predicate Stored(db: Db, tenant: Id, node: Id, hex: string, body: Bytes) {
    && FindPackage(db.packages, tenant, Digest(hex)).Some?
    && ObjectRef(tenant, node, hex) in db.blobs && db.blobs[ObjectRef(tenant, node, hex)] == body
  }

  lemma StoredAtOnce(env: Env, db: Db, op: Op)
    requires op.DoUpload? && AnswerTo(env, db, op).Accepted?
    ensures Stored(Step(env, db, op), op.tenant, op.node, env.hex(op.body), op.body)
  {
    var r := Step(env, db, op);
    assert r.packages[|db.packages|].sha == Digest(env.hex(op.body));
  }

  lemma StepKeepsStored(env: Env, db: Db, op: Op, tenant: Id, node: Id, hex: string, body: Bytes)
    requires Possible(db, op) && Stored(db, tenant, node, hex, body)
    requires op.DoUpload? && ObjectRef(op.tenant, op.node, env.hex(op.body)) == ObjectRef(tenant, node, hex) ==>
      op.body == body || (op.tenant == tenant && env.hex(op.body) == hex)
    ensures Stored(Step(env, db, op), tenant, node, hex, body)
  {
    var r, p := Step(env, db, op), FindPackage(db.packages, tenant, Digest(hex)).value;
    if op.DoWork? {
      BlobsKept(db, op.batch, op.outs, |op.batch|);
    }
    assert p < |r.packages| && r.packages[p] == db.packages[p];
  }

  lemma {:induction false} BlobsKept(db: Db, batch: seq<nat>, outs: seq<Outcome>, n: nat)
    requires n <= |batch| == |outs| && forall i :: 0 <= i < |batch| ==> batch[i] < |db.jobs|
    ensures HandleFirst(db, batch, outs, n).db.blobs == db.blobs
  {
    if n > 0 {
      BlobsKept(db, batch, outs, n - 1);
    }
  }

  // What an upload adds, in any state: a quarantined, refused or repeated one no package and no job;
  // an accepted one exactly its package and one queued job.
  lemma UploadOutcomes(env: Env, db: Db, tenant: Id, node: Id, body: Bytes, limit: nat, storeFails: bool)
    ensures var (r, answer) := Upload(env, db, tenant, node, body, limit, storeFails);
      && (answer.Accepted? ==>
            && answer.package == |db.packages| && r.packages == db.packages + [r.packages[answer.package]]
            && r.packages[answer.package].tenant == tenant && r.packages[answer.package].sha == Digest(env.hex(body))
            && r.jobs == db.jobs + [Job(answer.package, tenant, node, Queued, 0, None, None)]
            && r.packages[answer.package].objectRef in r.blobs && r.blobs[r.packages[answer.package].objectRef] == body)
      && (!answer.Accepted? ==> r.packages == db.packages && r.jobs == db.jobs && r.blobs == db.blobs)
      && (answer.Duplicate? ==>
            && r == db && answer.package < |db.packages|
            && db.packages[answer.package].tenant == tenant && db.packages[answer.package].sha == Digest(env.hex(body)))
      && (answer.Quarantined? ==> FindPackage(r.packages, tenant, Digest(env.hex(body))).None?)
  {
  }

  // One worker run: its counters say how many of the selected jobs it finished, in order; after an
  // early stop the job it stopped at and every other unvisited one are still queued.
  lemma WorkerRun(env: Env, states: seq<Db>, ops: seq<Op>, n: nat, limit: nat, batch: seq<nat>, outs: seq<Outcome>)
    requires IsRun(env, states, ops) && n < |states| && IsSelection(states[n], batch, limit) && |outs| == |batch|
    ensures var db := states[n];
      var w := ProcessJobs(db, batch, outs);
      var k := w.synced + w.failed;
      && k <= |batch| && (w.degraded.Some? <==> k < |batch|)
      && |w.db.jobs| == |db.jobs|
      && (forall i :: 0 <= i < k ==> w.db.jobs[batch[i]].status != Queued)
      && (forall i :: k <= i < |batch| ==> w.db.jobs[batch[i]].status == Queued)
      && (forall j :: 0 <= j < |db.jobs| && j !in batch[..k] ==> w.db.jobs[j] == db.jobs[j])
      && |w.db.ledger| == |db.ledger| + k
      && (w.degraded.Some? && db.connection.Some? ==> w.db.connection == Some(Connection("error", w.degraded)))
  {
    RunKeeps(env, states, ops, n);
    WorkerProgress(states[n], batch, outs, limit, |batch|);
    var h := HandleFirst(states[n], batch, outs, |batch|);
    forall i | h.synced + h.failed <= i < |batch| ensures h.db.jobs[batch[i]].status == Queued {
      assert batch[i] !in batch[..h.synced + h.failed];
    }
    ConnectionKept(states[n], batch, outs, |batch|);
  }

  lemma {:induction false} ConnectionKept(db: Db, batch: seq<nat>, outs: seq<Outcome>, n: nat)
    requires n <= |batch| == |outs| && forall i :: 0 <= i < |batch| ==> batch[i] < |db.jobs|
    ensures HandleFirst(db, batch, outs, n).db.connection == db.connection
  {
    if n > 0 {
      ConnectionKept(db, batch, outs, n - 1);
    }
  }
}
