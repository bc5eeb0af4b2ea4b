// What an upload answers and stores, and what the archive worker makes of each job, said from the inputs and the
// tables alone.
module ResearchEffects {
  import opened Basics
  import opened Research
  import opened ResearchTheorems

  // -- upload -----------------------------------------------------------------------------------------

  // Package p is the first of the tenant with this content.
  ghost predicate IsFirstOf(env: Env, db: Db, tenant: Id, body: Bytes, p: int) {
    && 0 <= p < |db.packages| && HasContent(env, db, tenant, body, p)
    && forall q :: 0 <= q < p ==> !HasContent(env, db, tenant, body, q)
  }

  ghost predicate HasContent(env: Env, db: Db, tenant: Id, body: Bytes, p: int) {
    0 <= p < |db.packages| && db.packages[p].tenant == tenant && db.packages[p].sha == "sha256:" + env.hex(body)
  }

  // The upload is of a size that is looked at, and new.
  ghost predicate IsNew(env: Env, db: Db, tenant: Id, body: Bytes, limit: nat) {
    && 0 < |body| <= limit && |body| <= 16777216
    && forall p :: 0 <= p < |db.packages| ==> !HasContent(env, db, tenant, body, p)
  }

  // When the answer is given.
  ghost predicate Answers(env: Env, db: Db, tenant: Id, body: Bytes, limit: nat, storeFails: bool, a: Answer) {
    var opens, secret := env.open(body).Some?, env.scan(body);
    match a
    case Refused(EmptyPackage) => body == []
    case Refused(PackageTooLarge) => body != [] && (|body| > 16777216 || |body| > limit)
    case Duplicate(p) => 0 < |body| <= limit && |body| <= 16777216 && IsFirstOf(env, db, tenant, body, p)
    case Refused(InvalidPackage) => IsNew(env, db, tenant, body, limit) && !opens
    case Quarantined(category) => IsNew(env, db, tenant, body, limit) && opens && secret == Some(category)
    case Refused(StorageFailed) => IsNew(env, db, tenant, body, limit) && opens && secret == None && storeFails
    case Accepted(p) =>
      IsNew(env, db, tenant, body, limit) && opens && secret == None && !storeFails && p == |db.packages|
  }

  // What the answer goes with: a package, its queued job, its bytes and a ledger row; a quarantine and a ledger
  // row, but no bytes; or nothing.
  ghost predicate Changes(env: Env, db: Db, tenant: Id, node: Id, body: Bytes, a: Answer, r: Db) {
    var sha, path := "sha256:" + env.hex(body), "research/" + tenant + "/" + node + "/" + env.hex(body) + ".bin";
    match a
    case Accepted(p) =>
      && env.open(body).Some?
      && r == db.(
           packages := db.packages
             + [Package(tenant, node, sha, env.open(body).value.schema, env.open(body).value.count, |body|, path)],
           jobs := db.jobs + [Job(p, tenant, node, Queued, 0, None, None)],
           ledger := db.ledger + [Entry(Some(p), tenant, node, AcceptedPackage)],
           blobs := r.blobs)
      && path in r.blobs && r.blobs[path] == body
      && (forall q :: q != path ==> (q in r.blobs <==> q in db.blobs) && (q in db.blobs ==> r.blobs[q] == db.blobs[q]))
    case Quarantined(_) =>
      r == db.(quarantine := db.quarantine + [(tenant, sha)],
               ledger := db.ledger + [Entry(None, tenant, node, QuarantinedPackage)])
    case _ => r == db
  }

  lemma {:induction false} FoundIsFirst(env: Env, db: Db, tenant: Id, body: Bytes, n: nat)
    requires n <= |db.packages|
    ensures var found := FindPackage(db.packages[..n], tenant, Digest(env.hex(body)));
      if found.Some? then found.value < n && IsFirstOf(env, db, tenant, body, found.value)
      else forall p :: 0 <= p < n ==> !HasContent(env, db, tenant, body, p)
  {
    if n > 0 {
      FoundIsFirst(env, db, tenant, body, n - 1);
      assert db.packages[..n][..n - 1] == db.packages[..n - 1];
    }
  }

  // An upload has exactly the answer that applies, and changes exactly what goes with it.
  lemma UploadMeans(env: Env, db: Db, tenant: Id, node: Id, body: Bytes, limit: nat, storeFails: bool, a: Answer)
    ensures var (r, answer) := Upload(env, db, tenant, node, body, limit, storeFails);
      && (answer == a <==> Answers(env, db, tenant, body, limit, storeFails, a))
      && Changes(env, db, tenant, node, body, answer, r)
  {
    FoundIsFirst(env, db, tenant, body, |db.packages|);
    assert db.packages[..|db.packages|] == db.packages;
  }

  // -- the worker ---------------------------------------------------------------------------------------

  // Why the worker stops at this outcome, if it does.
  function StopsFor(out: Outcome): Option<string> {
    if out.Wrote? || out.category == None then None
    else if out.category.value in {"expired_credentials", "unauthorized", "permission_denied"} then
      Some("reconnect_required")
    else if out.category.value in {"token_refresh_failed", "token_endpoint_unreachable", "oauth_not_configured",
                                   "quota_exceeded", "drive_error", "not_found"} then
      Some("drive_unavailable")
    else None
  }

  // What the outcome makes of a job, and of the ledger.
  function JobAfter(job: Job, out: Outcome): Job {
    match out
    case Wrote(id) => Job(job.package, job.tenant, job.node, Synced, job.attempts, job.lastError, Some(id))
    case Raised(_, kind) => Job(job.package, job.tenant, job.node, Failed, job.attempts + 1, Some(kind), job.fileId)
  }

  function RowAfter(job: Job, out: Outcome): Entry {
    Entry(Some(job.package), job.tenant, job.node, if out.Wrote? then Archived else ArchiveFailed)
  }

  // After the first n of the selected jobs: the first k of them have been handled, in order, and the worker
  // goes on or has stopped at the next one.
  ghost predicate IsWork(db: Db, batch: seq<nat>, outs: seq<Outcome>, n: nat, w: Work)
    requires n <= |batch| == |outs|
  {
    var k := w.synced + w.failed;
    && k <= n && w.synced == Writes(outs[..k]) && |w.db.jobs| == |db.jobs|
    && w.db.packages == db.packages && w.db.quarantine == db.quarantine && w.db.blobs == db.blobs
    && (if w.degraded.None? then k == n else k < n && StopsFor(outs[k]) == w.degraded)
    && (forall i :: 0 <= i < k ==> StopsFor(outs[i]).None?)
    && |w.db.ledger| == |db.ledger| + k && db.ledger <= w.db.ledger
    && (forall i :: 0 <= i < k ==> IsHandled(db, batch, outs, w, i))
  }

  ghost predicate IsHandled(db: Db, batch: seq<nat>, outs: seq<Outcome>, w: Work, i: nat) {
    && i < |batch| == |outs| && batch[i] < |db.jobs| == |w.db.jobs| && |db.ledger| + i < |w.db.ledger|
    && w.db.jobs[batch[i]] == JobAfter(db.jobs[batch[i]], outs[i])
    && w.db.ledger[|db.ledger| + i] == RowAfter(db.jobs[batch[i]], outs[i])
  }

  // How many of the outcomes are written files.
  function Writes(outs: seq<Outcome>): nat {
    if outs == [] then 0 else Writes(outs[..|outs| - 1]) + (if outs[|outs| - 1].Wrote? then 1 else 0)
  }

  lemma {:induction false} HandledSoFar(db: Db, batch: seq<nat>, outs: seq<Outcome>, limit: nat, n: nat)
    requires Inv(db) && IsSelection(db, batch, limit) && n <= |batch| == |outs|
    ensures IsWork(db, batch, outs, n, HandleFirst(db, batch, outs, n))
  {
    if n == 0 {
      NothingYet(db, batch, outs);
    } else {
      HandledSoFar(db, batch, outs, limit, n - 1);
      var w := HandleFirst(db, batch, outs, n - 1);
      if w.degraded.None? {
        WorkerProgress(db, batch, outs, limit, n - 1);
        OneMoreJob(db, batch, outs, limit, n - 1, w);
      } else {
        StaysStopped(db, batch, outs, n - 1, w);
      }
    }
  }

  lemma NothingYet(db: Db, batch: seq<nat>, outs: seq<Outcome>)
    requires |batch| == |outs|
    ensures IsWork(db, batch, outs, 0, Work(db, 0, 0, None))
  {
    assert outs[..0] == [];
  }

  lemma StaysStopped(db: Db, batch: seq<nat>, outs: seq<Outcome>, n: nat, w: Work)
    requires n < |batch| == |outs| && IsWork(db, batch, outs, n, w) && w.degraded.Some?
    ensures IsWork(db, batch, outs, n + 1, w)
  {
  }

  // Handling the next job, which is still as it was.
  lemma OneMoreJob(db: Db, batch: seq<nat>, outs: seq<Outcome>, limit: nat, n: nat, w: Work)
    requires Inv(db) && IsSelection(db, batch, limit) && n < |batch| == |outs|
    requires IsWork(db, batch, outs, n, w) && w.degraded.None? && Progress(db, batch, n, w)
    ensures IsWork(db, batch, outs, n + 1, Handle(w, batch[n], outs[n]))
  {
    var j, r := batch[n], Handle(w, batch[n], outs[n]);
    assert j !in batch[..n];
    assert w.db.jobs[j] == db.jobs[j];
    assert PackageOk(db, j);
    assert outs[..n + 1][..n] == outs[..n];
    forall i | 0 <= i < n ensures IsHandled(db, batch, outs, r, i) {
      assert IsHandled(db, batch, outs, w, i) && batch[i] != batch[n];
    }
  }

  // The connection after the run, if there is one.
  predicate IsConnectionAfter(was: Option<Connection>, w: Work) {
    if was == None then w.db.connection == None
    else if w.degraded.Some? then w.db.connection == Some(Connection("error", w.degraded))
    else if w.synced > 0 then w.db.connection == Some(Connection("connected", None))
    else w.db.connection == was
  }

  // Every worker run, at any time of any run of the archive: it handles the selected jobs in order, each as its
  // outcome says, with one ledger row, up to the first outcome that stops it; it leaves all others alone, and
  // notes the connection.
  lemma WorkMeans(env: Env, states: seq<Db>, ops: seq<Op>, n: nat, limit: nat, batch: seq<nat>, outs: seq<Outcome>)
    requires IsRun(env, states, ops) && n < |states| && IsSelection(states[n], batch, limit) && |outs| == |batch|
    ensures var db, w := states[n], ProcessJobs(states[n], batch, outs);
      && IsWork(db, batch, outs, |batch|, w) && IsConnectionAfter(db.connection, w)
      && forall j :: 0 <= j < |db.jobs| && j !in batch[..w.synced + w.failed] ==> w.db.jobs[j] == db.jobs[j]
  {
    var db := states[n];
    RunKeeps(env, states, ops, n);
    HandledSoFar(db, batch, outs, limit, |batch|);
    ConnectionKept(db, batch, outs, |batch|);
    WorkerRun(env, states, ops, n, limit, batch, outs);
    var h, w := HandleFirst(db, batch, outs, |batch|), ProcessJobs(db, batch, outs);
    forall i | 0 <= i < w.synced + w.failed ensures IsHandled(db, batch, outs, w, i) {
      assert IsHandled(db, batch, outs, h, i);
    }
  }
}
