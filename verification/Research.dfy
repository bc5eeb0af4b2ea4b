// Research packages: accepted once, then archived by a worker that may stop midway.
//
// Opening and scanning a package are arbitrary functions; the blob store and the Drive writer may
// fail in any way, so their outcomes are inputs.
module Research {
  import opened Basics

  type Bytes = seq<bv8>

  const MAX_PACKAGE_BYTES := 16 * 1024 * 1024

  const RECONNECT: set<string> := {"expired_credentials", "unauthorized", "permission_denied"}

  const UNAVAILABLE: set<string> :=
    {"token_refresh_failed", "token_endpoint_unreachable", "oauth_not_configured", "quota_exceeded", "drive_error",
     "not_found"}

  datatype Opened = Opened(schema: string, count: nat)

  datatype Env = Env(
    hex: Bytes -> string,                          // the digest of a body, in hexadecimal
    open: Bytes -> Option<Opened>,
    scan: Bytes -> Option<string>)                 // the secret category found, if any

  function Digest(hex: string): string { "sha256:" + hex }

  function ObjectRef(tenant: Id, node: Id, hex: string): string {
    "research/" + tenant + "/" + node + "/" + hex + ".bin"
  }

  datatype Package = Package(
    tenant: Id, node: Id, sha: string, schema: string, count: nat, bytes: nat, objectRef: string)

  datatype JobStatus = Queued | Synced | Failed

  datatype Job = Job(
    package: nat, tenant: Id, node: Id, status: JobStatus, attempts: nat, lastError: Option<string>,
    fileId: Option<string>)

  datatype Action = AcceptedPackage | QuarantinedPackage | Archived | ArchiveFailed

  datatype Entry = Entry(package: Option<nat>, tenant: Id, node: Id, action: Action)

  datatype Connection = Connection(status: string, error: Option<string>)

  datatype Db = Db(
    packages: seq<Package>,
    jobs: seq<Job>,
    ledger: seq<Entry>,
    quarantine: seq<(Id, string)>,
    blobs: map<string, Bytes>,
    connection: Option<Connection>)

  datatype Error = EmptyPackage | PackageTooLarge | InvalidPackage | StorageFailed

  datatype Answer =
    | Accepted(package: nat) | Duplicate(package: nat) | Quarantined(category: string) | Refused(error: Error)

  // -- upload -----------------------------------------------------------------------------------------

  function FindPackage(ps: seq<Package>, tenant: Id, sha: string): (r: Option<nat>)
    ensures r.Some? ==> r.value < |ps| && ps[r.value].tenant == tenant && ps[r.value].sha == sha
    ensures r.None? <==> forall i :: 0 <= i < |ps| ==> ps[i].tenant != tenant || ps[i].sha != sha
  {
    if ps == [] then None
    else
      var r := FindPackage(ps[..|ps| - 1], tenant, sha);
      if r.Some? then r
      else if ps[|ps| - 1].tenant == tenant && ps[|ps| - 1].sha == sha then Some(|ps| - 1) else None
  }

  function Accept(env: Env, db: Db, tenant: Id, node: Id, body: Bytes, o: Opened): Db {
    var sha := Digest(env.hex(body));
    var at := ObjectRef(tenant, node, env.hex(body));
    db.(packages := db.packages + [Package(tenant, node, sha, o.schema, o.count, |body|, at)],
        jobs := db.jobs + [Job(|db.packages|, tenant, node, Queued, 0, None, None)],
        ledger := db.ledger + [Entry(Some(|db.packages|), tenant, node, AcceptedPackage)],
        blobs := db.blobs[at := body])
  }

  function Upload(env: Env, db: Db, tenant: Id, node: Id, body: Bytes, limit: nat, storeFails: bool): (Db, Answer) {
    if body == [] then (db, Refused(EmptyPackage))
    else if |body| > MAX_PACKAGE_BYTES || |body| > limit then (db, Refused(PackageTooLarge))
    else
      var sha := Digest(env.hex(body));
      var dup := FindPackage(db.packages, tenant, sha);
      if dup.Some? then (db, Duplicate(dup.value))
      else
        var o := env.open(body);
        if o.None? then (db, Refused(InvalidPackage))
        else
          var found := env.scan(body);
          if found.Some? then
            (db.(quarantine := db.quarantine + [(tenant, sha)],
                 ledger := db.ledger + [Entry(None, tenant, node, QuarantinedPackage)]),
             Quarantined(found.value))
          else if storeFails then (db, Refused(StorageFailed))
          else (Accept(env, db, tenant, node, body, o.value), Accepted(|db.packages|))
  }

  // -- the archive worker -----------------------------------------------------------------------------

  datatype Outcome = Wrote(fileId: string) | Raised(category: Option<string>, kind: string)

  // The worker's progress: what it has changed, its counters, and why it stopped early if it did.
  datatype Work = Work(db: Db, synced: nat, failed: nat, degraded: Option<string>)

  function WithJob(db: Db, j: nat, job: Job): Db
    requires j < |db.jobs|
  {
    db.(jobs := db.jobs[j := job])
  }

  function Record(db: Db, p: nat, action: Action): Db
    requires p < |db.packages|
  {
    db.(ledger := db.ledger + [Entry(Some(p), db.packages[p].tenant, db.packages[p].node, action)])
  }

  function Handle(w: Work, j: nat, out: Outcome): Work
    requires j < |w.db.jobs|
  {
    var job := w.db.jobs[j];
    if job.package >= |w.db.packages| then
      w.(db := WithJob(w.db, j, job.(status := Failed, lastError := Some("package_missing"))), failed := w.failed + 1)
    else
      match out
      case Wrote(id) =>
        w.(db := Record(WithJob(w.db, j, job.(status := Synced, fileId := Some(id))), job.package, Archived),
           synced := w.synced + 1)
      case Raised(category, kind) =>
        if category.Some? && category.value in RECONNECT then w.(degraded := Some("reconnect_required"))
        else if category.Some? && category.value in UNAVAILABLE then w.(degraded := Some("drive_unavailable"))
        else
          var gone := job.(status := Failed, attempts := job.attempts + 1, lastError := Some(kind));
          w.(db := Record(WithJob(w.db, j, gone), job.package, ArchiveFailed),
             failed := w.failed + 1)
  }

  // The loop over the first n selected jobs; it does nothing more once it has stopped early.
  function HandleFirst(db: Db, batch: seq<nat>, outs: seq<Outcome>, n: nat): (w: Work)
    requires n <= |batch| == |outs| && forall i :: 0 <= i < |batch| ==> batch[i] < |db.jobs|
    ensures |w.db.jobs| == |db.jobs| && w.db.packages == db.packages
  {
    if n == 0 then Work(db, 0, 0, None)
    else
      var w := HandleFirst(db, batch, outs, n - 1);
      if w.degraded.Some? then w else Handle(w, batch[n - 1], outs[n - 1])
  }

  // The selection: distinct queued jobs, as many as the limit allows, in any order.
  ghost predicate IsSelection(db: Db, batch: seq<nat>, limit: nat) {
    && (forall i :: 0 <= i < |batch| ==> batch[i] < |db.jobs| && db.jobs[batch[i]].status == Queued)
    && Distinct(batch)
    && |batch| <= limit
    && (|batch| < limit ==> forall j :: 0 <= j < |db.jobs| && db.jobs[j].status == Queued ==> j in batch)
  }

  function NoteConnection(w: Work): Db {
    if w.db.connection.None? then w.db
    else if w.degraded.Some? then w.db.(connection := Some(Connection("error", w.degraded)))
    else if w.synced > 0 then w.db.(connection := Some(Connection("connected", None)))
    else w.db
  }

  function ProcessJobs(db: Db, batch: seq<nat>, outs: seq<Outcome>): Work
    requires |batch| == |outs| && forall i :: 0 <= i < |batch| ==> batch[i] < |db.jobs|
  {
    var w := HandleFirst(db, batch, outs, |batch|);
    w.(db := NoteConnection(w))
  }

  // Without a usable Drive nothing is processed; the connection is flagged if there is a reason to.
  function NoWriter(db: Db, reason: Option<string>): Db {
    if db.connection.Some? && reason.Some? && reason.value != "" && db.connection.value.status != "disconnected"
    then db.(connection := Some(Connection("error", reason)))
    else db
  }

  // -- the service as it updates its tables -------------------------------------------------------

  class Archive {
    const env: Env
    var packages: seq<Package>
    var jobs: seq<Job>
    var ledger: seq<Entry>
    var quarantine: seq<(Id, string)>
    var blobs: map<string, Bytes>
    var connection: Option<Connection>

    ghost function Tables(): Db
      reads this
    {
      Db(packages, jobs, ledger, quarantine, blobs, connection)
    }

    constructor (env: Env, connection: Option<Connection>)
      ensures this.env == env && Tables() == Db([], [], [], [], map[], connection)
    {
      this.env, this.connection := env, connection;
      packages, jobs, ledger, quarantine, blobs := [], [], [], [], map[];
    }

    method IngestResearchPackage(tenant: Id, node: Id, body: Bytes, limit: nat, storeFails: bool) returns (r: Answer)
      modifies this
      ensures (Tables(), r) == Upload(env, old(Tables()), tenant, node, body, limit, storeFails)
    {
      if body == [] {
        return Refused(EmptyPackage);
      }
      if |body| > MAX_PACKAGE_BYTES {
        return Refused(PackageTooLarge);
      }
      var sha := Digest(env.hex(body));
      if |body| > limit {
        return Refused(PackageTooLarge);
      }
      var dup := FindPackage(packages, tenant, sha);
      if dup.Some? {
        return Duplicate(dup.value);
      }
      var o := env.open(body);
      if o.None? {
        return Refused(InvalidPackage);
      }
      var found := env.scan(body);
      if found.Some? {
        quarantine := quarantine + [(tenant, sha)];
        ledger := ledger + [Entry(None, tenant, node, QuarantinedPackage)];
        return Quarantined(found.value);
      }
      if storeFails {
        return Refused(StorageFailed);
      }
      var at := ObjectRef(tenant, node, env.hex(body));
      blobs := blobs[at := body];
      var id := |packages|;
      packages := packages + [Package(tenant, node, sha, o.value.schema, o.value.count, |body|, at)];
      jobs := jobs + [Job(id, tenant, node, Queued, 0, None, None)];
      ledger := ledger + [Entry(Some(id), tenant, node, AcceptedPackage)];
      return Accepted(id);
    }

    method ProcessArchiveJobs(batch: seq<nat>, outs: seq<Outcome>)
      returns (synced: nat, failed: nat, degraded: Option<string>)
      requires |batch| == |outs| && forall i :: 0 <= i < |batch| ==> batch[i] < |jobs|
      modifies this
      ensures Work(Tables(), synced, failed, degraded) == ProcessJobs(old(Tables()), batch, outs)
    {
      synced, failed, degraded := 0, 0, None;
      var i := 0;
      while i < |batch| && degraded.None?
        invariant i <= |batch| && |jobs| == |old(jobs)|
        invariant Work(Tables(), synced, failed, degraded) == HandleFirst(old(Tables()), batch, outs, i)
        decreases |batch| - i
      {
        var j := batch[i];
        var job := jobs[j];
        if job.package >= |packages| {
          jobs := jobs[j := job.(status := Failed, lastError := Some("package_missing"))];
          failed := failed + 1;
        } else {
          var pkg := packages[job.package];
          match outs[i]
          case Raised(category, kind) =>
            if category.Some? && category.value in RECONNECT {
              degraded := Some("reconnect_required");
            } else if category.Some? && category.value in UNAVAILABLE {
              degraded := Some("drive_unavailable");
            } else {
              jobs := jobs[j := job.(status := Failed, attempts := job.attempts + 1, lastError := Some(kind))];
              ledger := ledger + [Entry(Some(job.package), pkg.tenant, pkg.node, ArchiveFailed)];
              failed := failed + 1;
            }
          case Wrote(fileId) =>
            jobs := jobs[j := job.(status := Synced, fileId := Some(fileId))];
            ledger := ledger + [Entry(Some(job.package), pkg.tenant, pkg.node, Archived)];
            synced := synced + 1;
        }
        i := i + 1;
      }
      StoppedStays(old(Tables()), batch, outs, i, |batch|);
      if connection.Some? {
        if degraded.Some? {
          connection := Some(Connection("error", degraded));
        } else if synced > 0 {
          connection := Some(Connection("connected", None));
        }
      }
    }

    method FlagConnection(reason: Option<string>)
      modifies `connection
      ensures Tables() == NoWriter(old(Tables()), reason)
    {
      if connection.Some? && reason.Some? && reason.value != "" && connection.value.status != "disconnected" {
        connection := Some(Connection("error", reason));
      }
    }
  }

  lemma {:induction false} StoppedStays(db: Db, batch: seq<nat>, outs: seq<Outcome>, m: nat, n: nat)
    requires m <= n <= |batch| == |outs| && forall i :: 0 <= i < |batch| ==> batch[i] < |db.jobs|
    requires m == n || HandleFirst(db, batch, outs, m).degraded.Some?
    ensures HandleFirst(db, batch, outs, n) == HandleFirst(db, batch, outs, m)
  {
    if m < n {
      StoppedStays(db, batch, outs, m, n - 1);
    }
  }
}
