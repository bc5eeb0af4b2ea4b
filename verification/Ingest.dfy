// Batch ingestion, deletion and dataset versions: the tables of the ingestion service.
//
// Tables only ever grow, so a row's primary key is its position. Opening a bundle and naming its
// object are arbitrary functions; fresh batch ids are inputs.
module Ingest {
  import opened Basics

  type Bytes = seq<bv8>

  datatype RecordIn = RecordIn(recordId: Id, category: Option<string>, payloadDigest: Option<string>)

  // A bundle that opened: records that are not objects with a record id are None.
  datatype Bundle = Bundle(
    tenant: Option<Id>, batchId: Option<Id>, digest: Option<string>, records: seq<Option<RecordIn>>)

  datatype Env = Env(open: Bytes -> Option<Bundle>, path: Bytes -> string, maxBytes: nat)

  datatype Batch = Batch(
    batchId: Id, tenant: Id, node: Id, key: string, count: nat, digest: Option<string>,
    path: string, receipt: nat, deleted: bool)

  datatype Record = Record(
    batch: nat, tenant: Id, recordId: Id, category: Option<string>, payloadDigest: Option<string>, deleted: bool)

  datatype Receipt = Receipt(tenant: Id, batchId: Id, digest: Option<string>, count: nat)

  datatype Dataset = Dataset(tenant: Id, name: string)

  datatype Version = Version(dataset: nat, number: nat, members: nat)

  // `source` is the record row the member was made from; the program only stores its record id.
  datatype Member = Member(version: nat, recordId: Id, source: nat, excluded: bool)

  datatype Failure = Failure(tenant: Id, node: Id, category: string)

  datatype Deletion = Deletion(tenant: Id, scope: string, target: Option<Id>, records: nat)

  datatype Db = Db(
    batches: seq<Batch>,
    records: seq<Record>,
    receipts: seq<Receipt>,
    datasets: seq<Dataset>,
    versions: seq<Version>,
    members: seq<Member>,
    blobs: map<string, Bytes>,
    failures: seq<Failure>,
    deletions: seq<Deletion>)

  const EMPTY := Db([], [], [], [], [], [], map[], [], [])

  // What the caller gets back for a batch.
  datatype Reply = Reply(batchId: Id, receipt: nat, digest: Option<string>, count: nat)

  datatype Error =
    | OversizedBundle | MissingIdempotencyKey | InvalidBundle | TenantMismatch | SchemaInvalid | NotFound

  datatype Result<+T> = Ok(value: T) | Err(error: Error)

  // -- ingest -----------------------------------------------------------------------------------------

  predicate HasKey(b: Batch, tenant: Id, key: string) { b.tenant == tenant && b.key == key }

  function FindKey(bs: seq<Batch>, tenant: Id, key: string): (r: Option<nat>)
    ensures r.Some? ==> r.value < |bs| && HasKey(bs[r.value], tenant, key)
    ensures r.None? <==> forall i :: 0 <= i < |bs| ==> !HasKey(bs[i], tenant, key)
  {
    if bs == [] then None
    else
      var r := FindKey(bs[..|bs| - 1], tenant, key);
      if r.Some? then r else if HasKey(bs[|bs| - 1], tenant, key) then Some(|bs| - 1) else None
  }

  function ReplyOf(b: Batch): Reply { Reply(b.batchId, b.receipt, b.digest, b.count) }

  predicate AllValid(rs: seq<Option<RecordIn>>) { forall i :: 0 <= i < |rs| ==> rs[i].Some? }

  function RowsFor(pk: nat, tenant: Id, rs: seq<Option<RecordIn>>): (rows: seq<Record>)
    requires AllValid(rs)
    ensures |rows| == |rs|
    ensures forall i :: 0 <= i < |rs| ==>
      rows[i] == Record(pk, tenant, rs[i].value.recordId, rs[i].value.category, rs[i].value.payloadDigest, false)
  {
    seq(|rs|, i requires 0 <= i < |rs| =>
      Record(pk, tenant, rs[i].value.recordId, rs[i].value.category, rs[i].value.payloadDigest, false))
  }

  function Fail(db: Db, tenant: Id, node: Id, category: string): Db {
    db.(failures := db.failures + [Failure(tenant, node, category)])
  }

  function Store(env: Env, db: Db, tenant: Id, node: Id, key: string, body: Bytes, b: Bundle, newId: Id): Db
    requires AllValid(b.records)
  {
    var batchId := if b.batchId.Some? then b.batchId.value else newId;
    db.(
      batches := db.batches
        + [Batch(batchId, tenant, node, key, |b.records|, b.digest, env.path(body), |db.receipts|, false)],
      records := db.records + RowsFor(|db.batches|, tenant, b.records),
      receipts := db.receipts + [Receipt(tenant, batchId, b.digest, |b.records|)],
      blobs := if env.path(body) in db.blobs then db.blobs else db.blobs[env.path(body) := body])
  }

  function IngestBatch(env: Env, db: Db, tenant: Id, node: Id, key: string, body: Bytes, newId: Id)
    : (Db, Result<Reply>)
  {
    if |body| > env.maxBytes then (Fail(db, tenant, node, "oversized_bundle"), Err(OversizedBundle))
    else if key == "" then (db, Err(MissingIdempotencyKey))
    else
      var existing := FindKey(db.batches, tenant, key);
      if existing.Some? then (db, Ok(ReplyOf(db.batches[existing.value])))
      else
        var unsealed := env.open(body);
        if unsealed.None? then (Fail(db, tenant, node, "bundle"), Err(InvalidBundle))
        else
          var b := unsealed.value;
          if b.tenant != Some(tenant) then (Fail(db, tenant, node, "tenant_mismatch"), Err(TenantMismatch))
          else if !AllValid(b.records) then (db, Err(SchemaInvalid))
          else
            var r := Store(env, db, tenant, node, key, body, b, newId);
            (r, Ok(ReplyOf(r.batches[|db.batches|])))
  }

  // -- deletion ---------------------------------------------------------------------------------------

  predicate IsTarget(db: Db, tenant: Id, target: Id, pk: nat) {
    pk < |db.batches| && db.batches[pk].tenant == tenant && db.batches[pk].batchId == target
  }

  // The record ids of every batch, of any tenant, with this batch id.
  ghost function IdsUnder(db: Db, batchId: Id): set<Id> {
    set r | r in db.records && r.batch < |db.batches| && db.batches[r.batch].batchId == batchId :: r.recordId
  }

  function MarkDeleted(rs: seq<Record>, pk: nat): (r: seq<Record>)
    ensures |r| == |rs|
    ensures forall i :: 0 <= i < |rs| ==> r[i] == rs[i].(deleted := rs[i].deleted || rs[i].batch == pk)
  {
    seq(|rs|, i requires 0 <= i < |rs| => rs[i].(deleted := rs[i].deleted || rs[i].batch == pk))
  }

  ghost function Exclude(ms: seq<Member>, ids: set<Id>): (r: seq<Member>)
    ensures |r| == |ms|
    ensures forall i :: 0 <= i < |ms| ==> r[i] == ms[i].(excluded := ms[i].excluded || ms[i].recordId in ids)
  {
    seq(|ms|, i requires 0 <= i < |ms| => ms[i].(excluded := ms[i].excluded || ms[i].recordId in ids))
  }

  ghost function RowsOf(rs: seq<Record>, pk: nat): nat {
    if rs == [] then 0 else RowsOf(rs[..|rs| - 1], pk) + (if rs[|rs| - 1].batch == pk then 1 else 0)
  }

  // pk is the matching batch the database returns first, None if there is no match or the request is
  // not for a batch.
  ghost predicate Picks(db: Db, tenant: Id, scope: string, target: Option<Id>, pk: Option<nat>) {
    if scope == "batch" && target.Some? && target.value != "" && exists i :: IsTarget(db, tenant, target.value, i)
    then pk.Some? && IsTarget(db, tenant, target.value, pk.value)
    else pk.None?
  }

  ghost function DeleteBatch(db: Db, tenant: Id, scope: string, target: Option<Id>, pk: Option<nat>): Db
    requires Picks(db, tenant, scope, target, pk)
  {
    if pk.None? then db.(deletions := db.deletions + [Deletion(tenant, scope, target, 0)])
    else
      var b := db.batches[pk.value];
      db.(
        records := MarkDeleted(db.records, pk.value),
        batches := db.batches[pk.value := b.(deleted := true)],
        blobs := db.blobs - {b.path},
        members := Exclude(db.members, IdsUnder(db, b.batchId)),
        deletions := db.deletions + [Deletion(tenant, scope, target, RowsOf(db.records, pk.value))])
  }

  // -- dataset versions -------------------------------------------------------------------------------

  predicate Eligible(r: Record, tenant: Id) { r.tenant == tenant && r.category == Some("training") && !r.deleted }

  predicate IsMemberOf(rs: seq<Record>, tenant: Id, version: nat, m: Member) {
    && m.version == version && !m.excluded
    && m.source < |rs| && rs[m.source].recordId == m.recordId && Eligible(rs[m.source], tenant)
  }

  function MembersFor(rs: seq<Record>, tenant: Id, version: nat): (ms: seq<Member>)
    ensures forall m :: m in ms ==> IsMemberOf(rs, tenant, version, m)
  {
    if rs == [] then []
    else
      var i := |rs| - 1;
      MembersFor(rs[..i], tenant, version)
      + (if Eligible(rs[i], tenant) then [Member(version, rs[i].recordId, i, false)] else [])
  }

  function MaxVersion(vs: seq<Version>, dataset: nat): (n: nat)
    ensures forall i :: 0 <= i < |vs| && vs[i].dataset == dataset ==> vs[i].number <= n
    ensures n == 0 || exists i :: 0 <= i < |vs| && vs[i].dataset == dataset && vs[i].number == n
  {
    if vs == [] then 0
    else
      var n, v := MaxVersion(vs[..|vs| - 1], dataset), vs[|vs| - 1];
      if v.dataset == dataset && v.number > n then v.number else n
  }

  function CreateVersion(db: Db, tenant: Id, dataset: nat): (Db, Result<nat>) {
    if dataset >= |db.datasets| || db.datasets[dataset].tenant != tenant then (db, Err(NotFound))
    else
      var ms := MembersFor(db.records, tenant, |db.versions|);
      var number := MaxVersion(db.versions, dataset) + 1;
      (db.(versions := db.versions + [Version(dataset, number, |ms|)], members := db.members + ms), Ok(number))
  }

  function CreateDataset(db: Db, tenant: Id, name: string): Db {
    db.(datasets := db.datasets + [Dataset(tenant, name)])
  }

  // -- the service as it updates its tables -------------------------------------------------------

  class IngestionService {
    const env: Env
    var batches: seq<Batch>
    var records: seq<Record>
    var receipts: seq<Receipt>
    var datasets: seq<Dataset>
    var versions: seq<Version>
    var members: seq<Member>
    var blobs: map<string, Bytes>
    var failures: seq<Failure>
    var deletions: seq<Deletion>

    ghost function Tables(): Db
      reads this
    {
      Db(batches, records, receipts, datasets, versions, members, blobs, failures, deletions)
    }

    constructor (env: Env)
      ensures this.env == env && Tables() == EMPTY
    {
      this.env := env;
      batches, records, receipts, datasets, versions := [], [], [], [], [];
      members, blobs, failures, deletions := [], map[], [], [];
    }

    method Ingest(tenant: Id, node: Id, key: string, body: Bytes, newId: Id) returns (r: Result<Reply>)
      modifies this
      ensures (Tables(), r) == IngestBatch(env, old(Tables()), tenant, node, key, body, newId)
    {
      if |body| > env.maxBytes {
        failures := failures + [Failure(tenant, node, "oversized_bundle")];
        return Err(OversizedBundle);
      }
      if key == "" {
        return Err(MissingIdempotencyKey);
      }
      var existing := FindKey(batches, tenant, key);
      if existing.Some? {
        return Ok(ReplyOf(batches[existing.value]));
      }
      var unsealed := env.open(body);
      if unsealed.None? {
        failures := failures + [Failure(tenant, node, "bundle")];
        return Err(InvalidBundle);
      }
      var b := unsealed.value;
      if b.tenant != Some(tenant) {
        failures := failures + [Failure(tenant, node, "tenant_mismatch")];
        return Err(TenantMismatch);
      }
      for i := 0 to |b.records|
        invariant forall j :: 0 <= j < i ==> b.records[j].Some?
      {
        if b.records[i].None? {
          return Err(SchemaInvalid);
        }
      }
      var path := env.path(body);
      if path !in blobs {
        blobs := blobs[path := body];
      }
      var batchId := if b.batchId.Some? then b.batchId.value else newId;
      var pk := |batches|;
      var receipt := |receipts|;
      batches := batches + [Batch(batchId, tenant, node, key, |b.records|, b.digest, path, receipt, false)];
      AddRows(pk, tenant, b.records);
      receipts := receipts + [Receipt(tenant, batchId, b.digest, |b.records|)];
      return Ok(ReplyOf(batches[pk]));
    }

    method AddRows(pk: nat, tenant: Id, rs: seq<Option<RecordIn>>)
      requires AllValid(rs)
      modifies `records
      ensures records == old(records) + RowsFor(pk, tenant, rs)
    {
      for i := 0 to |rs|
        invariant records == old(records) + RowsFor(pk, tenant, rs)[..i]
      {
        var x := rs[i].value;
        records := records + [Record(pk, tenant, x.recordId, x.category, x.payloadDigest, false)];
      }
    }

    // `pick` is the batch the database returns first.
    method RequestDeletion(tenant: Id, scope: string, target: Option<Id>, pick: Option<nat>) returns (deleted: nat)
      requires Picks(Tables(), tenant, scope, target, pick)
      modifies this
      ensures Tables() == DeleteBatch(old(Tables()), tenant, scope, target, pick)
      ensures deleted == if pick.Some? then RowsOf(old(records), pick.value) else 0
    {
      deleted := 0;
      if pick.Some? {
        deleted := DropBatch(pick.value);
      }
      deletions := deletions + [Deletion(tenant, scope, target, deleted)];
    }

    // Deletes the rows of the batch and its bundle, and excludes the members made from its records.
    method DropBatch(pk: nat) returns (n: nat)
      requires pk < |batches|
      modifies this
      ensures n == RowsOf(old(records), pk)
      ensures Tables() == old(Tables()).(
        records := MarkDeleted(old(records), pk),
        batches := old(batches)[pk := old(batches)[pk].(deleted := true)],
        blobs := old(blobs) - {old(batches)[pk].path},
        members := Exclude(old(members), IdsUnder(old(Tables()), old(batches)[pk].batchId)))
    {
      n := MarkRows(pk);
      batches := batches[pk := batches[pk].(deleted := true)];
      SameIds(old(Tables()), Tables(), pk);
      ExcludeMembers(batches[pk].batchId);
      blobs := map p | p in blobs && p != batches[pk].path :: blobs[p];
    }

    method MarkRows(pk: nat) returns (n: nat)
      modifies `records
      ensures records == MarkDeleted(old(records), pk)
      ensures n == RowsOf(old(records), pk)
    {
      n := 0;
      for i := 0 to |records|
        invariant |records| == |old(records)|
        invariant records[i..] == old(records)[i..]
        invariant records[..i] == MarkDeleted(old(records), pk)[..i]
        invariant n == RowsOf(old(records)[..i], pk)
      {
        assert records[i] == old(records)[i];
        assert old(records)[..i + 1][..i] == old(records)[..i];
        if records[i].batch == pk {
          records := records[i := records[i].(deleted := true)];
          n := n + 1;
        }
      }
      assert old(records)[..|old(records)|] == old(records);
    }

    // Excludes every member whose record id occurs in a batch with this batch id.
    method ExcludeMembers(batchId: Id)
      modifies `members
      ensures members == Exclude(old(members), old(IdsUnder(Tables(), batchId)))
    {
      var ids := set r | r in records && r.batch < |batches| && batches[r.batch].batchId == batchId :: r.recordId;
      for i := 0 to |members|
        invariant |members| == |old(members)|
        invariant members[i..] == old(members)[i..]
        invariant members[..i] == Exclude(old(members), ids)[..i]
      {
        assert members[i] == old(members)[i];
        if members[i].recordId in ids {
          members := members[i := members[i].(excluded := true)];
        }
      }
    }

    method NewDataset(tenant: Id, name: string) returns (id: nat)
      modifies this
      ensures Tables() == CreateDataset(old(Tables()), tenant, name) && id == |old(datasets)|
    {
      id := |datasets|;
      datasets := datasets + [Dataset(tenant, name)];
    }

    method NewVersion(tenant: Id, dataset: nat) returns (r: Result<nat>)
      modifies this
      ensures (Tables(), r) == CreateVersion(old(Tables()), tenant, dataset)
    {
      if dataset >= |datasets| || datasets[dataset].tenant != tenant {
        return Err(NotFound);
      }
      var number := MaxVersion(versions, dataset) + 1;
      var version := |versions|;
      var chosen := MembersFor(records, tenant, version);
      versions := versions + [Version(dataset, number, |chosen|)];
      AddMembers(chosen);
      return Ok(number);
    }

    method AddMembers(chosen: seq<Member>)
      modifies `members
      ensures members == old(members) + chosen
    {
      for i := 0 to |chosen|
        invariant members == old(members) + chosen[..i]
      {
        members := members + [chosen[i]];
      }
      assert chosen[..|chosen|] == chosen;
    }
  }

  // Marking records and the batch as deleted does not change which ids belong to a batch id.
  lemma SameIds(a: Db, b: Db, pk: nat)
    requires pk < |a.batches| && b.records == MarkDeleted(a.records, pk)
    requires b.batches == a.batches[pk := a.batches[pk].(deleted := true)]
    ensures forall id :: IdsUnder(a, id) == IdsUnder(b, id)
  {
    forall id ensures IdsUnder(a, id) == IdsUnder(b, id) {
      forall x | x in IdsUnder(a, id) ensures x in IdsUnder(b, id) {
        var r :| r in a.records && r.batch < |a.batches| && a.batches[r.batch].batchId == id && r.recordId == x;
        var i :| 0 <= i < |a.records| && a.records[i] == r;
        assert b.records[i] in b.records;
      }
      forall x | x in IdsUnder(b, id) ensures x in IdsUnder(a, id) {
        var r :| r in b.records && r.batch < |b.batches| && b.batches[r.batch].batchId == id && r.recordId == x;
        var i :| 0 <= i < |b.records| && b.records[i] == r;
        assert a.records[i] in a.records;
      }
    }
  }
}
