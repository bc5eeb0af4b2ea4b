// What an ingest answers and stores, and what a deletion records, said from the request and the tables alone.
module IngestEffects {
  import opened Basics
  import opened Ingest
  import opened IngestTheorems

  // -- ingest -----------------------------------------------------------------------------------------

  // The checks of an ingest come in this order.
  function Place(e: Error): nat {
    match e
    case OversizedBundle => 0 case MissingIdempotencyKey => 1 case InvalidBundle => 2
    case TenantMismatch => 3 case SchemaInvalid => 4 case NotFound => 5
  }

  ghost predicate IsKnown(db: Db, tenant: Id, key: string) {
    exists i :: IsBatchOf(db, i, tenant, key)
  }

  ghost predicate IsBatchOf(db: Db, i: int, tenant: Id, key: string) {
    0 <= i < |db.batches| && db.batches[i].tenant == tenant && db.batches[i].key == key
  }

  // What the error says is wrong with the request; a request with a known key is not opened.
  ghost predicate Applies(env: Env, db: Db, tenant: Id, key: string, body: Bytes, e: Error) {
    var unsealed := env.open(body);
    match e
    case OversizedBundle => |body| > env.maxBytes
    case MissingIdempotencyKey => key == ""
    case InvalidBundle => !IsKnown(db, tenant, key) && unsealed.None?
    case TenantMismatch => !IsKnown(db, tenant, key) && unsealed.Some? && unsealed.value.tenant != Some(tenant)
    case SchemaInvalid =>
      !IsKnown(db, tenant, key) && unsealed.Some?
      && exists i :: 0 <= i < |unsealed.value.records| && unsealed.value.records[i] == None
    case NotFound => false
  }

  // The entry a refused bundle leaves in the log of failures, if any.
  function FailureOf(tenant: Id, node: Id, e: Error): seq<Failure> {
    match e
    case OversizedBundle => [Failure(tenant, node, "oversized_bundle")]
    case InvalidBundle => [Failure(tenant, node, "bundle")]
    case TenantMismatch => [Failure(tenant, node, "tenant_mismatch")]
    case _ => []
  }

  // r has the bundle: one batch, one row for each record in order, one receipt, and the body under its path.
  ghost predicate IsStored(env: Env, db: Db, tenant: Id, node: Id, key: string, body: Bytes, newId: Id, b: Bundle,
                           r: Db, reply: Reply) {
    var pk, path := |db.batches|, env.path(body);
    && reply == Reply(if b.batchId == None then newId else b.batchId.value, |db.receipts|, b.digest, |b.records|)
    && r.batches == db.batches
         + [Batch(reply.batchId, tenant, node, key, |b.records|, b.digest, path, |db.receipts|, false)]
    && r.receipts == db.receipts + [Receipt(tenant, reply.batchId, b.digest, |b.records|)]
    && |r.records| == |db.records| + |b.records| && db.records <= r.records
    && (forall i :: 0 <= i < |b.records| ==> b.records[i].Some? && var x := b.records[i].value;
          r.records[|db.records| + i] == Record(pk, tenant, x.recordId, x.category, x.payloadDigest, false))
    && path in r.blobs && r.blobs[path] == (if path in db.blobs then db.blobs[path] else body)
    && (forall p :: p != path ==> (p in r.blobs <==> p in db.blobs) && (p in db.blobs ==> r.blobs[p] == db.blobs[p]))
    && r.datasets == db.datasets && r.versions == db.versions && r.members == db.members
    && r.failures == db.failures && r.deletions == db.deletions
  }

  lemma KnownMeans(db: Db, tenant: Id, key: string)
    ensures IsKnown(db, tenant, key) <==> FindKey(db.batches, tenant, key).Some?
  {
    if FindKey(db.batches, tenant, key).Some? {
      assert IsBatchOf(db, FindKey(db.batches, tenant, key).value, tenant, key);
    }
    if i :| IsBatchOf(db, i, tenant, key) {
      assert HasKey(db.batches[i], tenant, key);
    }
  }

  // An ingest answers with the first error that applies, and then at most logs a failure. Else, for a known key,
  // it answers with a batch of that key and changes nothing; and for a new one it stores the bundle.
  lemma IngestMeans(env: Env, db: Db, tenant: Id, node: Id, key: string, body: Bytes, newId: Id)
    ensures var (r, answer) := IngestBatch(env, db, tenant, node, key, body, newId);
      && IsFirst(e => Applies(env, db, tenant, key, body, e), Place, if answer.Err? then Some(answer.error) else None)
      && match answer
         case Err(e) => r == db.(failures := db.failures + FailureOf(tenant, node, e))
         case Ok(reply) =>
           if IsKnown(db, tenant, key) then
             r == db && exists i :: IsBatchOf(db, i, tenant, key) && reply == ReplyOf(db.batches[i])
           else
             && env.open(body).Some?
             && IsStored(env, db, tenant, node, key, body, newId, env.open(body).value, r, reply)
  {
    var answer := IngestBatch(env, db, tenant, node, key, body, newId).1;
    var e := if answer.Err? then Some(answer.error) else None;
    forall x: Error ensures Fits(Applies(env, db, tenant, key, body, x), Place, x, e) {
      IngestFits(env, db, tenant, node, key, body, newId, x);
    }
    AllFit(x => Applies(env, db, tenant, key, body, x), Place, e);
    IngestEffect(env, db, tenant, node, key, body, newId);
  }

  lemma IngestFits(env: Env, db: Db, tenant: Id, node: Id, key: string, body: Bytes, newId: Id, x: Error)
    ensures var answer := IngestBatch(env, db, tenant, node, key, body, newId).1;
      Fits(Applies(env, db, tenant, key, body, x), Place, x, if answer.Err? then Some(answer.error) else None)
  {
    KnownMeans(db, tenant, key);
  }

  lemma IngestEffect(env: Env, db: Db, tenant: Id, node: Id, key: string, body: Bytes, newId: Id)
    ensures var (r, answer) := IngestBatch(env, db, tenant, node, key, body, newId);
      match answer
      case Err(e) => r == db.(failures := db.failures + FailureOf(tenant, node, e))
      case Ok(reply) =>
        if IsKnown(db, tenant, key) then
          r == db && exists i :: IsBatchOf(db, i, tenant, key) && reply == ReplyOf(db.batches[i])
        else env.open(body).Some? && IsStored(env, db, tenant, node, key, body, newId, env.open(body).value, r, reply)
  {
    KnownMeans(db, tenant, key);
    assert db.failures + [] == db.failures;
    var (r, answer) := IngestBatch(env, db, tenant, node, key, body, newId);
    var found := FindKey(db.batches, tenant, key);
    if found.Some? {
      assert IsBatchOf(db, found.value, tenant, key);
    } else if answer.Ok? {
      StoreMeans(env, db, tenant, node, key, body, env.open(body).value, newId);
    }
  }

  lemma StoreMeans(env: Env, db: Db, tenant: Id, node: Id, key: string, body: Bytes, b: Bundle, newId: Id)
    requires AllValid(b.records)
    ensures var r := Store(env, db, tenant, node, key, body, b, newId);
      IsStored(env, db, tenant, node, key, body, newId, b, r, ReplyOf(r.batches[|db.batches|]))
  {
    var r := Store(env, db, tenant, node, key, body, b, newId);
    forall i | 0 <= i < |b.records| ensures r.records[|db.records| + i] == RowsFor(|db.batches|, tenant, b.records)[i] {
    }
  }

  // -- deletion ---------------------------------------------------------------------------------------

  ghost function PositionsOf(rs: seq<Record>, pk: nat): set<nat> {
    set j: nat | j < |rs| && rs[j].batch == pk
  }

  lemma {:induction false} RowsAreCounted(rs: seq<Record>, pk: nat)
    ensures RowsOf(rs, pk) == |PositionsOf(rs, pk)|
  {
    if rs != [] {
      RowsAreCounted(rs[..|rs| - 1], pk);
      LastPosition(rs, pk);
    }
  }

  lemma LastPosition(rs: seq<Record>, pk: nat)
    requires rs != []
    ensures var n: nat := |rs| - 1;
      PositionsOf(rs, pk) == PositionsOf(rs[..n], pk) + (if rs[n].batch == pk then {n} else {})
    ensures |rs| - 1 !in PositionsOf(rs[..|rs| - 1], pk)
  {
  }

  // A deletion of a batch is recorded with the number of its rows, deleted before or not; the batch is marked and
  // its bundle dropped. Which rows are marked and which members excluded: DeletionReach. Without a batch it is
  // only recorded.
  lemma DeletionMeans(db: Db, tenant: Id, scope: string, target: Option<Id>, pk: Option<nat>)
    requires Picks(db, tenant, scope, target, pk)
    ensures var r := DeleteBatch(db, tenant, scope, target, pk);
      if pk.None? then r == db.(deletions := db.deletions + [Deletion(tenant, scope, target, 0)])
      else
        var b := db.batches[pk.value];
        && r.deletions == db.deletions + [Deletion(tenant, scope, target, |PositionsOf(db.records, pk.value)|)]
        && r.batches == db.batches[pk.value := b.(deleted := true)]
        && (forall p :: p in r.blobs <==> p in db.blobs && p != b.path)
        && (forall p :: p in r.blobs ==> r.blobs[p] == db.blobs[p])
        && |r.records| == |db.records| && |r.members| == |db.members|
        && (forall j :: 0 <= j < |r.records| ==> r.records[j] == db.records[j].(deleted := r.records[j].deleted))
        && (forall i :: 0 <= i < |r.members| ==> r.members[i] == db.members[i].(excluded := r.members[i].excluded))
        && r.receipts == db.receipts && r.datasets == db.datasets && r.versions == db.versions
        && r.failures == db.failures
  {
    if pk.Some? {
      RowsAreCounted(db.records, pk.value);
    }
  }
}
