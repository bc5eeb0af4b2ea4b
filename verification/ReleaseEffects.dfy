// What each operation of the registry answers and changes, said from its inputs and the tables: which error
// comes first, what is signed with whose seed, and what is stored under which path.
module ReleaseEffects {
  import opened Basics
  import opened Manifests
  import opened Releases
  import opened ReleaseTheorems

  // -- which error comes first ----------------------------------------------------------------------

  // The checks of every operation come in this order.
  function Place(e: Error): nat {
    match e
    case ReleaseExists => 0
    case InvalidArtifactName => 1 case ArtifactTooLarge => 2
    case ArtifactDigestMismatch => 3 case ArtifactSizeMismatch => 4
    case SigningKeyUnknown => 5 case SigningKeyRevoked => 6 case SigningKeyMissing => 7
    case ReleaseNotFound => 8 case ReleaseNotEditable => 9 case ReleaseNotSigned => 10
    case ReleaseHasNoArtifacts => 11 case ArtifactMissing => 12 case ArtifactCorrupt => 12
  }

  function ErrorOf<T>(r: Result<T>): Option<Error> { if r.Err? then Some(r.error) else None }

  // -- creating and revoking ------------------------------------------------------------------------------

  // A release is a draft with nothing signed, unless its version and channel are taken.
  lemma CreateMeans(db: Db, version: string, channel: string, minimum: Option<string>, osSupport: seq<string>,
                    architecture: seq<string>, notes: Option<string>)
    ensures var (r, answer) := Create(db, version, channel, minimum, osSupport, architecture, notes);
      if exists rel :: rel in db.releases && rel.version == version && rel.channel == channel then
        answer == Err(ReleaseExists) && r == db
      else
        answer == Ok(|db.releases|) && r == db.(releases := db.releases
          + [Release(version, channel, Draft, minimum, osSupport, architecture, notes, None, None, None)])
  {
  }

  // A revoked release is current on no channel of its name any more; nothing else changes.
  lemma RevokeMeans(db: Db, id: nat)
    ensures var (r, answer) := Revoke(db, id);
      if id >= |db.releases| then answer == Err(ReleaseNotFound) && r == db
      else
        var channel := db.releases[id].channel;
        && answer == Ok(())
        && r == db.(releases := db.releases[id := db.releases[id].(status := Revoked)], channels := r.channels)
        && (forall c :: (c in r.channels <==> c in db.channels) && (c in db.channels ==>
              r.channels[c] == if c == channel && db.channels[c] == Some(id) then None else db.channels[c]))
  {
  }

  // -- adding an artifact ---------------------------------------------------------------------------

  predicate IsBlank(o: Option<string>) { o == None || o == Some("") }

  const UPPER := "ABCDEFGHIJKLMNOPQRSTUVWXYZ"
  const LOWER := "abcdefghijklmnopqrstuvwxyz"
  const DIGITS := "0123456789"
  const NAME_CHARS := UPPER + LOWER + DIGITS + "._+~-"

  ghost predicate AddFails(env: Env, db: Db, id: nat, u: Upload, e: Error) {
    var name := env.strip(u.name);
    match e
    case InvalidArtifactName =>
      name in {"", ".", ".."} || |name| > 200 || exists i :: 0 <= i < |name| && name[i] !in NAME_CHARS
    case ArtifactTooLarge => |u.data| > env.maxBytes
    case ArtifactDigestMismatch => !IsBlank(u.expectedSha) && env.normDigest(u.expectedSha.value) != env.sha(u.data)
    case ArtifactSizeMismatch => u.expectedSize.Some? && u.expectedSize.value != |u.data|
    case ReleaseNotFound => id >= |db.releases|
    case ReleaseNotEditable => id < |db.releases| && db.releases[id].status in {Published, Revoked}
    case _ => false
  }

  // An artifact row, its blob under the release's directory, and the signature withdrawn.
  ghost predicate IsAdded(env: Env, db: Db, id: nat, u: Upload, r: Db, entry: Entry)
    requires id < |db.releases|
  {
    var rel := db.releases[id];
    var path := "releases/" + rel.channel + "/" + rel.version + "/" + env.strip(u.name);
    && entry.name == env.strip(u.name) && entry.architecture == u.architecture && entry.osFamily == u.osFamily
    && entry.kind == (if IsBlank(u.kind) then env.inferKind(entry.name) else u.kind.value)
    && entry.sha == env.sha(u.data) && entry.size == |u.data|
    && r.artifacts == db.artifacts + [Artifact(id, entry, path)]
    && path in r.blobs && r.blobs[path] == u.data
    && (forall p :: p != path ==> (p in r.blobs <==> p in db.blobs) && (p in db.blobs ==> r.blobs[p] == db.blobs[p]))
    && r.releases == db.releases[id := rel.(signature := None, digest := None, status := Draft)]
    && r.channels == db.channels
  }

  lemma NameCharMeans(c: char)
    ensures NameChar(c) <==> c in NAME_CHARS
  {
    InRow(UPPER, 'A', c);
    InRow(LOWER, 'a', c);
    InRow(DIGITS, '0', c);
  }

  // The characters of the row follow each other.
  lemma InRow(row: string, first: char, c: char)
    requires forall i :: 0 <= i < |row| ==> row[i] as int == first as int + i
    ensures c in row <==> first as int <= c as int < first as int + |row|
  {
    if first as int <= c as int < first as int + |row| {
      assert row[c as int - first as int] == c;
    }
  }

  lemma ValidNameMeans(name: string)
    ensures ValidName(name) <==>
      !(name in {"", ".", ".."} || |name| > 200 || exists i :: 0 <= i < |name| && name[i] !in NAME_CHARS)
  {
    forall i | 0 <= i < |name| ensures NameChar(name[i]) <==> name[i] in NAME_CHARS {
      NameCharMeans(name[i]);
    }
  }

  // An upload answers with the first error that applies and then changes nothing, or else adds the artifact.
  lemma AddMeans(env: Env, db: Db, id: nat, u: Upload)
    ensures var (r, answer) := AddArtifact(env, db, id, u);
      && IsFirst(e => AddFails(env, db, id, u, e), Place, ErrorOf(answer))
      && if answer.Err? then r == db else id < |db.releases| && IsAdded(env, db, id, u, r, answer.value)
  {
    ValidNameMeans(env.strip(u.name));
  }

  // -- signing --------------------------------------------------------------------------------------

  // The seed given with the request, else the key's own, else the configured one.
  predicate IsSeed(explicit: Option<string>, own: Option<string>, fallback: Option<string>, seed: string) {
    && seed != ""
    && (!IsBlank(explicit) ==> explicit == Some(seed))
    && (IsBlank(explicit) && !IsBlank(own) ==> own == Some(seed))
    && (IsBlank(explicit) && IsBlank(own) ==> fallback == Some(seed))
  }

  ghost predicate SignFails(db: Db, id: nat, registry: map<string, SigningKey>, keyId: string, explicit: Option<string>,
                            fallback: Option<string>, e: Error) {
    match e
    case SigningKeyUnknown => keyId !in registry
    case SigningKeyRevoked => keyId in registry && !registry[keyId].active
    case SigningKeyMissing =>
      keyId in registry && IsBlank(explicit) && IsBlank(registry[keyId].seed) && IsBlank(fallback)
    case ReleaseNotFound => id >= |db.releases|
    case ReleaseHasNoArtifacts => forall a :: a in db.artifacts ==> a.release != id
    case _ => false
  }

  // The manifest of the release as it is now: its own fields, and the entries of its artifact rows by name,
  // those of one name in table order.
  ghost predicate IsManifest(db: Db, id: nat, keyId: string, m: Manifest)
    requires id < |db.releases|
  {
    var rel, entries := db.releases[id], EntriesOf(RowsOf(db.artifacts, id));
    && m.version == rel.version && m.channel == rel.channel && m.keyId == Some(keyId)
    && m.minimum == rel.minimum && m.notes == rel.notes
    && Sorted(m.osSupport, Itself) && multiset(m.osSupport) == multiset(rel.osSupport)
    && Sorted(m.architecture, Itself) && multiset(m.architecture) == multiset(rel.architecture)
    && Sorted(m.artifacts, NameOf) && multiset(m.artifacts) == multiset(entries)
    && forall name :: Under(m.artifacts, name, NameOf) == Under(entries, name, NameOf)
  }

  // The release carries the digest of its manifest, and the signature of it under this seed, by this key.
  ghost predicate IsSignedWith(env: Env, db: Db, id: nat, keyId: string, seed: string)
    requires id < |db.releases|
  {
    var rel := db.releases[id];
    && rel.keyId == Some(keyId)
    && exists m :: IsManifest(db, id, keyId, m)
         && rel.digest == Some(env.manifestDigest(m)) && rel.signature == Some(env.sign(seed, m))
  }

  lemma BuiltIsManifest(db: Db, id: nat, keyId: string)
    requires id < |db.releases|
    ensures IsManifest(db, id, keyId, ManifestFor(db.releases[id], Some(keyId), EntriesOf(RowsOf(db.artifacts, id))))
  {
    var rel, entries := db.releases[id], EntriesOf(RowsOf(db.artifacts, id));
    SortFacts(rel.osSupport, Itself);
    SortFacts(rel.architecture, Itself);
    SortFacts(entries, NameOf);
    forall name ensures Under(Sort(entries, NameOf), name, NameOf) == Under(entries, name, NameOf) {
      SortIsStable(entries, name, NameOf);
    }
  }

  // Signing answers with the first error that applies and then changes nothing; else the release becomes a
  // candidate, signed with an active key of the registry, under the first seed at hand.
  lemma SignMeans(env: Env, db: Db, id: nat, registry: map<string, SigningKey>, keyId: string, explicit: Option<string>,
                  fallback: Option<string>)
    ensures var (r, answer) := Sign(env, db, id, registry, keyId, explicit, fallback);
      && IsFirst(e => SignFails(db, id, registry, keyId, explicit, fallback, e), Place, ErrorOf(answer))
      && if answer.Err? then r == db else IsSigning(env, db, id, registry, keyId, explicit, fallback, r, answer.value)
  {
    var answer := Sign(env, db, id, registry, keyId, explicit, fallback).1;
    forall x: Error ensures Fits(SignFails(db, id, registry, keyId, explicit, fallback, x), Place, x, ErrorOf(answer)) {
      SignFits(env, db, id, registry, keyId, explicit, fallback, x);
    }
    AllFit(x => SignFails(db, id, registry, keyId, explicit, fallback, x), Place, ErrorOf(answer));
    if answer.Ok? {
      SignEffect(env, db, id, registry, keyId, explicit, fallback);
    }
  }

  lemma SignFits(env: Env, db: Db, id: nat, registry: map<string, SigningKey>, keyId: string, explicit: Option<string>,
                 fallback: Option<string>, x: Error)
    ensures var answer := Sign(env, db, id, registry, keyId, explicit, fallback).1;
      Fits(SignFails(db, id, registry, keyId, explicit, fallback, x), Place, x, ErrorOf(answer))
  {
    if x == ReleaseHasNoArtifacts {
      NoRowsMeans(db.artifacts, id);
    }
    SignError(env, db, id, registry, keyId, explicit, fallback);
  }

  // The chain of its checks.
  lemma SignError(env: Env, db: Db, id: nat, registry: map<string, SigningKey>, keyId: string, explicit: Option<string>,
                  fallback: Option<string>)
    ensures ErrorOf(Sign(env, db, id, registry, keyId, explicit, fallback).1) ==
      if keyId !in registry then Some(SigningKeyUnknown)
      else if !registry[keyId].active then Some(SigningKeyRevoked)
      else if IsBlank(explicit) && IsBlank(registry[keyId].seed) && IsBlank(fallback) then Some(SigningKeyMissing)
      else if id >= |db.releases| then Some(ReleaseNotFound)
      else if RowsOf(db.artifacts, id) == [] then Some(ReleaseHasNoArtifacts)
      else None
  {
  }

  ghost predicate IsSigning(env: Env, db: Db, id: nat, registry: map<string, SigningKey>, keyId: string,
                            explicit: Option<string>, fallback: Option<string>, r: Db, digest: string) {
    && id < |db.releases| && id < |r.releases| && keyId in registry && registry[keyId].active
    && (exists seed :: IsSeed(explicit, registry[keyId].seed, fallback, seed) && IsSignedWith(env, r, id, keyId, seed))
    && r.releases[id].digest == Some(digest)
    && r == db.(releases := db.releases[id := db.releases[id].(
         digest := r.releases[id].digest, signature := r.releases[id].signature, keyId := Some(keyId),
         status := Candidate)])
  }

  lemma SignEffect(env: Env, db: Db, id: nat, registry: map<string, SigningKey>, keyId: string,
                   explicit: Option<string>, fallback: Option<string>)
    requires Sign(env, db, id, registry, keyId, explicit, fallback).1.Ok?
    ensures var (r, answer) := Sign(env, db, id, registry, keyId, explicit, fallback);
      IsSigning(env, db, id, registry, keyId, explicit, fallback, r, answer.value)
  {
    var r := Sign(env, db, id, registry, keyId, explicit, fallback).0;
    var seed := ResolveSeed(explicit, registry[keyId].seed, fallback).value;
    SignsManifest(env, db, id, keyId, seed, r);
    assert IsSeed(explicit, registry[keyId].seed, fallback, seed);
  }

  lemma SignsManifest(env: Env, db: Db, id: nat, keyId: string, seed: string, r: Db)
    requires id < |db.releases|
    requires var m := ManifestFor(db.releases[id], Some(keyId), EntriesOf(RowsOf(db.artifacts, id)));
      r == db.(releases := db.releases[id := db.releases[id].(
        digest := Some(env.manifestDigest(m)), signature := Some(env.sign(seed, m)), keyId := Some(keyId),
        status := Candidate)])
    ensures IsSignedWith(env, r, id, keyId, seed)
  {
    var m := ManifestFor(db.releases[id], Some(keyId), EntriesOf(RowsOf(db.artifacts, id)));
    BuiltIsManifest(r, id, keyId);
    assert IsManifest(r, id, keyId, m);
  }

  lemma NoRowsMeans(artifacts: seq<Artifact>, id: nat)
    ensures RowsOf(artifacts, id) == [] <==> forall a :: a in artifacts ==> a.release != id
  {
    if RowsOf(artifacts, id) != [] {
      assert RowsOf(artifacts, id)[0] in RowsOf(artifacts, id);
    }
  }

  // -- who signed, over runs --------------------------------------------------------------------------

  // The k-th operation signed release i with this key and seed.
  ghost predicate SignedBy(ops: seq<Op>, k: int, i: nat, keyId: string, seed: string) {
    && 0 <= k < |ops| && ops[k].DoSign? && ops[k].id == i && ops[k].keyId == keyId
    && keyId in ops[k].registry && ops[k].registry[keyId].active
    && IsSeed(ops[k].explicit, ops[k].registry[keyId].seed, ops[k].fallback, seed)
  }

  // Whatever has been done, a signature in the table was made by a signing operation, with a key that was then
  // active and the seed it resolved to, and it is the signature of the manifest as it is now.
  lemma {:induction false} SignatureHasSigner(env: Env, ops: seq<Op>, i: nat)
    requires i < |Run(env, ops).releases| && Run(env, ops).releases[i].signature.Some?
    ensures exists k, keyId, seed ::
      SignedBy(ops, k, i, keyId, seed) && IsSignedWith(env, Run(env, ops), i, keyId, seed)
  {
    var front, op := ops[..|ops| - 1], ops[|ops| - 1];
    var db, r := Run(env, front), Run(env, ops);
    if op.DoSign? && op.id == i && r != db {
      SignMeans(env, db, i, op.registry, op.keyId, op.explicit, op.fallback);
      var seed :| IsSeed(op.explicit, op.registry[op.keyId].seed, op.fallback, seed)
        && IsSignedWith(env, r, i, op.keyId, seed);
      assert SignedBy(ops, |ops| - 1, i, op.keyId, seed);
    } else {
      StillSigned(env, db, op, i);
      SignatureHasSigner(env, front, i);
      var k, keyId, seed :| SignedBy(front, k, i, keyId, seed) && IsSignedWith(env, db, i, keyId, seed);
      SignedStays(env, db, op, i, keyId, seed);
      assert SignedBy(ops, k, i, keyId, seed);
    }
  }

  // What another operation leaves of a signed release, and of its rows.
  lemma StillSigned(env: Env, db: Db, op: Op, i: nat)
    requires i < |Step(env, db, op).releases| && Step(env, db, op).releases[i].signature.Some?
    requires !(op.DoSign? && op.id == i && Step(env, db, op) != db)
    ensures i < |db.releases|
    ensures Step(env, db, op).releases[i] == db.releases[i].(status := Step(env, db, op).releases[i].status)
    ensures RowsOf(Step(env, db, op).artifacts, i) == RowsOf(db.artifacts, i)
  {
    var r := Step(env, db, op);
    if op.DoAdd? && r != db {
      AddMeans(env, db, op.id, op.upload);
      RowsAppend(db.artifacts, r.artifacts[|db.artifacts|], i);
    }
  }

  lemma SignedStays(env: Env, db: Db, op: Op, i: nat, keyId: string, seed: string)
    requires i < |Step(env, db, op).releases| && Step(env, db, op).releases[i].signature.Some?
    requires !(op.DoSign? && op.id == i && Step(env, db, op) != db)
    requires i < |db.releases| && IsSignedWith(env, db, i, keyId, seed)
    ensures IsSignedWith(env, Step(env, db, op), i, keyId, seed)
  {
    StillSigned(env, db, op, i);
    var m :| IsManifest(db, i, keyId, m) && db.releases[i].digest == Some(env.manifestDigest(m))
      && db.releases[i].signature == Some(env.sign(seed, m));
    assert IsManifest(Step(env, db, op), i, keyId, m);
  }

  // -- publishing -------------------------------------------------------------------------------------

  // The artifact at position k is the first of the release whose blob is not as recorded.
  ghost predicate IsFirstDefect(env: Env, db: Db, rows: seq<Artifact>, k: int) {
    0 <= k < |rows| && !IsWhole(env, db, rows[k]) && forall j :: 0 <= j < k ==> IsWhole(env, db, rows[j])
  }

  ghost predicate IsWhole(env: Env, db: Db, a: Artifact) {
    a.path in db.blobs && env.sha(db.blobs[a.path]) == a.entry.sha && |db.blobs[a.path]| == a.entry.size
  }

  ghost predicate PublishFails(env: Env, db: Db, id: nat, e: Error) {
    IsUnready(db, id, e) || IsDefective(env, db, RowsOf(db.artifacts, id), e)
  }

  ghost predicate IsUnready(db: Db, id: nat, e: Error) {
    match e
    case ReleaseNotFound => id >= |db.releases|
    case ReleaseNotSigned =>
      id < |db.releases| && (IsBlank(db.releases[id].signature) || IsBlank(db.releases[id].digest))
    case ReleaseHasNoArtifacts => forall a :: a in db.artifacts ==> a.release != id
    case _ => false
  }

  ghost predicate IsDefective(env: Env, db: Db, rows: seq<Artifact>, e: Error) {
    exists k :: IsFirstDefect(env, db, rows, k)
      && e == if rows[k].path in db.blobs then ArtifactCorrupt else ArtifactMissing
  }

  lemma {:induction false} DefectMeans(env: Env, db: Db, rows: seq<Artifact>)
    ensures match FirstDefect(env, db, rows)
      case None => forall k :: 0 <= k < |rows| ==> IsWhole(env, db, rows[k])
      case Some(e) => IsDefective(env, db, rows, e)
  {
    if rows != [] {
      var front := rows[..|rows| - 1];
      var e := FirstDefect(env, db, front);
      DefectMeans(env, db, front);
      if e.Some? {
        FrontDefect(env, db, rows, e.value);
      } else if !IsWhole(env, db, rows[|rows| - 1]) {
        assert IsFirstDefect(env, db, rows, |rows| - 1);
      }
    }
  }

  lemma FrontDefect(env: Env, db: Db, rows: seq<Artifact>, e: Error)
    requires rows != [] && IsDefective(env, db, rows[..|rows| - 1], e)
    ensures IsDefective(env, db, rows, e)
  {
    var front := rows[..|rows| - 1];
    var k :| IsFirstDefect(env, db, front, k)
      && e == if front[k].path in db.blobs then ArtifactCorrupt else ArtifactMissing;
    assert IsFirstDefect(env, db, rows, k);
  }

  lemma DefectIff(env: Env, db: Db, rows: seq<Artifact>, e: Error)
    ensures IsDefective(env, db, rows, e) <==> FirstDefect(env, db, rows) == Some(e)
    ensures IsDefective(env, db, rows, e) ==> Place(e) == 12
  {
    DefectMeans(env, db, rows);
    if IsDefective(env, db, rows, e) {
      var k :| IsFirstDefect(env, db, rows, k)
        && e == if rows[k].path in db.blobs then ArtifactCorrupt else ArtifactMissing;
      assert FirstDefect(env, db, rows).Some?;
      var j :| IsFirstDefect(env, db, rows, j) && FirstDefect(env, db, rows).value
        == if rows[j].path in db.blobs then ArtifactCorrupt else ArtifactMissing;
      assert j == k;
    }
  }

  // Publishing answers with the first error that applies and then changes nothing; else the release is published,
  // and current on its channel.
  lemma PublishMeans(env: Env, db: Db, id: nat)
    ensures var (r, answer) := Publish(env, db, id);
      && IsFirst(e => PublishFails(env, db, id, e), Place, ErrorOf(answer))
      && if answer.Err? then r == db
         else
           && id < |db.releases|
           && r == db.(releases := db.releases[id := db.releases[id].(status := Published)],
                       channels := db.channels[db.releases[id].channel := Some(id)])
  {
    var answer := Publish(env, db, id).1;
    forall x: Error ensures Fits(PublishFails(env, db, id, x), Place, x, ErrorOf(answer)) {
      PublishFits(env, db, id, x);
    }
    AllFit(x => PublishFails(env, db, id, x), Place, ErrorOf(answer));
  }

  lemma PublishFits(env: Env, db: Db, id: nat, x: Error)
    ensures Fits(PublishFails(env, db, id, x), Place, x, ErrorOf(Publish(env, db, id).1))
  {
    var defect := FirstDefect(env, db, RowsOf(db.artifacts, id));
    DefectIff(env, db, RowsOf(db.artifacts, id), x);
    if defect.Some? {
      DefectIff(env, db, RowsOf(db.artifacts, id), defect.value);
    }
    GuardFits(env, db, id, x, defect);
  }

  lemma GuardFits(env: Env, db: Db, id: nat, x: Error, defect: Option<Error>)
    requires defect == FirstDefect(env, db, RowsOf(db.artifacts, id)) && (defect.Some? ==> Place(defect.value) == 12)
    ensures Fits(IsUnready(db, id, x) || defect == Some(x), Place, x, ErrorOf(Publish(env, db, id).1))
  {
    PublishError(env, db, id);
    UnreadyMeans(db, id, x, RowsOf(db.artifacts, id) == []);
  }

  lemma UnreadyMeans(db: Db, id: nat, x: Error, empty: bool)
    requires empty <==> RowsOf(db.artifacts, id) == []
    ensures IsUnready(db, id, x) <==>
      || (x == ReleaseNotFound && id >= |db.releases|)
      || (x == ReleaseNotSigned && id < |db.releases|
          && (IsBlank(db.releases[id].signature) || IsBlank(db.releases[id].digest)))
      || (x == ReleaseHasNoArtifacts && empty)
  {
    if x == ReleaseHasNoArtifacts {
      NoRowsMeans(db.artifacts, id);
    }
  }

  // The chain of its checks.
  lemma PublishError(env: Env, db: Db, id: nat)
    ensures ErrorOf(Publish(env, db, id).1) ==
      if id >= |db.releases| then Some(ReleaseNotFound)
      else if IsBlank(db.releases[id].signature) || IsBlank(db.releases[id].digest) then Some(ReleaseNotSigned)
      else if RowsOf(db.artifacts, id) == [] then Some(ReleaseHasNoArtifacts)
      else FirstDefect(env, db, RowsOf(db.artifacts, id))
  {
  }
}
