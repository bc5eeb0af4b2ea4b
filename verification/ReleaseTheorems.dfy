// What the release registry keeps over any order of create, add, sign, publish and revoke.
module ReleaseTheorems {
  import opened Basics
  import opened Manifests
  import opened Paths
  import opened Releases

  // -- object paths -----------------------------------------------------------------------------------

  // The directory of a release's artifacts.
  function Directory(channel: string, version: string): string { channel + "/" + version }

  // Two artifacts share an object path exactly when they share their name and the releases their directory.
  lemma PathsMeetIff(c1: string, v1: string, n1: string, c2: string, v2: string, n2: string)
    requires ValidName(n1) && ValidName(n2)
    ensures ObjectPath(c1, v1, n1) == ObjectPath(c2, v2, n2) <==> n1 == n2 && Directory(c1, v1) == Directory(c2, v2)
  {
    var p1, p2 := ObjectPath(c1, v1, n1), ObjectPath(c2, v2, n2);
    assert p1 == "releases/" + Directory(c1, v1) + "/" + n1 && p2 == "releases/" + Directory(c2, v2) + "/" + n2;
    if p1 == p2 {
      LastSegment("releases/" + Directory(c1, v1), "releases/" + Directory(c2, v2), n1, n2);
      assert Directory(c1, v1) == ("releases/" + Directory(c1, v1))[|"releases/"|..];
      assert Directory(c2, v2) == ("releases/" + Directory(c2, v2))[|"releases/"|..];
    }
  }

  // Releases whose channels have no slash (or whose versions have none) never share a directory.
  lemma DirectoriesDiffer(c1: string, v1: string, c2: string, v2: string)
    requires Directory(c1, v1) == Directory(c2, v2)
    requires (SlashFree(c1) && SlashFree(c2)) || (SlashFree(v1) && SlashFree(v2))
    ensures c1 == c2 && v1 == v2
  {
    if SlashFree(c1) && SlashFree(c2) {
      FirstSegment(c1, c2, v1, v2);
    } else {
      LastSegment(c1, c2, v1, v2);
    }
  }

  // -- the invariant --------------------------------------------------------------------------------

  // A stored signature and digest cover the manifest rebuilt from the current artifact rows.
  ghost predicate Covered(env: Env, db: Db, i: nat)
    requires i < |db.releases|
  {
    var rel := db.releases[i];
    && (rel.signature.Some? <==> rel.digest.Some?)
    && (rel.signature.Some? ==>
          && rel.keyId.Some?
          && rel.digest.value == env.manifestDigest(BuildManifest(db, i))
          && exists seed :: rel.signature.value == env.sign(seed, BuildManifest(db, i)))
  }

  ghost predicate AllIntact(env: Env, db: Db, i: nat) {
    forall a :: a in db.artifacts && a.release == i ==> Intact(env, db, a)
  }

  ghost predicate PublishedOk(env: Env, db: Db, i: nat)
    requires i < |db.releases|
  {
    db.releases[i].status == Published ==>
      && Given(db.releases[i].signature) && Given(db.releases[i].digest)
      && RowsOf(db.artifacts, i) != []
      && AllIntact(env, db, i)
  }

  ghost predicate ArtifactOk(db: Db, a: Artifact) {
    && a.release < |db.releases|
    && ValidName(a.entry.name)
    && a.path == ObjectPath(db.releases[a.release].channel, db.releases[a.release].version, a.entry.name)
  }

  function DirectoryOf(rel: Release): string { Directory(rel.channel, rel.version) }

  ghost predicate Inv(env: Env, db: Db) {
    && (forall i, j :: 0 <= i < j < |db.releases| ==>
          DirectoryOf(db.releases[i]) != DirectoryOf(db.releases[j]))
    && (forall i {:trigger Covered(env, db, i)} :: 0 <= i < |db.releases| ==> Covered(env, db, i))
    && (forall i {:trigger PublishedOk(env, db, i)} :: 0 <= i < |db.releases| ==> PublishedOk(env, db, i))
    && (forall a {:trigger ArtifactOk(db, a)} :: a in db.artifacts ==> ArtifactOk(db, a))
    && (forall c :: c in db.channels && db.channels[c].Some? ==>
          db.channels[c].value < |db.releases| && db.releases[db.channels[c].value].channel == c)
  }

  // -- each operation keeps it ------------------------------------------------------------------------

  // Changing only the status, signature and key of one release, or only appending releases, leaves
  // the others as they were.
  lemma OthersStay(env: Env, db: Db, r: Db, i: nat)
    requires i < |db.releases| && i < |r.releases| && r.artifacts == db.artifacts && r.blobs == db.blobs
    requires r.releases[i] == db.releases[i] && Covered(env, db, i) && PublishedOk(env, db, i)
    ensures Covered(env, r, i) && PublishedOk(env, r, i)
  {
    assert BuildManifest(r, i) == BuildManifest(db, i);
    if db.releases[i].status == Published {
      forall a | a in r.artifacts && a.release == i ensures Intact(env, r, a) {
        assert Intact(env, db, a);
      }
    }
  }

  lemma CreateKeeps(env: Env, db: Db, version: string, channel: string, minimum: Option<string>,
                    osSupport: seq<string>, architecture: seq<string>, notes: Option<string>)
    requires Inv(env, db) && forall rel :: rel in db.releases && DirectoryOf(rel) == Directory(channel, version) ==>
      rel.channel == channel && rel.version == version
    ensures Inv(env, Create(db, version, channel, minimum, osSupport, architecture, notes).0)
  {
    var r := Create(db, version, channel, minimum, osSupport, architecture, notes).0;
    if r != db {
      forall i | 0 <= i < |r.releases| ensures Covered(env, r, i) && PublishedOk(env, r, i) {
        if i < |db.releases| {
          assert Covered(env, db, i) && PublishedOk(env, db, i);
          OthersStay(env, db, r, i);
        }
      }
      forall a | a in r.artifacts ensures ArtifactOk(r, a) {
        assert ArtifactOk(db, a);
      }
    }
  }

  lemma RowsAppend(artifacts: seq<Artifact>, a: Artifact, id: nat)
    ensures RowsOf(artifacts + [a], id) == RowsOf(artifacts, id) + (if a.release == id then [a] else [])
  {
    assert (artifacts + [a])[..|artifacts|] == artifacts;
  }

  // The blob written for one release is no other release's.
  lemma AddLeavesOthers(env: Env, db: Db, id: nat, u: Upload, i: nat)
    requires Inv(env, db) && AddArtifact(env, db, id, u).1.Ok? && i < |db.releases| && i != id
    ensures Covered(env, AddArtifact(env, db, id, u).0, i) && PublishedOk(env, AddArtifact(env, db, id, u).0, i)
  {
    var r := AddArtifact(env, db, id, u).0;
    var added := r.artifacts[|db.artifacts|];
    assert r.artifacts == db.artifacts + [added];
    RowsAppend(db.artifacts, added, i);
    assert Covered(env, db, i) && PublishedOk(env, db, i);
    assert RowsOf(r.artifacts, i) == RowsOf(db.artifacts, i);
    assert BuildManifest(r, i) == BuildManifest(db, i);
    if db.releases[i].status == Published {
      forall a | a in r.artifacts && a.release == i ensures Intact(env, r, a) {
        assert a in db.artifacts;
        assert Intact(env, db, a) && ArtifactOk(db, a);
        var x, y := db.releases[i], db.releases[id];
        PathsMeetIff(x.channel, x.version, a.entry.name, y.channel, y.version, added.entry.name);
      }
    }
  }

  lemma AddKeeps(env: Env, db: Db, id: nat, u: Upload)
    requires Inv(env, db)
    ensures Inv(env, AddArtifact(env, db, id, u).0)
  {
    var (r, res) := AddArtifact(env, db, id, u);
    if res.Ok? {
      forall i | 0 <= i < |r.releases| ensures Covered(env, r, i) && PublishedOk(env, r, i) {
        if i != id {
          AddLeavesOthers(env, db, id, u, i);
        }
      }
      forall a | a in r.artifacts ensures ArtifactOk(r, a) {
        if a in db.artifacts {
          assert ArtifactOk(db, a);
        }
      }
    }
  }

  // A change of release id that leaves its identity alone, and everything else as it was.
  ghost predicate Restated(db: Db, r: Db, id: nat) {
    && id < |db.releases| && |r.releases| == |db.releases|
    && r.artifacts == db.artifacts && r.blobs == db.blobs
    && (forall i :: 0 <= i < |db.releases| && i != id ==> r.releases[i] == db.releases[i])
    && r.releases[id].version == db.releases[id].version && r.releases[id].channel == db.releases[id].channel
  }

  lemma RestatedKeeps(env: Env, db: Db, r: Db, id: nat)
    requires Inv(env, db) && Restated(db, r, id) && Covered(env, r, id) && PublishedOk(env, r, id)
    requires forall c :: c in r.channels && r.channels[c].Some? ==>
      r.channels[c].value < |r.releases| && r.releases[r.channels[c].value].channel == c
    ensures Inv(env, r)
  {
    forall i | 0 <= i < |r.releases| ensures Covered(env, r, i) && PublishedOk(env, r, i) {
      if i != id {
        assert Covered(env, db, i) && PublishedOk(env, db, i);
        OthersStay(env, db, r, i);
      }
    }
    forall a | a in r.artifacts ensures ArtifactOk(r, a) {
      assert ArtifactOk(db, a);
    }
  }

  lemma SignKeeps(env: Env, db: Db, id: nat, registry: map<string, SigningKey>, keyId: string,
                  explicit: Option<string>, fallback: Option<string>)
    requires Inv(env, db)
    ensures Inv(env, Sign(env, db, id, registry, keyId, explicit, fallback).0)
  {
    var (r, res) := Sign(env, db, id, registry, keyId, explicit, fallback);
    if res.Ok? {
      RestatedKeeps(env, db, r, id);
    }
  }

  lemma PublishKeeps(env: Env, db: Db, id: nat)
    requires Inv(env, db)
    ensures Inv(env, Publish(env, db, id).0)
  {
    var (r, res) := Publish(env, db, id);
    if res.Ok? {
      assert Covered(env, db, id);
      assert BuildManifest(r, id) == BuildManifest(db, id);
      forall a | a in r.artifacts && a.release == id ensures Intact(env, r, a) {
        assert a in RowsOf(db.artifacts, id);
        assert Intact(env, db, a);
      }
      RestatedKeeps(env, db, r, id);
    }
  }

  lemma RevokeKeeps(env: Env, db: Db, id: nat)
    requires Inv(env, db)
    ensures Inv(env, Revoke(db, id).0)
  {
    var (r, res) := Revoke(db, id);
    if res.Ok? {
      assert Covered(env, db, id);
      assert BuildManifest(r, id) == BuildManifest(db, id);
      RestatedKeeps(env, db, r, id);
    }
  }

  // -- runs -------------------------------------------------------------------------------------------

  datatype Op =
    | DoCreate(version: string, channel: string, minimum: Option<string>, osSupport: seq<string>,
               architecture: seq<string>, notes: Option<string>)
    | DoAdd(id: nat, upload: Upload)
    | DoSign(id: nat, registry: map<string, SigningKey>, keyId: string, explicit: Option<string>,
             fallback: Option<string>)
    | DoPublish(id: nat)
    | DoRevoke(id: nat)

  ghost function Step(env: Env, db: Db, op: Op): Db {
    match op
    case DoCreate(v, c, m, o, a, n) => Create(db, v, c, m, o, a, n).0
    case DoAdd(i, u) => AddArtifact(env, db, i, u).0
    case DoSign(i, r, k, e, f) => Sign(env, db, i, r, k, e, f).0
    case DoPublish(i) => Publish(env, db, i).0
    case DoRevoke(i) => Revoke(db, i).0
  }

  ghost function Run(env: Env, ops: seq<Op>): Db {
    if ops == [] then EMPTY else Step(env, Run(env, ops[..|ops| - 1]), ops[|ops| - 1])
  }

  // No two of the releases that are created share a directory.
  ghost predicate Apart(ops: seq<Op>) {
    forall p, q :: p in ops && q in ops && p.DoCreate? && q.DoCreate? ==>
      Directory(p.channel, p.version) != Directory(q.channel, q.version) ||
      (p.channel == q.channel && p.version == q.version)
  }

  // The operation creates the release.
  ghost predicate Creates(op: Op, rel: Release) {
    op.DoCreate? && op.channel == rel.channel && op.version == rel.version
  }

  lemma {:induction false} ReleasesWereCreated(env: Env, ops: seq<Op>, i: nat)
    requires i < |Run(env, ops).releases|
    ensures exists op :: op in ops && Creates(op, Run(env, ops).releases[i])
  {
    var front, last := ops[..|ops| - 1], ops[|ops| - 1];
    var db := Run(env, front);
    StepCreates(env, db, last, i);
    assert last in ops;
    if !Creates(last, Run(env, ops).releases[i]) {
      ReleasesWereCreated(env, front, i);
      var op :| op in front && Creates(op, db.releases[i]);
      assert op in ops && Creates(op, Run(env, ops).releases[i]);
    }
  }

  lemma StepCreates(env: Env, db: Db, op: Op, i: nat)
    requires i < |Step(env, db, op).releases|
    ensures var rel := Step(env, db, op).releases[i];
      || Creates(op, rel)
      || (i < |db.releases| && rel.channel == db.releases[i].channel && rel.version == db.releases[i].version)
  {
    match op
    case DoCreate(_, _, _, _, _, _) =>
    case DoAdd(_, _) =>
    case DoSign(_, _, _, _, _) =>
    case _ =>
  }

  lemma {:induction false} RunKeeps(env: Env, ops: seq<Op>)
    requires Apart(ops)
    ensures Inv(env, Run(env, ops))
  {
    if ops != [] {
      RunKeeps(env, ops[..|ops| - 1]);
      var db := Run(env, ops[..|ops| - 1]);
      assert ops[|ops| - 1] in ops;
      match ops[|ops| - 1]
      case DoCreate(v, c, m, o, a, n) =>
        forall rel | rel in db.releases && DirectoryOf(rel) == Directory(c, v)
          ensures rel.channel == c && rel.version == v
        {
          var i :| 0 <= i < |db.releases| && db.releases[i] == rel;
          ReleasesWereCreated(env, ops[..|ops| - 1], i);
        }
        CreateKeeps(env, db, v, c, m, o, a, n);
      case DoAdd(i, u) => AddKeeps(env, db, i, u);
      case DoSign(i, r, k, e, f) => SignKeeps(env, db, i, r, k, e, f);
      case DoPublish(i) => PublishKeeps(env, db, i);
      case DoRevoke(i) => RevokeKeeps(env, db, i);
    }
  }

  // After any run, a stored signature and digest cover the manifest rebuilt from the current rows in
  // any order the database lists them in, when rows with the same name are identical.
  lemma SignatureCoversRebuild(env: Env, ops: seq<Op>, i: nat, rows: seq<Artifact>)
    requires Apart(ops)
    requires var db := Run(env, ops);
      && i < |db.releases| && db.releases[i].signature.Some?
      && multiset(EntriesOf(rows)) == multiset(EntriesOf(RowsOf(db.artifacts, i)))
      && KeyDetermines(EntriesOf(RowsOf(db.artifacts, i)), NameOf)
    ensures var rel := Run(env, ops).releases[i];
      && rel.digest == Some(env.manifestDigest(ManifestFor(rel, rel.keyId, EntriesOf(rows))))
      && exists seed :: rel.signature == Some(env.sign(seed, ManifestFor(rel, rel.keyId, EntriesOf(rows))))
  {
    var db := Run(env, ops);
    RunKeeps(env, ops);
    RebuiltInAnyOrder(db, i, rows);
    CoveredMeans(env, db, i);
  }

  lemma RebuiltInAnyOrder(db: Db, i: nat, rows: seq<Artifact>)
    requires i < |db.releases|
    requires multiset(EntriesOf(rows)) == multiset(EntriesOf(RowsOf(db.artifacts, i)))
    requires KeyDetermines(EntriesOf(RowsOf(db.artifacts, i)), NameOf)
    ensures ManifestFor(db.releases[i], db.releases[i].keyId, EntriesOf(rows)) == BuildManifest(db, i)
  {
    SortIgnoresOrderIff(EntriesOf(RowsOf(db.artifacts, i)), NameOf);
    assert Sort(EntriesOf(rows), NameOf) == Sort(EntriesOf(RowsOf(db.artifacts, i)), NameOf);
  }

  lemma CoveredMeans(env: Env, db: Db, i: nat)
    requires Inv(env, db) && i < |db.releases| && db.releases[i].signature.Some?
    ensures db.releases[i].digest == Some(env.manifestDigest(BuildManifest(db, i)))
    ensures exists seed :: db.releases[i].signature == Some(env.sign(seed, BuildManifest(db, i)))
  {
    assert Covered(env, db, i);
    var seed :| db.releases[i].signature.value == env.sign(seed, BuildManifest(db, i));
    assert db.releases[i].signature == Some(env.sign(seed, BuildManifest(db, i)));
  }

  // A channel only ever serves a release of its own that is published, signed, not empty and whose
  // every artifact is in the store, byte for byte as recorded.
  lemma ChannelServesIntact(env: Env, ops: seq<Op>, channel: string)
    requires Apart(ops) && ChannelRelease(Run(env, ops), channel).Some?
    ensures var db := Run(env, ops);
      var i := ChannelRelease(db, channel).value;
      && db.releases[i].channel == channel && db.releases[i].status == Published
      && Given(db.releases[i].signature) && Given(db.releases[i].digest)
      && RowsOf(db.artifacts, i) != []
      && forall a :: a in RowsOf(db.artifacts, i) ==> Intact(env, db, a)
  {
    var db := Run(env, ops);
    RunKeeps(env, ops);
    assert PublishedOk(env, db, ChannelRelease(db, channel).value);
  }
}
