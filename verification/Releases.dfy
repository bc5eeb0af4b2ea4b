// The release registry: releases are created, given artifacts, signed, published and revoked in any
// order, over one blob store that all releases share.
//
// Hashing, signing, digest normalisation, name trimming and kind inference are arbitrary functions.
module Releases {
  import opened Basics
  import opened Manifests

  type Bytes = seq<bv8>

  datatype Env = Env(
    sha: Bytes -> string,
    manifestDigest: Manifest -> string,
    sign: (string, Manifest) -> string,
    normDigest: string -> string,
    strip: string -> string,
    inferKind: string -> string,
    maxBytes: nat)

  datatype Status = Draft | Candidate | Published | Revoked

  datatype Release = Release(
    version: string, channel: string, status: Status, minimum: Option<string>,
    osSupport: seq<string>, architecture: seq<string>, notes: Option<string>,
    digest: Option<string>, signature: Option<string>, keyId: Option<string>)

  datatype Artifact = Artifact(release: nat, entry: Entry, path: string)

  datatype Db = Db(
    releases: seq<Release>,
    artifacts: seq<Artifact>,
    channels: map<string, Option<nat>>,
    blobs: map<string, Bytes>)

  const EMPTY := Db([], [], map[], map[])

  datatype Error =
    | ReleaseExists | InvalidArtifactName | ArtifactTooLarge | ArtifactDigestMismatch | ArtifactSizeMismatch
    | ReleaseNotFound | ReleaseNotEditable | SigningKeyUnknown | SigningKeyRevoked | SigningKeyMissing
    | ReleaseHasNoArtifacts | ReleaseNotSigned | ArtifactMissing | ArtifactCorrupt

  datatype Result<+T> = Ok(value: T) | Err(error: Error)

  // -- helpers ----------------------------------------------------------------------------------------

  function Given(o: Option<string>): bool { o.Some? && o.value != "" }

  predicate NameChar(c: char) {
    'A' <= c <= 'Z' || 'a' <= c <= 'z' || '0' <= c <= '9' || c in "._+~-"
  }

  // One path segment of a conservative character set.
  predicate ValidName(name: string) {
    && 1 <= |name| <= 200 && name != "." && name != ".."
    && forall i :: 0 <= i < |name| ==> NameChar(name[i])
  }

  function ObjectPath(channel: string, version: string, name: string): string {
    "releases/" + channel + "/" + version + "/" + name
  }

  function FindRelease(rs: seq<Release>, version: string, channel: string): (r: Option<nat>)
    ensures r.Some? ==> r.value < |rs| && rs[r.value].version == version && rs[r.value].channel == channel
    ensures r.None? <==> forall i :: 0 <= i < |rs| ==> rs[i].version != version || rs[i].channel != channel
  {
    if rs == [] then None
    else
      var r := FindRelease(rs[..|rs| - 1], version, channel);
      if r.Some? then r
      else if rs[|rs| - 1].version == version && rs[|rs| - 1].channel == channel then Some(|rs| - 1) else None
  }

  // The artifact rows of a release, in table order.
  function RowsOf(artifacts: seq<Artifact>, id: nat): (rows: seq<Artifact>)
    ensures forall a :: a in rows <==> a in artifacts && a.release == id
  {
    if artifacts == [] then []
    else
      assert artifacts == artifacts[..|artifacts| - 1] + [artifacts[|artifacts| - 1]];
      RowsOf(artifacts[..|artifacts| - 1], id)
      + (if artifacts[|artifacts| - 1].release == id then [artifacts[|artifacts| - 1]] else [])
  }

  function EntriesOf(rows: seq<Artifact>): (es: seq<Entry>)
    ensures |es| == |rows| && forall i :: 0 <= i < |rows| ==> es[i] == rows[i].entry
  {
    seq(|rows|, i requires 0 <= i < |rows| => rows[i].entry)
  }

  // The manifest of a release with these artifact entries, for a signing key.
  function ManifestFor(rel: Release, keyId: Option<string>, entries: seq<Entry>): Manifest {
    CanonicalManifest(rel.version, rel.channel, keyId, entries, rel.minimum, rel.notes, rel.osSupport, rel.architecture)
  }

  // The manifest rebuilt from the current artifact rows, as it is served.
  function BuildManifest(db: Db, id: nat): Manifest
    requires id < |db.releases|
  {
    ManifestFor(db.releases[id], db.releases[id].keyId, EntriesOf(RowsOf(db.artifacts, id)))
  }

  // -- create -----------------------------------------------------------------------------------------

  function Create(db: Db, version: string, channel: string, minimum: Option<string>, osSupport: seq<string>,
                  architecture: seq<string>, notes: Option<string>): (Db, Result<nat>)
  {
    if FindRelease(db.releases, version, channel).Some? then (db, Err(ReleaseExists))
    else
      var rel := Release(version, channel, Draft, minimum, osSupport, architecture, notes, None, None, None);
      (db.(releases := db.releases + [rel]), Ok(|db.releases|))
  }

  // -- add an artifact --------------------------------------------------------------------------------

  datatype Upload = Upload(
    name: string, data: Bytes, kind: Option<string>, architecture: string, osFamily: string,
    expectedSha: Option<string>, expectedSize: Option<int>)

  function EntryOf(env: Env, u: Upload): Entry {
    var name := env.strip(u.name);
    Entry(name, if Given(u.kind) then u.kind.value else env.inferKind(name), u.architecture, u.osFamily,
          env.sha(u.data), |u.data|)
  }

  function CheckUpload(env: Env, db: Db, id: nat, u: Upload): Option<Error> {
    if !ValidName(env.strip(u.name)) then Some(InvalidArtifactName)
    else if |u.data| > env.maxBytes then Some(ArtifactTooLarge)
    else if Given(u.expectedSha) && env.normDigest(u.expectedSha.value) != env.sha(u.data) then
      Some(ArtifactDigestMismatch)
    else if u.expectedSize.Some? && u.expectedSize.value != |u.data| then Some(ArtifactSizeMismatch)
    else if id >= |db.releases| then Some(ReleaseNotFound)
    else if db.releases[id].status != Draft && db.releases[id].status != Candidate then Some(ReleaseNotEditable)
    else None
  }

  function AddArtifact(env: Env, db: Db, id: nat, u: Upload): (Db, Result<Entry>) {
    var bad := CheckUpload(env, db, id, u);
    if bad.Some? then (db, Err(bad.value))
    else
      var rel := db.releases[id];
      var entry := EntryOf(env, u);
      var path := ObjectPath(rel.channel, rel.version, entry.name);
      (db.(blobs := db.blobs[path := u.data],
           artifacts := db.artifacts + [Artifact(id, entry, path)],
           releases := db.releases[id := rel.(signature := None, digest := None, status := Draft)]),
       Ok(entry))
  }

  // -- sign -------------------------------------------------------------------------------------------

  datatype SigningKey = SigningKey(active: bool, seed: Option<string>)

  // The seed given explicitly, else the key's own, else the configured fallback.
  function ResolveSeed(explicit: Option<string>, own: Option<string>, fallback: Option<string>): Option<string> {
    if Given(explicit) then explicit else if Given(own) then own else if Given(fallback) then fallback else None
  }

  function Sign(env: Env, db: Db, id: nat, registry: map<string, SigningKey>, keyId: string,
                explicit: Option<string>, fallback: Option<string>): (Db, Result<string>)
  {
    if keyId !in registry then (db, Err(SigningKeyUnknown))
    else if !registry[keyId].active then (db, Err(SigningKeyRevoked))
    else
      var seed := ResolveSeed(explicit, registry[keyId].seed, fallback);
      if seed.None? then (db, Err(SigningKeyMissing))
      else if id >= |db.releases| then (db, Err(ReleaseNotFound))
      else
        var rows := RowsOf(db.artifacts, id);
        if rows == [] then (db, Err(ReleaseHasNoArtifacts))
        else
          var rel := db.releases[id];
          var m := ManifestFor(rel, Some(keyId), EntriesOf(rows));
          (db.(releases := db.releases[id := rel.(
             digest := Some(env.manifestDigest(m)), signature := Some(env.sign(seed.value, m)),
             keyId := Some(keyId), status := Candidate)]),
           Ok(env.manifestDigest(m)))
  }

  // -- publish ----------------------------------------------------------------------------------------

  // The blob of an artifact row is there and matches the row.
  predicate Intact(env: Env, db: Db, a: Artifact) {
    a.path in db.blobs && env.sha(db.blobs[a.path]) == a.entry.sha && |db.blobs[a.path]| == a.entry.size
  }

  // The first reason, in row order, why the artifacts of a release may not be served.
  function FirstDefect(env: Env, db: Db, rows: seq<Artifact>): (r: Option<Error>)
    ensures r.None? <==> forall a :: a in rows ==> Intact(env, db, a)
  {
    if rows == [] then None
    else
      var last := rows[|rows| - 1];
      assert rows == rows[..|rows| - 1] + [last] && last in rows;
      var r := FirstDefect(env, db, rows[..|rows| - 1]);
      if r.Some? then r
      else if last.path !in db.blobs then Some(ArtifactMissing)
      else if !Intact(env, db, last) then Some(ArtifactCorrupt)
      else None
  }

  function CheckPublish(env: Env, db: Db, id: nat): Option<Error> {
    if id >= |db.releases| then Some(ReleaseNotFound)
    else
      var rel := db.releases[id];
      if !Given(rel.signature) || !Given(rel.digest) then Some(ReleaseNotSigned)
      else if RowsOf(db.artifacts, id) == [] then Some(ReleaseHasNoArtifacts)
      else FirstDefect(env, db, RowsOf(db.artifacts, id))
  }

  function Publish(env: Env, db: Db, id: nat): (Db, Result<()>) {
    var bad := CheckPublish(env, db, id);
    if bad.Some? then (db, Err(bad.value))
    else
      (db.(releases := db.releases[id := db.releases[id].(status := Published)],
           channels := db.channels[db.releases[id].channel := Some(id)]),
       Ok(()))
  }

  // -- revoke, and what a channel serves --------------------------------------------------------------

  function Revoke(db: Db, id: nat): (Db, Result<()>) {
    if id >= |db.releases| then (db, Err(ReleaseNotFound))
    else
      var c := db.releases[id].channel;
      (db.(releases := db.releases[id := db.releases[id].(status := Revoked)],
           channels := if c in db.channels && db.channels[c] == Some(id) then db.channels[c := None] else db.channels),
       Ok(()))
  }

  function ChannelRelease(db: Db, channel: string): Option<nat> {
    if channel !in db.channels || db.channels[channel].None? then None
    else
      var id := db.channels[channel].value;
      if id >= |db.releases| || db.releases[id].status != Published then None else Some(id)
  }

  // -- the registry as the program updates it -------------------------------------------------------

  class Registry {
    const env: Env
    var releases: seq<Release>
    var artifacts: seq<Artifact>
    var channels: map<string, Option<nat>>
    var blobs: map<string, Bytes>

    ghost function Tables(): Db
      reads this
    {
      Db(releases, artifacts, channels, blobs)
    }

    constructor (env: Env)
      ensures this.env == env && Tables() == EMPTY
    {
      this.env := env;
      releases, artifacts, channels, blobs := [], [], map[], map[];
    }

    method CreateRelease(version: string, channel: string, minimum: Option<string>, osSupport: seq<string>,
                         architecture: seq<string>, notes: Option<string>) returns (r: Result<nat>)
      modifies this
      ensures (Tables(), r) == Create(old(Tables()), version, channel, minimum, osSupport, architecture, notes)
    {
      var dup := FindRelease(releases, version, channel);
      if dup.Some? {
        return Err(ReleaseExists);
      }
      var id := |releases|;
      releases := releases
        + [Release(version, channel, Draft, minimum, osSupport, architecture, notes, None, None, None)];
      return Ok(id);
    }

    method AddReleaseArtifact(id: nat, u: Upload) returns (r: Result<Entry>)
      modifies this
      ensures (Tables(), r) == AddArtifact(env, old(Tables()), id, u)
    {
      var name := env.strip(u.name);
      if !ValidName(name) {
        return Err(InvalidArtifactName);
      }
      var kind := if Given(u.kind) then u.kind.value else env.inferKind(name);
      if |u.data| > env.maxBytes {
        return Err(ArtifactTooLarge);
      }
      var digest := env.sha(u.data);
      if Given(u.expectedSha) && env.normDigest(u.expectedSha.value) != digest {
        return Err(ArtifactDigestMismatch);
      }
      if u.expectedSize.Some? && u.expectedSize.value != |u.data| {
        return Err(ArtifactSizeMismatch);
      }
      if id >= |releases| {
        return Err(ReleaseNotFound);
      }
      var rel := releases[id];
      if rel.status != Draft && rel.status != Candidate {
        return Err(ReleaseNotEditable);
      }
      var path := ObjectPath(rel.channel, rel.version, name);
      blobs := blobs[path := u.data];
      var entry := Entry(name, kind, u.architecture, u.osFamily, digest, |u.data|);
      artifacts := artifacts + [Artifact(id, entry, path)];
      releases := releases[id := rel.(signature := None, digest := None, status := Draft)];
      return Ok(entry);
    }

    method SignRelease(id: nat, registry: map<string, SigningKey>, keyId: string, explicit: Option<string>,
                       fallback: Option<string>) returns (r: Result<string>)
      modifies `releases
      ensures (Tables(), r) == Sign(env, old(Tables()), id, registry, keyId, explicit, fallback)
    {
      if keyId !in registry {
        return Err(SigningKeyUnknown);
      }
      if !registry[keyId].active {
        return Err(SigningKeyRevoked);
      }
      var seed := ResolveSeed(explicit, registry[keyId].seed, fallback);
      if seed.None? {
        return Err(SigningKeyMissing);
      }
      if id >= |releases| {
        return Err(ReleaseNotFound);
      }
      var rows := RowsOf(artifacts, id);
      if rows == [] {
        return Err(ReleaseHasNoArtifacts);
      }
      var rel := releases[id];
      var m := ManifestFor(rel, Some(keyId), EntriesOf(rows));
      releases := releases[id := rel.(digest := Some(env.manifestDigest(m)), signature := Some(env.sign(seed.value, m)),
                                      keyId := Some(keyId), status := Candidate)];
      return Ok(env.manifestDigest(m));
    }

    method PublishRelease(id: nat) returns (r: Result<()>)
      modifies this
      ensures (Tables(), r) == Publish(env, old(Tables()), id)
    {
      if id >= |releases| {
        return Err(ReleaseNotFound);
      }
      var rel := releases[id];
      if !Given(rel.signature) || !Given(rel.digest) {
        return Err(ReleaseNotSigned);
      }
      var rows := RowsOf(artifacts, id);
      if rows == [] {
        return Err(ReleaseHasNoArtifacts);
      }
      var defect := Inspect(rows);
      if defect.Some? {
        return Err(defect.value);
      }
      releases := releases[id := rel.(status := Published)];
      channels := channels[rel.channel := Some(id)];
      return Ok(());
    }

    // The integrity gate: every declared artifact's blob must still exist and match its row.
    method Inspect(rows: seq<Artifact>) returns (r: Option<Error>)
      ensures r == FirstDefect(env, Tables(), rows)
    {
      for i := 0 to |rows|
        invariant FirstDefect(env, Tables(), rows[..i]).None?
      {
        assert rows[..i + 1][..i] == rows[..i];
        var a := rows[i];
        if a.path !in blobs {
          DefectStays(env, Tables(), rows, i + 1);
          return Some(ArtifactMissing);
        }
        var blob := blobs[a.path];
        if env.sha(blob) != a.entry.sha || |blob| != a.entry.size {
          DefectStays(env, Tables(), rows, i + 1);
          return Some(ArtifactCorrupt);
        }
      }
      assert rows[..|rows|] == rows;
      return None;
    }

    method RevokeRelease(id: nat) returns (r: Result<()>)
      modifies this
      ensures (Tables(), r) == Revoke(old(Tables()), id)
    {
      if id >= |releases| {
        return Err(ReleaseNotFound);
      }
      var c := releases[id].channel;
      releases := releases[id := releases[id].(status := Revoked)];
      if c in channels && channels[c] == Some(id) {
        channels := channels[c := None];
      }
      return Ok(());
    }
  }

  lemma {:induction false} DefectStays(env: Env, db: Db, rows: seq<Artifact>, k: nat)
    requires k <= |rows| && FirstDefect(env, db, rows[..k]).Some?
    ensures FirstDefect(env, db, rows) == FirstDefect(env, db, rows[..k])
  {
    if k < |rows| {
      assert rows[..|rows| - 1][..k] == rows[..k];
      DefectStays(env, db, rows[..|rows| - 1], k);
    } else {
      assert rows[..k] == rows;
    }
  }
}
