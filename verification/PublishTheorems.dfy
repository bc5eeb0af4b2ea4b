// When a publish succeeds, and for how long a channel then serves the release.
module PublishTheorems {
  import opened Basics
  import opened Paths
  import opened Manifests
  import opened Releases
  import opened ReleaseTheorems

  // -- the blobs hold what was last uploaded under each name ----------------------------------------

  // No later artifact row has the object path of row i.
  ghost predicate IsLast(artifacts: seq<Artifact>, i: int) {
    0 <= i < |artifacts| && forall j :: i < j < |artifacts| ==> artifacts[j].path != artifacts[i].path
  }

  ghost predicate LastIntact(env: Env, db: Db) {
    forall i :: IsLast(db.artifacts, i) ==> Intact(env, db, db.artifacts[i])
  }

  lemma AddKeepsLast(env: Env, db: Db, id: nat, u: Upload)
    requires LastIntact(env, db)
    ensures LastIntact(env, AddArtifact(env, db, id, u).0)
  {
    var r := AddArtifact(env, db, id, u).0;
    if r != db {
      forall i | IsLast(r.artifacts, i) ensures Intact(env, r, r.artifacts[i]) {
        if i < |db.artifacts| {
          assert r.artifacts[|db.artifacts|].path != r.artifacts[i].path;
          assert forall j :: 0 <= j < |db.artifacts| ==> r.artifacts[j] == db.artifacts[j];
          assert IsLast(db.artifacts, i);
        }
      }
    }
  }

  lemma SameFilesKeepLast(env: Env, db: Db, r: Db)
    requires LastIntact(env, db) && r.artifacts == db.artifacts && r.blobs == db.blobs
    ensures LastIntact(env, r)
  {
    forall i | IsLast(r.artifacts, i) ensures Intact(env, r, r.artifacts[i]) {
      assert Intact(env, db, db.artifacts[i]);
    }
  }

  lemma OthersLeaveFiles(env: Env, db: Db, op: Op)
    requires !op.DoAdd?
    ensures Step(env, db, op).artifacts == db.artifacts && Step(env, db, op).blobs == db.blobs
  {
  }

  lemma StepKeepsLast(env: Env, db: Db, op: Op)
    requires LastIntact(env, db)
    ensures LastIntact(env, Step(env, db, op))
  {
    if op.DoAdd? {
      AddKeepsLast(env, db, op.id, op.upload);
    } else {
      OthersLeaveFiles(env, db, op);
      SameFilesKeepLast(env, db, Step(env, db, op));
    }
  }

  lemma {:induction false} RunKeepsLast(env: Env, ops: seq<Op>)
    ensures LastIntact(env, Run(env, ops))
  {
    if ops != [] {
      RunKeepsLast(env, ops[..|ops| - 1]);
      StepKeepsLast(env, Run(env, ops[..|ops| - 1]), ops[|ops| - 1]);
    }
  }

  lemma {:induction false} LastOf(artifacts: seq<Artifact>, i: nat) returns (j: nat)
    requires i < |artifacts|
    ensures i <= j && IsLast(artifacts, j) && artifacts[j].path == artifacts[i].path
    decreases |artifacts| - i
  {
    if k :| i < k < |artifacts| && artifacts[k].path == artifacts[i].path {
      j := LastOf(artifacts, k);
    } else {
      j := i;
    }
  }

  // -- when a publish succeeds ------------------------------------------------------------------------

  // Rows with the same name were made from contents with the same digest and size.
  ghost predicate NamesAgree(rows: seq<Artifact>) {
    forall a, b :: a in rows && b in rows && a.entry.name == b.entry.name ==>
      a.entry.sha == b.entry.sha && a.entry.size == b.entry.size
  }

  // Rows of a release share an object path exactly when they share a name, and with no other release.
  lemma SamePath(env: Env, db: Db, a: Artifact, b: Artifact)
    requires Inv(env, db) && a in db.artifacts && b in db.artifacts
    ensures a.path == b.path <==> a.release == b.release && a.entry.name == b.entry.name
  {
    assert ArtifactOk(db, a) && ArtifactOk(db, b);
    var x, y := db.releases[a.release], db.releases[b.release];
    PathsMeetIff(x.channel, x.version, a.entry.name, y.channel, y.version, b.entry.name);
  }

  lemma IntactIff(env: Env, db: Db, id: nat)
    requires Inv(env, db) && LastIntact(env, db)
    ensures (forall a :: a in RowsOf(db.artifacts, id) ==> Intact(env, db, a)) <==> NamesAgree(RowsOf(db.artifacts, id))
  {
    var rows := RowsOf(db.artifacts, id);
    if forall a :: a in rows ==> Intact(env, db, a) {
      forall a, b | a in rows && b in rows && a.entry.name == b.entry.name
        ensures a.entry.sha == b.entry.sha && a.entry.size == b.entry.size
      {
        SamePath(env, db, a, b);
        assert Intact(env, db, a) && Intact(env, db, b);
      }
    }
    if NamesAgree(rows) {
      forall a | a in rows ensures Intact(env, db, a) {
        var i :| 0 <= i < |db.artifacts| && db.artifacts[i] == a;
        var j := LastOf(db.artifacts, i);
        var b := db.artifacts[j];
        SamePath(env, db, a, b);
        assert Intact(env, db, b) && b in rows;
      }
    }
  }

  // After any run, a publish succeeds exactly when the release exists, is signed and not empty, and its
  // rows with one name agree in digest and size.
  lemma PublishIff(env: Env, ops: seq<Op>, id: nat)
    requires Apart(ops)
    ensures var db := Run(env, ops);
      Publish(env, db, id).1.Ok? <==>
        && id < |db.releases| && Given(db.releases[id].signature) && Given(db.releases[id].digest)
        && RowsOf(db.artifacts, id) != [] && NamesAgree(RowsOf(db.artifacts, id))
  {
    RunKeeps(env, ops);
    RunKeepsLast(env, ops);
    IntactIff(env, Run(env, ops), id);
  }

  // -- name reuse -----------------------------------------------------------------------------------

  lemma RunMore(env: Env, ops: seq<Op>, n: nat)
    requires n < |ops|
    ensures Run(env, ops[..n + 1]) == Step(env, Run(env, ops[..n]), ops[n])
  {
    assert ops[..n + 1][..n] == ops[..n];
  }

  // Artifact rows are never taken away.
  lemma {:induction false} RowsStay(env: Env, ops: seq<Op>, m: nat, n: nat, a: Artifact)
    requires m <= n <= |ops| && a in Run(env, ops[..m]).artifacts
    ensures a in Run(env, ops[..n]).artifacts
  {
    if m < n {
      RowsStay(env, ops, m, n - 1, a);
      RunMore(env, ops, n - 1);
      StepKeepsRows(env, Run(env, ops[..n - 1]), ops[n - 1], a);
    }
  }

  lemma StepKeepsRows(env: Env, db: Db, op: Op, a: Artifact)
    requires a in db.artifacts
    ensures a in Step(env, db, op).artifacts
  {
  }

  // Two different contents under one artifact name block the release for good: no later run of
  // operations, ending in whatever state, can be followed by a successful publish.
  lemma NameReuseBlocksPublish(env: Env, ops: seq<Op>, m: nat, n: nat, a: Artifact, b: Artifact)
    requires Apart(ops) && m <= n <= |ops|
    requires a in Run(env, ops[..m]).artifacts && b in Run(env, ops[..m]).artifacts && Disagree(a, b)
    ensures Publish(env, Run(env, ops[..n]), a.release).1.Err?
  {
    RowsStay(env, ops, m, n, a);
    RowsStay(env, ops, m, n, b);
    PublishIff(env, ops[..n], a.release);
    var rows := RowsOf(Run(env, ops[..n]).artifacts, a.release);
    assert a in rows && b in rows;
  }

  // Two rows of one release with one name, made from different contents.
  ghost predicate Disagree(a: Artifact, b: Artifact) {
    a.release == b.release && a.entry.name == b.entry.name
    && (a.entry.sha != b.entry.sha || a.entry.size != b.entry.size)
  }

  // Hashes that tell the empty content from others, and trivial signatures.
  function SampleEnv(): Env {
    Env(data => if data == [] then "empty" else "full", _ => "digest", (_, _) => "signature", d => d, n => n,
        _ => "wheel", 1)
  }

  datatype Sample = Sample(version: string, channel: string, name: string)

  predicate IsSample(x: Sample) { ValidName(x.name) }

  function UploadOf(x: Sample, data: Bytes): Upload { Upload(x.name, data, None, "any", "any", None, None) }

  function RunOf(x: Sample): seq<Op> {
    [DoCreate(x.version, x.channel, None, [], [], None), DoAdd(0, UploadOf(x, [])), DoAdd(0, UploadOf(x, [0])),
     DoSign(0, map["key" := SigningKey(true, Some("seed"))], "key", None, None)]
  }

  function DraftOf(x: Sample): Release { Release(x.version, x.channel, Draft, None, [], [], None, None, None, None) }

  function RowOf(x: Sample, data: Bytes): Artifact {
    Artifact(0, EntryOf(SampleEnv(), UploadOf(x, data)), ObjectPath(x.channel, x.version, x.name))
  }

  lemma SampleAdd(x: Sample, db: Db, data: Bytes)
    requires IsSample(x) && db.releases == [DraftOf(x)] && |data| <= 1
    ensures Step(SampleEnv(), db, DoAdd(0, UploadOf(x, data)))
      == db.(artifacts := db.artifacts + [RowOf(x, data)], blobs := db.blobs[RowOf(x, data).path := data])
  {
    assert CheckUpload(SampleEnv(), db, 0, UploadOf(x, data)).None?;
    assert db.releases[0 := DraftOf(x)] == db.releases;
  }

  // Signed, with both rows, and the second content under their one path.
  ghost predicate SignedTwice(x: Sample, db: Db) {
    && |db.releases| == 1 && db.releases[0].status == Candidate
    && Given(db.releases[0].signature) && Given(db.releases[0].digest)
    && db.artifacts == [RowOf(x, []), RowOf(x, [0])]
    && RowOf(x, []).path in db.blobs && db.blobs[RowOf(x, []).path] == [0]
  }

  lemma SampleSigns(x: Sample, db: Db)
    requires db.releases == [DraftOf(x)] && db.artifacts == [RowOf(x, []), RowOf(x, [0])]
    requires RowOf(x, []).path in db.blobs && db.blobs[RowOf(x, []).path] == [0]
    ensures SignedTwice(x, Step(SampleEnv(), db, RunOf(x)[3]))
  {
    assert db.artifacts[0] in RowsOf(db.artifacts, 0);
  }

  lemma AfterTwo(x: Sample)
    requires IsSample(x)
    ensures var db := Run(SampleEnv(), RunOf(x)[..2]);
      db == Db([DraftOf(x)], [RowOf(x, [])], map[], map[RowOf(x, []).path := []])
  {
    RunMore(SampleEnv(), RunOf(x), 0);
    RunMore(SampleEnv(), RunOf(x), 1);
    var one := Db([DraftOf(x)], [], map[], map[]);
    assert Step(SampleEnv(), EMPTY, RunOf(x)[0]) == one;
    SampleAdd(x, one, []);
  }

  lemma AfterFour(x: Sample)
    requires IsSample(x)
    ensures SignedTwice(x, Run(SampleEnv(), RunOf(x)))
  {
    AfterTwo(x);
    RunMore(SampleEnv(), RunOf(x), 2);
    RunMore(SampleEnv(), RunOf(x), 3);
    SampleAdd(x, Run(SampleEnv(), RunOf(x)[..2]), [0]);
    SampleSigns(x, Run(SampleEnv(), RunOf(x)[..3]));
    assert RunOf(x)[..4] == RunOf(x);
  }

  lemma SampleIsApart(x: Sample)
    requires IsSample(x)
    ensures Apart(RunOf(x))
  {
  }

  // A run in which the same name is uploaded twice with different contents: signing succeeds, publishing
  // fails.
  lemma SecondUploadBlocks(x: Sample)
    requires IsSample(x)
    ensures Apart(RunOf(x))
    ensures var db := Run(SampleEnv(), RunOf(x));
      && |db.releases| == 1 && db.releases[0].status == Candidate
      && Publish(SampleEnv(), db, 0).1 == Err(ArtifactCorrupt)
  {
    SampleIsApart(x);
    AfterFour(x);
    SignedTwiceIsCorrupt(x, Run(SampleEnv(), RunOf(x)));
  }

  lemma SignedTwiceIsCorrupt(x: Sample, db: Db)
    requires SignedTwice(x, db)
    ensures Publish(SampleEnv(), db, 0).1 == Err(ArtifactCorrupt)
  {
    var rows := RowsOf(db.artifacts, 0);
    assert db.artifacts[0] in rows && db.artifacts[0] == RowOf(x, []);
    assert !Intact(SampleEnv(), db, RowOf(x, []));
    NothingMissing(SampleEnv(), db, rows);
  }

  lemma {:induction false} NothingMissing(env: Env, db: Db, rows: seq<Artifact>)
    requires forall a :: a in rows ==> a.path in db.blobs
    ensures FirstDefect(env, db, rows) in {None, Some(ArtifactCorrupt)}
  {
    if rows != [] {
      NothingMissing(env, db, rows[..|rows| - 1]);
    }
  }

  // -- what a channel serves ----------------------------------------------------------------------------

  // Channels point at releases of their own.
  ghost predicate ChannelsOwn(db: Db) {
    forall c :: c in db.channels && db.channels[c].Some? ==>
      db.channels[c].value < |db.releases| && db.releases[db.channels[c].value].channel == c
  }

  // The operation successfully publishes some release on the channel.
  ghost predicate PublishesOn(env: Env, db: Db, op: Op, channel: string) {
    op.DoPublish? && Publish(env, db, op.id).1.Ok? && db.releases[op.id].channel == channel
  }

  // The operation revokes release i or signs it again.
  ghost predicate Withdraws(env: Env, db: Db, op: Op, i: nat) {
    || (op.DoRevoke? && op.id == i)
    || (op.DoSign? && op.id == i && Sign(env, db, i, op.registry, op.keyId, op.explicit, op.fallback).1.Ok?)
  }

  // What one operation does to what a channel serves.
  ghost predicate ServesNext(env: Env, db: Db, op: Op, r: Db, channel: string, i: nat) {
    && ChannelsOwn(r)
    && (ChannelRelease(r, channel) == Some(i) <==>
          if PublishesOn(env, db, op, channel) then op.id == i
          else ChannelRelease(db, channel) == Some(i) && !Withdraws(env, db, op, i))
  }

  lemma StepServes(env: Env, db: Db, op: Op, channel: string, i: nat)
    requires ChannelsOwn(db)
    ensures ServesNext(env, db, op, Step(env, db, op), channel, i)
  {
    match op
    case DoPublish(_) => PublishServes(env, db, op, channel, i);
    case DoSign(_, _, _, _, _) => SignServes(env, db, op, channel, i);
    case DoRevoke(_) => RevokeServes(env, db, op, channel, i);
    case _ => EditServes(env, db, op, channel, i);
  }

  lemma PublishServes(env: Env, db: Db, op: Op, channel: string, i: nat)
    requires ChannelsOwn(db) && op.DoPublish?
    ensures ServesNext(env, db, op, Publish(env, db, op.id).0, channel, i)
  {
  }

  lemma SignServes(env: Env, db: Db, op: Op, channel: string, i: nat)
    requires ChannelsOwn(db) && op.DoSign?
    ensures ServesNext(env, db, op, Sign(env, db, op.id, op.registry, op.keyId, op.explicit, op.fallback).0, channel, i)
  {
  }

  lemma RevokeServes(env: Env, db: Db, op: Op, channel: string, i: nat)
    requires ChannelsOwn(db) && op.DoRevoke?
    ensures ServesNext(env, db, op, Revoke(db, op.id).0, channel, i)
  {
  }

  lemma EditServes(env: Env, db: Db, op: Op, channel: string, i: nat)
    requires ChannelsOwn(db) && (op.DoCreate? || op.DoAdd?)
    ensures ServesNext(env, db, op, Step(env, db, op), channel, i)
  {
  }

  ghost predicate PublishedAt(env: Env, ops: seq<Op>, k: int, channel: string, i: nat) {
    0 <= k < |ops| && PublishesOn(env, Run(env, ops[..k]), ops[k], channel) && ops[k].id == i
  }

  // Since operation k nothing else was published on the channel and i was not withdrawn.
  ghost predicate Undisturbed(env: Env, ops: seq<Op>, k: int, channel: string, i: nat) {
    forall j :: k < j < |ops| ==> !Disturbs(env, ops, j, channel, i)
  }

  ghost predicate Disturbs(env: Env, ops: seq<Op>, j: int, channel: string, i: nat) {
    0 <= j < |ops|
    && (PublishesOn(env, Run(env, ops[..j]), ops[j], channel) || Withdraws(env, Run(env, ops[..j]), ops[j], i))
  }

  ghost predicate StillServed(env: Env, ops: seq<Op>, channel: string, i: nat) {
    exists k :: PublishedAt(env, ops, k, channel, i) && Undisturbed(env, ops, k, channel, i)
  }

  ghost predicate ServedAsPublished(env: Env, ops: seq<Op>, db: Db, channel: string, i: nat) {
    ChannelsOwn(db) && (ChannelRelease(db, channel) == Some(i) <==> StillServed(env, ops, channel, i))
  }

  // After any run a channel serves release i exactly when the last successful publish on the channel was
  // that of i, and i has neither been revoked nor signed again since.
  lemma {:induction false} ServedIff(env: Env, ops: seq<Op>, channel: string, i: nat)
    ensures ServedAsPublished(env, ops, Run(env, ops), channel, i)
  {
    if ops != [] {
      ServedIff(env, ops[..|ops| - 1], channel, i);
      assert ops == ops[..|ops| - 1] + [ops[|ops| - 1]];
      ServedStep(env, ops[..|ops| - 1], Run(env, ops[..|ops| - 1]), ops[|ops| - 1], Run(env, ops), channel, i);
    }
  }

  lemma ServedStep(env: Env, front: seq<Op>, db: Db, op: Op, r: Db, channel: string, i: nat)
    requires ServedAsPublished(env, front, db, channel, i) && db == Run(env, front) && r == Step(env, db, op)
    ensures ServedAsPublished(env, front + [op], r, channel, i)
  {
    StepServes(env, db, op, channel, i);
    HistoryStep(env, front, op, channel, i);
  }

  lemma HistoryStep(env: Env, front: seq<Op>, op: Op, channel: string, i: nat)
    ensures StillServed(env, front + [op], channel, i) <==>
      if PublishesOn(env, Run(env, front), op, channel) then op.id == i
      else StillServed(env, front, channel, i) && !Withdraws(env, Run(env, front), op, i)
  {
    var ops, n := front + [op], |front|;
    forall j | 0 <= j < n ensures ops[..j] == front[..j] && ops[j] == front[j] {
    }
    assert ops[..n] == front;
    if PublishesOn(env, Run(env, front), op, channel) {
      if op.id == i {
        assert PublishedAt(env, ops, n, channel, i) && Undisturbed(env, ops, n, channel, i);
      }
      assert Disturbs(env, ops, n, channel, i);
    } else {
      assert Disturbs(env, ops, n, channel, i) <==> Withdraws(env, Run(env, front), op, i);
      if k :| PublishedAt(env, front, k, channel, i) && Undisturbed(env, front, k, channel, i) {
        assert PublishedAt(env, ops, k, channel, i);
        assert forall j :: k < j < n ==> !Disturbs(env, front, j, channel, i);
        assert forall j :: k < j < n ==> (Disturbs(env, ops, j, channel, i) <==> Disturbs(env, front, j, channel, i));
      }
      if k :| PublishedAt(env, ops, k, channel, i) && Undisturbed(env, ops, k, channel, i) {
        assert PublishedAt(env, front, k, channel, i);
        assert forall j :: k < j < n ==> (Disturbs(env, ops, j, channel, i) <==> Disturbs(env, front, j, channel, i));
      }
    }
  }
}
