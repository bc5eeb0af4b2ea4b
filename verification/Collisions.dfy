// Two releases that share a directory of the blob store: the artifacts of a published one can be overwritten
// through the other. Over all runs that create releases of given versions and channels, what is published
// stays intact exactly when no two of them share a directory.
module Collisions {
  import opened Basics
  import opened Releases
  import opened ReleaseTheorems
  import opened PublishTheorems

  // A release's name: its version and its channel.
  datatype Named = Named(version: string, channel: string)

  ghost predicate CreatesOnly(ops: seq<Op>, names: set<Named>) {
    forall op :: op in ops && op.DoCreate? ==> Named(op.version, op.channel) in names
  }

  predicate Share(x: Named, y: Named) { Directory(x.channel, x.version) == Directory(y.channel, y.version) }

  ghost predicate ShareNothing(names: set<Named>) {
    forall x, y :: x in names && y in names && Share(x, y) ==> x == y
  }

  ghost predicate StaysIntact(env: Env, names: set<Named>, ops: seq<Op>) {
    CreatesOnly(ops, names) ==>
      forall i :: 0 <= i < |Run(env, ops).releases| ==> PublishedOk(env, Run(env, ops), i)
  }

  // In every run that creates releases with these names only, whatever is published is intact exactly when
  // no two of the names share a directory.
  lemma PublishedIntactIff(names: set<Named>)
    ensures (forall env, ops :: StaysIntact(env, names, ops)) <==> ShareNothing(names)
  {
    if ShareNothing(names) {
      forall env, ops ensures StaysIntact(env, names, ops) {
        if CreatesOnly(ops, names) {
          OnlyApart(ops, names);
          RunKeeps(env, ops);
        }
      }
    } else {
      var x, y :| x in names && y in names && Share(x, y) && x != y;
      PublishedIsOverwritten(x, y);
      assert !StaysIntact(SampleEnv(), names, Overwriting(x, y));
    }
  }

  lemma OnlyApart(ops: seq<Op>, names: set<Named>)
    requires CreatesOnly(ops, names) && ShareNothing(names)
    ensures Apart(ops)
  {
    forall p, q | p in ops && q in ops && p.DoCreate? && q.DoCreate?
      ensures Directory(p.channel, p.version) != Directory(q.channel, q.version) ||
              (p.channel == q.channel && p.version == q.version)
    {
      assert Share(Named(p.version, p.channel), Named(q.version, q.channel)) ==>
        Named(p.version, p.channel) == Named(q.version, q.channel);
    }
  }

  // -- a run ------------------------------------------------------------------------------------------------

  function SampleOf(x: Named): Sample { Sample(x.version, x.channel, "app") }

  function Keys(): map<string, SigningKey> { map["key" := SigningKey(true, Some("seed"))] }

  // One release is given an artifact and published, then another one is created and given an artifact of the
  // same name.
  function Uploading(x: Named): seq<Op> {
    [DoCreate(x.version, x.channel, None, [], [], None), DoAdd(0, UploadOf(SampleOf(x), []))]
  }

  function Publishing(x: Named): seq<Op> {
    Uploading(x) + [DoSign(0, Keys(), "key", None, None)] + [DoPublish(0)]
  }

  function Overwriting(x: Named, y: Named): seq<Op> {
    Publishing(x) + [CreateSecond(y)] + [AddSecond(y)]
  }

  function CreateSecond(y: Named): Op { DoCreate(y.version, y.channel, None, [], [], None) }

  function AddSecond(y: Named): Op { DoAdd(1, UploadOf(SampleOf(y), [0])) }

  function PublishedRelease(x: Named): Release {
    DraftOf(SampleOf(x)).(status := Published, digest := Some("digest"), signature := Some("signature"),
                          keyId := Some("key"))
  }

  lemma TwoMore(env: Env, front: seq<Op>, one: Op, two: Op)
    ensures Run(env, front + [one] + [two]) == Step(env, Step(env, Run(env, front), one), two)
  {
    assert (front + [one])[..|front|] == front;
    assert (front + [one] + [two])[..|front| + 1] == front + [one];
  }

  lemma UploadingMeans(x: Named)
    ensures var row := RowOf(SampleOf(x), []);
      Run(SampleEnv(), Uploading(x)) == Db([DraftOf(SampleOf(x))], [row], map[], map[row.path := []])
  {
    AfterTwo(SampleOf(x));
    assert RunOf(SampleOf(x))[..2] == Uploading(x);
  }

  // The release is signed and published.
  ghost function WhenPublished(x: Named): Db {
    var row := RowOf(SampleOf(x), []);
    Db([PublishedRelease(x)], [row], map[x.channel := Some(0)], map[row.path := []])
  }

  lemma PublishingMeans(x: Named)
    ensures Run(SampleEnv(), Publishing(x)) == WhenPublished(x)
  {
    var row := RowOf(SampleOf(x), []);
    var two := Db([DraftOf(SampleOf(x))], [row], map[], map[row.path := []]);
    UploadingMeans(x);
    TwoMore(SampleEnv(), Uploading(x), DoSign(0, Keys(), "key", None, None), DoPublish(0));
    SignOne(x, two, row);
    PublishOne(x, two.(releases := [PublishedRelease(x).(status := Candidate)]), row);
  }

  lemma SignOne(x: Named, db: Db, row: Artifact)
    requires db == Db([DraftOf(SampleOf(x))], [row], map[], map[row.path := []]) && row == RowOf(SampleOf(x), [])
    ensures Step(SampleEnv(), db, DoSign(0, Keys(), "key", None, None))
      == db.(releases := [PublishedRelease(x).(status := Candidate)])
  {
    assert db.artifacts[0] in RowsOf(db.artifacts, 0);
  }

  lemma PublishOne(x: Named, db: Db, row: Artifact)
    requires row == RowOf(SampleOf(x), [])
    requires db == Db([PublishedRelease(x).(status := Candidate)], [row], map[], map[row.path := []])
    ensures Step(SampleEnv(), db, DoPublish(0))
      == db.(releases := [PublishedRelease(x)], channels := map[x.channel := Some(0)])
  {
    assert db.artifacts[0] in RowsOf(db.artifacts, 0);
    assert forall a :: a in RowsOf(db.artifacts, 0) ==> a == row && Intact(SampleEnv(), db, a);
    assert CheckPublish(SampleEnv(), db, 0).None?;
  }

  // The channel still serves the release, and its artifact is not what was signed.
  lemma PublishedIsOverwritten(x: Named, y: Named)
    requires Share(x, y) && x != y
    ensures var db := Run(SampleEnv(), Overwriting(x, y));
      && CreatesOnly(Overwriting(x, y), {x, y})
      && |db.releases| == 2 && db.releases[0] == PublishedRelease(x) && ChannelRelease(db, x.channel) == Some(0)
      && RowOf(SampleOf(x), []) in db.artifacts && !Intact(SampleEnv(), db, RowOf(SampleOf(x), []))
      && !PublishedOk(SampleEnv(), db, 0)
  {
    PublishingMeans(x);
    TwoMore(SampleEnv(), Publishing(x), CreateSecond(y), AddSecond(y));
    SecondIsAdded(x, y, WhenPublished(x));
    OnlyThese(x, y);
  }

  lemma OnlyThese(x: Named, y: Named)
    ensures CreatesOnly(Overwriting(x, y), {x, y})
  {
  }

  lemma SecondIsAdded(x: Named, y: Named, db: Db)
    requires Share(x, y) && x != y && db == WhenPublished(x)
    ensures var r := Step(SampleEnv(), Step(SampleEnv(), db, CreateSecond(y)), AddSecond(y));
      && |r.releases| == 2 && r.releases[0] == PublishedRelease(x) && ChannelRelease(r, x.channel) == Some(0)
      && RowOf(SampleOf(x), []) in r.artifacts && !Intact(SampleEnv(), r, RowOf(SampleOf(x), []))
      && !PublishedOk(SampleEnv(), r, 0)
  {
    var env, row := SampleEnv(), RowOf(SampleOf(x), []);
    var five := Step(env, db, CreateSecond(y));
    assert five == db.(releases := [PublishedRelease(x), DraftOf(SampleOf(y))]);
    assert CheckUpload(env, five, 1, UploadOf(SampleOf(y), [0])).None?;
    PathsMeetIff(x.channel, x.version, "app", y.channel, y.version, "app");
    var r := Step(env, five, AddSecond(y));
    assert r.blobs == map[row.path := [0]];
    assert r.artifacts[0] == row && !Intact(env, r, row);
  }

  // It can happen: a slash may be part of the version or of the channel.
  lemma SlashesShare(version: string)
    ensures Share(Named(version, "a/b"), Named("b/" + version, "a"))
    ensures Named(version, "a/b") != Named("b/" + version, "a")
  {
    assert "a/b" + "/" + version == "a" + "/" + ("b/" + version);
  }
}
