// What a dataset version holds: one member for each training record there was, and those for good.
module VersionEffects {
  import opened Basics
  import opened Ingest
  import opened IngestTheorems

  predicate IsTraining(r: Record, tenant: Id) {
    r.tenant == tenant && !r.deleted && r.category.Some? && r.category.value == "training"
  }

  // ms are made from exactly the training records of the tenant in rs, one from each, in their order.
  ghost predicate Correspond(rs: seq<Record>, tenant: Id, version: nat, ms: seq<Member>) {
    && (forall i :: 0 <= i < |ms| ==>
          && ms[i].source < |rs| && IsTraining(rs[ms[i].source], tenant)
          && ms[i] == Member(version, rs[ms[i].source].recordId, ms[i].source, false))
    && (forall i, k :: 0 <= i < k < |ms| ==> ms[i].source < ms[k].source)
    && (forall j :: 0 <= j < |rs| && IsTraining(rs[j], tenant) ==> MadeFrom(ms, j))
  }

  ghost predicate MadeFrom(ms: seq<Member>, j: int) {
    exists i :: 0 <= i < |ms| && ms[i].source == j
  }

  lemma {:induction false} MembersCorrespond(rs: seq<Record>, tenant: Id, version: nat)
    ensures Correspond(rs, tenant, version, MembersFor(rs, tenant, version))
  {
    if rs != [] {
      var front, r := rs[..|rs| - 1], rs[|rs| - 1];
      MembersCorrespond(front, tenant, version);
      assert rs == front + [r];
      OneMore(front, r, tenant, version, MembersFor(front, tenant, version));
    }
  }

  // One more record adds a member if it is a training record.
  lemma OneMore(rs: seq<Record>, r: Record, tenant: Id, version: nat, us: seq<Member>)
    requires Correspond(rs, tenant, version, us)
    ensures Correspond(rs + [r], tenant, version,
                       us + if IsTraining(r, tenant) then [Member(version, r.recordId, |rs|, false)] else [])
  {
    var ms := us + if IsTraining(r, tenant) then [Member(version, r.recordId, |rs|, false)] else [];
    forall j | 0 <= j < |rs + [r]| && IsTraining((rs + [r])[j], tenant) ensures MadeFrom(ms, j) {
      if j < |rs| {
        assert MadeFrom(us, j);
        var i :| 0 <= i < |us| && us[i].source == j;
        assert ms[i].source == j;
      } else {
        assert ms[|us|].source == j;
      }
    }
  }

  // A new version gets the next number and a member for each training record of its tenant; everything
  // else stays. There is none of a dataset that the tenant does not have.
  lemma VersionMeans(db: Db, tenant: Id, dataset: nat)
    ensures var (r, answer) := CreateVersion(db, tenant, dataset);
      if dataset < |db.datasets| && db.datasets[dataset].tenant == tenant then
        && db.members <= r.members
        && Correspond(db.records, tenant, |db.versions|, r.members[|db.members|..])
        && answer.Ok? && answer.value > 0
        && r == db.(members := r.members,
                    versions := db.versions + [Version(dataset, answer.value, |r.members| - |db.members|)])
      else answer == Err(NotFound) && r == db
  {
    var r := CreateVersion(db, tenant, dataset).0;
    MembersCorrespond(db.records, tenant, |db.versions|);
    if r != db {
      assert r.members[|db.members|..] == MembersFor(db.records, tenant, |db.versions|);
    }
  }

  // -- over runs ----------------------------------------------------------------------------------------

  // r is m, perhaps excluded meanwhile.
  ghost predicate SameMember(m: Member, r: Member) { r == m.(excluded := r.excluded) && (m.excluded ==> r.excluded) }

  lemma StepKeepsMembers(env: Env, db: Db, op: Op, i: nat)
    requires Possible(db, op)
    ensures var r := Step(env, db, op);
      && |db.members| <= |r.members| && |db.versions| <= |r.versions|
      && (i < |db.members| ==> SameMember(db.members[i], r.members[i]))
      && (|db.members| <= i < |r.members| ==> r.members[i].version == |db.versions|)
      && (|db.members| < |r.members| ==> |r.versions| == |db.versions| + 1)
  {
    if op.DoVersion? {
      VersionMeans(db, op.tenant, op.dataset);
    }
  }

  lemma {:induction false} MembersStay(env: Env, states: seq<Db>, ops: seq<Op>, m: nat, n: nat, i: nat)
    requires IsRun(env, states, ops) && m <= n < |states|
    ensures |states[m].members| <= |states[n].members| && |states[m].versions| <= |states[n].versions|
    ensures i < |states[m].members| ==> SameMember(states[m].members[i], states[n].members[i])
    ensures |states[m].members| <= i < |states[n].members| ==> states[n].members[i].version >= |states[m].versions|
  {
    if m < n {
      MembersStay(env, states, ops, m, n - 1, i);
      assert Possible(states[n - 1], ops[n - 1]);
      StepKeepsMembers(env, states[n - 1], ops[n - 1], i);
    }
  }

  // Member i belongs to the version and was made from row j.
  ghost predicate IsFrom(db: Db, i: int, version: nat, j: nat) {
    0 <= i < |db.members| && db.members[i].version == version && db.members[i].source == j
  }

  // The k-th operation makes a version.
  ghost predicate MakesVersion(env: Env, states: seq<Db>, ops: seq<Op>, k: nat)
    requires IsRun(env, states, ops)
  {
    k < |ops| && ops[k].DoVersion? && CreateVersion(states[k], ops[k].tenant, ops[k].dataset).1.Ok?
  }

  // At any later time a version has a member from a row exactly when the row was a training record of its
  // tenant, not deleted, when the version was made; just one, and with the id of that record.
  lemma VersionHolds(env: Env, states: seq<Db>, ops: seq<Op>, k: nat, n: nat, j: nat)
    requires IsRun(env, states, ops) && k < n < |states| && MakesVersion(env, states, ops, k)
    ensures var db, now, version := states[k], states[n], |states[k].versions|;
      && ((j < |db.records| && IsTraining(db.records[j], ops[k].tenant)) <==> exists i :: IsFrom(now, i, version, j))
      && (forall i :: IsFrom(now, i, version, j) ==>
            j < |db.records| && now.members[i].recordId == db.records[j].recordId)
      && (forall h, i :: IsFrom(now, h, version, j) && IsFrom(now, i, version, j) ==> h == i)
  {
    var db, now, version := states[k], states[n], |states[k].versions|;
    var ms := MembersMade(env, states, ops, k);
    forall i | IsFrom(now, i, version, j) ensures IsMade(db, now, ms, i, j) {
      OnlyThen(env, states, ops, k, n, i);
    }
    if j < |db.records| && IsTraining(db.records[j], ops[k].tenant) {
      assert MadeFrom(ms, j);
      var i :| 0 <= i < |ms| && ms[i].source == j;
      MembersStay(env, states, ops, k + 1, n, |db.members| + i);
      assert IsFrom(now, |db.members| + i, version, j);
    }
    forall h, i | IsFrom(now, h, version, j) && IsFrom(now, i, version, j) ensures h == i {
      assert IsMade(db, now, ms, h, j) && IsMade(db, now, ms, i, j);
      OneFromEach(db.records, ops[k].tenant, version, ms, h - |db.members|, i - |db.members|);
    }
  }

  // Member i of now is one of the new members ms, made from row j.
  ghost predicate IsMade(db: Db, now: Db, ms: seq<Member>, i: int, j: nat) {
    && |db.members| <= i < |db.members| + |ms| && i < |now.members|
    && ms[i - |db.members|].source == j && now.members[i].recordId == ms[i - |db.members|].recordId
  }

  // The members that the k-th operation makes.
  lemma MembersMade(env: Env, states: seq<Db>, ops: seq<Op>, k: nat) returns (ms: seq<Member>)
    requires IsRun(env, states, ops) && MakesVersion(env, states, ops, k)
    ensures states[k + 1].members == states[k].members + ms
    ensures Correspond(states[k].records, ops[k].tenant, |states[k].versions|, ms)
  {
    assert Possible(states[k], ops[k]);
    VersionMeans(states[k], ops[k].tenant, ops[k].dataset);
    ms := states[k + 1].members[|states[k].members|..];
  }

  // A version's members are those that were made with it.
  lemma OnlyThen(env: Env, states: seq<Db>, ops: seq<Op>, k: nat, n: nat, i: nat)
    requires IsRun(env, states, ops) && k < n < |states| && MakesVersion(env, states, ops, k)
    requires i < |states[n].members| && states[n].members[i].version == |states[k].versions|
    ensures |states[k].members| <= i < |states[k + 1].members|
    ensures SameMember(states[k + 1].members[i], states[n].members[i])
  {
    assert Possible(states[k], ops[k]);
    MembersStay(env, states, ops, k + 1, n, i);
    MembersStay(env, states, ops, k, n, i);
    MembersHaveVersions(env, states, ops, k);
  }

  lemma MembersHaveVersions(env: Env, states: seq<Db>, ops: seq<Op>, n: nat)
    requires IsRun(env, states, ops) && n < |states|
    ensures forall i :: 0 <= i < |states[n].members| ==> states[n].members[i].version < |states[n].versions|
  {
    RunKeeps(env, states, ops, n);
    forall i | 0 <= i < |states[n].members| ensures states[n].members[i].version < |states[n].versions| {
      assert MemberOk(states[n], i);
    }
  }

  lemma OneFromEach(rs: seq<Record>, tenant: Id, version: nat, ms: seq<Member>, h: nat, i: nat)
    requires Correspond(rs, tenant, version, ms) && h < |ms| && i < |ms| && ms[h].source == ms[i].source
    ensures h == i
  {
  }
}
