/**
 What every history keeps about who did what: a worker's objects are those its plan names, a finished
 copy's entry lists exactly its plan, and every signed manifest is one run's, made of its settled entries.
 */
module Ledger {
  import opened Base
  import opened Records
  import opened Unchanged
  import opened Runs
  import opened Histories

  /** The key is one of the first `next` staged. */
  ghost predicate PutBefore(staged: seq<Staged>, next: nat, key: Key) {
    exists i :: 0 <= i < next <= |staged| && staged[i].key == key
  }

  predicate Recorded(progress: map<Kind, Artifact>, s: Staged) {
    s.kind in progress && progress[s.kind].key == s.key
  }

  /** The progress of a worker that has put this many holds the keys of exactly those. */
  ghost predicate ProgressIs(staged: seq<Staged>, next: nat, progress: map<Kind, Artifact>) {
    && next <= |staged|
    && (forall i | 0 <= i < next :: Recorded(progress, staged[i]))
    && (forall k <- progress :: PutBefore(staged, next, progress[k].key))
  }

  predicate Early(p: Phase) {
    p.Waiting? || p.Looked? || p.MustCopy?
  }

  ghost predicate TrackOk(r: Run, slug: string)
    requires slug in r.phases
  {
    && (Early(r.phases[slug]) ==> slug !in r.plans)
    && (r.phases[slug].Uploading? ==>
          slug in r.plans && ProgressIs(r.plans[slug].staged, r.phases[slug].next, r.phases[slug].progress))
  }

  ghost predicate Planned(plan: Plan, key: Key) {
    exists s <- plan.staged :: s.key == key
  }

  /** The entry lists exactly the keys of the plan. */
  ghost predicate Lists(e: RepoEntry, plan: Plan) {
    && (forall a <- e.artifacts :: Planned(plan, a.key))
    && (forall s <- plan.staged :: NamesArtifact(e, s.key))
  }

  /** A copy's entry, or an empty repository's, comes from a plan carried out to its end. */
  ghost predicate FromPlan(r: Run, slug: string, e: RepoEntry) {
    e.status == Success || e.reason == NoCommits ==>
      && slug in r.plans && Lists(e, r.plans[slug]) && !r.plans[slug].metaMissing
      && (e.status == Success ==> r.plans[slug].hasRefs)
      && (e.reason == NoCommits ==> e.status == Skipped && e.copiedAt.None?)
  }

  /** The manifest a run signed holds its settled entries, each repository's own. */
  ghost predicate ManifestOk(r: Run) {
    r.manifest.Some? ==>
      && r.manifest.value.isRunManifest && r.startedAt <= r.manifest.value.finishedAt
      && forall e <- r.manifest.value.repos :: e.slug in r.entries && r.entries[e.slug] == e
  }

  ghost predicate Kept(r: Run) {
    && ManifestOk(r) && r.plans.Keys <= r.phases.Keys
    && (forall slug <- r.phases :: TrackOk(r, slug))
    && (forall slug <- r.entries :: FromPlan(r, slug, r.entries[slug]))
  }

  ghost predicate AllKept(w: World) {
    forall id <- w.runs :: Kept(w.runs[id])
  }

  /** An object a worker stored: one its plan names, stored since its run began. */
  ghost predicate WorkerOk(w: World, k: Key, o: Stored)
    requires o.writer.Worker?
  {
    && o.writer.run in w.runs && o.writer.slug in w.runs[o.writer.run].plans
    && o.writtenAt >= w.runs[o.writer.run].startedAt
    && Planned(w.runs[o.writer.run].plans[o.writer.slug], k)
  }

  ghost predicate WorkersOk(w: World) {
    forall k <- w.store | w.store[k].writer.Worker? :: WorkerOk(w, k, w.store[k])
  }

  ghost predicate SignedBy(w: World, m: Manifest, id: RunId) {
    id in w.runs && w.runs[id].manifest == Some(m)
  }

  ghost predicate SignersOk(w: World) {
    forall m <- w.signed :: exists id :: SignedBy(w, m, id)
  }

  ghost predicate LedgerOk(w: World) {
    AllKept(w) && WorkersOk(w) && SignersOk(w)
  }

  // ---------------------------------------------------------------- steps

  lemma WorkersGrow(w: World, w': World)
    requires Grows(w, w') && WorkersOk(w)
    requires forall k <- w'.store :: k in w.store || !w'.store[k].writer.Worker? || WorkerOk(w', k, w'.store[k])
    ensures WorkersOk(w')
  {
    forall k <- w'.store | w'.store[k].writer.Worker? ensures WorkerOk(w', k, w'.store[k]) {
      if k in w.store {
        assert WorkerOk(w, k, w.store[k]);
      }
    }
  }

  lemma SignersGrow(w: World, w': World)
    requires Grows(w, w') && SignersOk(w) && w'.signed == w.signed
    ensures SignersOk(w')
  {
    forall m <- w'.signed ensures exists id :: SignedBy(w', m, id) {
      var id :| SignedBy(w, m, id);
      assert SignedBy(w', m, id);
    }
  }

  /** A step of one run that puts and signs nothing. */
  lemma RunChanged(w: World, w': World, id: RunId)
    requires LedgerOk(w) && Grows(w, w') && w'.signed == w.signed && w'.store == w.store
    requires forall i <- w'.runs :: i != id ==> i in w.runs && w'.runs[i] == w.runs[i]
    requires id in w'.runs ==> Kept(w'.runs[id])
    ensures LedgerOk(w')
  {
    WorkersGrow(w, w');
    SignersGrow(w, w');
  }

  lemma MovedKept(r: Run, slug: string, p: Phase)
    requires Kept(r) && slug in r.phases && !p.Uploading? && (Early(p) ==> slug !in r.plans)
    ensures Kept(MoveTo(r, slug, p))
  {
    var r' := MoveTo(r, slug, p);
    forall s <- r'.phases ensures TrackOk(r', s) {
      assert s in r.phases && TrackOk(r, s);
    }
    forall s <- r'.entries ensures FromPlan(r', s, r'.entries[s]) {
      assert FromPlan(r, s, r.entries[s]);
    }
  }

  lemma SettledKept(r: Run, slug: string, e: RepoEntry)
    requires Kept(r) && FromPlan(r, slug, e)
    ensures Kept(Settle(r, slug, e))
  {
    var r' := Settle(r, slug, e);
    forall s <- r'.phases ensures TrackOk(r', s) {
      assert TrackOk(r, s);
    }
    forall s <- r'.entries ensures FromPlan(r', s, r'.entries[s]) {
      assert s in r.entries ==> FromPlan(r, s, r.entries[s]);
    }
  }

  lemma ReturnedKept(r: Run, slug: string, e: RepoEntry)
    requires Kept(r) && slug in r.phases && FromPlan(r, slug, e)
    ensures Kept(Return(r, slug, e))
  {
    MovedKept(r, slug, Done);
    SettledKept(MoveTo(r, slug, Done), slug, e);
  }

  lemma CheckDateKept(c: Config, w: World, s: Step)
    requires AllKept(w) && s.CheckDate? && Enabled(c, w, s)
    ensures Kept(Apply(c, w, s).runs[s.id])
  {
    var r := w.runs[s.id];
    assert TrackOk(r, s.slug);
    var v := Verdict(c, w, s.id, s.slug, s.listing, s.dest, s.probes);
    if v.None? {
      MovedKept(r, s.slug, Looked);
    } else {
      ReturnedKept(r, s.slug, v.value);
    }
  }

  lemma CompareKept(c: Config, w: World, s: Step)
    requires AllKept(w) && s.Compare? && Enabled(c, w, s)
    ensures Kept(Apply(c, w, s).runs[s.id])
  {
    var r := w.runs[s.id];
    assert TrackOk(r, s.slug);
    MovedKept(r, s.slug, MustCopy);
    if s.slug in r.previous.value {
      var p := r.previous.value[s.slug];
      var d := Decide(p.refs, s.current, p.copiedAt, w.now, c.window);
      if d.Skip? {
        ReturnedKept(r, s.slug, UnchangedEntry(s.slug, d.since, s.list, p.copiedAt));
      }
    }
  }

  lemma StageKept(c: Config, w: World, s: Step)
    requires AllKept(w) && s.Stage? && Enabled(c, w, s)
    ensures Kept(Apply(c, w, s).runs[s.id])
  {
    var r := w.runs[s.id];
    if s.plan.None? {
      ReturnedKept(r, s.slug, FailedEntry(s.slug));
    } else {
      var r' := MoveTo(r, s.slug, Uploading(0, map[])).(plans := r.plans[s.slug := s.plan.value]);
      forall slug <- r'.phases ensures TrackOk(r', slug) {
        assert TrackOk(r, slug);
      }
      forall slug <- r'.entries ensures FromPlan(r', slug, r'.entries[slug]) {
        assert FromPlan(r, slug, r.entries[slug]);
      }
    }
  }

  /** What a finished worker lists is what it staged. */
  lemma ProgressLists(staged: seq<Staged>, progress: map<Kind, Artifact>, e: RepoEntry, plan: Plan)
    requires ProgressIs(staged, |staged|, progress) && e.artifacts == InOrder(progress) && plan.staged == staged
    ensures Lists(e, plan)
  {
    forall a <- e.artifacts ensures Planned(plan, a.key) {
      InOrderFrom(progress, a);
      var k :| k in progress && progress[k] == a;
      PutIsPlanned(plan, a.key);
    }
    forall s <- plan.staged ensures NamesArtifact(e, s.key) {
      var i :| 0 <= i < |staged| && staged[i] == s;
      assert Recorded(progress, staged[i]);
      InOrderHas(progress, s.kind);
    }
  }

  lemma PutIsPlanned(plan: Plan, key: Key)
    requires PutBefore(plan.staged, |plan.staged|, key)
    ensures Planned(plan, key)
  {
    var i :| 0 <= i < |plan.staged| && plan.staged[i].key == key;
    assert plan.staged[i] in plan.staged;
  }

  lemma InOrderFrom(progress: map<Kind, Artifact>, a: Artifact)
    requires a in InOrder(progress)
    ensures exists k <- progress :: progress[k] == a
  {
    InOrderMembers(progress);
  }

  lemma InOrderHas(progress: map<Kind, Artifact>, k: Kind)
    requires k in progress
    ensures progress[k] in InOrder(progress)
  {
    match k
    case Bundle =>
    case Meta =>
    case Sidecar =>
    case Lfs =>
  }

  lemma FinishKept(c: Config, w: World, s: Step)
    requires AllKept(w) && s.Finish? && Enabled(c, w, s)
    ensures Kept(Apply(c, w, s).runs[s.id])
  {
    var r := w.runs[s.id];
    var plan, p := r.plans[s.slug], r.phases[s.slug];
    assert TrackOk(r, s.slug);
    var e := FinishedEntry(s.slug, plan, InOrder(p.progress), s.list, w.now);
    ProgressLists(plan.staged, p.progress, e, plan);
    ReturnedKept(r, s.slug, e);
  }

  lemma StopWaitingKept(c: Config, w: World, s: Step)
    requires AllKept(w) && s.StopWaiting? && Enabled(c, w, s)
    ensures Kept(Apply(c, w, s).runs[s.id])
  {
    var r := w.runs[s.id];
    var written := if r.phases[s.slug].Uploading? then InOrder(r.phases[s.slug].progress) else [];
    SettledKept(r, s.slug, FailedWith(s.slug, written));
  }

  lemma LoadPreviousKept(c: Config, w: World, s: Step)
    requires AllKept(w) && s.LoadPrevious? && Enabled(c, w, s)
    ensures Kept(Apply(c, w, s).runs[s.id])
  {
    var r, r' := w.runs[s.id], Apply(c, w, s).runs[s.id];
    forall slug <- r'.phases ensures TrackOk(r', slug) {
      assert TrackOk(r, slug);
    }
    forall slug <- r'.entries ensures FromPlan(r', slug, r'.entries[slug]) {
      assert FromPlan(r, slug, r.entries[slug]);
    }
  }

  /** One more put: the progress holds one key more. */
  lemma ProgressGrows(staged: seq<Staged>, next: nat, progress: map<Kind, Artifact>, a: Artifact, keyOf: Kind -> Key)
    requires ProgressIs(staged, next, progress) && next < |staged|
    requires a.kind == staged[next].kind && a.key == staged[next].key
    requires forall i | 0 <= i < |staged| :: staged[i].key == keyOf(staged[i].kind)
    ensures ProgressIs(staged, next + 1, progress[a.kind := a])
  {
    var more := progress[a.kind := a];
    forall i | 0 <= i < next + 1 ensures Recorded(more, staged[i]) {
      assert staged[i].key == keyOf(staged[i].kind);
      assert i < next ==> Recorded(progress, staged[i]);
    }
    forall k <- more ensures PutBefore(staged, next + 1, more[k].key) {
      if k == a.kind {
        assert staged[next].key == more[k].key;
      } else {
        assert PutBefore(staged, next, progress[k].key);
      }
    }
  }

  lemma AdvanceKept(c: Config, w: World, id: RunId, slug: string)
    requires AtArtifact(w, id, slug) && NextArtifact(w, id, slug).key in w.store && Kept(w.runs[id])
    requires WellStaged(c, slug, DayOf(w.runs[id].startedAt), w.runs[id].plans[slug])
    ensures Kept(Advance(w, id, slug).runs[id])
  {
    var r, r' := w.runs[id], Advance(w, id, slug).runs[id];
    var p, plan := r.phases[slug], r.plans[slug];
    assert TrackOk(r, slug);
    var a := r'.phases[slug].progress[plan.staged[p.next].kind];
    ProgressGrows(plan.staged, p.next, p.progress, a, k => c.keyOf(slug, DayOf(r.startedAt), k));
    UploadedKept(r, slug, r'.phases[slug]);
  }

  lemma UploadedKept(r: Run, slug: string, p: Phase)
    requires Kept(r) && slug in r.phases && p.Uploading? && slug in r.plans
    requires ProgressIs(r.plans[slug].staged, p.next, p.progress)
    ensures Kept(MoveTo(r, slug, p))
  {
    var r' := MoveTo(r, slug, p);
    forall s <- r'.phases ensures TrackOk(r', s) {
      assert s in r.phases && TrackOk(r, s);
    }
    forall s <- r'.entries ensures FromPlan(r', s, r'.entries[s]) {
      assert FromPlan(r, s, r.entries[s]);
    }
  }

  lemma GiveUpKept(w: World, id: RunId, slug: string)
    requires AtArtifact(w, id, slug) && Kept(w.runs[id])
    ensures Kept(GiveUp(w, id, slug).runs[id])
  {
    ReturnedKept(w.runs[id], slug, FailedWith(slug, InOrder(w.runs[id].phases[slug].progress)));
  }

  lemma PutLedger(c: Config, w: World, id: RunId, slug: string)
    requires Inv(c, w) && LedgerOk(w) && AtArtifact(w, id, slug) && NextArtifact(w, id, slug).key !in w.store
    ensures LedgerOk(WithPut(c, w, id, slug, NextArtifact(w, id, slug)))
  {
    var a := NextArtifact(w, id, slug);
    var w' := WithPut(c, w, id, slug, a);
    PutOk(c, w, id, slug);
    assert RunOk(c, w, w.runs[id]);
    assert a in w.runs[id].plans[slug].staged;
    assert WorkerOk(w', a.key, w'.store[a.key]);
    WorkersGrow(w, w');
    SignersGrow(w, w');
  }

  lemma NotedLedger(c: Config, w: World, id: RunId, slug: string)
    requires Inv(c, w) && LedgerOk(w) && AtArtifact(w, id, slug) && LooksLike(w, NextArtifact(w, id, slug))
    ensures LedgerOk(Noted(w, NextArtifact(w, id, slug)))
  {
    var w' := Noted(w, NextArtifact(w, id, slug));
    NotedOk(c, w, id, slug);
    WorkersGrow(w, w');
    SignersGrow(w, w');
  }

  lemma AdvanceLedger(c: Config, w: World, id: RunId, slug: string)
    requires Inv(c, w) && LedgerOk(w) && AtArtifact(w, id, slug) && StoredAs(w, NextArtifact(w, id, slug))
    ensures LedgerOk(Advance(w, id, slug))
  {
    AdvanceOk(c, w, id, slug);
    PlanWellStaged(c, w, id, slug);
    AdvanceKept(c, w, id, slug);
    UploadChanges(w, id, slug);
    RunChanged(w, Advance(w, id, slug), id);
  }

  lemma PlanWellStaged(c: Config, w: World, id: RunId, slug: string)
    requires Inv(c, w) && AtArtifact(w, id, slug)
    ensures WellStaged(c, slug, DayOf(w.runs[id].startedAt), w.runs[id].plans[slug])
  {
    assert RunOk(c, w, w.runs[id]);
    assert PhaseOk(c, w, w.runs[id], slug);
  }

  /** What a put leads to in its run changes no other, and neither store nor signatures. */
  lemma UploadChanges(w: World, id: RunId, slug: string)
    requires AtArtifact(w, id, slug)
    ensures NextArtifact(w, id, slug).key in w.store ==> OneRunChanged(w, Advance(w, id, slug), id)
    ensures OneRunChanged(w, GiveUp(w, id, slug), id)
  {
  }

  ghost predicate OneRunChanged(w: World, w': World, id: RunId) {
    && w'.signed == w.signed && w'.store == w.store && id in w'.runs
    && forall i <- w'.runs :: i != id ==> i in w.runs && w'.runs[i] == w.runs[i]
  }

  lemma GiveUpLedger(c: Config, w: World, id: RunId, slug: string)
    requires Inv(c, w) && LedgerOk(w) && AtArtifact(w, id, slug)
    ensures LedgerOk(GiveUp(w, id, slug))
  {
    GiveUpOk(c, w, id, slug);
    GiveUpKept(w, id, slug);
    UploadChanges(w, id, slug);
    RunChanged(w, GiveUp(w, id, slug), id);
  }

  lemma UploadLedger(c: Config, w: World, s: Step)
    requires Inv(c, w) && LedgerOk(w) && s.Upload? && Enabled(c, w, s)
    ensures LedgerOk(Apply(c, w, s))
  {
    var a := NextArtifact(w, s.id, s.slug);
    match s.outcome
    case Written =>
      PutOk(c, w, s.id, s.slug);
      PutLedger(c, w, s.id, s.slug);
      AdvanceLedger(c, WithPut(c, w, s.id, s.slug, a), s.id, s.slug);
    case LostAnswer =>
      PutOk(c, w, s.id, s.slug);
      PutLedger(c, w, s.id, s.slug);
      GiveUpLedger(c, WithPut(c, w, s.id, s.slug, a), s.id, s.slug);
    case Settled =>
      NotedOk(c, w, s.id, s.slug);
      NotedLedger(c, w, s.id, s.slug);
      AdvanceLedger(c, Noted(w, a), s.id, s.slug);
    case Refused =>
      GiveUpLedger(c, w, s.id, s.slug);
  }

  /** A signed manifest holds its run's settled entries. */
  lemma SignKept(c: Config, w: World, s: Step)
    requires Inv(c, w) && AllKept(w) && s.Sign? && Enabled(c, w, s)
    ensures Kept(Apply(c, w, s).runs[s.id])
  {
    var r, r' := w.runs[s.id], Apply(c, w, s).runs[s.id];
    assert RunOk(c, w, r);
    forall slug <- r'.phases ensures TrackOk(r', slug) {
      assert TrackOk(r, slug);
    }
    forall slug <- r'.entries ensures FromPlan(r', slug, r'.entries[slug]) {
      assert FromPlan(r, slug, r.entries[slug]);
    }
    forall e <- r'.manifest.value.repos ensures e.slug in r'.entries && r'.entries[e.slug] == e {
      var i :| 0 <= i < |s.order| && r'.manifest.value.repos[i] == e;
      assert s.order[i] in r.entries && r.entries[s.order[i]].slug == s.order[i];
    }
  }

  lemma SignersSign(w: World, w': World, id: RunId, m: Manifest)
    requires Grows(w, w') && SignersOk(w) && w'.signed == w.signed + {m} && SignedBy(w', m, id)
    ensures SignersOk(w')
  {
    forall n <- w'.signed ensures exists i :: SignedBy(w', n, i) {
      if n in w.signed {
        var i :| SignedBy(w, n, i);
        assert SignedBy(w', n, i);
      } else {
        assert SignedBy(w', n, id);
      }
    }
  }

  lemma SignLedger(c: Config, w: World, s: Step)
    requires Inv(c, w) && LedgerOk(w) && s.Sign? && Enabled(c, w, s)
    ensures LedgerOk(Apply(c, w, s))
  {
    var w' := Apply(c, w, s);
    SignOk(c, w, s.id, s.order);
    SignKept(c, w, s);
    WorkersGrow(w, w');
    SignersSign(w, w', s.id, w'.runs[s.id].manifest.value);
  }

  /** A step that only adds an object of no worker, or passes time, or files a manifest. */
  lemma OutsideLedger(c: Config, w: World, w': World)
    requires LedgerOk(w) && Grows(w, w') && w'.signed == w.signed && w'.runs == w.runs
    requires forall k <- w'.store :: k in w.store || !w'.store[k].writer.Worker?
    ensures LedgerOk(w')
  {
    WorkersGrow(w, w');
    SignersGrow(w, w');
  }

  lemma WorkerStepKept(c: Config, w: World, s: Step)
    requires AllKept(w) && Enabled(c, w, s) && OfWorker(s)
    ensures s.id in Apply(c, w, s).runs && Kept(Apply(c, w, s).runs[s.id])
  {
    if s.CheckDate? {
      CheckDateKept(c, w, s);
    } else if s.Compare? {
      CompareKept(c, w, s);
    } else if s.Stage? {
      StageKept(c, w, s);
    } else if s.Finish? {
      FinishKept(c, w, s);
    } else {
      StopWaitingKept(c, w, s);
    }
  }

  lemma WorkerStepChanges(c: Config, w: World, s: Step)
    requires Enabled(c, w, s) && OfWorker(s)
    ensures var w' := Apply(c, w, s);
            && w'.signed == w.signed && w'.store == w.store
            && forall i <- w'.runs :: i != s.id ==> i in w.runs && w'.runs[i] == w.runs[i]
  {
  }

  lemma WorkerStepLedger(c: Config, w: World, s: Step)
    requires Inv(c, w) && LedgerOk(w) && Enabled(c, w, s) && OfWorker(s)
    ensures LedgerOk(Apply(c, w, s))
  {
    WorkerStepOk(c, w, s);
    WorkerStepKept(c, w, s);
    WorkerStepChanges(c, w, s);
    RunChanged(w, Apply(c, w, s), s.id);
  }

  lemma FilingLedger(c: Config, w: World, s: Step)
    requires Inv(c, w) && LedgerOk(w) && Enabled(c, w, s) && (s.ForeignPut? || s.PutManifest? || s.PutSignature?)
    ensures LedgerOk(Apply(c, w, s))
  {
    WritingStepOk(c, w, s);
    FilingChanges(c, w, s);
    OutsideLedger(c, w, Apply(c, w, s));
  }

  lemma FilingChanges(c: Config, w: World, s: Step)
    requires Enabled(c, w, s) && (s.ForeignPut? || s.PutManifest? || s.PutSignature?)
    ensures var w' := Apply(c, w, s);
            && w'.signed == w.signed && w'.runs == w.runs
            && forall k <- w'.store :: k in w.store || !w'.store[k].writer.Worker?
  {
  }

  lemma OpeningChanges(c: Config, w: World, s: Step)
    requires Enabled(c, w, s) && (s.Start? || s.LoadPrevious?)
    ensures var w' := Apply(c, w, s);
            && w'.signed == w.signed && w'.store == w.store
            && forall i <- w'.runs :: i != s.id ==> i in w.runs && w'.runs[i] == w.runs[i]
  {
  }

  lemma StartKept(c: Config, w: World, s: Step)
    requires Enabled(c, w, s) && s.Start?
    ensures s.id in Apply(c, w, s).runs && Kept(Apply(c, w, s).runs[s.id])
  {
  }

  lemma OpeningStepLedger(c: Config, w: World, s: Step)
    requires Inv(c, w) && LedgerOk(w) && Enabled(c, w, s) && (s.Tick? || s.Start? || s.LoadPrevious?)
    ensures LedgerOk(Apply(c, w, s))
  {
    var w' := Apply(c, w, s);
    OpeningStepOk(c, w, s);
    if s.Tick? {
      OutsideLedger(c, w, w');
    } else {
      if s.LoadPrevious? {
        LoadPreviousKept(c, w, s);
      } else {
        StartKept(c, w, s);
      }
      OpeningChanges(c, w, s);
      RunChanged(w, w', s.id);
    }
  }

  lemma StepLedger(c: Config, w: World, s: Step)
    requires Inv(c, w) && LedgerOk(w) && Enabled(c, w, s)
    ensures LedgerOk(Apply(c, w, s))
  {
    if s.Upload? {
      UploadLedger(c, w, s);
    } else if s.Sign? {
      SignLedger(c, w, s);
    } else if Writes(s) {
      FilingLedger(c, w, s);
    } else if OfWorker(s) {
      WorkerStepLedger(c, w, s);
    } else {
      OpeningStepLedger(c, w, s);
    }
  }

  lemma {:induction false} LedgerAlong(c: Config, w: World, steps: seq<Step>, w': World)
    requires Inv(c, w) && LedgerOk(w) && Leads(c, w, steps, w')
    ensures Inv(c, w') && LedgerOk(w') && Grows(w, w')
    decreases |steps|
  {
    HistoryGrows(c, w, steps, w');
    if steps != [] {
      StepOk(c, w, steps[0]);
      StepLedger(c, w, steps[0]);
      LedgerAlong(c, Apply(c, w, steps[0]), steps[1..], w');
    }
  }

  /** In every history: a worker's objects follow its plan, copies list their plans, and manifests are runs' own. */
  lemma LedgerKept(c: Config, w0: World, steps: seq<Step>, w: World)
    requires Fresh(w0) && Leads(c, w0, steps, w)
    ensures Inv(c, w) && LedgerOk(w)
  {
    HistoryOk(c, w0, [], w0);
    LedgerAlong(c, w0, steps, w);
  }
}
