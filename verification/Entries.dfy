/**
 Why each entry of a run is as it is. In every history whatever was settled for a repository was settled by
 one step, and says what that step found: a skip, a finished copy, or a failure with just what had landed.
 */
module Entries {
  import opened Base
  import opened Order
  import opened Records
  import opened Filing
  import opened Unchanged
  import opened Runs
  import opened Histories
  import P = Previous
  import S = Staging
  import V = Resume

  // ---------------------------------------------------------------- what a worker has put

  /** The artifact is of this file: its kind, key, size and hash. */
  predicate IsOf(a: Artifact, s: Staged) {
    a.kind == s.kind && a.key == s.key && a.size == s.size && a.sha == s.sha
  }

  /** a is of the i-th file, and no later one of the first n is of its kind. */
  ghost predicate PutAs(staged: seq<Staged>, n: int, i: int, a: Artifact) {
    0 <= i < n <= |staged| && IsOf(a, staged[i]) && forall j | i < j < n :: staged[j].kind != staged[i].kind
  }

  ghost predicate IsPut(staged: seq<Staged>, n: int, a: Artifact) {
    exists i :: PutAs(staged, n, i, a)
  }

  ghost predicate HasKind(artifacts: seq<Artifact>, kind: Kind) {
    exists a <- artifacts :: a.kind == kind
  }

  /** The list names each of the first n files, nothing else, and no kind twice. */
  ghost predicate ListsPut(artifacts: seq<Artifact>, staged: seq<Staged>, n: int) {
    && 0 <= n <= |staged|
    && (forall a <- artifacts :: IsPut(staged, n, a))
    && (forall i | 0 <= i < n :: HasKind(artifacts, staged[i].kind))
    && forall j, k | 0 <= j < k < |artifacts| :: artifacts[j].kind != artifacts[k].kind
  }

  ghost predicate ProgressTells(staged: seq<Staged>, n: int, progress: map<Kind, Artifact>) {
    && 0 <= n <= |staged|
    && (forall k <- progress :: progress[k].kind == k && IsPut(staged, n, progress[k]))
    && (forall i | 0 <= i < n :: staged[i].kind in progress)
  }

  lemma NothingPut(staged: seq<Staged>)
    ensures ProgressTells(staged, 0, map[])
  {
  }

  lemma OneMorePut(staged: seq<Staged>, n: int, progress: map<Kind, Artifact>, a: Artifact)
    requires ProgressTells(staged, n, progress) && n < |staged| && IsOf(a, staged[n])
    ensures ProgressTells(staged, n + 1, progress[a.kind := a])
  {
    var more := progress[a.kind := a];
    forall k <- more ensures more[k].kind == k && IsPut(staged, n + 1, more[k]) {
      if k == a.kind {
        assert PutAs(staged, n + 1, n, a);
      } else {
        var i :| PutAs(staged, n, i, progress[k]);
        assert PutAs(staged, n + 1, i, progress[k]);
      }
    }
  }

  /** What progress tells is what an entry made of it lists. */
  lemma ListsProgress(staged: seq<Staged>, n: int, progress: map<Kind, Artifact>)
    requires ProgressTells(staged, n, progress)
    ensures ListsPut(InOrder(progress), staged, n)
  {
    var artifacts := InOrder(progress);
    S.WrittenOnce(progress);
    forall a <- artifacts ensures IsPut(staged, n, a) {
      S.WrittenIsAll(progress, a);
    }
    forall i | 0 <= i < n ensures HasKind(artifacts, staged[i].kind) {
      var k := staged[i].kind;
      assert k in progress && progress[k].kind == k;
      S.WrittenIsAll(progress, progress[k]);
      assert progress[k] in artifacts;
    }
  }

  // ---------------------------------------------------------------- one step

  ghost predicate IsSettled(w: World, id: RunId, slug: string) {
    id in w.runs && slug in w.runs[id].entries
  }

  /** While its worker uploads, its progress tells what it has put. */
  ghost predicate TrackTold(w: World, id: RunId, slug: string) {
    id in w.runs && slug in w.runs[id].phases && w.runs[id].phases[slug].Uploading? ==>
      var r := w.runs[id];
      slug in r.plans && ProgressTells(r.plans[slug].staged, r.phases[slug].next, r.phases[slug].progress)
  }

  /** A failure that lists just what the worker has put. */
  ghost predicate FailsListing(r: Run, slug: string, e: RepoEntry) {
    && e == RepoEntry(slug, Failed, NoReason, e.artifacts, [], None) && slug in r.phases
    && if r.phases[slug].Uploading? then
         slug in r.plans && ListsPut(e.artifacts, r.plans[slug].staged, r.phases[slug].next)
       else e.artifacts == []
  }

  /** A copy carried out to its end: all of it is listed, and the plan says what it counts as. */
  ghost predicate FinishSays(r: Run, slug: string, list: seq<Ref>, now: Time, e: RepoEntry) {
    && slug in r.plans && ListsPut(e.artifacts, r.plans[slug].staged, |r.plans[slug].staged|)
    && (r.plans[slug].metaMissing ==> e == RepoEntry(slug, Failed, NoReason, e.artifacts, [], None))
    && (!r.plans[slug].metaMissing && r.plans[slug].hasRefs ==>
          e == RepoEntry(slug, Success, NoReason, e.artifacts, list, Some(now)))
    && (!r.plans[slug].metaMissing && !r.plans[slug].hasRefs ==>
          e == RepoEntry(slug, Skipped, NoCommits, e.artifacts, [], None))
  }

  /** The two ref maps agree, a name without an entry counted as one at the empty id. */
  ghost predicate SameRefMaps(a: RefMap, b: RefMap) {
    |a| == |b| && forall n <- a :: if n in b then b[n] == a[n] else a[n] == ""
  }

  /** The run may rely on this copy: it was not told to copy anew, nothing has moved, and the copy is young enough. */
  ghost predicate MaySkip(c: Config, r: Run, slug: string, current: RefMap, now: Time) {
    && r.previous.Some? && slug in r.previous.value && slug !in r.recopy
    && var p := r.previous.value[slug];
       && p.refs != map[] && current != map[] && SameRefMaps(p.refs, current)
       && 0 <= now - p.copiedAt < RefreshBound(c.window)
  }

  /** The skip: nothing listed, and the refs and the date of the copy it relies on. */
  ghost predicate SkipSays(r: Run, slug: string, list: seq<Ref>, e: RepoEntry) {
    && r.previous.Some? && slug in r.previous.value
    && var p := r.previous.value[slug];
       && e.reason.UnchangedSince? && 0 <= p.copiedAt - DAY * e.reason.day < DAY
       && e == RepoEntry(slug, Skipped, e.reason, [], list, Some(p.copiedAt)) && ListOf(list, p.refs)
  }

  /** The day's check settles a failure with nothing written, or a skip that lists nothing. */
  ghost predicate CheckSays(listing: Option<seq<Object>>, dir: string, slug: string, e: RepoEntry) {
    && listing.Some? && (exists o <- listing.value :: o.key.dir == dir)
    && (e == RepoEntry(slug, Failed, NoReason, [], [], None)
        || e == RepoEntry(slug, Skipped, AlreadyBackedUp, [], e.refs, e.copiedAt))
  }

  /** What this step, taken here, settles for the repository. */
  ghost predicate Explains(c: Config, w: World, s: Step, id: RunId, slug: string, e: RepoEntry)
    requires id in w.runs
  {
    var r := w.runs[id];
    match s
    case CheckDate(i, x, listing, _, _) =>
      i == id && x == slug && CheckSays(listing, c.dateDir(slug, DayOf(r.startedAt)), slug, e)
    case Compare(i, x, current, list) =>
      i == id && x == slug && MaySkip(c, r, slug, current, w.now) && SkipSays(r, slug, list, e)
    case Stage(i, x, plan) => i == id && x == slug && plan.None? && e == RepoEntry(slug, Failed, NoReason, [], [], None)
    case Upload(i, x, outcome) =>
      i == id && x == slug && (outcome == LostAnswer || outcome == Refused) && FailsListing(r, slug, e)
    case Finish(i, x, list) => i == id && x == slug && FinishSays(r, slug, list, w.now, e)
    case StopWaiting(i, x) => i == id && x == slug && FailsListing(r, slug, e)
    case _ => false
  }

  lemma CompareExplains(c: Config, w: World, s: Step, id: RunId, slug: string)
    requires s.Compare? && Enabled(c, w, s) && id in w.runs && !IsSettled(w, id, slug)
    requires IsSettled(Apply(c, w, s), id, slug)
    ensures Explains(c, w, s, id, slug, Apply(c, w, s).runs[id].entries[slug])
  {
    var r := w.runs[s.id];
    if s.slug in r.previous.value {
      var p := r.previous.value[s.slug];
      SecondsOfDay(p.copiedAt);
      assert SameRefsHolds(p.refs, s.current) ==> SameRefMaps(p.refs, s.current);
    }
  }

  lemma SecondsOfDay(t: Time)
    ensures 0 <= t - DAY * DayOf(t) < DAY
  {
    DayMeans(t);
  }

  lemma CheckExplains(c: Config, w: World, s: Step, id: RunId, slug: string)
    requires s.CheckDate? && Enabled(c, w, s) && id in w.runs && !IsSettled(w, id, slug)
    requires IsSettled(Apply(c, w, s), id, slug)
    ensures Explains(c, w, s, id, slug, Apply(c, w, s).runs[id].entries[slug])
  {
    var day, answer := DayOf(w.runs[s.id].startedAt), DateAnswer(c, w, s.id, s.slug, s.dest, s.probes);
    V.SkipsExactly(s.listing, c.dateDir(s.slug, day), day, s.slug, answer, w.now);
    var v := Verdict(c, w, s.id, s.slug, s.listing, s.dest, s.probes);
    if v.Some? && v.value.reason == AlreadyBackedUp {
      V.SkipSays(s.listing, c.dateDir(s.slug, day), day, s.slug, answer, w.now);
    }
  }

  lemma UploadExplains(c: Config, w: World, s: Step, id: RunId, slug: string)
    requires s.Upload? && Enabled(c, w, s) && id in w.runs && !IsSettled(w, id, slug) && TrackTold(w, id, slug)
    requires IsSettled(Apply(c, w, s), id, slug)
    ensures Explains(c, w, s, id, slug, Apply(c, w, s).runs[id].entries[slug])
  {
    var r := w.runs[s.id];
    if s.id == id && s.slug == slug {
      ListsProgress(r.plans[slug].staged, r.phases[slug].next, r.phases[slug].progress);
    }
  }

  lemma LastExplains(c: Config, w: World, s: Step, id: RunId, slug: string)
    requires (s.Finish? || s.StopWaiting?) && Enabled(c, w, s) && id in w.runs && !IsSettled(w, id, slug)
    requires TrackTold(w, id, slug) && IsSettled(Apply(c, w, s), id, slug)
    ensures Explains(c, w, s, id, slug, Apply(c, w, s).runs[id].entries[slug])
  {
    var r := w.runs[s.id];
    if s.id == id && s.slug == slug && r.phases[slug].Uploading? {
      ListsProgress(r.plans[slug].staged, r.phases[slug].next, r.phases[slug].progress);
    }
  }

  /** No other step settles anything. */
  lemma OthersSettleNothing(c: Config, w: World, s: Step, id: RunId, slug: string)
    requires Enabled(c, w, s) && !IsSettled(w, id, slug)
    requires s.Tick? || s.ForeignPut? || s.Start? || s.LoadPrevious? || s.Sign? || s.PutManifest? || s.PutSignature?
    ensures !IsSettled(Apply(c, w, s), id, slug)
  {
  }

  /** A repository without an entry gets one only from a step of its own worker, and there must be a run. */
  lemma SettlesOwn(c: Config, w: World, s: Step, id: RunId, slug: string)
    requires Enabled(c, w, s) && !IsSettled(w, id, slug) && TrackTold(w, id, slug)
    requires IsSettled(Apply(c, w, s), id, slug)
    ensures id in w.runs && Explains(c, w, s, id, slug, Apply(c, w, s).runs[id].entries[slug])
  {
    if s.Compare? {
      CompareExplains(c, w, s, id, slug);
    } else if s.CheckDate? {
      CheckExplains(c, w, s, id, slug);
    } else if s.Upload? {
      UploadExplains(c, w, s, id, slug);
    } else if s.Finish? || s.StopWaiting? {
      LastExplains(c, w, s, id, slug);
    } else if !s.Stage? {
      OthersSettleNothing(c, w, s, id, slug);
    }
  }

  lemma UploadTracked(c: Config, w: World, s: Step, id: RunId, slug: string)
    requires s.Upload? && Enabled(c, w, s) && TrackTold(w, id, slug)
    ensures TrackTold(Apply(c, w, s), id, slug)
  {
    var a := NextArtifact(w, s.id, s.slug);
    match s.outcome
    case Written => AdvanceTracked(WithPut(c, w, s.id, s.slug, a), s.id, s.slug, id, slug);
    case Settled => AdvanceTracked(Noted(w, a), s.id, s.slug, id, slug);
    case LostAnswer =>
    case Refused =>
  }

  lemma AdvanceTracked(w: World, of: RunId, at: string, id: RunId, slug: string)
    requires AtArtifact(w, of, at) && NextArtifact(w, of, at).key in w.store && TrackTold(w, id, slug)
    ensures TrackTold(Advance(w, of, at), id, slug)
  {
    if of == id && at == slug {
      var r, a := w.runs[id], NextArtifact(w, id, slug);
      var put := Advance(w, id, slug).runs[id].phases[slug].progress[a.kind];
      OneMorePut(r.plans[slug].staged, r.phases[slug].next, r.phases[slug].progress, put);
    }
  }

  lemma StageTracked(c: Config, w: World, s: Step, id: RunId, slug: string)
    requires s.Stage? && Enabled(c, w, s) && TrackTold(w, id, slug)
    ensures TrackTold(Apply(c, w, s), id, slug)
  {
    if s.plan.Some? {
      NothingPut(s.plan.value.staged);
    }
  }

  lemma OthersTracked(c: Config, w: World, s: Step, id: RunId, slug: string)
    requires Enabled(c, w, s) && TrackTold(w, id, slug)
    requires s.Tick? || s.ForeignPut? || s.Start? || s.LoadPrevious? || s.Sign? || s.PutManifest? || s.PutSignature?
    ensures TrackTold(Apply(c, w, s), id, slug)
  {
  }

  /** A worker that moves on, and not to an upload, tells nothing more. */
  lemma MovedTracked(w: World, w': World, of: RunId, r: Run, id: RunId, slug: string)
    requires of in w.runs && w' == WithRun(w, of, r) && TrackTold(w, id, slug)
    requires r.plans == w.runs[of].plans
    requires forall x <- r.phases ::
               !r.phases[x].Uploading? || (x in w.runs[of].phases && r.phases[x] == w.runs[of].phases[x])
    ensures TrackTold(w', id, slug)
  {
  }

  lemma WorkerTracked(c: Config, w: World, s: Step, id: RunId, slug: string)
    requires Enabled(c, w, s) && TrackTold(w, id, slug)
    requires s.CheckDate? || s.Compare? || s.Finish? || s.StopWaiting?
    ensures TrackTold(Apply(c, w, s), id, slug)
  {
    MovedTracked(w, Apply(c, w, s), s.id, Apply(c, w, s).runs[s.id], id, slug);
  }

  lemma StepTracked(c: Config, w: World, s: Step, id: RunId, slug: string)
    requires Enabled(c, w, s) && TrackTold(w, id, slug)
    ensures TrackTold(Apply(c, w, s), id, slug)
  {
    if s.Upload? {
      UploadTracked(c, w, s, id, slug);
    } else if s.Stage? {
      StageTracked(c, w, s, id, slug);
    } else if OfWorker(s) {
      WorkerTracked(c, w, s, id, slug);
    } else {
      OthersTracked(c, w, s, id, slug);
    }
  }

  // ---------------------------------------------------------------- whole histories

  /** The k-th step settled it: the history led to a world where it was open, and this step, taken there, says e. */
  ghost predicate SettledBy(c: Config, w0: World, steps: seq<Step>, k: int, w: World, id: RunId, slug: string,
                            e: RepoEntry) {
    && 0 <= k < |steps| && Leads(c, w0, steps[..k], w) && Enabled(c, w, steps[k])
    && id in w.runs && slug !in w.runs[id].entries && Explains(c, w, steps[k], id, slug, e)
  }

  ghost predicate HasReason(c: Config, w0: World, steps: seq<Step>, id: RunId, slug: string, e: RepoEntry) {
    exists k, w :: SettledBy(c, w0, steps, k, w, id, slug, e)
  }

  lemma {:induction false} LeadsOn(c: Config, w0: World, steps: seq<Step>, w: World, s: Step)
    requires Leads(c, w0, steps, w) && Enabled(c, w, s)
    ensures Leads(c, w0, steps + [s], Apply(c, w, s))
    decreases |steps|
  {
    if steps == [] {
      assert steps + [s] == [s] && [s][1..] == [];
    } else {
      assert (steps + [s])[1..] == steps[1..] + [s];
      LeadsOn(c, Apply(c, w0, steps[0]), steps[1..], w, s);
    }
  }

  lemma ReasonStays(c: Config, w0: World, steps: seq<Step>, s: Step, id: RunId, slug: string, e: RepoEntry)
    requires HasReason(c, w0, steps, id, slug, e)
    ensures HasReason(c, w0, steps + [s], id, slug, e)
  {
    var k, w :| SettledBy(c, w0, steps, k, w, id, slug, e);
    assert (steps + [s])[..k] == steps[..k];
    assert SettledBy(c, w0, steps + [s], k, w, id, slug, e);
  }

  lemma ReasonGiven(c: Config, w0: World, steps: seq<Step>, w: World, s: Step, id: RunId, slug: string)
    requires Leads(c, w0, steps, w) && Enabled(c, w, s) && TrackTold(w, id, slug)
    requires !IsSettled(w, id, slug) && IsSettled(Apply(c, w, s), id, slug)
    ensures HasReason(c, w0, steps + [s], id, slug, Apply(c, w, s).runs[id].entries[slug])
  {
    SettlesOwn(c, w, s, id, slug);
    var more, k := steps + [s], |steps|;
    assert more[..k] == steps && more[k] == s;
    assert SettledBy(c, w0, more, k, w, id, slug, Apply(c, w, s).runs[id].entries[slug]);
  }

  /** So far: its worker's progress is told, and its entry, if it has one, has its reason. */
  ghost predicate ReasonedOk(c: Config, w0: World, steps: seq<Step>, w: World, id: RunId, slug: string) {
    && TrackTold(w, id, slug)
    && (IsSettled(w, id, slug) ==> HasReason(c, w0, steps, id, slug, w.runs[id].entries[slug]))
  }

  lemma ReasonedStep(c: Config, w0: World, steps: seq<Step>, w: World, s: Step, id: RunId, slug: string)
    requires Inv(c, w) && Leads(c, w0, steps, w) && Enabled(c, w, s) && ReasonedOk(c, w0, steps, w, id, slug)
    ensures ReasonedOk(c, w0, steps + [s], Apply(c, w, s), id, slug)
  {
    StepTracked(c, w, s, id, slug);
    if IsSettled(w, id, slug) {
      StepOk(c, w, s);
      assert RunGrew(w.runs[id], Apply(c, w, s).runs[id]);
      ReasonStays(c, w0, steps, s, id, slug, w.runs[id].entries[slug]);
    } else if IsSettled(Apply(c, w, s), id, slug) {
      ReasonGiven(c, w0, steps, w, s, id, slug);
    }
  }

  lemma {:induction false} ReasonedAlong(c: Config, w0: World, steps: seq<Step>, w: World, rest: seq<Step>, w': World,
          id: RunId, slug: string)
    requires Inv(c, w) && Leads(c, w0, steps, w) && ReasonedOk(c, w0, steps, w, id, slug) && Leads(c, w, rest, w')
    ensures ReasonedOk(c, w0, steps + rest, w', id, slug)
    decreases |rest|
  {
    if rest == [] {
      assert steps + rest == steps;
    } else {
      var s, next := rest[0], Apply(c, w, rest[0]);
      StepOk(c, w, s);
      LeadsOn(c, w0, steps, w, s);
      ReasonedStep(c, w0, steps, w, s, id, slug);
      assert steps + [s] + rest[1..] == steps + rest;
      ReasonedAlong(c, w0, steps + [s], next, rest[1..], w', id, slug);
    }
  }

  /**
   In every history, each entry a run has settled was settled by one step, while the repository was open, and
   says what that step met: a failed upload's and a stopped worker's list just what it had put, a finished
   copy's all of it, and a skip's nothing.
   */
  lemma EveryEntryHasReason(c: Config, w0: World, steps: seq<Step>, w: World, id: RunId, slug: string)
    requires Fresh(w0) && Leads(c, w0, steps, w) && id in w.runs && slug in w.runs[id].entries
    ensures HasReason(c, w0, steps, id, slug, w.runs[id].entries[slug])
  {
    assert Inv(c, w0) && Leads(c, w0, [], w0);
    ReasonedAlong(c, w0, [], w0, steps, w, id, slug);
    assert [] + steps == steps;
  }

  /** At the comparison an unmoved repository with a young copy is skipped, and any other goes on to be copied. */
  lemma ComparedSkipsIff(c: Config, w: World, s: Step)
    requires s.Compare? && Enabled(c, w, s)
    ensures var r, r' := w.runs[s.id], Apply(c, w, s).runs[s.id];
            if MaySkip(c, r, s.slug, s.current, w.now) then
              r'.phases[s.slug] == Done && s.slug in r'.entries
              && (s.slug !in r.entries ==> SkipSays(r, s.slug, s.list, r'.entries[s.slug]))
            else r' == r.(phases := r.phases[s.slug := MustCopy])
  {
    var r := w.runs[s.id];
    if s.slug in r.previous.value {
      var p := r.previous.value[s.slug];
      SecondsOfDay(p.copiedAt);
      assert SameRefsHolds(p.refs, s.current) <==> SameRefMaps(p.refs, s.current);
    }
  }

  /** What a run relies on is what its window of the filed manifests gives, each repository by its first say. */
  lemma LoadedIsRelied(c: Config, w: World, s: Step)
    requires s.LoadPrevious? && Enabled(c, w, s)
    ensures var r, r' := w.runs[s.id], Apply(c, w, s).runs[s.id];
            var window := P.Window(FiledManifests(s.recent, c.manifestDir), w.now, RefreshBound(c.window));
            && r'.previous.Some? && r' == r.(previous := r'.previous)
            && P.Relies(window, Some(r.selected), w.now, r'.previous.value)
  {
    var window := P.Window(FiledManifests(s.recent, c.manifestDir), w.now, RefreshBound(c.window));
    P.CopiesAreRelied(window, Some(w.runs[s.id].selected), w.now, PreviousOf(window, w.runs[s.id].selected, w.now));
  }

  /** A run begins with all it selected still to do, and with what it was told of recopies and of its day's check. */
  lemma StartsAs(c: Config, w: World, s: Step)
    requires s.Start? && Enabled(c, w, s)
    ensures s.id in Apply(c, w, s).runs
    ensures var r := Apply(c, w, s).runs[s.id];
            && r.startedAt == s.startedAt && r.lockedFrom == w.now && r.selected == s.selected
            && r.recopy == s.recopy && r.resume == s.resume && r.previous.None? && r.manifest.None?
            && r.phases.Keys == s.selected && (forall slug <- r.phases :: r.phases[slug] == Waiting)
            && r.plans == map[] && r.entries == map[]
  {
  }

  // ---------------------------------------------------------------- what is signed

  /** All the run selected is in its manifest, each repository by the entry that was settled for it. */
  ghost predicate NamesAll(r: Run) {
    r.manifest.Some? ==>
      forall slug <- r.selected :: slug in r.entries && r.entries[slug] in r.manifest.value.repos
  }

  lemma NamesAllStep(c: Config, w: World, s: Step, id: RunId)
    requires Inv(c, w) && Enabled(c, w, s) && (id in w.runs ==> NamesAll(w.runs[id]))
    requires id in Apply(c, w, s).runs
    ensures NamesAll(Apply(c, w, s).runs[id])
  {
    StepOk(c, w, s);
    SelectedStays(c, w, s, id);
    if s.Sign? && s.id == id {
      SignNamesAll(c, w, s);
    } else if id in w.runs {
      assert RunGrew(w.runs[id], Apply(c, w, s).runs[id]);
    }
  }

  lemma SignNamesAll(c: Config, w: World, s: Step)
    requires s.Sign? && Enabled(c, w, s)
    ensures NamesAll(Apply(c, w, s).runs[s.id])
  {
    var r := w.runs[s.id];
    var m := Apply(c, w, s).runs[s.id].manifest.value;
    forall slug <- r.selected ensures slug in r.entries && r.entries[slug] in m.repos {
      var i :| 0 <= i < |s.order| && s.order[i] == slug;
      assert m.repos[i] == r.entries[slug];
    }
  }

  /** What a run selected is fixed, and only Sign gives it a manifest. */
  lemma SelectedStays(c: Config, w: World, s: Step, id: RunId)
    requires Enabled(c, w, s) && id in Apply(c, w, s).runs
    ensures SelectedAs(w, Apply(c, w, s), s, id)
  {
    if OfWorker(s) {
      WorkerSelects(c, w, s, id);
    } else if Writes(s) {
      WritingSelects(c, w, s, id);
    }
  }

  ghost predicate SelectedAs(w: World, w': World, s: Step, id: RunId)
    requires id in w'.runs
  {
    && (id in w.runs ==> w'.runs[id].selected == w.runs[id].selected)
    && (id in w.runs && !(s.Sign? && s.id == id) ==> w'.runs[id].manifest == w.runs[id].manifest)
    && (id !in w.runs ==> w'.runs[id].manifest.None?)
  }

  lemma WorkerSelects(c: Config, w: World, s: Step, id: RunId)
    requires Enabled(c, w, s) && OfWorker(s) && id in Apply(c, w, s).runs
    ensures SelectedAs(w, Apply(c, w, s), s, id)
  {
  }

  lemma WritingSelects(c: Config, w: World, s: Step, id: RunId)
    requires Enabled(c, w, s) && Writes(s) && id in Apply(c, w, s).runs
    ensures SelectedAs(w, Apply(c, w, s), s, id)
  {
  }

  lemma {:induction false} NamesAllAlong(c: Config, w: World, steps: seq<Step>, w': World, id: RunId)
    requires Inv(c, w) && Leads(c, w, steps, w') && (id in w.runs ==> NamesAll(w.runs[id]))
    ensures id in w'.runs ==> NamesAll(w'.runs[id])
    decreases |steps|
  {
    if steps != [] {
      var next := Apply(c, w, steps[0]);
      StepOk(c, w, steps[0]);
      if id in next.runs {
        NamesAllStep(c, w, steps[0], id);
      }
      NamesAllAlong(c, next, steps[1..], w', id);
    }
  }

  /** In every history a signed run's manifest names all it selected, with the entry each was settled with. */
  lemma SignedNamesAll(c: Config, w0: World, steps: seq<Step>, w: World, id: RunId, slug: string)
    requires Fresh(w0) && Leads(c, w0, steps, w)
    requires id in w.runs && w.runs[id].manifest.Some? && slug in w.runs[id].selected
    ensures slug in w.runs[id].entries && w.runs[id].entries[slug] in w.runs[id].manifest.value.repos
  {
    assert Inv(c, w0);
    NamesAllAlong(c, w0, steps, w, id);
  }

  // ---------------------------------------------------------------- how long it is held

  /** An object a worker stored is held for the destination's period from its write, or until the run's own date. */
  ghost predicate HeldAs(c: Config, w: World, k: Key) {
    k in w.store && w.store[k].writer.Worker? ==>
      var o := w.store[k];
      && o.writer.run in w.runs
      && o.until == (if c.storeLocks then o.writtenAt + c.held
                     else w.runs[o.writer.run].lockedFrom + c.days * 86_400_000_000_000)
  }

  lemma HeldAsStep(c: Config, w: World, s: Step, k: Key)
    requires Inv(c, w) && Enabled(c, w, s) && HeldAs(c, w, k)
    ensures HeldAs(c, Apply(c, w, s), k)
  {
    StepOk(c, w, s);
    var w' := Apply(c, w, s);
    if k in w.store {
      assert w'.store[k] == w.store[k];
      if w.store[k].writer.Worker? {
        assert RunGrew(w.runs[w.store[k].writer.run], w'.runs[w.store[k].writer.run]);
      }
    } else if s.Upload? {
      PutIsHeld(c, w, s, k);
    } else {
      OthersPutNoWorks(c, w, s, k);
    }
  }

  lemma PutIsHeld(c: Config, w: World, s: Step, k: Key)
    requires s.Upload? && Enabled(c, w, s) && k !in w.store
    ensures HeldAs(c, Apply(c, w, s), k)
  {
  }

  lemma OthersPutNoWorks(c: Config, w: World, s: Step, k: Key)
    requires !s.Upload? && Enabled(c, w, s) && k !in w.store
    ensures k in Apply(c, w, s).store ==> !Apply(c, w, s).store[k].writer.Worker?
  {
  }

  lemma {:induction false} HeldAsAlong(c: Config, w: World, steps: seq<Step>, w': World, k: Key)
    requires Inv(c, w) && Leads(c, w, steps, w') && HeldAs(c, w, k)
    ensures HeldAs(c, w', k)
    decreases |steps|
  {
    if steps != [] {
      HeldAsStep(c, w, steps[0], k);
      StepOk(c, w, steps[0]);
      HeldAsAlong(c, Apply(c, w, steps[0]), steps[1..], w', k);
    }
  }

  /**
   In every history what a worker stored is held as the destination was asked to: for its own period from
   the write where the store locks, and otherwise until the configured days after the run fixed its date.
   */
  lemma StoredIsHeld(c: Config, w0: World, steps: seq<Step>, w: World, k: Key)
    requires Fresh(w0) && Leads(c, w0, steps, w)
    ensures HeldAs(c, w, k)
  {
    assert Inv(c, w0);
    HeldAsAlong(c, w0, steps, w, k);
  }
}
