/** What every state of every history of runs satisfies. */
module Histories {
  import opened Base
  import opened Order
  import opened Records
  import opened Filing
  import opened Unchanged
  import opened Runs
  import P = Previous
  import R = Recorded
  import V = Resume

  // ---------------------------------------------------------------- what is claimed of an entry

  /** That artifact was taken for something else at its key. */
  ghost predicate Mistaken(w: World, key: Key, sha: string) {
    exists t <- w.taken :: t.key == key && t.sha == sha
  }

  /** The object at the key has this hash, but where an artifact with it was mistaken for that object. */
  ghost predicate HashOk(w: World, key: Key, sha: string)
    requires key in w.store
  {
    w.store[key].sha == sha || Mistaken(w, key, sha)
  }

  /** Every listed artifact is in the store, with the recorded size, lock and hash, written no later than `at`. */
  ghost predicate Held(w: World, artifacts: seq<Artifact>, at: Time) {
    forall a <- artifacts :: HeldOne(w, a, at)
  }

  ghost predicate HeldOne(w: World, a: Artifact, at: Time) {
    a.key in w.store && HashOk(w, a.key, a.sha) && w.store[a.key].size == a.size && w.store[a.key].writtenAt <= at
    && a.retainUntil == Some(w.store[a.key].until)
  }

  /** A copy some run made: dated after its last artifact was stored, with refs in manifest order. */
  ghost predicate CopyOk(w: World, e: RepoEntry) {
    && e.status == Success && e.copiedAt.Some? && e.refs != []
    && SortedByName(e.refs) && DistinctNames(e.refs)
    && e.artifacts != [] && Held(w, e.artifacts, e.copiedAt.value)
  }

  /** m's entry e is the copy of slug that recorded these refs at that time. */
  ghost predicate IsOrigin(w: World, m: Manifest, e: RepoEntry, slug: string, refs: seq<Ref>, at: Time) {
    && e in m.repos && e.slug == slug && CopyOk(w, e)
    && e.refs == refs && e.copiedAt == Some(at) && at <= m.finishedAt
  }

  /** Some signed manifest, finished by `limit`, records the copy these refs and this time come from. */
  ghost predicate Origin(w: World, slug: string, refs: seq<Ref>, at: Time, limit: Time) {
    exists m, e :: m in w.signed && m.finishedAt <= limit && IsOrigin(w, m, e, slug, refs, at)
  }

  /**
   An entry of a manifest finished at `limit`: what it lists is stored, and it is a copy of its own, or
   carries refs from one, or relies on nothing.
   */
  ghost predicate EntryOk(w: World, e: RepoEntry, limit: Time) {
    && Held(w, e.artifacts, limit)
    && (e.reason == NoCommits ==> e.refs == [])
    && (e.status == Success ==> CopyOk(w, e) && e.copiedAt.value <= limit)
    && (e.status == Skipped && e.refs != [] ==> e.copiedAt.Some? && Origin(w, e.slug, e.refs, e.copiedAt.value, limit))
  }

  ghost predicate SignedOk(w: World) {
    forall m <- w.signed :: m.finishedAt <= w.now && forall e <- m.repos :: EntryOk(w, e, m.finishedAt)
  }

  ghost predicate VouchedOk(w: World) {
    forall k <- w.store :: w.store[k].body.SignatureBody? && w.store[k].body.ours ==> w.store[k].body.over in w.signed
  }

  ghost predicate TimesOk(w: World) {
    forall k <- w.store :: w.store[k].writtenAt <= w.now
  }

  // ---------------------------------------------------------------- what is claimed of a run

  ghost predicate EntriesOk(w: World, r: Run) {
    forall slug <- r.entries :: r.entries[slug].slug == slug && EntryOk(w, r.entries[slug], w.now)
  }

  ghost predicate PreviousOk(w: World, r: Run) {
    r.previous.Some? ==> forall slug <- r.previous.value :: RelianceOk(w, slug, r.previous.value[slug])
  }

  /** What a run may rely on: a signed copy, or refs carried from one. */
  ghost predicate RelianceOk(w: World, slug: string, p: P.PreviousCopy) {
    exists refs :: Origin(w, slug, refs, p.copiedAt, w.now) && MapOf(refs) == p.refs
  }

  ghost predicate StoredAs(w: World, s: Staged) {
    s.key in w.store && HashOk(w, s.key, s.sha) && w.store[s.key].size == s.size
  }

  /** A worker part way through its uploads: everything before `next` is stored and in its progress. */
  ghost predicate UploadOk(w: World, plan: Plan, p: Phase) {
    p.Uploading? ==>
      && p.next <= |plan.staged|
      && (forall i | 0 <= i < p.next :: StoredAs(w, plan.staged[i]) && plan.staged[i].kind in p.progress)
      && (forall k <- p.progress :: HeldOne(w, p.progress[k], w.now))
  }

  ghost predicate PhasesOk(c: Config, w: World, r: Run) {
    forall slug <- r.phases :: PhaseOk(c, w, r, slug)
  }

  ghost predicate PhaseOk(c: Config, w: World, r: Run, slug: string)
    requires slug in r.phases
  {
    && (r.phases[slug].Uploading? ==> slug in r.plans && UploadOk(w, r.plans[slug], r.phases[slug]))
    && (slug in r.plans ==> WellStaged(c, slug, DayOf(r.startedAt), r.plans[slug]))
  }

  /** What an entry relies on was at most a bound, or a day, old when the run started. */
  ghost predicate AgeOk(c: Config, r: Run, e: RepoEntry) {
    e.status != Failed && e.refs != [] ==>
      e.copiedAt.Some? && r.startedAt - e.copiedAt.value < Max(RefreshBound(c.window), DAY)
  }

  ghost predicate AgesOk(c: Config, r: Run) {
    forall slug <- r.entries :: AgeOk(c, r, r.entries[slug])
  }

  ghost predicate RunOk(c: Config, w: World, r: Run) {
    && r.startedAt <= w.now && r.lockedFrom <= w.now && AgesOk(c, r) && EntriesOk(w, r) && PreviousOk(w, r)
    && PhasesOk(c, w, r)
    && (r.manifest.Some? ==> r.manifest.value in w.signed)
  }

  ghost predicate RunsOk(c: Config, w: World) {
    forall id <- w.runs :: RunOk(c, w, w.runs[id])
  }

  /** A sidecar some worker stored: everything it staged with it is stored too. */
  ghost predicate SidecarsOk(w: World) {
    forall k <- w.store | w.store[k].writer.Worker? && w.store[k].writer.kind == Sidecar ::
      SidecarOk(w, w.store[k].writer)
  }

  ghost predicate SidecarOk(w: World, worker: Writer)
    requires worker.Worker?
  {
    && worker.run in w.runs && worker.slug in w.runs[worker.run].plans
    && forall s <- w.runs[worker.run].plans[worker.slug].staged :: StoredAs(w, s)
  }

  /** Everything a worker stored is held for at least the lock from when its run fixed the date. */
  ghost predicate LocksOk(c: Config, w: World) {
    forall k <- w.store | w.store[k].writer.Worker? ::
      w.store[k].writer.run in w.runs && w.store[k].until >= w.runs[w.store[k].writer.run].lockedFrom + c.Lock()
  }

  /** Some run staged the artifact. */
  ghost predicate SomeoneStaged(w: World, t: Taken) {
    exists id, slug, s :: StagedAs(w, t, id, slug, s)
  }

  ghost predicate StagedAs(w: World, t: Taken, id: RunId, slug: string, s: Staged) {
    && id in w.runs && slug in w.runs[id].plans && s in w.runs[id].plans[slug].staged
    && t == Taken(s.key, s.size, s.crc, s.sha)
  }

  /** What an artifact is mistaken for: an object of its size and checksum, and of another hash. */
  ghost predicate TakenOne(w: World, t: Taken) {
    && t.key in w.store && w.store[t.key].size == t.size && w.store[t.key].crc == t.crc
    && w.store[t.key].sha != t.sha && SomeoneStaged(w, t)
  }

  ghost predicate TakenOk(w: World) {
    forall t <- w.taken :: TakenOne(w, t)
  }

  ghost predicate Inv(c: Config, w: World) {
    SignedOk(w) && VouchedOk(w) && TimesOk(w) && RunsOk(c, w) && SidecarsOk(w) && LocksOk(c, w) && TakenOk(w)
  }

  // ---------------------------------------------------------------- a history only grows

  ghost predicate Grows(w: World, w': World) {
    && w.now <= w'.now
    && (forall k <- w.store :: k in w'.store && w'.store[k] == w.store[k])
    && w.signed <= w'.signed && w.taken <= w'.taken
    && (forall id <- w.runs :: id in w'.runs && RunGrew(w.runs[id], w'.runs[id]))
  }

  /** Dates, plans, settled entries and the signed manifest of a run never change. */
  ghost predicate RunGrew(r: Run, r': Run) {
    && r'.lockedFrom == r.lockedFrom && r'.startedAt == r.startedAt
    && (forall slug <- r.plans :: slug in r'.plans && r'.plans[slug] == r.plans[slug])
    && (forall slug <- r.entries :: slug in r'.entries && r'.entries[slug] == r.entries[slug])
    && (r.manifest.Some? ==> r'.manifest == r.manifest)
  }

  lemma HashGrows(w: World, w': World, key: Key, sha: string)
    requires Grows(w, w') && key in w.store && HashOk(w, key, sha)
    ensures HashOk(w', key, sha)
  {
    if Mistaken(w, key, sha) {
      var t :| t in w.taken && t.key == key && t.sha == sha;
      assert t in w'.taken;
    }
  }

  lemma StoredGrows(w: World, w': World, s: Staged)
    requires Grows(w, w') && StoredAs(w, s)
    ensures StoredAs(w', s)
  {
    HashGrows(w, w', s.key, s.sha);
  }

  lemma TakenGrows(w: World, w': World)
    requires Grows(w, w') && TakenOk(w) && w'.taken == w.taken
    ensures TakenOk(w')
  {
    forall t <- w'.taken ensures TakenOne(w', t) {
      TakenOneGrows(w, w', t);
    }
  }

  lemma TakenOneGrows(w: World, w': World, t: Taken)
    requires Grows(w, w') && TakenOne(w, t)
    ensures TakenOne(w', t)
  {
    var id, slug, s :| StagedAs(w, t, id, slug, s);
    assert RunGrew(w.runs[id], w'.runs[id]);
    assert StagedAs(w', t, id, slug, s);
  }

  lemma HeldOneGrows(w: World, w': World, a: Artifact, at: Time, at': Time)
    requires Grows(w, w') && HeldOne(w, a, at) && at <= at'
    ensures HeldOne(w', a, at')
  {
    HashGrows(w, w', a.key, a.sha);
  }

  lemma HeldGrows(w: World, w': World, artifacts: seq<Artifact>, at: Time, at': Time)
    requires Grows(w, w') && Held(w, artifacts, at) && at <= at'
    ensures Held(w', artifacts, at')
  {
    forall a <- artifacts ensures HeldOne(w', a, at') {
      HeldOneGrows(w, w', a, at, at');
    }
  }

  lemma CopyGrows(w: World, w': World, e: RepoEntry)
    requires Grows(w, w') && CopyOk(w, e)
    ensures CopyOk(w', e)
  {
    HeldGrows(w, w', e.artifacts, e.copiedAt.value, e.copiedAt.value);
  }

  lemma OriginGrows(w: World, w': World, slug: string, refs: seq<Ref>, at: Time, limit: Time, limit': Time)
    requires Grows(w, w') && Origin(w, slug, refs, at, limit) && limit <= limit'
    ensures Origin(w', slug, refs, at, limit')
  {
    var m, e :| m in w.signed && m.finishedAt <= limit && IsOrigin(w, m, e, slug, refs, at);
    CopyGrows(w, w', e);
    assert IsOrigin(w', m, e, slug, refs, at);
  }

  lemma EntryGrows(w: World, w': World, e: RepoEntry, limit: Time, limit': Time)
    requires Grows(w, w') && EntryOk(w, e, limit) && limit <= limit'
    ensures EntryOk(w', e, limit')
  {
    HeldGrows(w, w', e.artifacts, limit, limit');
    if e.status == Success {
      CopyGrows(w, w', e);
    }
    if e.status == Skipped && e.refs != [] {
      OriginGrows(w, w', e.slug, e.refs, e.copiedAt.value, limit, limit');
    }
  }

  lemma RelianceGrows(w: World, w': World, slug: string, p: P.PreviousCopy)
    requires Grows(w, w') && RelianceOk(w, slug, p)
    ensures RelianceOk(w', slug, p)
  {
    var refs :| Origin(w, slug, refs, p.copiedAt, w.now) && MapOf(refs) == p.refs;
    OriginGrows(w, w', slug, refs, p.copiedAt, w.now, w'.now);
  }

  lemma SignedGrows(w: World, w': World)
    requires Grows(w, w') && SignedOk(w) && w'.signed == w.signed
    ensures SignedOk(w')
  {
    forall m <- w'.signed, e | e in m.repos ensures EntryOk(w', e, m.finishedAt) {
      EntryGrows(w, w', e, m.finishedAt, m.finishedAt);
    }
  }

  lemma EntriesGrow(w: World, w': World, r: Run)
    requires Grows(w, w') && EntriesOk(w, r)
    ensures EntriesOk(w', r)
  {
    forall slug <- r.entries ensures EntryOk(w', r.entries[slug], w'.now) {
      EntryGrows(w, w', r.entries[slug], w.now, w'.now);
    }
  }

  lemma PreviousGrows(w: World, w': World, r: Run)
    requires Grows(w, w') && PreviousOk(w, r)
    ensures PreviousOk(w', r)
  {
    if r.previous.Some? {
      forall slug <- r.previous.value ensures RelianceOk(w', slug, r.previous.value[slug]) {
        RelianceGrows(w, w', slug, r.previous.value[slug]);
      }
    }
  }

  lemma UploadGrows(w: World, w': World, plan: Plan, p: Phase)
    requires Grows(w, w') && UploadOk(w, plan, p)
    ensures UploadOk(w', plan, p)
  {
    if p.Uploading? {
      forall i | 0 <= i < p.next ensures StoredAs(w', plan.staged[i]) {
        StoredGrows(w, w', plan.staged[i]);
      }
      forall k <- p.progress ensures HeldOne(w', p.progress[k], w'.now) {
        HeldOneGrows(w, w', p.progress[k], w.now, w'.now);
      }
    }
  }

  lemma RunGrows(c: Config, w: World, w': World, r: Run)
    requires Grows(w, w') && RunOk(c, w, r)
    ensures RunOk(c, w', r)
  {
    EntriesGrow(w, w', r);
    PreviousGrows(w, w', r);
    forall slug <- r.phases ensures PhaseOk(c, w', r, slug) {
      assert PhaseOk(c, w, r, slug);
      if r.phases[slug].Uploading? {
        UploadGrows(w, w', r.plans[slug], r.phases[slug]);
      }
    }
  }

  /** Runs a step leaves alone stay as they were. */
  lemma OtherRunsOk(c: Config, w: World, w': World, id: RunId)
    requires Grows(w, w') && RunsOk(c, w)
    requires forall i <- w'.runs :: i != id ==> i in w.runs && w'.runs[i] == w.runs[i]
    requires id in w'.runs ==> RunOk(c, w', w'.runs[id])
    ensures RunsOk(c, w')
  {
    forall i <- w'.runs ensures RunOk(c, w', w'.runs[i]) {
      if i != id {
        assert RunOk(c, w, w.runs[i]);
        RunGrows(c, w, w', w.runs[i]);
      }
    }
  }

  lemma SidecarsGrow(w: World, w': World)
    requires Grows(w, w') && SidecarsOk(w)
    requires forall k <- w'.store :: k in w.store || !(w'.store[k].writer.Worker? && w'.store[k].writer.kind == Sidecar)
    ensures SidecarsOk(w')
  {
    forall k <- w'.store | w'.store[k].writer.Worker? && w'.store[k].writer.kind == Sidecar
      ensures SidecarOk(w', w'.store[k].writer)
    {
      var worker := w.store[k].writer;
      assert SidecarOk(w, worker);
      forall s <- w'.runs[worker.run].plans[worker.slug].staged ensures StoredAs(w', s) {
        StoredGrows(w, w', s);
      }
    }
  }

  // ---------------------------------------------------------------- steps of one run that write nothing

  /** Replacing one run by another that keeps its dates and its plans. */
  lemma RunReplaced(c: Config, w: World, id: RunId, r: Run)
    requires Inv(c, w) && id in w.runs && RunOk(c, w, r)
    requires RunGrew(w.runs[id], r)
    ensures Grows(w, WithRun(w, id, r)) && Inv(c, WithRun(w, id, r))
  {
    var w' := WithRun(w, id, r);
    SignedGrows(w, w');
    RunGrows(c, w, w', r);
    OtherRunsOk(c, w, w', id);
    SidecarsGrow(w, w');
    TakenGrows(w, w');
  }

  /** The worker of slug moving on, with nothing new claimed of its uploads. */
  lemma MovedOn(c: Config, w: World, id: RunId, slug: string, p: Phase)
    requires Inv(c, w) && id in w.runs && slug in w.runs[id].phases && !p.Uploading?
    ensures RunOk(c, w, MoveTo(w.runs[id], slug, p))
  {
    var r, r' := w.runs[id], MoveTo(w.runs[id], slug, p);
    assert RunOk(c, w, r);
    forall s <- r'.phases ensures PhaseOk(c, w, r', s) {
      assert PhaseOk(c, w, r, s);
    }
  }

  lemma SettledOk(c: Config, w: World, r: Run, slug: string, e: RepoEntry)
    requires RunOk(c, w, r) && e.slug == slug && EntryOk(w, e, w.now) && AgeOk(c, r, e)
    ensures RunOk(c, w, Settle(r, slug, e))
  {
    var r' := Settle(r, slug, e);
    forall s <- r'.phases ensures PhaseOk(c, w, r', s) {
      assert PhaseOk(c, w, r, s);
    }
  }

  lemma ReturnedOk(c: Config, w: World, id: RunId, slug: string, e: RepoEntry)
    requires Inv(c, w) && id in w.runs && slug in w.runs[id].phases
    requires e.slug == slug && EntryOk(w, e, w.now) && AgeOk(c, w.runs[id], e)
    ensures Grows(w, WithRun(w, id, Return(w.runs[id], slug, e))) && Inv(c, WithRun(w, id, Return(w.runs[id], slug, e)))
  {
    MovedOn(c, w, id, slug, Done);
    SettledOk(c, w, MoveTo(w.runs[id], slug, Done), slug, e);
    RunReplaced(c, w, id, Return(w.runs[id], slug, e));
  }

  /** A manifest a run reads was signed by a run. */
  lemma ShownIsSigned(c: Config, w: World, o: Object)
    requires VouchedOk(w) && Shown(w, o) && Load(o).Some?
    ensures Load(o).value in w.signed
  {
  }

  /** An entry of a signed manifest that did not fail and carries refs comes from a signed copy. */
  lemma EntryHasOrigin(w: World, m: Manifest, e: RepoEntry)
    requires SignedOk(w) && m in w.signed && e in m.repos && e.status != Failed && e.refs != []
    ensures e.copiedAt.Some? && Origin(w, e.slug, e.refs, e.copiedAt.value, m.finishedAt) && m.finishedAt <= w.now
  {
    assert EntryOk(w, e, m.finishedAt);
    if e.status == Success {
      assert IsOrigin(w, m, e, e.slug, e.refs, e.copiedAt.value);
    }
  }

  lemma OriginLater(w: World, slug: string, refs: seq<Ref>, at: Time, limit: Time, limit': Time)
    requires Origin(w, slug, refs, at, limit) && limit <= limit'
    ensures Origin(w, slug, refs, at, limit')
  {
    var m, e :| m in w.signed && m.finishedAt <= limit && IsOrigin(w, m, e, slug, refs, at);
  }

  lemma PreviousIsReliable(c: Config, w: World, window: seq<Object>, slug: string)
    requires SignedOk(w) && VouchedOk(w) && forall o <- window :: Shown(w, o)
    requires P.CopyOf(window, slug, w.now).Some?
    ensures RelianceOk(w, slug, P.CopyOf(window, slug, w.now).value)
  {
    var o, e := P.CopyHasSource(window, slug, w.now);
    var m := Load(o).value;
    ShownIsSigned(c, w, o);
    EntryHasOrigin(w, m, e);
    OriginLater(w, slug, e.refs, e.copiedAt.value, m.finishedAt, w.now);
  }

  lemma LoadPreviousOk(c: Config, w: World, s: Step)
    requires Inv(c, w) && s.LoadPrevious? && Enabled(c, w, s)
    ensures Grows(w, Apply(c, w, s)) && Inv(c, Apply(c, w, s))
  {
    var r := w.runs[s.id];
    var filed := FiledManifests(s.recent, c.manifestDir);
    var window := P.Window(filed, w.now, RefreshBound(c.window));
    P.RecentMembers(filed, w.now, RefreshBound(c.window));
    forall o <- window ensures Shown(w, o) {
      assert o in P.RecentOnes(filed, w.now, RefreshBound(c.window));
    }
    var previous := PreviousOf(window, r.selected, w.now);
    var r' := r.(previous := Some(previous));
    forall slug <- previous ensures RelianceOk(w, slug, previous[slug]) {
      PreviousIsReliable(c, w, window, slug);
    }
    assert RunOk(c, w, r);
    forall slug <- r'.phases ensures PhaseOk(c, w, r', slug) {
      assert PhaseOk(c, w, r, slug);
    }
    RunReplaced(c, w, s.id, r');
  }

  /** The copy a search found: an entry for the repository in a signed manifest. */
  lemma FoundIsSigned(c: Config, w: World, id: RunId, slug: string, dest: R.Dest, probes: seq<(string, int)>)
    returns (m: Manifest)
    requires VouchedOk(w) && Active(w, id, slug) && forall o | dest.Lists(o) :: Shown(w, o)
    requires DateAnswer(c, w, id, slug, dest, probes).Found?
    ensures var copy := DateAnswer(c, w, id, slug, dest, probes).copy;
            && m in w.signed && copy.entry in m.repos && copy.entry.slug == slug && copy.finishedAt == m.finishedAt
            && (copy.entry.status == Success || copy.entry.reason == NoCommits)
            && copy.entry.status != Failed
  {
    var selected := w.runs[id].selected;
    var q := DateQuestion(c, w, id, slug);
    var o := R.FoundIsRecorded(dest, s => s in selected, probes, q, R.EMPTY_REPORT);
    m := Load(o).value;
    ShownIsSigned(c, w, o);
    R.FirstEntryIsThere(m.repos, slug);
  }

  /** A skip as already backed up carries what a signed copy recorded. */
  lemma SkippedAgainOk(c: Config, w: World, slug: string, m: Manifest, copy: R.Copy)
    requires SignedOk(w) && m in w.signed && copy.entry in m.repos && copy.entry.slug == slug
             && copy.finishedAt == m.finishedAt
    requires copy.entry.status != Failed
    ensures EntryOk(w, V.SkippedAgain(slug, copy), w.now)
  {
    if copy.entry.refs != [] {
      EntryHasOrigin(w, m, copy.entry);
      OriginLater(w, slug, copy.entry.refs, copy.entry.copiedAt.value, m.finishedAt, w.now);
    }
  }

  /** And that copy was made on the run's date. */
  lemma SkippedAgainAge(w: World, slug: string, m: Manifest, copy: R.Copy, listing: seq<Object>, day: int)
    requires SignedOk(w) && m in w.signed && copy.entry in m.repos
    requires copy.entry.status == Success || copy.entry.reason == NoCommits
    requires forall o <- listing :: Shown(w, o)
    requires exists o <- listing :: V.WrittenOn(o, day) && NamesArtifact(copy.entry, o.key)
    ensures copy.entry.refs != [] ==> copy.entry.copiedAt.Some? && copy.entry.copiedAt.value >= day * DAY
  {
    assert EntryOk(w, copy.entry, m.finishedAt);
    if copy.entry.refs != [] {
      var p :| p in listing && V.WrittenOn(p, day) && NamesArtifact(copy.entry, p.key);
      var a :| a in copy.entry.artifacts && a.key == p.key;
      assert HeldOne(w, a, copy.entry.copiedAt.value);
      assert Shown(w, p);
    }
  }

  /** A skip the check settles carries a copy a run may vouch for. */
  lemma SkipVerdictOk(c: Config, w: World, s: Step)
    requires SignedOk(w) && VouchedOk(w) && s.CheckDate? && Enabled(c, w, s)
    requires var v := Verdict(c, w, s.id, s.slug, s.listing, s.dest, s.probes);
             v.Some? && v.value.reason == AlreadyBackedUp
    ensures var e := Verdict(c, w, s.id, s.slug, s.listing, s.dest, s.probes).value;
            e.slug == s.slug && EntryOk(w, e, w.now) && AgeOk(c, w.runs[s.id], e)
  {
    var day := DayOf(w.runs[s.id].startedAt);
    var answer := DateAnswer(c, w, s.id, s.slug, s.dest, s.probes);
    V.SkipIs(s.listing, c.dateDir(s.slug, day), day, s.slug, answer, w.now);
    var m := FoundIsSigned(c, w, s.id, s.slug, s.dest, s.probes);
    SkippedAgainOk(c, w, s.slug, m, answer.copy);
    SkippedAgainAge(w, s.slug, m, answer.copy, s.listing.value, day);
  }

  /** Whatever the check of the date settles is an entry a run may file. */
  lemma VerdictOk(c: Config, w: World, s: Step)
    requires Inv(c, w) && s.CheckDate? && Enabled(c, w, s)
    requires Verdict(c, w, s.id, s.slug, s.listing, s.dest, s.probes).Some?
    ensures var e := Verdict(c, w, s.id, s.slug, s.listing, s.dest, s.probes).value;
            e.slug == s.slug && EntryOk(w, e, w.now) && AgeOk(c, w.runs[s.id], e)
  {
    if Verdict(c, w, s.id, s.slug, s.listing, s.dest, s.probes).value.reason == AlreadyBackedUp {
      SkipVerdictOk(c, w, s);
    }
  }

  lemma LookedOk(c: Config, w: World, id: RunId, slug: string, p: Phase)
    requires Inv(c, w) && id in w.runs && slug in w.runs[id].phases && !p.Uploading?
    ensures var w' := WithRun(w, id, MoveTo(w.runs[id], slug, p)); Grows(w, w') && Inv(c, w')
  {
    MovedOn(c, w, id, slug, p);
    RunReplaced(c, w, id, MoveTo(w.runs[id], slug, p));
  }

  lemma CheckDateOk(c: Config, w: World, s: Step)
    requires Inv(c, w) && s.CheckDate? && Enabled(c, w, s)
    ensures Grows(w, Apply(c, w, s)) && Inv(c, Apply(c, w, s))
  {
    var v := Verdict(c, w, s.id, s.slug, s.listing, s.dest, s.probes);
    if v.None? {
      LookedOk(c, w, s.id, s.slug, Looked);
    } else {
      VerdictOk(c, w, s);
      ReturnedOk(c, w, s.id, s.slug, v.value);
    }
  }

  lemma CompareOk(c: Config, w: World, id: RunId, slug: string, current: RefMap, list: seq<Ref>)
    requires Inv(c, w) && Active(w, id, slug)
    requires slug in w.runs[id].previous.value ==> ListOf(list, w.runs[id].previous.value[slug].refs)
    ensures Grows(w, AfterCompare(c, w, id, slug, current, list)) && Inv(c, AfterCompare(c, w, id, slug, current, list))
  {
    var r := w.runs[id];
    if slug in r.previous.value {
      var p := r.previous.value[slug];
      var d := Decide(p.refs, current, p.copiedAt, w.now, c.window);
      if d.Skip? && slug !in r.recopy {
        var e := UnchangedEntry(slug, d.since, list, p.copiedAt);
        CarriedOk(c, w, id, slug, p, d.since, list);
        assert RunOk(c, w, r);
        assert AgeOk(c, r, e);
        ReturnedOk(c, w, id, slug, e);
      } else {
        LookedOk(c, w, id, slug, MustCopy);
      }
    } else {
      LookedOk(c, w, id, slug, MustCopy);
    }
  }

  /** The list a skip writes is the very list the copy recorded, at the very time. */
  lemma CarriedOk(c: Config, w: World, id: RunId, slug: string, p: P.PreviousCopy, since: int, list: seq<Ref>)
    requires Inv(c, w) && Active(w, id, slug) && slug in w.runs[id].previous.value
             && p == w.runs[id].previous.value[slug]
    requires ListOf(list, p.refs)
    ensures EntryOk(w, UnchangedEntry(slug, since, list, p.copiedAt), w.now)
  {
    assert RunOk(c, w, w.runs[id]);
    assert RelianceOk(w, slug, p);
    var refs :| Origin(w, slug, refs, p.copiedAt, w.now) && MapOf(refs) == p.refs;
    CarriedListIsSame(refs, list);
  }

  lemma StageOk(c: Config, w: World, s: Step)
    requires Inv(c, w) && s.Stage? && Enabled(c, w, s)
    ensures Grows(w, Apply(c, w, s)) && Inv(c, Apply(c, w, s))
  {
    var r := w.runs[s.id];
    if s.plan.None? {
      ReturnedOk(c, w, s.id, s.slug, FailedEntry(s.slug));
    } else {
      var r' := MoveTo(r, s.slug, Uploading(0, map[])).(plans := r.plans[s.slug := s.plan.value]);
      assert RunOk(c, w, r);
      forall slug <- r'.phases ensures PhaseOk(c, w, r', slug) {
        assert PhaseOk(c, w, r, slug);
      }
      RunReplaced(c, w, s.id, r');
    }
  }

  lemma InOrderMembers(progress: map<Kind, Artifact>)
    ensures forall a <- InOrder(progress) :: exists k <- progress :: progress[k] == a
    ensures progress != map[] ==> InOrder(progress) != []
  {
    if progress != map[] {
      var k :| k in progress;
      match k
      case Bundle =>
      case Meta =>
      case Sidecar =>
      case Lfs =>
    }
  }

  lemma ProgressHeld(w: World, plan: Plan, p: Phase)
    requires UploadOk(w, plan, p) && p.Uploading?
    ensures Held(w, InOrder(p.progress), w.now)
  {
    InOrderMembers(p.progress);
    forall a <- InOrder(p.progress) ensures HeldOne(w, a, w.now) {
      var k :| k in p.progress && p.progress[k] == a;
    }
  }

  lemma FinishOk(c: Config, w: World, s: Step)
    requires Inv(c, w) && s.Finish? && Enabled(c, w, s)
    ensures Grows(w, Apply(c, w, s)) && Inv(c, Apply(c, w, s))
  {
    var r := w.runs[s.id];
    var plan, progress := r.plans[s.slug], r.phases[s.slug].progress;
    assert RunOk(c, w, r);
    assert PhaseOk(c, w, r, s.slug);
    InOrderMembers(progress);
    var e := FinishedEntry(s.slug, plan, InOrder(progress), s.list, w.now);
    ProgressHeld(w, plan, r.phases[s.slug]);
    if e.status == Success {
      var i :| 0 <= i < |plan.staged| && plan.staged[i].kind == Bundle;
      assert plan.staged[i].kind in progress;
      var n :| n in plan.copied;
      assert Ref(n, plan.copied[n]) in s.list;
    }
    ReturnedOk(c, w, s.id, s.slug, e);
  }

  lemma StopWaitingOk(c: Config, w: World, s: Step)
    requires Inv(c, w) && s.StopWaiting? && Enabled(c, w, s)
    ensures Grows(w, Apply(c, w, s)) && Inv(c, Apply(c, w, s))
  {
    var r := w.runs[s.id];
    var written := if r.phases[s.slug].Uploading? then InOrder(r.phases[s.slug].progress) else [];
    assert RunOk(c, w, r);
    assert PhaseOk(c, w, r, s.slug);
    if r.phases[s.slug].Uploading? {
      ProgressHeld(w, r.plans[s.slug], r.phases[s.slug]);
    }
    SettledOk(c, w, r, s.slug, FailedWith(s.slug, written));
    RunReplaced(c, w, s.id, Settle(r, s.slug, FailedWith(s.slug, written)));
  }

  // ---------------------------------------------------------------- steps that write

  lemma LocksGrow(c: Config, w: World, w': World)
    requires Grows(w, w') && LocksOk(c, w)
    requires forall k <- w'.store :: k in w.store || !w'.store[k].writer.Worker?
    ensures LocksOk(c, w')
  {
  }

  /** One object more, by no worker, leaving the runs alone. */
  lemma ObjectAdded(c: Config, w: World, key: Key, o: Stored)
    requires Inv(c, w) && key !in w.store && !o.writer.Worker? && o.writtenAt <= w.now
    requires o.body.SignatureBody? && o.body.ours ==> o.body.over in w.signed
    ensures var w' := w.(store := w.store[key := o]); Grows(w, w') && Inv(c, w')
  {
    var w' := w.(store := w.store[key := o]);
    SignedGrows(w, w');
    forall id <- w'.runs ensures RunOk(c, w', w'.runs[id]) {
      assert RunOk(c, w, w.runs[id]);
      RunGrows(c, w, w', w.runs[id]);
    }
    SidecarsGrow(w, w');
    LocksGrow(c, w, w');
    TakenGrows(w, w');
  }

  lemma TickOk(c: Config, w: World, elapsed: nat)
    requires Inv(c, w)
    ensures var w' := w.(now := w.now + elapsed); Grows(w, w') && Inv(c, w')
  {
    var w' := w.(now := w.now + elapsed);
    SignedGrows(w, w');
    forall id <- w'.runs ensures RunOk(c, w', w'.runs[id]) {
      assert RunOk(c, w, w.runs[id]);
      RunGrows(c, w, w', w.runs[id]);
    }
    SidecarsGrow(w, w');
    TakenGrows(w, w');
  }

  lemma StartOk(c: Config, w: World, s: Step)
    requires Inv(c, w) && s.Start? && Enabled(c, w, s)
    ensures Grows(w, Apply(c, w, s)) && Inv(c, Apply(c, w, s))
  {
    var w' := Apply(c, w, s);
    SignedGrows(w, w');
    OtherRunsOk(c, w, w', s.id);
    SidecarsGrow(w, w');
    TakenGrows(w, w');
  }

  lemma SignOk(c: Config, w: World, id: RunId, order: seq<string>)
    requires Inv(c, w) && id in w.runs && w.runs[id].manifest.None?
    requires forall i | 0 <= i < |order| :: order[i] in w.runs[id].entries
    ensures Grows(w, AfterSign(w, id, order)) && Inv(c, AfterSign(w, id, order))
  {
    var w' := AfterSign(w, id, order);
    var r := w.runs[id];
    var m := w'.runs[id].manifest.value;
    assert RunOk(c, w, r);
    NewlySigned(w, w', r, order, m);
    RunGrows(c, w, w', r);
    SameWork(c, w', r, w'.runs[id]);
    OtherRunsOk(c, w, w', id);
    SidecarsGrow(w, w');
    TakenGrows(w, w');
  }

  lemma NewlySigned(w: World, w': World, r: Run, order: seq<string>, m: Manifest)
    requires Grows(w, w') && SignedOk(w) && w'.signed == w.signed + {m} && w'.now == w.now == m.finishedAt
    requires EntriesOk(w, r) && |m.repos| == |order|
    requires forall i | 0 <= i < |order| :: order[i] in r.entries && m.repos[i] == r.entries[order[i]]
    ensures SignedOk(w')
  {
    forall n <- w'.signed, e | e in n.repos ensures EntryOk(w', e, n.finishedAt) {
      if n in w.signed {
        EntryGrows(w, w', e, n.finishedAt, n.finishedAt);
      } else {
        var i :| 0 <= i < |m.repos| && m.repos[i] == e;
        EntryGrows(w, w', e, w.now, w.now);
      }
    }
  }

  lemma SameWork(c: Config, w: World, r: Run, r': Run)
    requires RunOk(c, w, r) && r' == r.(manifest := r'.manifest) && r'.manifest.Some? && r'.manifest.value in w.signed
    ensures RunOk(c, w, r')
  {
    forall s <- r'.phases ensures PhaseOk(c, w, r', s) {
      assert PhaseOk(c, w, r, s);
    }
  }

  /** The object a worker puts, and what it lets the store say. */
  lemma WorkerPutGrows(c: Config, w: World, id: RunId, slug: string, a: Staged)
    requires Inv(c, w) && id in w.runs && a.key !in w.store
    requires slug in w.runs[id].plans && a in w.runs[id].plans[slug].staged
    requires a.kind == Sidecar ==> forall s <- w.runs[id].plans[slug].staged :: s == a || StoredAs(w, s)
    ensures Grows(w, WithPut(c, w, id, slug, a)) && Inv(c, WithPut(c, w, id, slug, a))
  {
    var w' := WithPut(c, w, id, slug, a);
    SignedGrows(w, w');
    TakenGrows(w, w');
    forall i <- w'.runs ensures RunOk(c, w', w'.runs[i]) {
      assert RunOk(c, w, w.runs[i]);
      RunGrows(c, w, w', w.runs[i]);
    }
    forall k <- w'.store | w'.store[k].writer.Worker? && w'.store[k].writer.kind == Sidecar
      ensures SidecarOk(w', w'.store[k].writer)
    {
      var worker := w'.store[k].writer;
      assert k in w.store ==> SidecarOk(w, worker);
      forall s <- w'.runs[worker.run].plans[worker.slug].staged ensures StoredAs(w', s) {
        if k in w.store {
          StoredGrows(w, w', s);
        } else if s != a {
          StoredGrows(w, w', s);
        }
      }
    }
  }

  /** A put that stores the artifact, whatever the store answers. */
  lemma PutOk(c: Config, w: World, id: RunId, slug: string)
    requires Inv(c, w) && AtArtifact(w, id, slug) && NextArtifact(w, id, slug).key !in w.store
    ensures var w' := WithPut(c, w, id, slug, NextArtifact(w, id, slug)); Grows(w, w') && Inv(c, w')
  {
    var r, phase, plan := w.runs[id], w.runs[id].phases[slug], w.runs[id].plans[slug];
    var a := plan.staged[phase.next];
    assert RunOk(c, w, r);
    assert PhaseOk(c, w, r, slug);
    if a.kind == Sidecar {
      forall x <- plan.staged ensures x == a || StoredAs(w, x) {
        var i :| 0 <= i < |plan.staged| && plan.staged[i] == x;
      }
    }
    WorkerPutGrows(c, w, id, slug, a);
  }

  lemma AdvanceOk(c: Config, w: World, id: RunId, slug: string)
    requires Inv(c, w) && AtArtifact(w, id, slug) && StoredAs(w, NextArtifact(w, id, slug))
    ensures Grows(w, Advance(w, id, slug)) && Inv(c, Advance(w, id, slug))
  {
    var r := w.runs[id];
    var r' := Advance(w, id, slug).runs[id];
    assert RunOk(c, w, r);
    forall s <- r'.phases ensures PhaseOk(c, w, r', s) {
      assert PhaseOk(c, w, r, s);
    }
    RunReplaced(c, w, id, r');
  }

  lemma GiveUpOk(c: Config, w: World, id: RunId, slug: string)
    requires Inv(c, w) && AtArtifact(w, id, slug)
    ensures Grows(w, GiveUp(w, id, slug)) && Inv(c, GiveUp(w, id, slug))
  {
    assert RunOk(c, w, w.runs[id]);
    assert PhaseOk(c, w, w.runs[id], slug);
    ProgressHeld(w, w.runs[id].plans[slug], w.runs[id].phases[slug]);
    ReturnedOk(c, w, id, slug, FailedWith(slug, InOrder(w.runs[id].phases[slug].progress)));
  }

  /** Taking an artifact for what is there, rightly or not, leaves it stored as far as anyone may say. */
  lemma NotedOk(c: Config, w: World, id: RunId, slug: string)
    requires Inv(c, w) && AtArtifact(w, id, slug) && LooksLike(w, NextArtifact(w, id, slug))
    ensures var w' := Noted(w, NextArtifact(w, id, slug));
            Grows(w, w') && Inv(c, w') && StoredAs(w', NextArtifact(w, id, slug))
  {
    var a := NextArtifact(w, id, slug);
    var w', t := Noted(w, a), Taken(a.key, a.size, a.crc, a.sha);
    assert Grows(w, w');
    if w.store[a.key].sha != a.sha {
      assert t in w'.taken && t.key == a.key && t.sha == a.sha;
      assert StagedAs(w', t, id, slug, a);
      forall u <- w'.taken ensures TakenOne(w', u) {
        if u != t {
          TakenOneGrows(w, w', u);
        }
      }
      SignedGrows(w, w');
      forall i <- w'.runs ensures RunOk(c, w', w'.runs[i]) {
        RunGrows(c, w, w', w.runs[i]);
      }
      SidecarsGrow(w, w');
    }
  }

  lemma UploadOkStep(c: Config, w: World, id: RunId, slug: string, outcome: PutOutcome)
    requires Inv(c, w) && AtArtifact(w, id, slug)
    requires outcome.Written? || outcome.LostAnswer? ==> NextArtifact(w, id, slug).key !in w.store
    requires outcome.Settled? ==> LooksLike(w, NextArtifact(w, id, slug))
    ensures Grows(w, AfterUpload(c, w, id, slug, outcome)) && Inv(c, AfterUpload(c, w, id, slug, outcome))
  {
    var a := NextArtifact(w, id, slug);
    var w1 := WithPut(c, w, id, slug, a);
    match outcome
    case Written =>
      PutOk(c, w, id, slug);
      AdvanceOk(c, w1, id, slug);
      GrowsOn(w, w1, Advance(w1, id, slug));
    case LostAnswer =>
      PutOk(c, w, id, slug);
      GiveUpOk(c, w1, id, slug);
      GrowsOn(w, w1, GiveUp(w1, id, slug));
    case Settled =>
      var noted := Noted(w, a);
      NotedOk(c, w, id, slug);
      AdvanceOk(c, noted, id, slug);
      GrowsOn(w, noted, Advance(noted, id, slug));
    case Refused =>
      GiveUpOk(c, w, id, slug);
  }

  lemma GrowsOn(w: World, w': World, w'': World)
    requires Grows(w, w') && Grows(w', w'')
    ensures Grows(w, w'')
  {
    forall id <- w.runs ensures RunGrew(w.runs[id], w''.runs[id]) {
      assert RunGrew(w.runs[id], w'.runs[id]) && RunGrew(w'.runs[id], w''.runs[id]);
    }
  }

  lemma FileOk(c: Config, w: World, id: RunId, key: Key, body: Body, lands: bool)
    requires Inv(c, w) && id in w.runs && w.runs[id].manifest.Some?
    requires body == ManifestBody(w.runs[id].manifest.value) || body == SignatureBody(w.runs[id].manifest.value, true)
    ensures Grows(w, AfterFiling(c, w, id, key, body, lands)) && Inv(c, AfterFiling(c, w, id, key, body, lands))
  {
    ManifestIsSigned(c, w, id);
    if lands && key !in w.store {
      ObjectAdded(c, w, key, Stored(1, 0, "", w.now, HeldUntil(c, w, id), Filing(id), body));
    } else {
      GrowsFromItself(w);
    }
  }

  lemma ManifestIsSigned(c: Config, w: World, id: RunId)
    requires Inv(c, w) && id in w.runs && w.runs[id].manifest.Some?
    ensures w.runs[id].manifest.value in w.signed
  {
    assert RunOk(c, w, w.runs[id]);
  }

  lemma GrowsFromItself(w: World)
    ensures Grows(w, w)
  {
  }

  // ---------------------------------------------------------------- histories

  predicate Writes(s: Step) {
    s.ForeignPut? || s.Upload? || s.Sign? || s.PutManifest? || s.PutSignature?
  }

  lemma WritingStepOk(c: Config, w: World, s: Step)
    requires Inv(c, w) && Enabled(c, w, s) && Writes(s)
    ensures Grows(w, Apply(c, w, s)) && Inv(c, Apply(c, w, s))
  {
    if s.ForeignPut? {
      ObjectAdded(c, w, s.key, s.thing);
    } else if s.Upload? {
      UploadOkStep(c, w, s.id, s.slug, s.outcome);
    } else if s.Sign? {
      SignOk(c, w, s.id, s.order);
    } else {
      var m := w.runs[s.id].manifest.value;
      if s.PutManifest? {
        FileOk(c, w, s.id, ManifestKeyOf(c, m), ManifestBody(m), s.lands);
      } else {
        FileOk(c, w, s.id, SignatureKey(ManifestKeyOf(c, m)), SignatureBody(m, true), s.lands);
      }
    }
  }

  predicate OfWorker(s: Step) {
    s.CheckDate? || s.Compare? || s.Stage? || s.Finish? || s.StopWaiting?
  }

  lemma WorkerStepOk(c: Config, w: World, s: Step)
    requires Inv(c, w) && Enabled(c, w, s) && OfWorker(s)
    ensures Grows(w, Apply(c, w, s)) && Inv(c, Apply(c, w, s))
  {
    if s.CheckDate? {
      CheckDateOk(c, w, s);
    } else if s.Compare? {
      CompareOk(c, w, s.id, s.slug, s.current, s.list);
    } else if s.Stage? {
      StageOk(c, w, s);
    } else if s.Finish? {
      FinishOk(c, w, s);
    } else {
      StopWaitingOk(c, w, s);
    }
  }

  lemma OpeningStepOk(c: Config, w: World, s: Step)
    requires Inv(c, w) && Enabled(c, w, s) && (s.Tick? || s.Start? || s.LoadPrevious?)
    ensures Grows(w, Apply(c, w, s)) && Inv(c, Apply(c, w, s))
  {
    if s.Tick? {
      TickOk(c, w, s.elapsed);
    } else if s.Start? {
      StartOk(c, w, s);
    } else {
      LoadPreviousOk(c, w, s);
    }
  }

  /** Every step keeps the invariant and takes nothing back. */
  lemma StepOk(c: Config, w: World, s: Step)
    requires Inv(c, w) && Enabled(c, w, s)
    ensures Grows(w, Apply(c, w, s)) && Inv(c, Apply(c, w, s))
  {
    if Writes(s) {
      WritingStepOk(c, w, s);
    } else if OfWorker(s) {
      WorkerStepOk(c, w, s);
    } else {
      OpeningStepOk(c, w, s);
    }
  }

  /** No run yet, nothing signed, and a store that may hold anything others put there. */
  ghost predicate Fresh(w: World) {
    && w.signed == {} && w.runs == map[] && w.taken == {}
    && forall k <- w.store :: w.store[k].writer == Foreign && w.store[k].writtenAt <= w.now
         && !(w.store[k].body.SignatureBody? && w.store[k].body.ours)
  }

  ghost predicate Leads(c: Config, w: World, steps: seq<Step>, w': World)
    decreases |steps|
  {
    if steps == [] then w' == w else Enabled(c, w, steps[0]) && Leads(c, Apply(c, w, steps[0]), steps[1..], w')
  }

  lemma {:induction false} HistoryGrows(c: Config, w: World, steps: seq<Step>, w': World)
    requires Inv(c, w) && Leads(c, w, steps, w')
    ensures Grows(w, w') && Inv(c, w')
    decreases |steps|
  {
    if steps != [] {
      StepOk(c, w, steps[0]);
      HistoryGrows(c, Apply(c, w, steps[0]), steps[1..], w');
      GrowsOn(w, Apply(c, w, steps[0]), w');
    }
  }

  lemma HistoryOk(c: Config, w0: World, steps: seq<Step>, w: World)
    requires Fresh(w0) && Leads(c, w0, steps, w)
    ensures Grows(w0, w) && Inv(c, w)
  {
    assert Inv(c, w0);
    HistoryGrows(c, w0, steps, w);
  }

  // ---------------------------------------------------------------- mistaken objects

  /**
   The step takes this artifact for what is at its key, which has its size and its checksum and another
   hash: S3's settle answers yes where it should answer no.
   */
  ghost predicate Mistakes(w: World, s: Step, key: Key, sha: string) {
    && s.Upload? && s.outcome.Settled? && AtArtifact(w, s.id, s.slug)
    && var a := NextArtifact(w, s.id, s.slug);
    && a.key == key && a.sha == sha && LooksLike(w, a) && w.store[key].sha != sha
  }

  /** Some step of the history does. */
  ghost predicate Mistook(c: Config, w: World, steps: seq<Step>, key: Key, sha: string)
    decreases |steps|
  {
    && steps != [] && Enabled(c, w, steps[0])
    && (Mistakes(w, steps[0], key, sha) || Mistook(c, Apply(c, w, steps[0]), steps[1..], key, sha))
  }

  lemma OpeningTakesNothing(c: Config, w: World, s: Step)
    requires Enabled(c, w, s) && !Writes(s) && !OfWorker(s)
    ensures Apply(c, w, s).taken == w.taken
  {
  }

  lemma WorkTakesNothing(c: Config, w: World, s: Step)
    requires Enabled(c, w, s) && OfWorker(s)
    ensures Apply(c, w, s).taken == w.taken
  {
  }

  lemma FilingTakesNothing(c: Config, w: World, s: Step)
    requires Enabled(c, w, s) && Writes(s) && !s.Upload?
    ensures Apply(c, w, s).taken == w.taken
  {
  }

  lemma UploadTakes(c: Config, w: World, s: Step)
    requires Enabled(c, w, s) && s.Upload?
    ensures Apply(c, w, s).taken ==
            if s.outcome.Settled? then Noted(w, NextArtifact(w, s.id, s.slug)).taken else w.taken
  {
  }

  lemma StepMistakes(c: Config, w: World, s: Step, key: Key, sha: string)
    requires Enabled(c, w, s)
    ensures Mistaken(Apply(c, w, s), key, sha) <==> Mistaken(w, key, sha) || Mistakes(w, s, key, sha)
  {
    if s.Upload? {
      UploadTakes(c, w, s);
      var a := NextArtifact(w, s.id, s.slug);
      if Mistakes(w, s, key, sha) {
        assert Taken(a.key, a.size, a.crc, a.sha) in Apply(c, w, s).taken;
      }
      if Mistaken(w, key, sha) {
        var t :| t in w.taken && t.key == key && t.sha == sha;
        assert t in Apply(c, w, s).taken;
      }
    } else if Writes(s) {
      FilingTakesNothing(c, w, s);
    } else if OfWorker(s) {
      WorkTakesNothing(c, w, s);
    } else {
      OpeningTakesNothing(c, w, s);
    }
  }

  lemma {:induction false} MistakenAlong(c: Config, w: World, steps: seq<Step>, w': World, key: Key, sha: string)
    requires Leads(c, w, steps, w')
    ensures Mistaken(w', key, sha) <==> Mistaken(w, key, sha) || Mistook(c, w, steps, key, sha)
    decreases |steps|
  {
    if steps != [] {
      StepMistakes(c, w, steps[0], key, sha);
      MistakenAlong(c, Apply(c, w, steps[0]), steps[1..], w', key, sha);
    }
  }

  lemma MistakenForOther(w: World, key: Key, sha: string) returns (t: Taken)
    requires TakenOk(w) && Mistaken(w, key, sha)
    ensures TakenOne(w, t) && t.key == key && t.sha == sha
  {
    t :| t in w.taken && t.key == key && t.sha == sha;
  }

  /**
   The hash recorded for what is stored is its hash, but exactly where a step of the history took an
   artifact with that hash for an object that has another.
   */
  lemma HashIsSoIff(c: Config, w0: World, steps: seq<Step>, w: World, key: Key, sha: string)
    requires Fresh(w0) && Leads(c, w0, steps, w) && key in w.store && HashOk(w, key, sha)
    ensures w.store[key].sha == sha <==> !Mistook(c, w0, steps, key, sha)
  {
    HistoryOk(c, w0, steps, w);
    MistakenAlong(c, w0, steps, w, key, sha);
    if Mistaken(w, key, sha) {
      var t := MistakenForOther(w, key, sha);
    }
  }

  /** No artifact that a run staged has the size and checksum of an object of another hash at its key. */
  ghost predicate ChecksumsTell(w: World) {
    forall t: Taken :: SomeoneStaged(w, t) && t.key in w.store ==>
      w.store[t.key].size == t.size && w.store[t.key].crc == t.crc ==> w.store[t.key].sha == t.sha
  }

  lemma ChecksumsTellEnough(c: Config, w0: World, steps: seq<Step>, w: World, key: Key, sha: string)
    requires Fresh(w0) && Leads(c, w0, steps, w) && ChecksumsTell(w)
    ensures !Mistook(c, w0, steps, key, sha)
  {
    HistoryOk(c, w0, steps, w);
    MistakenAlong(c, w0, steps, w, key, sha);
    if Mistaken(w, key, sha) {
      var t := MistakenForOther(w, key, sha);
    }
  }

  // ---------------------------------------------------------------- what follows

  /** Each of these artifacts' objects has the hash recorded for it, but for one the history mistook. */
  ghost predicate HashesTold(c: Config, w0: World, steps: seq<Step>, w: World, artifacts: seq<Artifact>) {
    forall a <- artifacts ::
      a.key in w.store && (w.store[a.key].sha == a.sha <==> !Mistook(c, w0, steps, a.key, a.sha))
  }

  lemma HeldTellsHashes(c: Config, w0: World, steps: seq<Step>, w: World, artifacts: seq<Artifact>, at: Time)
    requires Fresh(w0) && Leads(c, w0, steps, w) && Held(w, artifacts, at)
    ensures HashesTold(c, w0, steps, w, artifacts)
  {
    forall a <- artifacts
      ensures a.key in w.store && (w.store[a.key].sha == a.sha <==> !Mistook(c, w0, steps, a.key, a.sha))
    {
      assert HeldOne(w, a, at);
      HashIsSoIff(c, w0, steps, w, a.key, a.sha);
    }
  }

  /**
   Provenance. In every history, an entry of a signed manifest that did not fail and carries refs has
   exactly the refs and copiedAt of a success entry for the same repository, in a manifest finished no
   later, whose artifacts are all in the store, were stored by that time, and have the recorded hashes but
   where the history mistook another's object for one.
   */
  lemma Provenance(c: Config, w0: World, steps: seq<Step>, w: World, m: Manifest, e: RepoEntry)
    requires Fresh(w0) && Leads(c, w0, steps, w)
    requires m in w.signed && e in m.repos && e.status != Failed && e.refs != []
    ensures e.copiedAt.Some? && e.copiedAt.value <= m.finishedAt
    ensures exists m0, e0 ::
              && m0 in w.signed && m0.finishedAt <= m.finishedAt && e0 in m0.repos
              && e0.slug == e.slug && e0.status == Success && e0.refs == e.refs && e0.copiedAt == e.copiedAt
              && e0.artifacts != [] && Held(w, e0.artifacts, e.copiedAt.value)
              && HashesTold(c, w0, steps, w, e0.artifacts)
  {
    HistoryOk(c, w0, steps, w);
    EntryHasOrigin(w, m, e);
    var m0, e0 :| m0 in w.signed && m0.finishedAt <= m.finishedAt
      && IsOrigin(w, m0, e0, e.slug, e.refs, e.copiedAt.value);
    HeldTellsHashes(c, w0, steps, w, e0.artifacts, e.copiedAt.value);
  }

  /**
   What any signed manifest lists, of whatever status, is in the store with the size and the lock it records,
   and with the hash it records exactly where the history did not mistake another's object for it.
   */
  lemma ListedIsStored(c: Config, w0: World, steps: seq<Step>, w: World, m: Manifest, e: RepoEntry, a: Artifact)
    requires Fresh(w0) && Leads(c, w0, steps, w)
    requires m in w.signed && e in m.repos && a in e.artifacts
    ensures a.key in w.store && w.store[a.key].size == a.size
    ensures w.store[a.key].sha == a.sha <==> !Mistook(c, w0, steps, a.key, a.sha)
    ensures w.store[a.key].writtenAt <= m.finishedAt && a.retainUntil == Some(w.store[a.key].until)
  {
    HistoryOk(c, w0, steps, w);
    assert EntryOk(w, e, m.finishedAt);
    assert HeldOne(w, a, m.finishedAt);
    HashIsSoIff(c, w0, steps, w, a.key, a.sha);
  }

  /**
   Crash consistency: a checksum sidecar a worker stored stands beside everything else of its copy, or
   beside what the history mistook for it.
   */
  lemma SidecarMeansWhole(c: Config, w0: World, steps: seq<Step>, w: World, k: Key)
    requires Fresh(w0) && Leads(c, w0, steps, w)
    requires k in w.store && w.store[k].writer.Worker? && w.store[k].writer.kind == Sidecar
    ensures var who := w.store[k].writer;
            && who.run in w.runs && who.slug in w.runs[who.run].plans
            && forall s <- w.runs[who.run].plans[who.slug].staged ::
                 && s.key in w.store && w.store[s.key].size == s.size
                 && (w.store[s.key].sha == s.sha <==> !Mistook(c, w0, steps, s.key, s.sha))
  {
    HistoryOk(c, w0, steps, w);
    var who := w.store[k].writer;
    assert SidecarOk(w, who);
    forall s <- w.runs[who.run].plans[who.slug].staged
      ensures s.key in w.store && w.store[s.key].size == s.size
      ensures w.store[s.key].sha == s.sha <==> !Mistook(c, w0, steps, s.key, s.sha)
    {
      assert StoredAs(w, s);
      HashIsSoIff(c, w0, steps, w, s.key, s.sha);
    }
  }

  /** Stored by a run, and locked for more than two thirds of the window still, less the lock's lead over the copy. */
  ghost predicate LockLasts(c: Config, w: World, k: Key, copiedAt: Time)
    requires k in w.store && w.store[k].writer.Worker?
  {
    var id := w.store[k].writer.run;
    && id in w.runs
    && 3 * (w.store[k].until - w.now) > 2 * c.window - 3 * (copiedAt - w.runs[id].lockedFrom)
  }

  /** At a skip, each object of the copy that a worker stored is locked that long. */
  lemma SkippedCopyIsLocked(c: Config, w: World, refs: RefMap, current: RefMap, a: Artifact, copiedAt: Time)
    requires Inv(c, w) && c.Locks() && HeldOne(w, a, copiedAt)
    requires w.store[a.key].writer.Worker?
    requires Decide(refs, current, copiedAt, w.now, c.window).Skip?
    ensures LockLasts(c, w, a.key, copiedAt)
  {
    var from := w.runs[w.store[a.key].writer.run].lockedFrom;
    LockOutlivesSkip(refs, current, copiedAt, w.now, c.window, w.store[a.key].until, copiedAt - from);
  }

  /** What a copy relied on goes back to: a signed origin with these very refs. */
  lemma ReliedOnOrigin(c: Config, w: World, slug: string, p: P.PreviousCopy)
    returns (refs: seq<Ref>, m0: Manifest, e0: RepoEntry)
    requires RelianceOk(w, slug, p)
    ensures MapOf(refs) == p.refs
    ensures m0 in w.signed && m0.finishedAt <= w.now && IsOrigin(w, m0, e0, slug, refs, p.copiedAt)
  {
    refs :| Origin(w, slug, refs, p.copiedAt, w.now) && MapOf(refs) == p.refs;
    m0, e0 :| m0 in w.signed && m0.finishedAt <= w.now && IsOrigin(w, m0, e0, slug, refs, p.copiedAt);
  }

  /**
   No lapse. When a run skips a repository as unchanged, the copy it relies on is a signed one, and
   every artifact of it a run stored is locked for more than two thirds of the window still, less the
   time between that run fixing its lock date and the copy being recorded.
   */
  lemma SkipNeverLapses(c: Config, w0: World, steps: seq<Step>, w: World, s: Step)
    requires Fresh(w0) && Leads(c, w0, steps, w) && c.Locks()
    requires s.Compare? && Enabled(c, w, s) && s.slug in w.runs[s.id].previous.value && s.slug !in w.runs[s.id].recopy
    requires var p := w.runs[s.id].previous.value[s.slug]; Decide(p.refs, s.current, p.copiedAt, w.now, c.window).Skip?
    ensures var p := w.runs[s.id].previous.value[s.slug];
            exists refs, m0, e0 ::
              && m0 in w.signed && IsOrigin(w, m0, e0, s.slug, refs, p.copiedAt) && MapOf(refs) == p.refs
              && forall a <- e0.artifacts | w.store[a.key].writer.Worker? :: LockLasts(c, w, a.key, p.copiedAt)
  {
    HistoryOk(c, w0, steps, w);
    var p := w.runs[s.id].previous.value[s.slug];
    assert RunOk(c, w, w.runs[s.id]);
    var refs, m0, e0 := ReliedOnOrigin(c, w, s.slug, p);
    forall a <- e0.artifacts | w.store[a.key].writer.Worker? ensures LockLasts(c, w, a.key, p.copiedAt) {
      SkippedCopyIsLocked(c, w, p.refs, s.current, a, p.copiedAt);
    }
  }

  /** Under the folder is exactly what the entry lists, all written on the day. */
  ghost predicate HoldsExactly(listing: Option<seq<Object>>, dir: string, day: int, e: RepoEntry) {
    && listing.Some?
    && (forall o <- listing.value | o.key.dir == dir :: V.WrittenOn(o, day) && NamesArtifact(e, o.key))
    && (forall a <- e.artifacts :: exists o <- listing.value :: o.key.dir == dir && o.key == a.key)
  }

  /**
   A same-day skip stores nothing, and carries the refs and copiedAt a signed manifest recorded for
   exactly the objects listed under the date.
   */
  lemma ResumeCarriesTheCopy(c: Config, w0: World, steps: seq<Step>, w: World, s: Step)
    requires Fresh(w0) && Leads(c, w0, steps, w) && s.CheckDate? && Enabled(c, w, s)
    requires s.slug !in w.runs[s.id].entries
    requires var v := Verdict(c, w, s.id, s.slug, s.listing, s.dest, s.probes);
             v.Some? && v.value.reason == AlreadyBackedUp
    ensures var w' := Apply(c, w, s);
            && w'.store == w.store && s.slug in w'.runs[s.id].entries
            && var e := w'.runs[s.id].entries[s.slug];
               e.status == Skipped && e.artifacts == []
               && (e.refs != [] ==> e.copiedAt.Some? && Origin(w, s.slug, e.refs, e.copiedAt.value, w.now))
    ensures exists m, e0 ::
              && m in w.signed && e0 in m.repos && e0.slug == s.slug && e0.status != Failed
              && Apply(c, w, s).runs[s.id].entries[s.slug].refs == e0.refs
              && Apply(c, w, s).runs[s.id].entries[s.slug].copiedAt == CopiedAtOf(e0, m.finishedAt)
              && HoldsExactly(s.listing, c.dateDir(s.slug, DayOf(w.runs[s.id].startedAt)),
                 DayOf(w.runs[s.id].startedAt), e0)
  {
    HistoryOk(c, w0, steps, w);
    VerdictOk(c, w, s);
    var m, e0 := SkipsOnACopy(c, w, s);
  }

  /** The copy a same-day skip found: a signed entry, and the date holding exactly what it lists. */
  lemma SkipsOnACopy(c: Config, w: World, s: Step) returns (m: Manifest, e0: RepoEntry)
    requires Inv(c, w) && s.CheckDate? && Enabled(c, w, s)
    requires var v := Verdict(c, w, s.id, s.slug, s.listing, s.dest, s.probes);
             v.Some? && v.value.reason == AlreadyBackedUp
    ensures m in w.signed && e0 in m.repos && e0.slug == s.slug && e0.status != Failed
    ensures var e := Verdict(c, w, s.id, s.slug, s.listing, s.dest, s.probes).value;
            e.refs == e0.refs && e.copiedAt == CopiedAtOf(e0, m.finishedAt)
    ensures HoldsExactly(s.listing, c.dateDir(s.slug, DayOf(w.runs[s.id].startedAt)), DayOf(w.runs[s.id].startedAt), e0)
  {
    var day := DayOf(w.runs[s.id].startedAt);
    var answer := DateAnswer(c, w, s.id, s.slug, s.dest, s.probes);
    V.SkipsExactly(s.listing, c.dateDir(s.slug, day), day, s.slug, answer, w.now);
    V.SkipIs(s.listing, c.dateDir(s.slug, day), day, s.slug, answer, w.now);
    m := FoundIsSigned(c, w, s.id, s.slug, s.dest, s.probes);
    e0 := answer.copy.entry;
  }
}
