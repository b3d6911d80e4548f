/** Running again within a day: what the first run copied is left alone, and recorded again as it was. */
module Reruns {
  import opened Base
  import opened Records
  import opened Filing
  import opened Runs
  import opened Histories
  import opened Ledger
  import R = Recorded
  import V = Resume

  /** The manifest and its signature reached the store, no larger than loaders read. */
  ghost predicate Filed(c: Config, w: World, m: Manifest) {
    var k := ManifestKeyOf(c, m);
    && k in w.store && w.store[k].body == ManifestBody(m) && w.store[k].size <= MAX_MANIFEST_BYTES
    && SignatureKey(k) in w.store && w.store[SignatureKey(k)].body == SignatureBody(m, true)
  }

  /** A copy of the repository that the entry's own run made, or the finding that there is nothing to copy. */
  predicate OwnCopy(e: RepoEntry, slug: string) {
    e.slug == slug && (e.status == Success || e.reason == NoCommits)
  }

  /** No other run of that date signed for a copy of the repository; it may have tried and failed. */
  ghost predicate OnlyCopier(w: World, first: RunId, slug: string, day: int) {
    forall id <- w.runs | id != first && DayOf(w.runs[id].startedAt) == day :: !SignsCopy(w.runs[id], slug)
  }

  ghost predicate SignsCopy(r: Run, slug: string) {
    r.manifest.Some? && exists x <- r.manifest.value.repos :: OwnCopy(x, slug)
  }

  /** All that is stored under the date is what the run's worker stored. */
  ghost predicate NobodyElseUnder(c: Config, w: World, first: RunId, slug: string, day: int) {
    forall k <- w.store | k.dir == c.dateDir(slug, day) ::
      w.store[k].writer.Worker? && w.store[k].writer.run == first && w.store[k].writer.slug == slug
  }

  /** The run `first` copied the repository, or found it empty, and filed that, all within one day. */
  ghost predicate Completed(c: Config, w: World, first: RunId, m: Manifest, e: RepoEntry, day: int) {
    && SignedBy(w, m, first) && e in m.repos && (e.status == Success || e.reason == NoCommits)
    && DayOf(w.runs[first].startedAt) == day == DayOf(m.finishedAt) && Filed(c, w, m)
    && OnlyCopier(w, first, e.slug, day) && NobodyElseUnder(c, w, first, e.slug, day)
  }

  /** The listing of a folder shows what is stored in it, with when. */
  ghost predicate ListsFolder(w: World, listing: Option<seq<Object>>, dir: string) {
    && listing.Some?
    && (forall k <- w.store | k.dir == dir :: exists o <- listing.value :: o.key == k)
    && (forall o <- listing.value | o.key.dir == dir :: o.modified.Some?)
  }

  /** The object at k as it is: its size, and the manifest in it when our signature of it is beside it. */
  ghost predicate ShowsAt(w: World, o: Object, k: Key)
    requires k in w.store
  {
    && o.key == k && o.size == w.store[k].size
    && forall m | w.store[k].body == ManifestBody(m) && SignatureKey(k) in w.store
                  && w.store[SignatureKey(k)].body == SignatureBody(m, true) :: o.doc == Signed(m)
  }

  /** Every listing looked at was answered, and shows what is filed. */
  ghost predicate ListsManifests(w: World, dest: R.Dest, probes: seq<(string, int)>) {
    && (forall p <- probes :: dest.list(p.0, p.1).Some?)
    && forall p <- probes, k <- w.store | k.dir == p.0 && k.base.Stamped? && DayOf(k.base.second * SECOND) == p.1 ::
         exists o <- dest.list(p.0, p.1).value :: ShowsAt(w, o, k)
  }

  /** A later run of the day makes its check against truthful listings. */
  ghost predicate ChecksAgain(c: Config, w: World, first: RunId, m: Manifest, e: RepoEntry, s: Step)
    requires s.CheckDate? && s.id in w.runs
  {
    var day := DayOf(w.runs[s.id].startedAt);
    && Completed(c, w, first, m, e, day)
    && ListsFolder(w, s.listing, c.dateDir(e.slug, day))
    && ListsManifests(w, s.dest, s.probes) && (c.manifestDir, day) in s.probes
  }

  // ---------------------------------------------------------------- what the first run's entry says

  /** The plan a copy's entry comes from, and that it was staged for the run's date. */
  lemma PlanOf(c: Config, w: World, id: RunId, m: Manifest, e: RepoEntry)
    requires Inv(c, w) && LedgerOk(w) && SignedBy(w, m, id) && e in m.repos
    requires e.status == Success || e.reason == NoCommits
    ensures var r := w.runs[id];
            && e.slug in r.entries && r.entries[e.slug] == e && e.slug in r.plans && FromPlan(r, e.slug, e)
            && WellStaged(c, e.slug, DayOf(r.startedAt), r.plans[e.slug])
  {
    var r := w.runs[id];
    assert Kept(r);
    assert FromPlan(r, e.slug, e);
    assert RunOk(c, w, r);
    assert PhaseOk(c, w, r, e.slug);
  }

  /** Such an entry names only keys of its own run's date, and names its bundle or its metadata. */
  lemma NamesOwnKeys(c: Config, slug: string, day: int, plan: Plan, e: RepoEntry)
    requires WellStaged(c, slug, day, plan) && Lists(e, plan) && !plan.metaMissing
    ensures forall k | NamesArtifact(e, k) :: exists kind :: k == c.keyOf(slug, day, kind)
    ensures NamesArtifact(e, c.keyOf(slug, day, Meta))
    ensures plan.hasRefs ==> NamesArtifact(e, c.keyOf(slug, day, Bundle))
  {
    forall k | NamesArtifact(e, k) ensures exists kind :: k == c.keyOf(slug, day, kind) {
      var a :| a in e.artifacts && a.key == k;
      assert Planned(plan, a.key);
      var s :| s in plan.staged && s.key == k;
      var i :| 0 <= i < |plan.staged| && plan.staged[i] == s;
      assert k == c.keyOf(slug, day, s.kind);
    }
    var t :| t in plan.staged && t.kind == Meta;
    var i :| 0 <= i < |plan.staged| && plan.staged[i] == t;
    assert NamesArtifact(e, t.key);
    if plan.hasRefs {
      var b :| b in plan.staged && b.kind == Bundle;
      var j :| 0 <= j < |plan.staged| && plan.staged[j] == b;
      assert NamesArtifact(e, b.key);
    }
  }

  /** What the second run asks. */
  function QuestionOf(c: Config, slug: string, day: int, now: Time): R.Question {
    R.Question(slug, [c.keyOf(slug, day, Bundle), c.keyOf(slug, day, Meta)], Some(now))
  }

  lemma EntryRecords(c: Config, w: World, id: RunId, m: Manifest, e: RepoEntry)
    requires Inv(c, w) && LedgerOk(w) && SignedBy(w, m, id) && e in m.repos
    requires e.status == Success || e.reason == NoCommits
    ensures R.RecordsOneOf(e, QuestionOf(c, e.slug, DayOf(w.runs[id].startedAt), w.now))
  {
    var r := w.runs[id];
    PlanOf(c, w, id, m, e);
    var day := DayOf(r.startedAt);
    NamesOwnKeys(c, e.slug, day, r.plans[e.slug], e);
    var q := QuestionOf(c, e.slug, day, w.now);
    assert q.keys[0] in q.keys && q.keys[1] in q.keys;
    if e.status == Success {
      assert RecordsCopy(e, e.slug, q.keys[0]);
    } else {
      assert RecordsCopy(e, e.slug, q.keys[1]);
    }
  }

  /** A manifest has one entry of a repository, whichever comes first. */
  lemma {:induction false} FirstIs(repos: seq<RepoEntry>, e: RepoEntry)
    requires e in repos && forall x <- repos :: x.slug == e.slug ==> x == e
    ensures R.FirstEntry(repos, e.slug) == Some(e)
    decreases |repos|
  {
    if repos[0].slug != e.slug {
      assert repos == [repos[0]] + repos[1..];
      FirstIs(repos[1..], e);
    }
  }

  lemma OneEntry(w: World, m: Manifest, id: RunId, e: RepoEntry)
    requires LedgerOk(w) && SignedBy(w, m, id) && e in m.repos
    ensures R.FirstEntry(m.repos, e.slug) == Some(e)
  {
    assert ManifestOk(w.runs[id]);
    FirstIs(m.repos, e);
  }

  // ---------------------------------------------------------------- what the second run finds

  /** A filed manifest reads back as it was signed. */
  lemma ReadsBack(c: Config, w: World, m: Manifest, o: Object)
    requires Filed(c, w, m) && m.isRunManifest && ShowsAt(w, o, ManifestKeyOf(c, m))
    ensures Load(o) == Some(m) && IsFiled(o, c.manifestDir)
  {
    assert o.doc == Signed(m);
  }

  lemma SignedInTime(c: Config, w: World, m: Manifest, id: RunId)
    requires Inv(c, w) && LedgerOk(w) && SignedBy(w, m, id)
    ensures m in w.signed && m.finishedAt <= w.now && m.isRunManifest
  {
    assert RunOk(c, w, w.runs[id]);
    assert Kept(w.runs[id]);
  }

  /** The filed manifest answers. */
  lemma FirstAnswers(c: Config, w: World, first: RunId, m: Manifest, e: RepoEntry, day: int, o: Object)
    requires Inv(c, w) && LedgerOk(w) && Completed(c, w, first, m, e, day)
    requires ShowsAt(w, o, ManifestKeyOf(c, m))
    ensures R.Answers(o, QuestionOf(c, e.slug, day, w.now)) && IsFiled(o, c.manifestDir)
  {
    SignedInTime(c, w, m, first);
    ReadsBack(c, w, m, o);
    OneEntry(w, m, first, e);
    EntryRecords(c, w, first, m, e);
    SecondsGoDown(m.finishedAt);
  }

  lemma SecondsGoDown(t: Time)
    ensures SecondOf(t) * SECOND <= t
  {
  }

  /** The run whose signed entry names a key of its own date. */
  lemma NamedKeyIsOwn(c: Config, w: World, id: RunId, n: Manifest, x: RepoEntry, k: Key) returns (kind: Kind)
    requires Inv(c, w) && LedgerOk(w) && SignedBy(w, n, id) && x in n.repos
    requires x.status == Success || x.reason == NoCommits
    requires NamesArtifact(x, k)
    ensures x.slug in w.runs[id].plans && k == c.keyOf(x.slug, DayOf(w.runs[id].startedAt), kind)
  {
    PlanOf(c, w, id, n, x);
    NamesOwnKeys(c, x.slug, DayOf(w.runs[id].startedAt), w.runs[id].plans[x.slug], x);
    kind :| k == c.keyOf(x.slug, DayOf(w.runs[id].startedAt), kind);
  }

  lemma SignsIt(w: World, id: RunId, n: Manifest, x: RepoEntry, slug: string)
    requires SignedBy(w, n, id) && x in n.repos && OwnCopy(x, slug)
    ensures SignsCopy(w.runs[id], slug)
  {
  }

  /** An entry that records a copy of the date under one of its keys is the first run's. */
  lemma FromFirstRun(c: Config, w: World, first: RunId, slug: string, day: int, id: RunId, n: Manifest,
          x: RepoEntry, k: Key)
    requires Inv(c, w) && LedgerOk(w) && KeysApart(c) && OnlyCopier(w, first, slug, day)
    requires SignedBy(w, n, id) && x in n.repos && RecordsCopy(x, slug, k)
    requires k in QuestionOf(c, slug, day, w.now).keys
    ensures id == first
  {
    var kind := NamedKeyIsOwn(c, w, id, n, x, k);
    var asked := AskedFor(c, w, slug, day, k);
    SameDate(c, slug, day, asked, x.slug, DayOf(w.runs[id].startedAt), kind);
    SignsIt(w, id, n, x, slug);
  }

  lemma AskedFor(c: Config, w: World, slug: string, day: int, k: Key) returns (kind: Kind)
    requires k in QuestionOf(c, slug, day, w.now).keys
    ensures k == c.keyOf(slug, day, kind)
  {
    kind := if k == c.keyOf(slug, day, Bundle) then Bundle else Meta;
  }

  lemma SameDate(c: Config, slug: string, day: int, kind: Kind, slug': string, day': int, kind': Kind)
    requires KeysApart(c) && c.keyOf(slug, day, kind) == c.keyOf(slug', day', kind')
    ensures slug == slug' && day == day'
  {
  }

  /** Nothing else that answers says anything else: it is that manifest, wherever it is filed. */
  lemma OthersAgree(c: Config, w: World, first: RunId, m: Manifest, e: RepoEntry, day: int, p: Object)
    requires Inv(c, w) && LedgerOk(w) && KeysApart(c) && SignedBy(w, m, first) && e in m.repos
    requires OnlyCopier(w, first, e.slug, day)
    requires Shown(w, p) && R.Answers(p, QuestionOf(c, e.slug, day, w.now))
    ensures R.CopyIn(p, QuestionOf(c, e.slug, day, w.now)) == R.Copy(p.key, m.finishedAt, e)
  {
    var n := Load(p).value;
    ShownIsSigned(c, w, p);
    var id :| SignedBy(w, n, id);
    R.FirstEntryIsThere(n.repos, e.slug);
    var x := R.FirstEntry(n.repos, e.slug).value;
    var k :| k in QuestionOf(c, e.slug, day, w.now).keys && RecordsCopy(x, e.slug, k);
    FromFirstRun(c, w, first, e.slug, day, id, n, x, k);
    OneEntry(w, m, first, e);
  }

  lemma SameDay(a: Time, b: Time, t: Time)
    requires a <= t <= b && DayOf(a) == DayOf(b)
    ensures DayOf(t) == DayOf(a)
  {
  }

  /** The folder of the date holds just the objects the entry lists, each stored that day. */
  lemma DateHoldsTheCopy(c: Config, w: World, first: RunId, m: Manifest, e: RepoEntry, day: int, listing: seq<Object>)
    requires Inv(c, w) && LedgerOk(w) && KeysApart(c) && Completed(c, w, first, m, e, day)
    requires ListsFolder(w, Some(listing), c.dateDir(e.slug, day)) && forall o <- listing :: Shown(w, o)
    ensures forall o <- listing | o.key.dir == c.dateDir(e.slug, day) :: V.WrittenOn(o, day) && NamesArtifact(e, o.key)
    ensures forall a <- e.artifacts :: exists o <- listing :: o.key.dir == c.dateDir(e.slug, day) && o.key == a.key
    ensures exists o <- listing :: o.key.dir == c.dateDir(e.slug, day)
  {
    var r, dir := w.runs[first], c.dateDir(e.slug, day);
    PlanOf(c, w, first, m, e);
    NamesOwnKeys(c, e.slug, day, r.plans[e.slug], e);
    assert RunOk(c, w, r) && EntryOk(w, e, m.finishedAt);
    forall o <- listing | o.key.dir == dir ensures V.WrittenOn(o, day) && NamesArtifact(e, o.key) {
      assert Shown(w, o) && WorkerOk(w, o.key, w.store[o.key]);
      var s :| s in r.plans[e.slug].staged && s.key == o.key;
      assert NamesArtifact(e, s.key);
      var a :| a in e.artifacts && a.key == o.key;
      assert HeldOne(w, a, m.finishedAt);
      SameDay(r.startedAt, m.finishedAt, o.modified.value);
    }
    forall a <- e.artifacts ensures exists o <- listing :: o.key.dir == dir && o.key == a.key {
      assert HeldOne(w, a, m.finishedAt) && NamesArtifact(e, a.key);
      var o :| o in listing && o.key == a.key;
    }
    var a :| a in e.artifacts && a.key == c.keyOf(e.slug, day, Meta);
    var o :| o in listing && o.key.dir == dir && o.key == a.key;
  }

  /** What the second run records: the first run's copy, by its refs and its date. */
  function CarriedEntry(e: RepoEntry): RepoEntry {
    RepoEntry(e.slug, Skipped, AlreadyBackedUp, [], e.refs, e.copiedAt)
  }

  lemma CarriedIs(c: Config, w: World, first: RunId, m: Manifest, e: RepoEntry, key: Key)
    requires Inv(c, w) && LedgerOk(w) && SignedBy(w, m, first) && e in m.repos
    requires e.status == Success || e.reason == NoCommits
    ensures V.SkippedAgain(e.slug, R.Copy(key, m.finishedAt, e)) == CarriedEntry(e)
    ensures V.Believable(R.Copy(key, m.finishedAt, e), w.now)
  {
    PlanOf(c, w, first, m, e);
    assert RunOk(c, w, w.runs[first]) && EntryOk(w, e, m.finishedAt);
  }

  /**
   The check of a later run of the day, made against truthful listings, gives the skip that carries the
   first one's entry.
   */
  lemma SecondRunSkips(c: Config, w: World, first: RunId, m: Manifest, e: RepoEntry, s: Step)
    requires Inv(c, w) && LedgerOk(w) && KeysApart(c) && s.CheckDate? && Enabled(c, w, s) && s.slug == e.slug
    requires ChecksAgain(c, w, first, m, e, s)
    ensures Verdict(c, w, s.id, s.slug, s.listing, s.dest, s.probes) == Some(CarriedEntry(e))
  {
    var day := DayOf(w.runs[s.id].startedAt);
    var q := DateQuestion(c, w, s.id, s.slug);
    var k := ManifestKeyOf(c, m);
    R.SecondsKeepDays(m.finishedAt);
    var o :| o in s.dest.list(c.manifestDir, day).value && ShowsAt(w, o, k);
    FirstAnswers(c, w, first, m, e, day, o);
    var i :| 0 <= i < |s.probes| && s.probes[i] == (c.manifestDir, day);
    assert R.IsAnswerAt(s.dest, s.probes[i], o, q);
    var found := R.Copy(k, m.finishedAt, e);
    forall p | s.dest.Lists(p) && R.Answers(p, q) ensures R.CopyIn(p, q).(manifestKey := k) == found {
      OthersAgree(c, w, first, m, e, day, p);
    }
    DateHoldsTheCopy(c, w, first, m, e, day, s.listing.value);
    CarriedIs(c, w, first, m, e, k);
    var selected := w.runs[s.id].selected;
    V.RerunSkips(s.dest, x => x in selected, s.probes, q, found, s.listing.value, c.dateDir(e.slug, day), day, w.now);
  }

  // ---------------------------------------------------------------- and from then on

  /** A repository settled without a plan, its worker done. */
  ghost predicate LeftAlone(w: World, id: RunId, slug: string) {
    id in w.runs && slug in w.runs[id].phases && w.runs[id].phases[slug] == Done && slug !in w.runs[id].plans
  }

  lemma StaysAlone(c: Config, w: World, s: Step, id: RunId, slug: string)
    requires Enabled(c, w, s) && LeftAlone(w, id, slug)
    ensures LeftAlone(Apply(c, w, s), id, slug)
  {
    if s.Upload? {
      UploadElsewhere(c, w, s, id, slug);
    } else if OfWorker(s) {
      WorkElsewhere(c, w, s, id, slug);
    } else {
      NoWorkThere(c, w, s, id, slug);
    }
  }

  lemma UploadElsewhere(c: Config, w: World, s: Step, id: RunId, slug: string)
    requires Enabled(c, w, s) && LeftAlone(w, id, slug) && s.Upload?
    ensures LeftAlone(Apply(c, w, s), id, slug)
  {
  }

  lemma WorkElsewhere(c: Config, w: World, s: Step, id: RunId, slug: string)
    requires Enabled(c, w, s) && LeftAlone(w, id, slug) && OfWorker(s)
    ensures LeftAlone(Apply(c, w, s), id, slug)
  {
    if s.id != id {
      OtherRunWorks(c, w, s, id);
    } else if s.slug != slug {
      OtherWorkerWorks(c, w, s, slug);
    } else {
      assert s.StopWaiting?;
    }
  }

  lemma OtherRunWorks(c: Config, w: World, s: Step, id: RunId)
    requires Enabled(c, w, s) && OfWorker(s) && s.id != id && id in w.runs
    ensures id in Apply(c, w, s).runs && Apply(c, w, s).runs[id] == w.runs[id]
  {
  }

  lemma OtherWorkerWorks(c: Config, w: World, s: Step, slug: string)
    requires Enabled(c, w, s) && OfWorker(s) && LeftAlone(w, s.id, slug) && s.slug != slug
    ensures LeftAlone(Apply(c, w, s), s.id, slug)
  {
  }

  lemma NoWorkThere(c: Config, w: World, s: Step, id: RunId, slug: string)
    requires Enabled(c, w, s) && LeftAlone(w, id, slug) && !s.Upload? && !OfWorker(s)
    ensures LeftAlone(Apply(c, w, s), id, slug)
  {
  }

  lemma {:induction false} AloneForGood(c: Config, w: World, steps: seq<Step>, w': World, id: RunId, slug: string)
    requires Leads(c, w, steps, w') && LeftAlone(w, id, slug)
    ensures LeftAlone(w', id, slug)
    decreases |steps|
  {
    if steps != [] {
      StaysAlone(c, w, steps[0], id, slug);
      AloneForGood(c, Apply(c, w, steps[0]), steps[1..], w', id, slug);
    }
  }

  /** A check that settles the repository leaves it alone for good: the worker of that run stores nothing of it. */
  lemma SettledIsLeft(c: Config, w: World, s: Step, more: seq<Step>, w': World)
    requires Inv(c, w) && LedgerOk(w) && s.CheckDate? && Enabled(c, w, s) && s.slug !in w.runs[s.id].entries
    requires Verdict(c, w, s.id, s.slug, s.listing, s.dest, s.probes).Some?
    requires Leads(c, Apply(c, w, s), more, w')
    ensures Settles(c, w, s, w') && StoresNothing(w', s.id, s.slug)
  {
    var next := Apply(c, w, s);
    assert TrackOk(w.runs[s.id], s.slug);
    assert LeftAlone(next, s.id, s.slug);
    StepOk(c, w, s);
    StepLedger(c, w, s);
    LedgerAlong(c, next, more, w');
    AloneForGood(c, next, more, w', s.id, s.slug);
    assert RunGrew(next.runs[s.id], w'.runs[s.id]);
    forall k <- w'.store | w'.store[k].writer.Worker?
      ensures !(w'.store[k].writer.run == s.id && w'.store[k].writer.slug == s.slug)
    {
      assert WorkerOk(w', k, w'.store[k]);
    }
  }

  /** What the check says is the repository's entry. */
  ghost predicate Settles(c: Config, w: World, s: Step, w': World)
    requires s.CheckDate? && s.id in w.runs
  {
    s.id in w'.runs && s.slug in w'.runs[s.id].entries
    && Verdict(c, w, s.id, s.slug, s.listing, s.dest, s.probes) == Some(w'.runs[s.id].entries[s.slug])
  }

  ghost predicate StoresNothing(w: World, id: RunId, slug: string) {
    forall k <- w.store | w.store[k].writer.Worker? :: !(w.store[k].writer.run == id && w.store[k].writer.slug == slug)
  }

  ghost predicate FindsSomething(c: Config, w: World, s: Step)
    requires s.CheckDate? && s.id in w.runs
  {
    s.listing.Some? && exists o <- s.listing.value :: o.key.dir == c.dateDir(s.slug, DayOf(w.runs[s.id].startedAt))
  }

  lemma FoundDateSettles(c: Config, w: World, s: Step)
    requires s.CheckDate? && s.id in w.runs && FindsSomething(c, w, s)
    ensures var v := Verdict(c, w, s.id, s.slug, s.listing, s.dest, s.probes);
            v.Some? && (v.value.status == Failed || (v.value.status == Skipped && v.value.reason == AlreadyBackedUp))
  {
    var day := DayOf(w.runs[s.id].startedAt);
    var answer := DateAnswer(c, w, s.id, s.slug, s.dest, s.probes);
    V.SkipsExactly(s.listing, c.dateDir(s.slug, day), day, s.slug, answer, w.now);
  }

  /**
   Whatever a listing shows under the date, a stranger's object included, the check settles the repository,
   skipped or failed, and however the history goes on, that run's worker stores nothing of it.
   */
  lemma FoundDateIsLeft(c: Config, w0: World, steps: seq<Step>, w: World, s: Step, more: seq<Step>, w': World)
    requires Fresh(w0) && Leads(c, w0, steps, w)
    requires s.CheckDate? && Enabled(c, w, s) && s.slug !in w.runs[s.id].entries
    requires FindsSomething(c, w, s)
    requires Leads(c, Apply(c, w, s), more, w')
    ensures Settles(c, w, s, w') && StoresNothing(w', s.id, s.slug)
    ensures var e := w'.runs[s.id].entries[s.slug];
            e.status == Failed || (e.status == Skipped && e.reason == AlreadyBackedUp)
  {
    LedgerKept(c, w0, steps, w);
    FoundDateSettles(c, w, s);
    SettledIsLeft(c, w, s, more, w');
  }

  /**
   Same-day idempotence, over every history. A run copied a repository, or found it empty, and filed its
   manifest, all within one UTC day, with no other run signing for a copy of it that day and nothing else
   stored under its date. A later run of that day then settles it with AlreadyBackedUp, with
   the same refs and copiedAt; and however the history goes on, that run's worker stores nothing of it.
   */
  lemma RerunWritesNothing(c: Config, w0: World, steps: seq<Step>, w: World, first: RunId, m: Manifest, e: RepoEntry,
                           s: Step, more: seq<Step>, w': World)
    requires Fresh(w0) && Leads(c, w0, steps, w) && KeysApart(c)
    requires s.CheckDate? && Enabled(c, w, s) && s.slug == e.slug && s.slug !in w.runs[s.id].entries
    requires ChecksAgain(c, w, first, m, e, s)
    requires Leads(c, Apply(c, w, s), more, w')
    ensures s.id in w'.runs && s.slug in w'.runs[s.id].entries && w'.runs[s.id].entries[s.slug] == CarriedEntry(e)
    ensures StoresNothing(w', s.id, s.slug)
  {
    LedgerKept(c, w0, steps, w);
    SecondRunSkips(c, w, first, m, e, s);
    SettledIsLeft(c, w, s, more, w');
  }
}
