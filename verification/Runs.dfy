/**
 Histories of backup runs over one create-only store.

 Any number of runs, each over any number of repositories, interleave step by step; a run that stops
 takes no further step. Others may write to the store too, but cannot sign. What is proved holds in
 every state of every history.
 */
module Runs {
  import opened Base
  import opened Order
  import opened Records
  import opened Filing
  import opened Unchanged
  import P = Previous
  import R = Recorded
  import V = Resume

  type RunId = nat

  /** Who wrote an object: one worker of one run, a run filing its manifest, or anyone else. */
  datatype Writer = Foreign | Worker(run: RunId, slug: string, kind: Kind) | Filing(run: RunId)

  datatype Body = Opaque | ManifestBody(manifest: Manifest) | SignatureBody(over: Manifest, ours: bool)

  /** An object: its checksum as the store shows it, and the hash of its bytes, which no store shows. */
  datatype Stored = Stored(size: int, crc: int, sha: string, writtenAt: Time, until: Time, writer: Writer, body: Body)

  /** One artifact ready to upload. */
  datatype Staged = Staged(kind: Kind, key: Key, size: int, crc: int, sha: string)

  /** What backupRepo has before its first upload: the files, in upload order, and what the copy records. */
  datatype Plan = Plan(staged: seq<Staged>, copied: RefMap, hasRefs: bool, metaMissing: bool)

  datatype Phase = Waiting | Looked | MustCopy | Uploading(next: nat, progress: map<Kind, Artifact>) | Done

  datatype Run = Run(startedAt: Time, lockedFrom: Time, selected: set<string>, recopy: set<string>, resume: bool,
                     previous: Option<map<string, P.PreviousCopy>>,
                     phases: map<string, Phase>, plans: map<string, Plan>,
                     entries: map<string, RepoEntry>, manifest: Option<Manifest>)

  /**
   What every run of the history shares: the configured days, the period the destination holds objects
   for, whether that period or a lock gitdr asks for is what holds them, and where things are filed.
   */
  datatype Config = Config(days: int, held: Time, storeLocks: bool,
                           keyOf: (string, int, Kind) -> Key, dateDir: (string, int) -> string, manifestDir: string) {
    /** How long a copy is taken to be kept. */
    const window: Time := RetentionWindow(days, held)

    /** How long an object is held at least, from when its run fixed the date it asks for. */
    function Lock(): Time {
      if storeLocks then held else days * DAY
    }

    /** Something does hold objects. */
    predicate Locks() {
      Lock() > 0
    }
  }

  /** One copy's keys are its own, and all lie under its date. */
  ghost predicate KeysApart(c: Config) {
    && (forall slug, day, kind :: c.keyOf(slug, day, kind).dir == c.dateDir(slug, day))
    && (forall slug, day, kind, slug', day', kind' |
          c.keyOf(slug, day, kind) == c.keyOf(slug', day', kind') :: slug == slug' && day == day' && kind == kind')
  }

  /** What gitdr's own checks of its configuration leave: some days of retention; and paths that tell copies apart. */
  ghost predicate Accepted(c: Config) {
    c.days > 0 && KeysApart(c)
  }

  /** An artifact taken for the object at its key, by size and checksum, though that object has another hash. */
  datatype Taken = Taken(key: Key, size: int, crc: int, sha: string)

  datatype World = World(now: Time, store: map<Key, Stored>, signed: set<Manifest>, runs: map<RunId, Run>,
                         taken: set<Taken>)

  /**
   How one upload ends. Settled: an object was there, with this artifact's size and checksum, and was taken
   for it. LostAnswer: stored, and reported failed.
   */
  datatype PutOutcome = Written | Settled | LostAnswer | Refused

  datatype Step =
    | Tick(elapsed: nat)
    | ForeignPut(key: Key, thing: Stored)
    | Start(id: RunId, startedAt: Time, selected: set<string>, recopy: set<string>, resume: bool)
    | LoadPrevious(id: RunId, recent: seq<Object>)
    | CheckDate(id: RunId, slug: string, listing: Option<seq<Object>>, dest: R.Dest, probes: seq<(string, int)>)
    | Compare(id: RunId, slug: string, current: RefMap, list: seq<Ref>)
    | Stage(id: RunId, slug: string, plan: Option<Plan>)
    | Upload(id: RunId, slug: string, outcome: PutOutcome)
    | Finish(id: RunId, slug: string, list: seq<Ref>)
    | StopWaiting(id: RunId, slug: string)
    | Sign(id: RunId, order: seq<string>)
    | PutManifest(id: RunId, lands: bool)
    | PutSignature(id: RunId, lands: bool)

  // ---------------------------------------------------------------- reading the store

  function SignatureKey(key: Key): Key {
    if key.base.Stamped? then Key(key.dir, Signature(key.base.second)) else key
  }

  /** An object as this run reads it: its manifest counts only under this run's signature, over exactly those bytes. */
  ghost predicate Shown(w: World, o: Object) {
    && o.key in w.store
    && (o.modified.Some? ==> o.modified.value == w.store[o.key].writtenAt)
    && (o.doc.Signed? ==>
          && w.store[o.key].body == ManifestBody(o.doc.manifest)
          && SignatureKey(o.key) in w.store
          && w.store[SignatureKey(o.key)].body == SignatureBody(o.doc.manifest, true))
  }

  // ---------------------------------------------------------------- the steps

  function WithRun(w: World, id: RunId, r: Run): World {
    w.(runs := w.runs[id := r])
  }

  /** An entry is settled once; what comes later is dropped. */
  function Settle(r: Run, slug: string, e: RepoEntry): Run {
    if slug in r.entries then r else r.(entries := r.entries[slug := e])
  }

  function MoveTo(r: Run, slug: string, p: Phase): Run {
    r.(phases := r.phases[slug := p])
  }

  /** The worker returns e. */
  function Return(r: Run, slug: string, e: RepoEntry): Run {
    Settle(MoveTo(r, slug, Done), slug, e)
  }

  /** The landed artifacts, sorted by kind as manifests show them. */
  function InOrder(progress: map<Kind, Artifact>): seq<Artifact> {
    (if Bundle in progress then [progress[Bundle]] else []) +
    (if Meta in progress then [progress[Meta]] else []) +
    (if Sidecar in progress then [progress[Sidecar]] else []) +
    (if Lfs in progress then [progress[Lfs]] else [])
  }

  function FailedWith(slug: string, artifacts: seq<Artifact>): RepoEntry {
    FailedEntry(slug).(artifacts := artifacts)
  }

  ghost predicate Active(w: World, id: RunId, slug: string) {
    id in w.runs && slug in w.runs[id].selected && slug in w.runs[id].phases && w.runs[id].previous.Some?
  }

  /** The sidecar last, and only for a bundle. */
  ghost predicate WellStaged(c: Config, slug: string, day: int, plan: Plan) {
    && (forall i | 0 <= i < |plan.staged| :: plan.staged[i].key == c.keyOf(slug, day, plan.staged[i].kind))
    && (forall i | 0 <= i < |plan.staged| :: plan.staged[i].kind == Sidecar ==> i == |plan.staged| - 1)
    && (plan.hasRefs ==> plan.copied != map[] && exists s <- plan.staged :: s.kind == Bundle)
    && (plan.hasRefs <==> exists s <- plan.staged :: s.kind == Sidecar)
    && (!plan.metaMissing ==> exists s <- plan.staged :: s.kind == Meta)
  }

  ghost predicate Enabled(c: Config, w: World, s: Step) {
    match s
    case Tick(elapsed) => true
    case ForeignPut(key, o) =>
      key !in w.store && o.writer == Foreign && o.writtenAt == w.now
      && (o.body.SignatureBody? && o.body.ours ==> o.body.over in w.signed)
    case Start(id, startedAt, selected, recopy, resume) => id !in w.runs && startedAt <= w.now
    case LoadPrevious(id, recent) =>
      id in w.runs && w.runs[id].previous.None? && DistinctKeys(recent) && (forall o <- recent :: Shown(w, o))
    case CheckDate(id, slug, listing, dest, probes) =>
      Active(w, id, slug) && w.runs[id].resume && w.runs[id].phases[slug] == Waiting
      && (listing.Some? ==> forall o <- listing.value :: Shown(w, o))
      && (forall o | dest.Lists(o) :: Shown(w, o))
    case Compare(id, slug, current, list) =>
      Active(w, id, slug) && w.runs[id].phases[slug] == (if w.runs[id].resume then Looked else Waiting)
      && (slug in w.runs[id].previous.value ==> ListOf(list, w.runs[id].previous.value[slug].refs))
    case Stage(id, slug, plan) =>
      Active(w, id, slug) && w.runs[id].phases[slug] == MustCopy && slug !in w.runs[id].plans
      && (plan.Some? ==> WellStaged(c, slug, DayOf(w.runs[id].startedAt), plan.value))
    case Upload(id, slug, outcome) =>
      Active(w, id, slug) && AtArtifact(w, id, slug)
      && (var a := NextArtifact(w, id, slug);
          match outcome
          case Written => a.key !in w.store
          case LostAnswer => a.key !in w.store
          case Settled => LooksLike(w, a)
          case Refused => true)
    case Finish(id, slug, list) =>
      Active(w, id, slug) && w.runs[id].phases[slug].Uploading? && slug in w.runs[id].plans
      && w.runs[id].phases[slug].next == |w.runs[id].plans[slug].staged|
      && ListOf(list, w.runs[id].plans[slug].copied)
    case StopWaiting(id, slug) => Active(w, id, slug) && slug !in w.runs[id].entries
    case Sign(id, order) =>
      id in w.runs && w.runs[id].manifest.None?
      && (forall i | 0 <= i < |order| :: order[i] in w.runs[id].entries)
      && (forall slug <- w.runs[id].selected :: slug in order)
    case PutManifest(id, lands) => id in w.runs && w.runs[id].manifest.Some?
    case PutSignature(id, lands) =>
      id in w.runs && w.runs[id].manifest.Some?
      && (var m := w.runs[id].manifest.value;
          ManifestKeyOf(c, m) in w.store && w.store[ManifestKeyOf(c, m)].body == ManifestBody(m))
  }

  /** What S3's settle asks of the object at the key: this artifact's size and checksum. */
  predicate LooksLike(w: World, a: Staged) {
    a.key in w.store && w.store[a.key].size == a.size && w.store[a.key].crc == a.crc
  }

  /** The artifact taken for what is there. The world notes where that is something else; the run does not see it. */
  function Noted(w: World, a: Staged): World
    requires a.key in w.store
  {
    if w.store[a.key].sha == a.sha then w else w.(taken := w.taken + {Taken(a.key, a.size, a.crc, a.sha)})
  }

  /** GCS and Azure hold an object from its write for their own period; on S3 it is locked until the run's own date. */
  function HeldUntil(c: Config, w: World, id: RunId): Time
    requires id in w.runs
  {
    if c.storeLocks then w.now + c.held else w.runs[id].lockedFrom + c.days * DAY
  }

  /** The put of a staged artifact: the object it leaves. */
  function ObjectOf(c: Config, w: World, id: RunId, slug: string, a: Staged): Stored
    requires id in w.runs
  {
    Stored(a.size, a.crc, a.sha, w.now, HeldUntil(c, w, id), Worker(id, slug, a.kind), Opaque)
  }

  /** The store with the artifact put. */
  function WithPut(c: Config, w: World, id: RunId, slug: string, a: Staged): World
    requires id in w.runs
  {
    w.(store := w.store[a.key := ObjectOf(c, w, id, slug, a)])
  }

  /** A worker at its next artifact. */
  predicate AtArtifact(w: World, id: RunId, slug: string) {
    && id in w.runs && slug in w.runs[id].phases && w.runs[id].phases[slug].Uploading?
    && slug in w.runs[id].plans && w.runs[id].phases[slug].next < |w.runs[id].plans[slug].staged|
  }

  function NextArtifact(w: World, id: RunId, slug: string): Staged
    requires AtArtifact(w, id, slug)
  {
    w.runs[id].plans[slug].staged[w.runs[id].phases[slug].next]
  }

  /** The put succeeded: the artifact is in the worker's progress, and it goes on to the next. */
  function Advance(w: World, id: RunId, slug: string): World
    requires AtArtifact(w, id, slug) && NextArtifact(w, id, slug).key in w.store
  {
    var a, phase := NextArtifact(w, id, slug), w.runs[id].phases[slug];
    var result := Artifact(a.kind, a.key, a.size, a.sha, Some(w.store[a.key].until));
    WithRun(w, id, MoveTo(w.runs[id], slug, Uploading(phase.next + 1, phase.progress[a.kind := result])))
  }

  /** The put failed: the repository fails with what it had written. */
  function GiveUp(w: World, id: RunId, slug: string): World
    requires AtArtifact(w, id, slug)
  {
    WithRun(w, id, Return(w.runs[id], slug, FailedWith(slug, InOrder(w.runs[id].phases[slug].progress))))
  }

  function AfterUpload(c: Config, w: World, id: RunId, slug: string, outcome: PutOutcome): World
    requires AtArtifact(w, id, slug) && (outcome == Settled ==> NextArtifact(w, id, slug).key in w.store)
  {
    match outcome
    case Written => Advance(WithPut(c, w, id, slug, NextArtifact(w, id, slug)), id, slug)
    case Settled => Advance(Noted(w, NextArtifact(w, id, slug)), id, slug)
    case LostAnswer => GiveUp(WithPut(c, w, id, slug, NextArtifact(w, id, slug)), id, slug)
    case Refused => GiveUp(w, id, slug)
  }

  /** The entry of a finished copy: a success, a repository with no commits, or a failure on its metadata alone. */
  function FinishedEntry(slug: string, plan: Plan, artifacts: seq<Artifact>, list: seq<Ref>, now: Time): RepoEntry {
    if plan.metaMissing then FailedWith(slug, artifacts)
    else if plan.hasRefs then RepoEntry(slug, Success, NoReason, artifacts, list, Some(now))
    else RepoEntry(slug, Skipped, NoCommits, artifacts, [], None)
  }

  function UnchangedEntry(slug: string, day: int, list: seq<Ref>, copiedAt: Time): RepoEntry {
    RepoEntry(slug, Skipped, UnchangedSince(day), [], list, Some(copiedAt))
  }

  function PreviousOf(window: seq<Object>, selected: set<string>, now: Time): map<string, P.PreviousCopy> {
    map slug | slug in selected && P.CopyOf(window, slug, now).Some? :: P.CopyOf(window, slug, now).value
  }

  ghost function AfterCompare(c: Config, w: World, id: RunId, slug: string, current: RefMap, list: seq<Ref>): World
    requires Active(w, id, slug)
  {
    var r := w.runs[id];
    if slug in r.previous.value then
      var p := r.previous.value[slug];
      var d := Decide(p.refs, current, p.copiedAt, w.now, c.window);
      if d.Skip? && slug !in r.recopy
      then WithRun(w, id, Return(r, slug, UnchangedEntry(slug, d.since, list, p.copiedAt)))
      else WithRun(w, id, MoveTo(r, slug, MustCopy))
    else WithRun(w, id, MoveTo(r, slug, MustCopy))
  }

  function ManifestKeyOf(c: Config, m: Manifest): Key {
    Key(c.manifestDir, Stamped(SecondOf(m.finishedAt)))
  }

  /** What the worker asks for: the manifest that records the bundle, or the metadata, of the run's date. */
  function DateQuestion(c: Config, w: World, id: RunId, slug: string): R.Question
    requires id in w.runs
  {
    var day := DayOf(w.runs[id].startedAt);
    R.Question(slug, [c.keyOf(slug, day, Bundle), c.keyOf(slug, day, Meta)], Some(w.now))
  }

  ghost function DateAnswer(c: Config, w: World, id: RunId, slug: string, dest: R.Dest,
          probes: seq<(string, int)>): R.Answer
    requires id in w.runs
  {
    var selected := w.runs[id].selected;
    R.Search(dest, s => s in selected, probes, DateQuestion(c, w, id, slug), R.EMPTY_REPORT)
  }

  ghost function Verdict(c: Config, w: World, id: RunId, slug: string, listing: Option<seq<Object>>,
          dest: R.Dest, probes: seq<(string, int)>): Option<RepoEntry>
    requires id in w.runs
  {
    var day := DayOf(w.runs[id].startedAt);
    V.Verdict(listing, c.dateDir(slug, day), day, slug, DateAnswer(c, w, id, slug, dest, probes), w.now)
  }

  /** The manifest composed of the settled entries, and signed: from here on others may hold a copy of the signature. */
  function AfterSign(w: World, id: RunId, order: seq<string>): World
    requires id in w.runs && forall i | 0 <= i < |order| :: order[i] in w.runs[id].entries
  {
    var m := Manifest(true, w.now, seq(|order|, i requires 0 <= i < |order| => w.runs[id].entries[order[i]]));
    WithRun(w, id, w.runs[id].(manifest := Some(m))).(signed := w.signed + {m})
  }

  /** A create-only put of the manifest or its signature; `lands` is whether it reaches the store. */
  function AfterFiling(c: Config, w: World, id: RunId, key: Key, body: Body, lands: bool): World
    requires id in w.runs
  {
    if lands && key !in w.store
    then w.(store := w.store[key := Stored(1, 0, "", w.now, HeldUntil(c, w, id), Filing(id), body)])
    else w
  }

  ghost function Apply(c: Config, w: World, s: Step): World
    requires Enabled(c, w, s)
  {
    match s
    case Tick(elapsed) => w.(now := w.now + elapsed)
    case ForeignPut(key, o) => w.(store := w.store[key := o])
    case Start(id, startedAt, selected, recopy, resume) =>
      var phases := map slug | slug in selected :: Waiting;
      WithRun(w, id, Run(startedAt, w.now, selected, recopy, resume, None, phases, map[], map[], None))
    case LoadPrevious(id, recent) =>
      var window := P.Window(FiledManifests(recent, c.manifestDir), w.now, RefreshBound(c.window));
      WithRun(w, id, w.runs[id].(previous := Some(PreviousOf(window, w.runs[id].selected, w.now))))
    case CheckDate(id, slug, listing, dest, probes) =>
      var v := Verdict(c, w, id, slug, listing, dest, probes);
      if v.None? then WithRun(w, id, MoveTo(w.runs[id], slug, Looked))
      else WithRun(w, id, Return(w.runs[id], slug, v.value))
    case Compare(id, slug, current, list) => AfterCompare(c, w, id, slug, current, list)
    case Stage(id, slug, plan) =>
      if plan.None? then WithRun(w, id, Return(w.runs[id], slug, FailedEntry(slug)))
      else WithRun(w, id, MoveTo(w.runs[id], slug, Uploading(0, map[])).(plans := w.runs[id].plans[slug := plan.value]))
    case Upload(id, slug, outcome) => AfterUpload(c, w, id, slug, outcome)
    case Finish(id, slug, list) =>
      var r := w.runs[id];
      WithRun(w, id, Return(r, slug, FinishedEntry(slug, r.plans[slug], InOrder(r.phases[slug].progress), list, w.now)))
    case StopWaiting(id, slug) =>
      var r := w.runs[id];
      var written := if r.phases[slug].Uploading? then InOrder(r.phases[slug].progress) else [];
      WithRun(w, id, Settle(r, slug, FailedWith(slug, written)))
    case Sign(id, order) => AfterSign(w, id, order)
    case PutManifest(id, lands) =>
      var m := w.runs[id].manifest.value;
      AfterFiling(c, w, id, ManifestKeyOf(c, m), ManifestBody(m), lands)
    case PutSignature(id, lands) =>
      var m := w.runs[id].manifest.value;
      AfterFiling(c, w, id, SignatureKey(ManifestKeyOf(c, m)), SignatureBody(m, true), lands)
  }
}
