/**
 The history in which the newest copy outlives the refresh bound: a copy just after midnight, and a rerun
 just before the next one that skips it as already made that day, under a bound of less than a day.
 */
module Overdue {
  import opened Base
  import opened Order
  import opened Records
  import opened Unchanged
  import opened Runs
  import opened Histories
  import opened Ledger
  import opened Reruns
  import opened Schedule
  import R = Recorded
  import V = Resume

  const SLUG := "a/b"

  function NameOf(kind: Kind): string {
    match kind
    case Bundle => "bundle"
    case Meta => "meta"
    case Sidecar => "sha256"
    case Lfs => "lfs"
  }

  /** A date's folder name, without a slash. */
  function DayName(day: int): string
    decreases if day < 0 then -day else day
  {
    if day == 0 then "+" else if day > 0 then DayName(day - 1) + "1" else DayName(day + 1) + "0"
  }

  function DirOf(slug: string, day: int): string {
    slug + "/" + DayName(day)
  }

  const DIR := DirOf(SLUG, 0)

  function KeyOf(kind: Kind): Key {
    Key(DIR, Plain(NameOf(kind)))
  }

  /** Three days of retention asked for, and a store that holds everything for its own period. */
  function Holding(window: Time): Config {
    Config(3, window, true, (slug, day, kind) => Key(DirOf(slug, day), Plain(NameOf(kind))),
           (slug, day) => DirOf(slug, day), "m")
  }

  lemma {:induction false} DayNameIs(day: int)
    ensures DayName(day) != "" && forall i | 0 <= i < |DayName(day)| :: DayName(day)[i] != '/'
    ensures |DayName(day)| == 1 + (if day < 0 then -day else day)
    ensures day != 0 ==> DayName(day)[|DayName(day)| - 1] == (if day > 0 then '1' else '0')
    decreases if day < 0 then -day else day
  {
    if day > 0 {
      DayNameIs(day - 1);
    } else if day < 0 {
      DayNameIs(day + 1);
    }
  }

  lemma LastSlash(slug: string, name: string, i: nat)
    requires i < |slug + "/" + name| && (slug + "/" + name)[i] == '/'
    requires forall j | 0 <= j < |name| :: name[j] != '/'
    ensures i <= |slug|
  {
  }

  lemma DirsDiffer(slug: string, day: int, slug': string, day': int)
    requires DirOf(slug, day) == DirOf(slug', day')
    ensures slug == slug' && day == day'
  {
    var d := DirOf(slug, day);
    DayNameIs(day);
    DayNameIs(day');
    assert d[|slug|] == '/' && d[|slug'|] == '/';
    LastSlash(slug, DayName(day), |slug'|);
    LastSlash(slug', DayName(day'), |slug|);
    assert slug == d[..|slug|] == slug';
    assert DayName(day) == d[|slug| + 1..] == DayName(day');
  }

  lemma NamesDiffer(k: Kind, k': Kind)
    ensures NameOf(k) == NameOf(k') ==> k == k'
  {
    assert |"bundle"| == 6 && |"meta"| == 4 && |"sha256"| == 6 && |"lfs"| == 3 && "bundle"[0] != "sha256"[0];
  }

  /** A configuration gitdr takes. */
  lemma HoldingIsAccepted(window: Time)
    ensures Accepted(Holding(window))
    ensures 0 < window < 3 * DAY ==> Holding(window).window == window
  {
    var c := Holding(window);
    forall slug, day, kind, slug', day', kind' | c.keyOf(slug, day, kind) == c.keyOf(slug', day', kind')
      ensures slug == slug' && day == day' && kind == kind'
    {
      DirsDiffer(slug, day, slug', day');
      NamesDiffer(kind, kind');
    }
  }

  const LIST := [Ref("HEAD", "1")]
  const COPIED: RefMap := map["HEAD" := "1"]

  function Part(kind: Kind): Staged {
    Staged(kind, KeyOf(kind), 1, 0, NameOf(kind))
  }

  const PLAN := Plan([Part(Bundle), Part(Meta), Part(Sidecar)], COPIED, true, false)

  const EMPTY := World(0, map[], {}, map[], {})

  ghost predicate Reaches(c: Config, w: World, w': World) {
    exists steps :: Leads(c, w, steps, w')
  }

  lemma {:induction false} LeadsOn(c: Config, w: World, steps: seq<Step>, w': World, s: Step)
    requires Leads(c, w, steps, w') && Enabled(c, w', s)
    ensures Leads(c, w, steps + [s], Apply(c, w', s))
    decreases |steps|
  {
    if steps == [] {
      assert steps + [s] == [s] && [s][1..] == [];
    } else {
      assert (steps + [s])[1..] == steps[1..] + [s];
      LeadsOn(c, Apply(c, w, steps[0]), steps[1..], w', s);
    }
  }

  lemma Then(c: Config, w: World, w': World, s: Step)
    requires Reaches(c, w, w') && Enabled(c, w', s)
    ensures Reaches(c, w, Apply(c, w', s))
  {
    var steps :| Leads(c, w, steps, w');
    LeadsOn(c, w, steps, w', s);
  }

  lemma CopiedList()
    ensures ListOf(LIST, COPIED) && COPIED != map[]
  {
    assert LIST[0] in LIST && "HEAD" in COPIED;
  }

  lemma PlanIsStaged(window: Time)
    ensures WellStaged(Holding(window), SLUG, 0, PLAN)
  {
    CopiedList();
    assert PLAN.staged[0] in PLAN.staged && PLAN.staged[1] in PLAN.staged && PLAN.staged[2] in PLAN.staged;
  }

  /** The first run, started at time zero, with nothing to rely on. */
  function FirstRun(phase: Phase, plans: map<string, Plan>, entries: map<string, RepoEntry>,
          manifest: Option<Manifest>): Run {
    Run(0, 0, {SLUG}, {}, false, Some(map[]), map[SLUG := phase], plans, entries, manifest)
  }

  lemma FirstRunStarts(window: Time) returns (w: World)
    requires 0 < window
    ensures Reaches(Holding(window), EMPTY, w)
    ensures w == World(0, map[], {}, map[0 := FirstRun(MustCopy, map[], map[], None)], {})
  {
    var c := Holding(window);
    assert Leads(c, EMPTY, [], EMPTY);
    var s0 := Start(0, 0, {SLUG}, {}, false);
    var w1 := Apply(c, EMPTY, s0);
    Then(c, EMPTY, EMPTY, s0);
    var s1 := LoadPrevious(0, []);
    Then(c, EMPTY, w1, s1);
    var w2 := Apply(c, w1, s1);
    assert w2.runs[0].previous == Some(map[]);
    assert w2.runs[0].phases == map[SLUG := Waiting];
    var s2 := Compare(0, SLUG, map[], []);
    Then(c, EMPTY, w2, s2);
    w := Apply(c, w2, s2);
    assert w.runs[0].phases == map[SLUG := MustCopy];
    assert w.runs == map[0 := FirstRun(MustCopy, map[], map[], None)];
  }

  function Art(window: Time, kind: Kind): Artifact {
    Artifact(kind, KeyOf(kind), 1, NameOf(kind), Some(window))
  }

  function Thing(window: Time, kind: Kind): Stored {
    Stored(1, 0, NameOf(kind), 0, window, Worker(0, SLUG, kind), Opaque)
  }

  const KINDS := [Bundle, Meta, Sidecar]

  function ProgressAt(window: Time, next: nat): map<Kind, Artifact>
    requires next <= 3
  {
    if next == 0 then map[] else ProgressAt(window, next - 1)[KINDS[next - 1] := Art(window, KINDS[next - 1])]
  }

  function StoreAt(window: Time, next: nat): map<Key, Stored>
    requires next <= 3
  {
    if next == 0 then map[] else StoreAt(window, next - 1)[KeyOf(KINDS[next - 1]) := Thing(window, KINDS[next - 1])]
  }

  /** So much of the plan is put, at time zero. */
  function UploadingAt(window: Time, next: nat): World
    requires next <= 3
  {
    World(0, StoreAt(window, next), {},
      map[0 := FirstRun(Uploading(next, ProgressAt(window, next)), map[SLUG := PLAN], map[], None)], {})
  }

  lemma Staging(window: Time)
    requires 0 < window
    ensures Reaches(Holding(window), EMPTY, UploadingAt(window, 0))
  {
    var w := FirstRunStarts(window);
    PlanIsStaged(window);
    var s := Stage(0, SLUG, Some(PLAN));
    Then(Holding(window), EMPTY, w, s);
    var w' := Apply(Holding(window), w, s);
    assert w'.runs[0].phases == map[SLUG := Uploading(0, map[])];
    assert w'.runs == UploadingAt(window, 0).runs;
  }

  lemma {:induction false} StoredKeys(window: Time, next: nat, kind: Kind)
    requires next <= 3 && kind in KINDS
    ensures KeyOf(kind) in StoreAt(window, next) <==> kind in KINDS[..next]
    ensures kind in KINDS[..next] ==> StoreAt(window, next)[KeyOf(kind)] == Thing(window, kind)
  {
    if next > 0 {
      StoredKeys(window, next - 1, kind);
      NamesDiffer(kind, KINDS[next - 1]);
      assert KINDS[..next] == KINDS[..next - 1] + [KINDS[next - 1]];
    }
  }

  /** What a put that lands does, laid out. */
  lemma PutLands(c: Config, w: World, id: RunId, slug: string)
    requires Enabled(c, w, Upload(id, slug, Written))
    ensures var r, a := w.runs[id], NextArtifact(w, id, slug);
            var o := ObjectOf(c, w, id, slug, a);
            var p := r.phases[slug];
            var listed := Artifact(a.kind, a.key, a.size, a.sha, Some(o.until));
            Apply(c, w, Upload(id, slug, Written)) ==
            w.(store := w.store[a.key := o],
               runs := w.runs[id := MoveTo(r, slug, Uploading(p.next + 1, p.progress[a.kind := listed]))])
  {
  }

  lemma PutNext(window: Time, next: nat)
    requires next < 3 && Reaches(Holding(window), EMPTY, UploadingAt(window, next))
    ensures Reaches(Holding(window), EMPTY, UploadingAt(window, next + 1))
  {
    var c, s, w := Holding(window), Upload(0, SLUG, Written), UploadingAt(window, next);
    var kind := KINDS[next];
    assert NextArtifact(w, 0, SLUG) == Part(kind);
    StoredKeys(window, next, kind);
    assert kind !in KINDS[..next];
    Then(c, EMPTY, w, s);
    PutLands(c, w, 0, SLUG);
    var w' := Apply(c, w, s);
    var p := Uploading(next + 1, ProgressAt(window, next + 1));
    assert w'.store == StoreAt(window, next + 1);
    assert w'.runs[0].phases == map[SLUG := p];
    assert w'.runs == UploadingAt(window, next + 1).runs;
  }

  // ---------------------------------------------------------------- the copy, made at time zero

  function CopyEntry(window: Time): RepoEntry {
    RepoEntry(SLUG, Success, NoReason, [Art(window, Bundle), Art(window, Meta), Art(window, Sidecar)], LIST, Some(0))
  }

  function FirstManifest(window: Time): Manifest {
    Manifest(true, 0, [CopyEntry(window)])
  }

  function FirstDone(window: Time, manifest: Option<Manifest>): Run {
    FirstRun(Done, map[SLUG := PLAN], map[SLUG := CopyEntry(window)], manifest)
  }

  lemma CopyFinishes(window: Time)
    requires 0 < window
    ensures Reaches(Holding(window), EMPTY, World(0, StoreAt(window, 3), {}, map[0 := FirstDone(window, None)], {}))
  {
    var c := Holding(window);
    Staging(window);
    PutNext(window, 0);
    PutNext(window, 1);
    PutNext(window, 2);
    CopiedList();
    var w, s := UploadingAt(window, 3), Finish(0, SLUG, LIST);
    Then(c, EMPTY, w, s);
    var w' := Apply(c, w, s);
    ProgressIsAll(window);
    assert w'.runs[0].phases == map[SLUG := Done];
    assert w'.runs[0].entries == map[SLUG := CopyEntry(window)];
    assert w'.runs == map[0 := FirstDone(window, None)];
  }

  lemma ProgressIsAll(window: Time)
    ensures InOrder(ProgressAt(window, 3)) == CopyEntry(window).artifacts
  {
    assert ProgressAt(window, 1) == map[][Bundle := Art(window, Bundle)];
    assert ProgressAt(window, 2) == ProgressAt(window, 1)[Meta := Art(window, Meta)];
    assert ProgressAt(window, 3) == ProgressAt(window, 2)[Sidecar := Art(window, Sidecar)];
  }

  const MANIFEST_KEY := Key("m", Stamped(0))

  /** What is stored once the first run has filed its manifest and the signature of it. */
  function Shelf(window: Time): map<Key, Stored> {
    StoreAt(window, 3)[MANIFEST_KEY := Stored(1, 0, "", 0, window, Filing(0), ManifestBody(FirstManifest(window)))]
                      [Key("m", Signature(0)) := Stored(1, 0, "", 0, window, Filing(0),
                        SignatureBody(FirstManifest(window), true))]
  }

  lemma {:induction false} OnlyParts(window: Time, next: nat, k: Key)
    requires k.base.Stamped? || k.base.Signature?
    requires next <= 3
    ensures k !in StoreAt(window, next)
  {
    if next > 0 {
      OnlyParts(window, next - 1, k);
    }
  }

  /** A day less an instant later. */
  function BeforeMidnight(window: Time, runs: map<RunId, Run>): World {
    World(DAY - 1, Shelf(window), {FirstManifest(window)}, runs, {})
  }

  function Signed0(window: Time, store: map<Key, Stored>): World {
    World(0, store, {FirstManifest(window)}, map[0 := FirstDone(window, Some(FirstManifest(window)))], {})
  }

  lemma FirstRunSigns(window: Time)
    requires 0 < window
    ensures Reaches(Holding(window), EMPTY, Signed0(window, StoreAt(window, 3)))
  {
    var c, m := Holding(window), FirstManifest(window);
    CopyFinishes(window);
    var w := World(0, StoreAt(window, 3), {}, map[0 := FirstDone(window, None)], {});
    var s := Sign(0, [SLUG]);
    Then(c, EMPTY, w, s);
    var w' := Apply(c, w, s);
    assert w'.runs[0].manifest.value == m;
    assert w'.runs == map[0 := FirstDone(window, Some(m))] && w'.signed == {m};
  }

  lemma FirstRunFiles(window: Time)
    requires 0 < window
    ensures Reaches(Holding(window), EMPTY,
                    BeforeMidnight(window, map[0 := FirstDone(window, Some(FirstManifest(window)))]))
  {
    var c, m := Holding(window), FirstManifest(window);
    FirstRunSigns(window);
    var w := Signed0(window, StoreAt(window, 3));
    OnlyParts(window, 3, MANIFEST_KEY);
    OnlyParts(window, 3, Key("m", Signature(0)));
    assert ManifestKeyOf(c, m) == MANIFEST_KEY;
    var s := PutManifest(0, true);
    Then(c, EMPTY, w, s);
    var w1 := Apply(c, w, s);
    var s1 := PutSignature(0, true);
    Then(c, EMPTY, w1, s1);
    Then(c, EMPTY, Signed0(window, Shelf(window)), Tick(DAY - 1));
  }

  // ---------------------------------------------------------------- the rerun, just before midnight

  function Both(window: Time, second: Run): map<RunId, Run> {
    map[0 := FirstDone(window, Some(FirstManifest(window)))][1 := second]
  }

  function SecondRun(phase: Phase, entries: map<string, RepoEntry>, manifest: Option<Manifest>): Run {
    Run(DAY - 1, DAY - 1, {SLUG}, {}, true, Some(map[]), map[SLUG := phase], map[], entries, manifest)
  }

  lemma SecondRunStarts(window: Time)
    requires 0 < window
    ensures Reaches(Holding(window), EMPTY, BeforeMidnight(window, Both(window, SecondRun(Waiting, map[], None))))
  {
    var c := Holding(window);
    FirstRunFiles(window);
    var w := BeforeMidnight(window, map[0 := FirstDone(window, Some(FirstManifest(window)))]);
    var s := Start(1, DAY - 1, {SLUG}, {}, true);
    Then(c, EMPTY, w, s);
    var w1 := Apply(c, w, s);
    var s1 := LoadPrevious(1, []);
    Then(c, EMPTY, w1, s1);
    var w2 := Apply(c, w1, s1);
    assert w2.runs[1].previous == Some(map[]) && w2.runs[1].phases == map[SLUG := Waiting];
    assert w2.runs == Both(window, SecondRun(Waiting, map[], None));
  }

  function Listed(kind: Kind): Object {
    Object(KeyOf(kind), 1, Some(0), Unusable)
  }

  const LISTING := [Listed(Bundle), Listed(Meta), Listed(Sidecar)]

  function FiledObject(window: Time): Object {
    Object(MANIFEST_KEY, 1, Some(0), Signed(FirstManifest(window)))
  }

  function Shelves(window: Time): R.Dest {
    R.Dest((dir, day) => if dir == "m" && day == 0 then Some([FiledObject(window)]) else Some([]))
  }

  const PROBES := [("m", 0)]

  lemma ShelfShows(window: Time, runs: map<RunId, Run>)
    ensures forall o <- LISTING :: Shown(BeforeMidnight(window, runs), o)
    ensures forall o | Shelves(window).Lists(o) :: Shown(BeforeMidnight(window, runs), o) && o == FiledObject(window)
  {
    StoredKeys(window, 3, Bundle);
    StoredKeys(window, 3, Meta);
    StoredKeys(window, 3, Sidecar);
    assert KINDS[..3] == KINDS;
  }

  /** What the search finds: the copy of midnight. */
  function Midnight(window: Time): R.Copy {
    R.Copy(MANIFEST_KEY, 0, CopyEntry(window))
  }

  function Asked(): R.Question {
    R.Question(SLUG, [KeyOf(Bundle), KeyOf(Meta)], Some(DAY - 1))
  }

  lemma ManifestAnswers(window: Time)
    ensures R.Answers(FiledObject(window), Asked()) && R.CopyIn(FiledObject(window), Asked()) == Midnight(window)
    ensures R.HasAnswer(Shelves(window), PROBES, Asked())
  {
    var e, o, q := CopyEntry(window), FiledObject(window), Asked();
    assert Load(o) == Some(FirstManifest(window));
    assert R.FirstEntry(FirstManifest(window).repos, SLUG) == Some(e);
    assert e.artifacts[0] in e.artifacts && q.keys[0] in q.keys && RecordsCopy(e, SLUG, q.keys[0]);
    assert o in [o];
    assert R.IsAnswerAt(Shelves(window), PROBES[0], o, q);
  }

  /** The rerun finds the copy of midnight, and the date holding exactly that. */
  lemma RerunIsSkipped(window: Time, keep: string -> bool)
    requires keep(SLUG)
    ensures V.Verdict(Some(LISTING), DIR, 0, SLUG, R.Search(Shelves(window), keep, PROBES, Asked(), R.EMPTY_REPORT),
            DAY - 1)
            == Some(RerunEntry(window))
  {
    var d := Shelves(window);
    ManifestAnswers(window);
    ShelfShows(window, map[]);
    var c := CopyEntry(window);
    assert c.artifacts[0] in c.artifacts && c.artifacts[1] in c.artifacts && c.artifacts[2] in c.artifacts;
    assert LISTING[0] in LISTING && LISTING[1] in LISTING && LISTING[2] in LISTING;
    V.RerunSkips(d, keep, PROBES, Asked(), Midnight(window), LISTING, DIR, 0, DAY - 1);
  }

  function RerunEntry(window: Time): RepoEntry {
    V.SkippedAgain(SLUG, Midnight(window))
  }

  function SecondManifest(window: Time): Manifest {
    Manifest(true, DAY - 1, [RerunEntry(window)])
  }

  function AtTheCheck(window: Time): World {
    BeforeMidnight(window, Both(window, SecondRun(Waiting, map[], None)))
  }

  function TheCheck(window: Time): Step {
    CheckDate(1, SLUG, Some(LISTING), Shelves(window), PROBES)
  }

  lemma CheckEnabled(window: Time)
    ensures Enabled(Holding(window), AtTheCheck(window), TheCheck(window))
  {
    ShelfShows(window, AtTheCheck(window).runs);
  }

  /** What the check looks at, and asks. */
  lemma CheckAsks(window: Time)
    ensures var c, w := Holding(window), AtTheCheck(window);
            && 1 in w.runs && w.now == DAY - 1 && DayOf(w.runs[1].startedAt) == 0 && c.dateDir(SLUG, 0) == DIR
            && SLUG in w.runs[1].selected && DateQuestion(c, w, 1, SLUG) == Asked()
  {
    assert DayOf(DAY - 1) == 0;
  }

  lemma CheckSkips(window: Time)
    ensures Verdict(Holding(window), AtTheCheck(window), 1, SLUG, Some(LISTING), Shelves(window), PROBES) ==
            Some(RerunEntry(window))
  {
    CheckAsks(window);
    var selected := AtTheCheck(window).runs[1].selected;
    RerunIsSkipped(window, x => x in selected);
  }

  /** The second run with its entry. */
  function Rerun(window: Time): World {
    BeforeMidnight(window, Both(window, SecondRun(Done, map[SLUG := RerunEntry(window)], None)))
  }

  lemma CheckLeads(window: Time)
    requires 0 < window && Enabled(Holding(window), AtTheCheck(window), TheCheck(window))
    requires var c, w, s := Holding(window), AtTheCheck(window), TheCheck(window);
             Verdict(c, w, s.id, s.slug, s.listing, s.dest, s.probes) == Some(RerunEntry(window))
    ensures Apply(Holding(window), AtTheCheck(window), TheCheck(window)) == Rerun(window)
  {
    var w, s := AtTheCheck(window), TheCheck(window);
    var r := Return(w.runs[1], SLUG, RerunEntry(window));
    assert Apply(Holding(window), w, s) == WithRun(w, 1, r);
    assert r.phases == map[SLUG := Done] && r.entries == map[SLUG := RerunEntry(window)];
    assert WithRun(w, 1, r).runs == Both(window, SecondRun(Done, map[SLUG := RerunEntry(window)], None));
  }

  lemma RerunSettles(window: Time)
    requires 0 < window
    ensures Reaches(Holding(window), EMPTY, Rerun(window))
  {
    SecondRunStarts(window);
    CheckEnabled(window);
    CheckSkips(window);
    CheckLeads(window);
    Then(Holding(window), EMPTY, AtTheCheck(window), TheCheck(window));
  }

  /** Where it ends: two runs, a day less an instant apart, and as long again since the second. */
  function Ending(window: Time): World {
    World(2 * (DAY - 1), Shelf(window), {FirstManifest(window), SecondManifest(window)},
          Both(window, SecondRun(Done, map[SLUG := RerunEntry(window)], Some(SecondManifest(window)))), {})
  }

  lemma EndingReached(window: Time)
    requires 0 < window
    ensures Reaches(Holding(window), EMPTY, Ending(window))
  {
    var c := Holding(window);
    RerunSettles(window);
    var second := SecondRun(Done, map[SLUG := RerunEntry(window)], None);
    var w := BeforeMidnight(window, Both(window, second));
    var s := Sign(1, [SLUG]);
    Then(c, EMPTY, w, s);
    var w1 := Apply(c, w, s);
    assert w1.runs[1].manifest.value == SecondManifest(window);
    assert w1.signed == {FirstManifest(window), SecondManifest(window)};
    assert w1.runs == Ending(window).runs;
    Then(c, EMPTY, w1, Tick(DAY - 1));
  }

  /** With this window, no scheduled history ever has a copy in force as old as the refresh bound and g and `length`. */
  ghost predicate KeepsBound(window: Time) {
    forall c: Config, w0, steps, w, ids, slug, g, length, t ::
      Accepted(c) && c.window == window && Scheduled(c, w0, steps, w, ids, slug, g, length, t) ==>
        YoungCopy(w, slug, t, RefreshBound(window) + g + length)
  }

  /** Under a bound of less than a day, the history ending here is scheduled, and has none so young. */
  lemma RerunOutlivesBound(window: Time) returns (steps: seq<Step>)
    requires 0 < window < 3 * DAY
    ensures Accepted(Holding(window)) && Holding(window).window == window
    ensures Scheduled(Holding(window), EMPTY, steps, Ending(window), [0, 1], SLUG, DAY - 1, 0, 2 * (DAY - 1))
    ensures !YoungCopy(Ending(window), SLUG, 2 * (DAY - 1), RefreshBound(window) + (DAY - 1) + 0)
  {
    var w, ids := Ending(window), [0, 1];
    HoldingIsAccepted(window);
    EndingReached(window);
    steps :| Leads(Holding(window), EMPTY, steps, w);
    assert CopyEntry(window) in FirstManifest(window).repos && RerunEntry(window) in SecondManifest(window).repos;
    assert Protects(w, ids[0], SLUG) && Protects(w, ids[1], SLUG);
    assert RefreshBound(window) <= DAY - 1;
  }

  /**
   The design's bound on the newest copy's age is kept in every history of a configuration gitdr takes
   exactly where the refresh bound is a day or more.
   */
  lemma BoundKeptIff(window: Time)
    ensures KeepsBound(window) <==> RefreshBound(window) >= DAY
    ensures RefreshBound(window) >= DAY <==> window <= 0 || window >= 3 * DAY
  {
    if RefreshBound(window) >= DAY {
      forall c: Config, w0, steps, w, ids, slug, g, length, t |
        Accepted(c) && c.window == window && Scheduled(c, w0, steps, w, ids, slug, g, length, t)
        ensures YoungCopy(w, slug, t, RefreshBound(window) + g + length)
      {
        NewestCopyAge(c, w0, steps, w, ids, slug, g, length, t);
      }
    } else {
      var steps := RerunOutlivesBound(window);
    }
  }

  // ---------------------------------------------------------------- the rerun's hypotheses are met

  /** All that is stored of the copy, and nothing else, is under its date. */
  lemma {:induction false} OnlyThings(window: Time, next: nat, k: Key) returns (kind: Kind)
    requires next <= 3 && k in StoreAt(window, next)
    ensures kind in KINDS && k == KeyOf(kind) && StoreAt(window, next)[k] == Thing(window, kind)
  {
    if k == KeyOf(KINDS[next - 1]) {
      kind := KINDS[next - 1];
    } else {
      kind := OnlyThings(window, next - 1, k);
    }
  }

  lemma UnderTheDate(window: Time, k: Key) returns (kind: Kind)
    requires k in Shelf(window) && k.dir == DIR
    ensures kind in KINDS && k == KeyOf(kind) && Shelf(window)[k] == Thing(window, kind)
  {
    DirIsLong();
    kind := OnlyThings(window, 3, k);
  }

  lemma DirIsLong()
    ensures DIR != "m"
  {
    DayNameIs(0);
    assert |DIR| == 5 && |"m"| == 1;
  }

  lemma FolderIsListed(window: Time)
    ensures ListsFolder(AtTheCheck(window), Some(LISTING), DIR)
  {
    forall k <- Shelf(window) | k.dir == DIR ensures exists o <- LISTING :: o.key == k {
      var kind := UnderTheDate(window, k);
      assert LISTING[0] in LISTING && LISTING[1] in LISTING && LISTING[2] in LISTING;
      assert Listed(kind) in LISTING && Listed(kind).key == k;
    }
  }

  lemma ManifestIsListed(window: Time)
    ensures ListsManifests(AtTheCheck(window), Shelves(window), PROBES)
  {
    var w, d := AtTheCheck(window), Shelves(window);
    forall p <- PROBES, k <- w.store | k.dir == p.0 && k.base.Stamped? && DayOf(k.base.second * SECOND) == p.1
      ensures exists o <- d.list(p.0, p.1).value :: ShowsAt(w, o, k)
    {
      if k in StoreAt(window, 3) {
        OnlyParts(window, 3, k);
        assert false;
      }
      var o := FiledObject(window);
      assert o in d.list(p.0, p.1).value && ShowsAt(w, o, k);
    }
  }

  lemma FirstIsCompleted(window: Time)
    ensures Completed(Holding(window), AtTheCheck(window), 0, FirstManifest(window), CopyEntry(window), 0)
  {
    var c, w, m := Holding(window), AtTheCheck(window), FirstManifest(window);
    assert CopyEntry(window) in m.repos && SignedBy(w, m, 0);
    assert Filed(c, w, m);
    forall k <- w.store | k.dir == c.dateDir(SLUG, 0)
      ensures w.store[k].writer.Worker? && w.store[k].writer.run == 0 && w.store[k].writer.slug == SLUG
    {
      var kind := UnderTheDate(window, k);
    }
  }

  lemma CheckIsAgain(window: Time)
    ensures ChecksAgain(Holding(window), AtTheCheck(window), 0, FirstManifest(window), CopyEntry(window),
                        TheCheck(window))
  {
    FirstIsCompleted(window);
    FolderIsListed(window);
    ManifestIsListed(window);
    assert PROBES[0] in PROBES && DayOf(DAY - 1) == 0;
  }

  /** All that RerunWritesNothing asks of a history holds of this one at the rerun's check. */
  lemma RerunIsReached(window: Time) returns (steps: seq<Step>)
    requires 0 < window
    ensures Fresh(EMPTY) && Leads(Holding(window), EMPTY, steps, AtTheCheck(window)) && KeysApart(Holding(window))
    ensures Enabled(Holding(window), AtTheCheck(window), TheCheck(window))
    ensures ChecksAgain(Holding(window), AtTheCheck(window), 0, FirstManifest(window), CopyEntry(window),
                        TheCheck(window))
    ensures SLUG !in AtTheCheck(window).runs[1].entries
  {
    HoldingIsAccepted(window);
    CheckIsAgain(window);
    CheckEnabled(window);
    SecondRunStarts(window);
    steps :| Leads(Holding(window), EMPTY, steps, AtTheCheck(window));
  }
}
