/**
 One repository's copy once its files are made: the order they are uploaded in, the record of what has
 landed that the run may read at any time, and the upload loop. What the histories take as one step each.
 */
module Staging {
  import opened Base
  import opened Order
  import opened Records
  import opened Unchanged
  import R = Runs

  /** A file made for upload, as it is stored: encrypted, when that is on, and then checksummed. */
  datatype Made = Made(size: int, crc: int, sha: string)

  // ---------------------------------------------------------------- largest first

  function InsertBySize(a: R.Staged, s: seq<R.Staged>): (out: seq<R.Staged>)
    ensures |out| == |s| + 1
    decreases |s|
  {
    if s == [] || s[0].size <= a.size then [a] + s else [s[0]] + InsertBySize(a, s[1..])
  }

  /** slices.SortStableFunc, largest first. */
  function LargestFirst(s: seq<R.Staged>): (out: seq<R.Staged>)
    ensures |out| == |s|
    decreases |s|
  {
    if s == [] then [] else InsertBySize(s[0], LargestFirst(s[1..]))
  }

  ghost predicate Descending(s: seq<R.Staged>) {
    forall i, j | 0 <= i < j < |s| :: s[i].size >= s[j].size
  }

  /** The artifacts of one size, in the order they have. */
  function OfSize(s: seq<R.Staged>, size: int): seq<R.Staged>
    decreases |s|
  {
    if s == [] then [] else (if s[0].size == size then [s[0]] else []) + OfSize(s[1..], size)
  }

  lemma {:induction false} InsertSorted(a: R.Staged, s: seq<R.Staged>)
    requires Descending(s)
    ensures Descending(InsertBySize(a, s))
    ensures forall x :: x in InsertBySize(a, s) <==> x == a || x in s
    decreases |s|
  {
    if s != [] && s[0].size > a.size {
      var rest := InsertBySize(a, s[1..]);
      InsertSorted(a, s[1..]);
      assert s == [s[0]] + s[1..];
      forall j | 0 <= j < |rest| ensures rest[j].size <= s[0].size {
        assert rest[j] in rest;
      }
    }
  }

  lemma {:induction false} InsertIsStable(a: R.Staged, s: seq<R.Staged>, size: int)
    requires Descending(s)
    ensures OfSize(InsertBySize(a, s), size) == (if a.size == size then [a] else []) + OfSize(s, size)
    decreases |s|
  {
    if s == [] || s[0].size <= a.size {
      OfSizeCons(a, s, size);
    } else {
      InsertIsStable(a, s[1..], size);
      OfSizeCons(s[0], InsertBySize(a, s[1..]), size);
      OfSizeCons(s[0], s[1..], size);
      assert s == [s[0]] + s[1..];
      FilterSwap(a, s[0], OfSize(s[1..], size), size);
    }
  }

  lemma OfSizeCons(a: R.Staged, s: seq<R.Staged>, size: int)
    ensures OfSize([a] + s, size) == (if a.size == size then [a] else []) + OfSize(s, size)
  {
    assert ([a] + s)[1..] == s;
  }

  /** Of two sizes that differ at most one is asked for. */
  lemma FilterSwap(a: R.Staged, b: R.Staged, rest: seq<R.Staged>, size: int)
    requires a.size != b.size
    ensures (if b.size == size then [b] else []) + ((if a.size == size then [a] else []) + rest) ==
            (if a.size == size then [a] else []) + ((if b.size == size then [b] else []) + rest)
  {
  }

  /** It sorts, loses nothing, and leaves artifacts of one size in the order they came. */
  lemma {:induction false} LargestFirstSorts(s: seq<R.Staged>, size: int)
    ensures Descending(LargestFirst(s)) && (forall x :: x in LargestFirst(s) <==> x in s)
    ensures OfSize(LargestFirst(s), size) == OfSize(s, size)
    decreases |s|
  {
    if s != [] {
      LargestFirstSorts(s[1..], size);
      InsertSorted(s[0], LargestFirst(s[1..]));
      InsertIsStable(s[0], LargestFirst(s[1..]), size);
      assert s == [s[0]] + s[1..];
    }
  }

  // ---------------------------------------------------------------- staging

  /** Where one artifact of the copy goes. */
  function At(c: R.Config, slug: string, day: int, kind: Kind, m: Made): R.Staged {
    R.Staged(kind, c.keyOf(slug, day, kind), m.size, m.crc, m.sha)
  }

  /**
   What was made: the LFS archive and the bundle of a repository with commits, and the metadata that
   could be read.
   */
  datatype Files = Files(hasRefs: bool, lfs: Option<Made>, bundle: Made, meta: Option<Made>, sidecar: Made) {
    function Of(kind: Kind): Option<Made> {
      match kind
      case Lfs => if hasRefs then lfs else None
      case Bundle => if hasRefs then Some(bundle) else None
      case Meta => meta
      case Sidecar => if hasRefs then Some(sidecar) else None
    }
  }

  /** This artifact is one of the copy's. */
  ghost predicate Belongs(c: R.Config, slug: string, day: int, f: Files, a: R.Staged) {
    f.Of(a.kind).Some? && a == At(c, slug, day, a.kind, f.Of(a.kind).value)
  }

  /** Every artifact of the copy and no other; all but the sidecar largest first, and the sidecar last. */
  ghost predicate UploadOrder(c: R.Config, slug: string, day: int, f: Files, staged: seq<R.Staged>) {
    SidecarLast(staged) && forall a :: a in staged <==> Belongs(c, slug, day, f, a)
  }

  ghost predicate SidecarLast(staged: seq<R.Staged>) {
    && (forall i | 0 <= i < |staged| :: staged[i].kind == Sidecar ==> i == |staged| - 1)
    && (forall i, j | 0 <= i < j < |staged| :: staged[j].kind != Sidecar ==> staged[i].size >= staged[j].size)
  }

  lemma UploadOrderIsWellStaged(c: R.Config, slug: string, day: int, f: Files, staged: seq<R.Staged>, copied: RefMap)
    requires UploadOrder(c, slug, day, f, staged) && (f.hasRefs ==> copied != map[])
    ensures R.WellStaged(c, slug, day, R.Plan(staged, copied, f.hasRefs, f.meta.None?))
  {
    if f.hasRefs {
      assert Belongs(c, slug, day, f, At(c, slug, day, Bundle, f.bundle));
      assert Belongs(c, slug, day, f, At(c, slug, day, Sidecar, f.sidecar));
    }
    if f.meta.Some? {
      assert Belongs(c, slug, day, f, At(c, slug, day, Meta, f.meta.value));
    }
    forall i | 0 <= i < |staged| ensures staged[i].key == c.keyOf(slug, day, staged[i].kind) {
      assert staged[i] in staged;
    }
  }

  /** The artifact is this file, at the copy's key of its kind. */
  ghost predicate IsFile(c: R.Config, slug: string, day: int, kind: Kind, m: Made, a: R.Staged) {
    a.kind == kind && a.key == c.keyOf(slug, day, kind) && a.size == m.size && a.crc == m.crc && a.sha == m.sha
  }

  /** What a copy is made of: with commits its bundle, the sidecar and any LFS archive; and any metadata read. */
  ghost predicate StagesAll(c: R.Config, slug: string, day: int, f: Files, staged: seq<R.Staged>) {
    forall a :: a in staged <==>
      || (f.hasRefs && IsFile(c, slug, day, Bundle, f.bundle, a))
      || (f.hasRefs && IsFile(c, slug, day, Sidecar, f.sidecar, a))
      || (f.hasRefs && f.lfs.Some? && IsFile(c, slug, day, Lfs, f.lfs.value, a))
      || (f.meta.Some? && IsFile(c, slug, day, Meta, f.meta.value, a))
  }

  lemma OrderStagesAll(c: R.Config, slug: string, day: int, f: Files, staged: seq<R.Staged>)
    requires UploadOrder(c, slug, day, f, staged)
    ensures StagesAll(c, slug, day, f, staged)
  {
    forall a ensures Belongs(c, slug, day, f, a) <==>
      || (f.hasRefs && IsFile(c, slug, day, Bundle, f.bundle, a))
      || (f.hasRefs && IsFile(c, slug, day, Sidecar, f.sidecar, a))
      || (f.hasRefs && f.lfs.Some? && IsFile(c, slug, day, Lfs, f.lfs.value, a))
      || (f.meta.Some? && IsFile(c, slug, day, Meta, f.meta.value, a))
    {
    }
  }

  method Stage(c: R.Config, slug: string, day: int, copied: RefMap, f: Files) returns (plan: R.Plan)
    requires f.hasRefs ==> copied != map[]
    ensures UploadOrder(c, slug, day, f, plan.staged) && StagesAll(c, slug, day, f, plan.staged)
    ensures R.WellStaged(c, slug, day, plan)
    ensures plan.hasRefs == f.hasRefs && plan.copied == copied && plan.metaMissing == f.meta.None?
  {
    var files: seq<R.Staged> := [];
    if f.hasRefs && f.lfs.Some? {
      files := files + [At(c, slug, day, Lfs, f.lfs.value)];
    }
    if f.hasRefs {
      files := files + [At(c, slug, day, Bundle, f.bundle)];
    }
    if f.meta.Some? {
      files := files + [At(c, slug, day, Meta, f.meta.value)];
    }
    SortedAreAll(c, slug, day, f, files);
    var staged := LargestFirst(files);
    if !f.hasRefs {
      WithoutSidecar(c, slug, day, f, staged);
    } else {
      WithSidecar(c, slug, day, f, staged);
      staged := staged + [At(c, slug, day, Sidecar, f.sidecar)];
    }
    UploadOrderIsWellStaged(c, slug, day, f, staged, copied);
    OrderStagesAll(c, slug, day, f, staged);
    plan := R.Plan(staged, copied, f.hasRefs, f.meta.None?);
  }

  /** The files are all of the copy's artifacts but the sidecar. */
  ghost predicate AllButSidecar(c: R.Config, slug: string, day: int, f: Files, files: seq<R.Staged>) {
    forall a :: a in files <==> a.kind != Sidecar && Belongs(c, slug, day, f, a)
  }

  lemma SortedAreAll(c: R.Config, slug: string, day: int, f: Files, files: seq<R.Staged>)
    requires AllButSidecar(c, slug, day, f, files)
    ensures AllButSidecar(c, slug, day, f, LargestFirst(files)) && Descending(LargestFirst(files))
  {
    LargestFirstSorts(files, 0);
  }

  lemma WithoutSidecar(c: R.Config, slug: string, day: int, f: Files, sorted: seq<R.Staged>)
    requires AllButSidecar(c, slug, day, f, sorted) && Descending(sorted) && !f.hasRefs
    ensures UploadOrder(c, slug, day, f, sorted)
  {
    NoSidecarAmong(sorted);
    assert f.Of(Sidecar).None?;
  }

  lemma WithSidecar(c: R.Config, slug: string, day: int, f: Files, sorted: seq<R.Staged>)
    requires AllButSidecar(c, slug, day, f, sorted) && Descending(sorted) && f.hasRefs
    ensures UploadOrder(c, slug, day, f, sorted + [At(c, slug, day, Sidecar, f.sidecar)])
  {
    NoSidecarAmong(sorted);
    var last := At(c, slug, day, Sidecar, f.sidecar);
    Appended(sorted, last);
    assert forall a :: a in sorted + [last] <==> Belongs(c, slug, day, f, a) by {
      forall a ensures a in sorted + [last] <==> Belongs(c, slug, day, f, a) {
        OnlyOneSidecar(c, slug, day, f, a);
      }
    }
  }

  lemma NoSidecarAmong(s: seq<R.Staged>)
    requires forall a :: a in s ==> a.kind != Sidecar
    ensures forall i | 0 <= i < |s| :: s[i].kind != Sidecar
  {
    forall i | 0 <= i < |s| ensures s[i].kind != Sidecar {
      assert s[i] in s;
    }
  }

  lemma OnlyOneSidecar(c: R.Config, slug: string, day: int, f: Files, a: R.Staged)
    requires f.hasRefs
    ensures a.kind == Sidecar ==> (Belongs(c, slug, day, f, a) <==> a == At(c, slug, day, Sidecar, f.sidecar))
  {
  }

  lemma Appended(sorted: seq<R.Staged>, last: R.Staged)
    requires Descending(sorted) && last.kind == Sidecar && forall i | 0 <= i < |sorted| :: sorted[i].kind != Sidecar
    ensures SidecarLast(sorted + [last]) && forall a :: a in sorted + [last] <==> a in sorted || a == last
  {
  }

  // ---------------------------------------------------------------- what has landed

  /** Where a manifest lists an artifact of the kind. */
  function Place(kind: Kind): nat {
    match kind
    case Bundle => 0
    case Meta => 1
    case Sidecar => 2
    case Lfs => 3
  }

  /** Each kind in its place, and once. */
  ghost predicate Placed(artifacts: seq<Artifact>) {
    forall j, k | 0 <= j < k < |artifacts| :: Place(artifacts[j].kind) < Place(artifacts[k].kind)
  }

  lemma WrittenOnce(artifacts: map<Kind, Artifact>)
    requires forall k <- artifacts :: artifacts[k].kind == k
    ensures Placed(R.InOrder(artifacts))
    ensures var s := R.InOrder(artifacts); forall j, k | 0 <= j < k < |s| :: s[j].kind != s[k].kind
  {
  }

  /** A repository's landed artifacts, one a kind. Its worker adds to it, and the run may read it meanwhile. */
  class CopyProgress {
    var artifacts: map<Kind, Artifact>

    constructor ()
      ensures artifacts == map[]
    {
      artifacts := map[];
    }

    method Wrote(a: Artifact)
      modifies this
      ensures artifacts == old(artifacts)[a.kind := a]
    {
      artifacts := artifacts[a.kind := a];
    }

    /** Sorted by kind as manifests show them, however the uploads were ordered. */
    method Written() returns (out: seq<Artifact>)
      ensures out == R.InOrder(artifacts)
      ensures (forall k <- artifacts :: artifacts[k].kind == k) ==> Placed(out)
    {
      out := [];
      var kinds := [Bundle, Meta, Sidecar, Lfs];
      for i := 0 to |kinds|
        invariant out == (if i > 0 && Bundle in artifacts then [artifacts[Bundle]] else []) +
                         (if i > 1 && Meta in artifacts then [artifacts[Meta]] else []) +
                         (if i > 2 && Sidecar in artifacts then [artifacts[Sidecar]] else []) +
                         (if i > 3 && Lfs in artifacts then [artifacts[Lfs]] else [])
      {
        if kinds[i] in artifacts {
          out := out + [artifacts[kinds[i]]];
        }
      }
      if forall k <- artifacts :: artifacts[k].kind == k {
        WrittenOnce(artifacts);
      }
    }
  }

  /** Every artifact that landed is listed, and nothing else. */
  lemma WrittenIsAll(artifacts: map<Kind, Artifact>, a: Artifact)
    ensures a in R.InOrder(artifacts) <==> exists k :: k in artifacts && artifacts[k] == a
  {
    if k :| k in artifacts && artifacts[k] == a {
      match k
      case Bundle => assert a in R.InOrder(artifacts);
      case Meta => assert a in R.InOrder(artifacts);
      case Sidecar => assert a in R.InOrder(artifacts);
      case Lfs => assert a in R.InOrder(artifacts);
    }
  }

  function Landed(a: R.Staged, until: Option<Time>): Artifact {
    Artifact(a.kind, a.key, a.size, a.sha, until)
  }

  /** What progress holds once the first i artifacts landed. */
  function ProgressAt(staged: seq<R.Staged>, answers: nat -> Option<Option<Time>>, i: nat): map<Kind, Artifact>
    requires i <= |staged|
  {
    if i == 0 then map[]
    else
      var until := if answers(i - 1).Some? then answers(i - 1).value else None;
      ProgressAt(staged, answers, i - 1)[staged[i - 1].kind := Landed(staged[i - 1], until)]
  }

  /** a is what the put of the i-th artifact landed, and no later of the first `landed` is of its kind. */
  ghost predicate LandedAs(staged: seq<R.Staged>, answers: nat -> Option<Option<Time>>, landed: int, i: int,
                           a: Artifact) {
    && 0 <= i < landed <= |staged| && answers(i).Some?
    && a == Artifact(staged[i].kind, staged[i].key, staged[i].size, staged[i].sha, answers(i).value)
    && forall j | i < j < landed :: staged[j].kind != staged[i].kind
  }

  /** The list holds what the first `landed` puts landed, all of it, nothing else, each once and in its place. */
  ghost predicate ListsLanded(artifacts: seq<Artifact>, staged: seq<R.Staged>,
                              answers: nat -> Option<Option<Time>>, landed: int) {
    && (forall a :: a in artifacts <==> exists i :: LandedAs(staged, answers, landed, i, a))
    && Placed(artifacts)
  }

  lemma {:induction false} ProgressHas(staged: seq<R.Staged>, answers: nat -> Option<Option<Time>>, landed: nat,
          k: Kind)
    returns (i: int)
    requires landed <= |staged| && forall i: nat | i < landed :: answers(i).Some?
    requires k in ProgressAt(staged, answers, landed)
    ensures LandedAs(staged, answers, landed, i, ProgressAt(staged, answers, landed)[k]) && staged[i].kind == k
    decreases landed
  {
    if staged[landed - 1].kind == k {
      i := landed - 1;
    } else {
      i := ProgressHas(staged, answers, landed - 1, k);
    }
  }

  lemma {:induction false} LandedIsProgress(staged: seq<R.Staged>, answers: nat -> Option<Option<Time>>, landed: nat,
          i: int, a: Artifact)
    requires LandedAs(staged, answers, landed, i, a)
    ensures a.kind in ProgressAt(staged, answers, landed) && ProgressAt(staged, answers, landed)[a.kind] == a
    decreases landed
  {
    if i < landed - 1 {
      LandedIsProgress(staged, answers, landed - 1, i, a);
    }
  }

  /** What progress shows after so many puts is all they landed. */
  lemma ProgressLists(staged: seq<R.Staged>, answers: nat -> Option<Option<Time>>, landed: nat)
    requires landed <= |staged| && forall i: nat | i < landed :: answers(i).Some?
    ensures ListsLanded(R.InOrder(ProgressAt(staged, answers, landed)), staged, answers, landed)
  {
    var progress := ProgressAt(staged, answers, landed);
    forall k | k in progress ensures progress[k].kind == k {
      var i := ProgressHas(staged, answers, landed, k);
    }
    WrittenOnce(progress);
    forall a ensures a in R.InOrder(progress) <==> exists i :: LandedAs(staged, answers, landed, i, a) {
      WrittenIsAll(progress, a);
      if a in R.InOrder(progress) {
        var k :| k in progress && progress[k] == a;
        var i := ProgressHas(staged, answers, landed, k);
      }
      if i :| LandedAs(staged, answers, landed, i, a) {
        LandedIsProgress(staged, answers, landed, i, a);
      }
    }
  }

  /**
   The uploads, in order, up to the first that fails. `answers` is what each put gives: the retention the
   destination reports, or a failure.
   */
  method UploadAll(progress: CopyProgress, slug: string, plan: R.Plan, answers: nat -> Option<Option<Time>>,
          list: seq<Ref>, now: Time)
    returns (entry: RepoEntry, landed: nat)
    requires progress.artifacts == map[]
    modifies progress
    ensures landed <= |plan.staged| && (forall i: nat | i < landed :: answers(i).Some?)
    ensures landed < |plan.staged| ==> answers(landed).None?
    ensures progress.artifacts == ProgressAt(plan.staged, answers, landed)
    ensures entry.artifacts == R.InOrder(progress.artifacts)
    ensures ListsLanded(entry.artifacts, plan.staged, answers, landed)
    ensures entry.slug == slug
    ensures landed < |plan.staged| || plan.metaMissing ==>
              entry.status == Failed && entry.reason == NoReason && entry.refs == [] && entry.copiedAt == None
    ensures landed == |plan.staged| && !plan.metaMissing && plan.hasRefs ==>
              entry.status == Success && entry.reason == NoReason && entry.refs == list && entry.copiedAt == Some(now)
    ensures landed == |plan.staged| && !plan.metaMissing && !plan.hasRefs ==>
              entry.status == Skipped && entry.reason == NoCommits && entry.refs == [] && entry.copiedAt == None
    ensures landed == |plan.staged| ==>
              entry == R.FinishedEntry(slug, plan, R.InOrder(progress.artifacts), list, now)
    ensures landed < |plan.staged| ==> entry == R.FailedWith(slug, R.InOrder(progress.artifacts))
  {
    landed := 0;
    while landed < |plan.staged|
      invariant landed <= |plan.staged| && (forall i: nat | i < landed :: answers(i).Some?)
      invariant progress.artifacts == ProgressAt(plan.staged, answers, landed)
    {
      if answers(landed).None? {
        ProgressLists(plan.staged, answers, landed);
        var written := progress.Written();
        return R.FailedWith(slug, written), landed;
      }
      progress.Wrote(Landed(plan.staged[landed], answers(landed).value));
      landed := landed + 1;
    }
    ProgressLists(plan.staged, answers, landed);
    var written := progress.Written();
    entry := R.FinishedEntry(slug, plan, written, list, now);
  }

  lemma {:induction false} KindsLanded(staged: seq<R.Staged>, answers: nat -> Option<Option<Time>>, i: nat, k: Kind)
    requires i <= |staged|
    ensures k in ProgressAt(staged, answers, i) <==> exists j :: 0 <= j < i && staged[j].kind == k
    decreases i
  {
    if i > 0 {
      KindsLanded(staged, answers, i - 1, k);
      if staged[i - 1].kind == k {
        assert 0 <= i - 1 < i && staged[i - 1].kind == k;
      }
    }
  }

  /** Wherever it stops: once the sidecar is recorded as landed, every artifact of the copy is. */
  lemma SidecarComesLast(c: R.Config, slug: string, day: int, plan: R.Plan,
          answers: nat -> Option<Option<Time>>, landed: nat, k: Kind)
    requires R.WellStaged(c, slug, day, plan) && landed <= |plan.staged|
    requires Sidecar in ProgressAt(plan.staged, answers, landed)
    ensures landed == |plan.staged|
    ensures (exists a <- plan.staged :: a.kind == k) ==> k in ProgressAt(plan.staged, answers, landed)
  {
    KindsLanded(plan.staged, answers, landed, Sidecar);
    KindsLanded(plan.staged, answers, landed, k);
  }
}
