/**
 Which entry a fan-out returns for each repository, told from the steps taken alone: what backupOne
 returned, or that it was never started, or what it had written when the run stopped waiting.
 */
module Outcomes {
  import opened Base
  import opened Records
  import opened FanOut
  import R = Runs
  import S = Staging

  // ---------------------------------------------------------------- what the steps say

  /** The run came to repository i, the i-th of its checks, before it was stopped. */
  ghost predicate IsStarted(steps: seq<Step>, i: nat) {
    exists c :: 0 <= c < |steps| && StartsAt(steps, i, c)
  }

  ghost predicate StartsAt(steps: seq<Step>, i: nat, c: nat)
    requires c < |steps|
  {
    steps[c] == Check && multiset(steps[..c])[Check] == i && Stop !in steps[..c]
  }

  /** backupOne's goroutine for i came to settle before the grace period was up. */
  ghost predicate SettledInTime(steps: seq<Step>, i: nat) {
    exists u :: 0 <= u < |steps| && steps[u] == SettleOne(i) && TimeUp !in steps[..u]
  }

  /** backupOne returned e for repository i, and nothing else. */
  ghost predicate Returned(steps: seq<Step>, i: nat, e: RepoEntry) {
    Step.Return(i, e) in steps && forall f | Step.Return(i, f) in steps :: f == e
  }

  /** The artifact of step t landed for repository i, and no later one of its kind before step n. */
  ghost predicate LastOfItsKind(steps: seq<Step>, i: nat, n: int, t: int) {
    && 0 <= t < n <= |steps| && steps[t].Write? && steps[t].i == i
    && forall u | t < u < n && steps[u].Write? && steps[u].i == i :: steps[u].a.kind != steps[t].a.kind
  }

  ghost predicate LandedBefore(steps: seq<Step>, i: nat, n: int, a: Artifact) {
    exists t :: LastOfItsKind(steps, i, n, t) && steps[t].a == a
  }

  /** e lists exactly these, each once. */
  ghost predicate ListsLanded(steps: seq<Step>, i: nat, n: int, e: RepoEntry) {
    && (forall a :: a in e.artifacts <==> LandedBefore(steps, i, n, a))
    && forall j, k | 0 <= j < k < |e.artifacts| :: e.artifacts[j].kind != e.artifacts[k].kind
  }

  /** Step c is where the run, its grace period up, came to repository i and recorded e, with what had landed. */
  ghost predicate CollectedAt(steps: seq<Step>, i: nat, e: RepoEntry, c: int) {
    && 0 <= c < |steps| && steps[c] == Collect && multiset(steps[..c])[Collect] == i && TimeUp in steps[..c]
    && ListsLanded(steps, i, c, e)
  }

  ghost predicate IsCollected(steps: seq<Step>, i: nat, e: RepoEntry) {
    exists c :: CollectedAt(steps, i, e, c)
  }

  /** The entry repository i has: one of three, and which is told by the steps. */
  ghost predicate Outcome(job: Job, steps: seq<Step>, i: nat, e: RepoEntry)
    requires i < |job.slugs|
  {
    if !IsStarted(steps, i) then e == RepoEntry(job.slugs[i], Failed, NoReason, [], [], None)
    else if SettledInTime(steps, i) then Returned(steps, i, e)
    else e == RepoEntry(job.slugs[i], Failed, NoReason, e.artifacts, [], None) && IsCollected(steps, i, e)
  }

  // ---------------------------------------------------------------- one step more

  lemma OneMoreOf(steps: seq<Step>, step: Step, x: Step)
    ensures multiset(steps + [step])[x] == multiset(steps)[x] + if step == x then 1 else 0
    ensures x in steps + [step] <==> x in steps || step == x
  {
  }

  lemma StartedMore(steps: seq<Step>, step: Step, i: nat)
    ensures IsStarted(steps + [step], i) <==>
            IsStarted(steps, i) || (step == Check && multiset(steps)[Check] == i && Stop !in steps)
  {
    var more := steps + [step];
    forall c | 0 <= c <= |steps| ensures more[..c] == steps[..c] {
    }
    assert steps[..|steps|] == steps;
    if IsStarted(steps, i) {
      var c :| 0 <= c < |steps| && StartsAt(steps, i, c);
      assert more[..c] == steps[..c];
      assert StartsAt(more, i, c);
    }
    if step == Check && multiset(steps)[Check] == i && Stop !in steps {
      assert StartsAt(more, i, |steps|);
    }
    if IsStarted(more, i) {
      var c :| 0 <= c < |more| && StartsAt(more, i, c);
      assert more[..c] == steps[..c];
      if c < |steps| {
        assert StartsAt(steps, i, c);
      }
    }
  }

  lemma InTimeMore(steps: seq<Step>, step: Step, i: nat)
    ensures SettledInTime(steps + [step], i) <==>
            SettledInTime(steps, i) || (step == SettleOne(i) && TimeUp !in steps)
  {
    var more := steps + [step];
    assert steps[..|steps|] == steps;
    if SettledInTime(steps, i) {
      var u :| 0 <= u < |steps| && steps[u] == SettleOne(i) && TimeUp !in steps[..u];
      assert more[..u] == steps[..u] && more[u] == steps[u];
    }
    if step == SettleOne(i) && TimeUp !in steps {
      assert more[|steps|] == step && more[..|steps|] == steps;
    }
    if SettledInTime(more, i) {
      var u :| 0 <= u < |more| && more[u] == SettleOne(i) && TimeUp !in more[..u];
      assert more[..u] == steps[..u];
      if u < |steps| {
        assert steps[u] == more[u];
      }
    }
  }

  lemma LastStays(steps: seq<Step>, step: Step, i: nat, n: int, t: int)
    requires n <= |steps|
    ensures LastOfItsKind(steps + [step], i, n, t) <==> LastOfItsKind(steps, i, n, t)
  {
    var more := steps + [step];
    forall u | 0 <= u < n ensures more[u] == steps[u] {
    }
  }

  lemma CollectedStays(steps: seq<Step>, step: Step, i: nat, e: RepoEntry)
    requires IsCollected(steps, i, e)
    ensures IsCollected(steps + [step], i, e)
  {
    var more := steps + [step];
    var c :| CollectedAt(steps, i, e, c);
    assert more[..c] == steps[..c] && more[c] == steps[c];
    forall a ensures LandedBefore(more, i, c, a) <==> LandedBefore(steps, i, c, a) {
      LandedStays(steps, step, i, c, a);
    }
    assert CollectedAt(more, i, e, c);
  }

  lemma LandedStays(steps: seq<Step>, step: Step, i: nat, n: int, a: Artifact)
    requires n <= |steps|
    ensures LandedBefore(steps + [step], i, n, a) <==> LandedBefore(steps, i, n, a)
  {
    if t :| LastOfItsKind(steps, i, n, t) && steps[t].a == a {
      LastStays(steps, step, i, n, t);
    }
    if t :| LastOfItsKind(steps + [step], i, n, t) && (steps + [step])[t].a == a {
      LastStays(steps, step, i, n, t);
    }
  }

  // ---------------------------------------------------------------- what has landed

  /** The last artifact of each kind that landed for i. */
  function Landed(steps: seq<Step>, i: nat): map<Kind, Artifact>
    decreases |steps|
  {
    if steps == [] then map[]
    else
      var step, before := steps[|steps| - 1], Landed(steps[..|steps| - 1], i);
      if step.Write? && step.i == i then before[step.a.kind := step.a] else before
  }

  lemma LandedMore(steps: seq<Step>, step: Step, i: nat)
    ensures Landed(steps + [step], i) ==
            if step.Write? && step.i == i then Landed(steps, i)[step.a.kind := step.a] else Landed(steps, i)
  {
    assert (steps + [step])[..|steps|] == steps;
  }

  lemma {:induction false} LandedIsLast(steps: seq<Step>, i: nat, n: nat, k: Kind) returns (t: int)
    requires n <= |steps| && k in Landed(steps[..n], i)
    ensures LastOfItsKind(steps, i, n, t) && steps[t].a == Landed(steps[..n], i)[k] && steps[t].a.kind == k
    decreases n
  {
    var step := steps[n - 1];
    assert steps[..n] == steps[..n - 1] + [step];
    LandedMore(steps[..n - 1], step, i);
    if step.Write? && step.i == i && step.a.kind == k {
      t := n - 1;
    } else {
      t := LandedIsLast(steps, i, n - 1, k);
    }
  }

  lemma {:induction false} LastIsLanded(steps: seq<Step>, i: nat, n: nat, t: int)
    requires LastOfItsKind(steps, i, n, t)
    ensures var k := steps[t].a.kind; k in Landed(steps[..n], i) && Landed(steps[..n], i)[k] == steps[t].a
    decreases n
  {
    var step := steps[n - 1];
    assert steps[..n] == steps[..n - 1] + [step];
    LandedMore(steps[..n - 1], step, i);
    if t < n - 1 {
      LastIsLanded(steps, i, n - 1, t);
    }
  }

  /** Listed in manifest order, they are each listed once, and nothing else. */
  lemma WhatLanded(steps: seq<Step>, i: nat, e: RepoEntry)
    requires e.artifacts == R.InOrder(Landed(steps, i))
    ensures ListsLanded(steps, i, |steps|, e)
  {
    var all := steps[..|steps|];
    assert all == steps;
    var landed := Landed(steps, i);
    forall k | k in landed ensures landed[k].kind == k {
      var t := LandedIsLast(steps, i, |steps|, k);
    }
    forall a ensures a in e.artifacts <==> LandedBefore(steps, i, |steps|, a) {
      S.WrittenIsAll(landed, a);
      if a in e.artifacts {
        var k :| k in landed && landed[k] == a;
        var t := LandedIsLast(steps, i, |steps|, k);
      }
      if t :| LastOfItsKind(steps, i, |steps|, t) && steps[t].a == a {
        LastIsLanded(steps, i, |steps|, t);
      }
    }
    S.WrittenOnce(landed);
  }

  // ---------------------------------------------------------------- the invariant

  /** A run not stopped so far gives up on nothing, and has returned only when every worker was done. */
  ghost predicate Unstopped(job: Job, s: State)
    requires Shaped(job, s)
  {
    !s.stopped ==>
      || s.main.Launching?
      || (s.main.Draining? && s.main.started == |job.slugs|)
      || (s.main.Returned? && s.main.started == |job.slugs| && AllExited(s, |job.slugs|))
  }

  lemma UnstoppedStep(job: Job, s: State, step: Step)
    requires Inv(job, s) && Enabled(job, s, step) && Unstopped(job, s) && Shaped(job, Next(job, s, step))
    ensures Unstopped(job, Next(job, s, step))
  {
  }

  /** Where the run is, by the steps. */
  ghost predicate PlaceTold(steps: seq<Step>, s: State) {
    && (TimeUp in steps ==> s.stopped)
    && (Stop in steps <==> s.stopped)
    && (s.main.Launching? ==> multiset(steps)[Check] == s.main.next)
    && (s.main.Collecting? ==> TimeUp in steps && multiset(steps)[Collect] == s.main.next)
    && (!s.main.Collecting? && !s.main.Returned? ==> TimeUp !in steps && multiset(steps)[Collect] == 0)
  }

  /** Where repository i's worker is, by the steps. */
  ghost predicate WorkerTold(steps: seq<Step>, w: Worker, i: nat) {
    && (w.NotStarted? <==> !IsStarted(steps, i))
    && (w.NotStarted? || w.Running? ==> forall e :: Step.Return(i, e) !in steps)
    && (w.Finished? ==> Returned(steps, i, w.entry))
    && (w.NotStarted? || w.Running? || w.Finished? <==> SettleOne(i) !in steps)
  }

  ghost predicate ProgressTold(steps: seq<Step>, p: Option<Progress>, i: nat) {
    Landed(steps, i) == if p.Some? then p.value else map[]
  }

  ghost predicate Told(job: Job, steps: seq<Step>, s: State, i: nat) {
    && Shaped(job, s) && i < |job.slugs| && Unstopped(job, s) && PlaceTold(steps, s)
    && WorkerTold(steps, s.workers[i], i) && ProgressTold(steps, s.progress[i], i)
    && (s.entries[i].Some? ==> Outcome(job, steps, i, s.entries[i].value))
  }

  lemma PlaceStep(job: Job, steps: seq<Step>, s: State, step: Step)
    requires Shaped(job, s) && PlaceOk(job, s) && Enabled(job, s, step) && Unstopped(job, s) && PlaceTold(steps, s)
    ensures PlaceTold(steps + [step], Next(job, s, step))
  {
    OneMoreOf(steps, step, Check);
    OneMoreOf(steps, step, Collect);
    OneMoreOf(steps, step, TimeUp);
    OneMoreOf(steps, step, Stop);
  }

  lemma WorkerStep(job: Job, steps: seq<Step>, s: State, step: Step, i: nat)
    requires Shaped(job, s) && StartedOk(job, s) && Enabled(job, s, step) && i < |job.slugs|
    requires PlaceTold(steps, s) && WorkerTold(steps, s.workers[i], i)
    ensures WorkerTold(steps + [step], Next(job, s, step).workers[i], i)
  {
    StartedMore(steps, step, i);
    OneMoreOf(steps, step, SettleOne(i));
    forall e ensures Step.Return(i, e) in steps + [step] <==> Step.Return(i, e) in steps || step == Step.Return(i, e) {
      OneMoreOf(steps, step, Step.Return(i, e));
    }
  }

  lemma ProgressStep(job: Job, steps: seq<Step>, s: State, step: Step, i: nat)
    requires Shaped(job, s) && StartedOk(job, s) && Enabled(job, s, step) && i < |job.slugs|
    requires ProgressTold(steps, s.progress[i], i)
    ensures ProgressTold(steps + [step], Next(job, s, step).progress[i], i)
  {
    LandedMore(steps, step, i);
  }

  /** A settled entry is still told right after one step more. */
  lemma SettledStep(job: Job, steps: seq<Step>, s: State, step: Step, i: nat)
    requires Inv(job, s) && Enabled(job, s, step) && Told(job, steps, s, i) && s.entries[i].Some?
    ensures Outcome(job, steps + [step], i, s.entries[i].value)
  {
    var e := s.entries[i].value;
    StartedMore(steps, step, i);
    InTimeMore(steps, step, i);
    if !IsStarted(steps, i) {
    } else if SettledInTime(steps, i) {
      assert SettleOne(i) in steps;
      forall f ensures Step.Return(i, f) in steps + [step] <==> Step.Return(i, f) in steps {
        OneMoreOf(steps, step, Step.Return(i, f));
      }
    } else {
      CollectedStays(steps, step, i, e);
    }
  }

  /** The run gives up on a repository it never started. */
  lemma AbandonTold(job: Job, steps: seq<Step>, s: State, i: nat)
    requires Inv(job, s) && Enabled(job, s, Abandon) && Told(job, steps, s, i) && s.main.next == i
    ensures Outcome(job, steps + [Abandon], i, FailedEntry(job.slugs[i]))
  {
    StartedMore(steps, Abandon, i);
  }

  lemma SettleTold(job: Job, steps: seq<Step>, s: State, i: nat)
    requires Inv(job, s) && i < |job.slugs| && Enabled(job, s, SettleOne(i)) && Told(job, steps, s, i)
    requires s.entries[i].None?
    ensures Outcome(job, steps + [SettleOne(i)], i, s.workers[i].entry)
  {
    var step := SettleOne(i);
    StartedMore(steps, step, i);
    InTimeMore(steps, step, i);
    forall f ensures Step.Return(i, f) in steps + [step] <==> Step.Return(i, f) in steps {
      OneMoreOf(steps, step, Step.Return(i, f));
    }
  }

  lemma CollectTold(job: Job, steps: seq<Step>, s: State, i: nat)
    requires Inv(job, s) && Enabled(job, s, Collect) && Told(job, steps, s, i) && s.main.next == i
    requires s.entries[i].None?
    ensures Outcome(job, steps + [Collect], i, StillRunning(job.slugs[i], s.progress[i].value))
  {
    var step, n := Collect, |steps|;
    var more := steps + [step];
    var e := StillRunning(job.slugs[i], s.progress[i].value);
    StartedMore(steps, step, i);
    InTimeMore(steps, step, i);
    assert !SettledInTime(steps, i);
    WhatLanded(steps, i, e);
    forall a ensures LandedBefore(more, i, n, a) <==> LandedBefore(steps, i, n, a) {
      LandedStays(steps, step, i, n, a);
    }
    assert more[..n] == steps;
    assert CollectedAt(more, i, e, n);
  }

  lemma EntryStep(job: Job, steps: seq<Step>, s: State, step: Step, i: nat)
    requires Inv(job, s) && Enabled(job, s, step) && Told(job, steps, s, i) && Shaped(job, Next(job, s, step))
    ensures var entry := Next(job, s, step).entries[i];
            entry.Some? ==> Outcome(job, steps + [step], i, entry.value)
  {
    if s.entries[i].Some? {
      OneStepKeepsEntry(job, s, step, i);
      SettledStep(job, steps, s, step, i);
    } else if step == Abandon && s.main.next == i {
      AbandonTold(job, steps, s, i);
    } else if step == SettleOne(i) {
      SettleTold(job, steps, s, i);
    } else if step == Collect && s.main.next == i {
      CollectTold(job, steps, s, i);
    }
  }

  lemma ToldStep(job: Job, steps: seq<Step>, s: State, step: Step, i: nat)
    requires Inv(job, s) && Enabled(job, s, step) && Told(job, steps, s, i)
    ensures Inv(job, Next(job, s, step)) && Told(job, steps + [step], Next(job, s, step), i)
  {
    StepOk(job, s, step);
    UnstoppedStep(job, s, step);
    PlaceStep(job, steps, s, step);
    WorkerStep(job, steps, s, step, i);
    ProgressStep(job, steps, s, step, i);
    EntryStep(job, steps, s, step, i);
  }

  lemma {:induction false} ToldAlong(job: Job, steps: seq<Step>, s: State, rest: seq<Step>, s': State, i: nat)
    requires Inv(job, s) && Told(job, steps, s, i) && Leads(job, s, rest, s')
    ensures Told(job, steps + rest, s', i)
    decreases |rest|
  {
    if rest == [] {
      assert steps + rest == steps;
    } else {
      var step, next := rest[0], Next(job, s, rest[0]);
      ToldStep(job, steps, s, step, i);
      assert steps + [step] + rest[1..] == steps + rest;
      ToldAlong(job, steps + [step], next, rest[1..], s', i);
    }
  }

  // ---------------------------------------------------------------- what is returned

  /**
   What a run returns for repository i, over every interleaving. If a stop came before the run's turn
   to start it, a failure with nothing written. Where its goroutine settled before the grace period was up, the
   very entry backupOne returned. Otherwise a failure that lists exactly the artifacts that had landed, the
   last of each kind, when the run came to it.
   */
  lemma WhichEntry(job: Job, steps: seq<Step>, s: State, i: nat)
    requires Leads(job, Start(job), steps, s) && s.main.Returned? && i < |job.slugs|
    ensures |s.main.entries| == |job.slugs| && Outcome(job, steps, i, s.main.entries[i])
  {
    StartOk(job);
    InvAlong(job, Start(job), steps, s);
    ToldAlong(job, [], Start(job), steps, s, i);
    assert [] + steps == steps;
    assert s.entries[i] == Some(s.main.entries[i]);
  }

  /** A run never stopped returns for each repository the very entry backupOne returned. */
  lemma NeverStopped(job: Job, steps: seq<Step>, s: State, i: nat)
    requires Leads(job, Start(job), steps, s) && s.main.Returned? && i < |job.slugs| && Stop !in steps
    ensures |s.main.entries| == |job.slugs| && Returned(steps, i, s.main.entries[i])
  {
    StartOk(job);
    WhichEntry(job, steps, s, i);
    ToldAlong(job, [], Start(job), steps, s, i);
    assert [] + steps == steps;
    var u :| 0 <= u < |steps| && steps[u] == SettleOne(i);
    assert TimeUp !in steps[..u];
  }

  // ---------------------------------------------------------------- the limit is used

  lemma {:induction false} LeadsOn(job: Job, s: State, steps: seq<Step>, s': State, step: Step)
    requires Leads(job, s, steps, s') && Shaped(job, s') && Enabled(job, s', step)
    ensures Leads(job, s, steps + [step], Next(job, s', step))
    decreases |steps|
  {
    if steps == [] {
      assert steps + [step] == [step] && [step][1..] == [];
    } else {
      assert (steps + [step])[1..] == steps[1..] + [step];
      LeadsOn(job, Next(job, s, steps[0]), steps[1..], s', step);
    }
  }

  /** The first k repositories are at work, and the run has come no further. */
  ghost predicate AtWork(job: Job, s: State, k: nat) {
    && Shaped(job, s) && k <= |job.slugs| && s.main == Launching(k, false) && s.inUse == k && !s.stopped
    && Total(s.workers, IsRunning) == k && forall i | k <= i < |job.slugs| :: s.workers[i].NotStarted?
  }

  lemma OneMoreAtWork(job: Job, s: State, k: nat)
    requires AtWork(job, s, k) && k < |job.slugs| && k < job.Limit()
    ensures Enabled(job, s, Acquire) && Enabled(job, Next(job, s, Acquire), Check)
    ensures AtWork(job, Next(job, Next(job, s, Acquire), Check), k + 1)
  {
    TotalUpdate(s.workers, IsRunning, k, Running);
  }

  lemma {:induction false} NoneRun(ws: seq<Worker>)
    requires forall i | 0 <= i < |ws| :: ws[i].NotStarted?
    ensures Total(ws, IsRunning) == 0
    decreases |ws|
  {
    if ws != [] {
      NoneRun(ws[1..]);
    }
  }

  lemma {:induction false} SoManyAtWork(job: Job, k: nat) returns (steps: seq<Step>, s: State)
    requires k <= |job.slugs| && k <= Max(1, job.concurrency)
    ensures Leads(job, Start(job), steps, s) && AtWork(job, s, k)
    decreases k
  {
    if k == 0 {
      NoneRun(Start(job).workers);
      steps, s := [], Start(job);
    } else {
      steps, s := SoManyAtWork(job, k - 1);
      OneMoreAtWork(job, s, k - 1);
      LeadsOn(job, Start(job), steps, s, Acquire);
      LeadsOn(job, Start(job), steps + [Acquire], Next(job, s, Acquire), Check);
      steps, s := steps + [Acquire] + [Check], Next(job, Next(job, s, Acquire), Check);
    }
  }

  /** As many repositories as the configuration allows do get to work at once, as far as there are so many. */
  lemma LimitIsReached(job: Job) returns (steps: seq<Step>, s: State)
    ensures Leads(job, Start(job), steps, s)
    ensures Total(s.workers, IsRunning) == Min(|job.slugs|, Max(1, job.concurrency))
  {
    steps, s := SoManyAtWork(job, Min(|job.slugs|, Max(1, job.concurrency)));
  }
}
