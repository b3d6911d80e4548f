/**
 The fan-out of one run: bounded workers over the selected repositories, a deadline or a stop signal,
 and a run that after a grace period waits no longer. Every interleaving of its steps is a history.
 */
module FanOut {
  import opened Base
  import opened Records
  import R = Runs

  type Progress = map<Kind, Artifact>

  /** One repository's goroutine: what backupOne returned is Finished, and the deferred calls come after the settle. */
  datatype Worker = NotStarted | Running | Finished(entry: RepoEntry) | Releasing | Released | Exited

  /** Where the run itself is. Collecting holds the lock every settle takes. */
  datatype Main =
    | Launching(next: nat, acquired: bool)
    | Abandoning(started: nat, next: nat)
    | Draining(started: nat)
    | Grace(started: nat)
    | Collecting(started: nat, next: nat)
    | Returned(started: nat, entries: seq<RepoEntry>)

  datatype State = State(main: Main, inUse: nat, stopped: bool, workers: seq<Worker>,
                         entries: seq<Option<RepoEntry>>, progress: seq<Option<Progress>>,
                         events: seq<(nat, RepoEntry)>)

  /** The repositories, in input order, and backup.concurrency. */
  datatype Job = Job(slugs: seq<string>, concurrency: int) {
    function Limit(): (n: nat)
      ensures n >= 1
    {
      if concurrency < 1 then 1 else concurrency
    }
  }

  datatype Step =
    | Stop                                    // a signal arrives, or the time is up
    | Acquire                                 // the run takes a slot
    | Check                                   // the run looks at the context, then starts a worker or gives up
    | Abandon                                 // the run settles the next repository it never started
    | Write(i: nat, a: Artifact)              // a worker's artifact landed
    | Return(i: nat, e: RepoEntry)            // backupOne returns
    | SettleOne(i: nat)
    | Release(i: nat)
    | Exit(i: nat)
    | SeeAll                                  // every started worker is done
    | SeeStop
    | TimeUp                                  // the grace period ran out
    | Collect                                 // the run settles the next repository still running

  function Start(job: Job): State {
    var n := |job.slugs|;
    State(Launching(0, false), 0, false, seq(n, _ => NotStarted), seq(n, _ => None), seq(n, _ => None), [])
  }

  /** Settled once: the first entry stays, and its event is written with it. */
  function Settle(s: State, i: nat, e: RepoEntry): State
    requires i < |s.entries|
  {
    if s.entries[i].Some? then s
    else s.(entries := s.entries[i := Some(e)], events := s.events + [(i, e)])
  }

  /** A repository still running at the end of the grace, with what it had written. */
  function StillRunning(slug: string, p: Progress): RepoEntry {
    R.FailedWith(slug, R.InOrder(p))
  }

  predicate AllExited(s: State, started: nat)
    requires started <= |s.workers|
  {
    forall i | 0 <= i < started :: s.workers[i] == Exited
  }

  predicate Shaped(job: Job, s: State) {
    |s.workers| == |s.entries| == |s.progress| == |job.slugs|
  }

  predicate Waits(m: Main) {
    m.Draining? || m.Grace?
  }

  predicate Enabled(job: Job, s: State, step: Step)
    requires Shaped(job, s)
  {
    var n := |job.slugs|;
    match step
    case Stop => true
    case Acquire => s.main.Launching? && s.main.next < n && !s.main.acquired && s.inUse < job.Limit()
    case Check => s.main.Launching? && (s.main.next >= n || s.main.acquired || s.stopped)
    case Abandon => s.main.Abandoning?
    case Write(i, a) => i < n && s.workers[i].Running? && s.progress[i].Some?
    case Return(i, e) => i < n && s.workers[i].Running? && e.slug == job.slugs[i]
    case SettleOne(i) => i < n && s.workers[i].Finished? && !s.main.Collecting?
    case Release(i) => i < n && s.workers[i].Releasing? && s.inUse > 0
    case Exit(i) => i < n && s.workers[i].Released?
    case SeeAll =>
      Waits(s.main) && s.main.started <= n && AllExited(s, s.main.started)
      && forall i | 0 <= i < n :: s.entries[i].Some?
    case SeeStop => s.main.Draining? && s.stopped
    case TimeUp => s.main.Grace?
    case Collect =>
      s.main.Collecting?
      && (s.main.next < n && s.entries[s.main.next].None? ==> s.progress[s.main.next].Some?)
      && (s.main.next >= n ==> forall i | 0 <= i < n :: s.entries[i].Some?)
  }

  function Entries(s: State): seq<RepoEntry>
    requires forall i | 0 <= i < |s.entries| :: s.entries[i].Some?
  {
    seq(|s.entries|, i requires 0 <= i < |s.entries| => s.entries[i].value)
  }

  function Next(job: Job, s: State, step: Step): State
    requires Shaped(job, s) && Enabled(job, s, step)
  {
    var n := |job.slugs|;
    match step
    case Stop => s.(stopped := true)
    case Acquire => s.(main := Launching(s.main.next, true), inUse := s.inUse + 1)
    case Check =>
      var i := s.main.next;
      if i >= n then s.(main := Draining(n))
      else if s.stopped then
        s.(main := Abandoning(i, i), inUse := if s.main.acquired && s.inUse > 0 then s.inUse - 1 else s.inUse)
      else s.(main := Launching(i + 1, false), workers := s.workers[i := Running],
              progress := s.progress[i := Some(map[])])
    case Abandon =>
      var j := s.main.next;
      if j >= n then s.(main := Draining(s.main.started))
      else Settle(s, j, FailedEntry(job.slugs[j])).(main := Abandoning(s.main.started, j + 1))
    case Write(i, a) => s.(progress := s.progress[i := Some(s.progress[i].value[a.kind := a])])
    case Return(i, e) => s.(workers := s.workers[i := Finished(e)])
    case SettleOne(i) => Settle(s, i, s.workers[i].entry).(workers := s.workers[i := Releasing])
    case Release(i) => s.(workers := s.workers[i := Released], inUse := s.inUse - 1)
    case Exit(i) => s.(workers := s.workers[i := Exited])
    case SeeAll => s.(main := Returned(s.main.started, Entries(s)))
    case SeeStop => s.(main := Grace(s.main.started))
    case TimeUp => s.(main := Collecting(s.main.started, 0))
    case Collect =>
      var i := s.main.next;
      if i >= n then s.(main := Returned(s.main.started, Entries(s)))
      else if s.entries[i].Some? then s.(main := Collecting(s.main.started, i + 1))
      else Settle(s, i, StillRunning(job.slugs[i], s.progress[i].value)).(main := Collecting(s.main.started, i + 1))
  }

  // ---------------------------------------------------------------- the invariant

  /** How many repositories the run has started. */
  function Started(m: Main): nat {
    if m.Launching? then m.next else m.started
  }

  /** A worker that holds its slot. */
  function Holds(w: Worker): nat {
    if w.Running? || w.Finished? || w.Releasing? then 1 else 0
  }

  function Total(ws: seq<Worker>, f: Worker -> nat): nat
    decreases |ws|
  {
    if ws == [] then 0 else f(ws[0]) + Total(ws[1..], f)
  }

  lemma {:induction false} TotalUpdate(ws: seq<Worker>, f: Worker -> nat, i: nat, w: Worker)
    requires i < |ws|
    ensures Total(ws[i := w], f) + f(ws[i]) == Total(ws, f) + f(w)
    decreases |ws|
  {
    if i == 0 {
      assert ws[0 := w][1..] == ws[1..];
    } else {
      assert ws[i := w][1..] == ws[1..][i - 1 := w];
      TotalUpdate(ws[1..], f, i - 1, w);
    }
  }

  /** Started exactly below the mark, each with a place to record what it writes. */
  ghost predicate StartedOk(job: Job, s: State)
    requires Shaped(job, s)
  {
    && Started(s.main) <= |job.slugs|
    && forall i | 0 <= i < |job.slugs| ::
         (s.workers[i].NotStarted? <==> i >= Started(s.main)) && (s.progress[i].Some? <==> i < Started(s.main))
  }

  /** Who is settled: no repository before its turn, every worker past its settle, and the rest by the run. */
  ghost predicate SettledOk(job: Job, s: State)
    requires Shaped(job, s)
  {
    forall i | 0 <= i < |job.slugs| ::
      && (s.entries[i].Some? ==> s.entries[i].value.slug == job.slugs[i])
      && (s.workers[i].Finished? ==> s.workers[i].entry.slug == job.slugs[i])
      && (s.workers[i].Releasing? || s.workers[i].Released? || s.workers[i].Exited? ==> s.entries[i].Some?)
      && (s.main.Launching? && s.main.next <= i ==> s.entries[i].None?)
      && (s.main.Abandoning? && s.main.next <= i ==> s.entries[i].None?)
      && (s.main.Abandoning? && s.main.started <= i < s.main.next ==> s.entries[i].Some?)
      && (Waits(s.main) || s.main.Collecting? || s.main.Returned? ==> (s.main.started <= i ==> s.entries[i].Some?))
      && (s.main.Collecting? && i < s.main.next ==> s.entries[i].Some?)
  }

  ghost predicate PlaceOk(job: Job, s: State)
    requires Shaped(job, s)
  {
    && (s.main.Abandoning? ==> s.main.started <= s.main.next <= |job.slugs|)
    && (s.main.Collecting? ==> s.main.next <= |job.slugs|)
    && (s.main.Launching? && s.main.acquired ==> s.main.next < |job.slugs|)
    && (s.main.Returned? ==>
          |s.main.entries| == |job.slugs| &&
          forall i | 0 <= i < |job.slugs| :: s.entries[i] == Some(s.main.entries[i]))
  }

  /** One event for each settled repository, with its entry, and none for any other. */
  ghost predicate EventsOk(job: Job, s: State)
    requires Shaped(job, s)
  {
    && (forall k | 0 <= k < |s.events| ::
          s.events[k].0 < |job.slugs| && s.entries[s.events[k].0] == Some(s.events[k].1))
    && (forall i | 0 <= i < |job.slugs| :: s.entries[i].Some? ==> exists k :: 0 <= k < |s.events| && s.events[k].0 == i)
    && (forall k, l | 0 <= k < l < |s.events| :: s.events[k].0 != s.events[l].0)
  }

  /** Every slot in use is a worker's, or the one the run has just taken. */
  ghost predicate SlotsOk(job: Job, s: State) {
    && s.inUse == Total(s.workers, Holds) + (if s.main.Launching? && s.main.acquired then 1 else 0)
    && s.inUse <= job.Limit()
  }

  ghost predicate Inv(job: Job, s: State) {
    Shaped(job, s) && StartedOk(job, s) && SettledOk(job, s) && PlaceOk(job, s) && EventsOk(job, s) && SlotsOk(job, s)
  }

  lemma {:induction false} NoneHold(ws: seq<Worker>)
    requires forall i | 0 <= i < |ws| :: ws[i].NotStarted?
    ensures Total(ws, Holds) == 0
    decreases |ws|
  {
    if ws != [] {
      NoneHold(ws[1..]);
    }
  }

  lemma StartOk(job: Job)
    ensures Inv(job, Start(job))
  {
    NoneHold(Start(job).workers);
  }

  lemma SettleKeepsEvents(job: Job, s: State, i: nat, e: RepoEntry)
    requires Shaped(job, s) && i < |job.slugs| && EventsOk(job, s)
    ensures EventsOk(job, Settle(s, i, e)) && Shaped(job, Settle(s, i, e))
  {
    var s' := Settle(s, i, e);
    if s.entries[i].None? {
      forall j | 0 <= j < |job.slugs| && s'.entries[j].Some?
        ensures exists k :: 0 <= k < |s'.events| && s'.events[k].0 == j
      {
        if j == i {
          assert s'.events[|s.events|].0 == i;
        } else {
          var k :| 0 <= k < |s.events| && s.events[k].0 == j;
          assert s'.events[k].0 == j;
        }
      }
    }
  }

  lemma MainStepOk(job: Job, s: State, step: Step)
    requires Inv(job, s) && Enabled(job, s, step)
    requires step.Stop? || step.Acquire? || step.SeeAll? || step.SeeStop? || step.TimeUp?
    ensures Inv(job, Next(job, s, step))
  {
  }

  lemma CheckOk(job: Job, s: State)
    requires Inv(job, s) && Enabled(job, s, Check)
    ensures Inv(job, Next(job, s, Check))
  {
    var i := s.main.next;
    if i < |job.slugs| && !s.stopped {
      TotalUpdate(s.workers, Holds, i, Running);
    }
  }

  lemma AbandonOk(job: Job, s: State)
    requires Inv(job, s) && Enabled(job, s, Abandon)
    ensures Inv(job, Next(job, s, Abandon))
  {
    if s.main.next < |job.slugs| {
      SettleKeepsEvents(job, s, s.main.next, FailedEntry(job.slugs[s.main.next]));
    }
  }

  lemma CollectOk(job: Job, s: State)
    requires Inv(job, s) && Enabled(job, s, Collect)
    ensures Inv(job, Next(job, s, Collect))
  {
    var i := s.main.next;
    if i >= |job.slugs| {
      CollectedAll(job, s);
    } else if s.entries[i].Some? {
      CollectedOne(job, s);
    } else {
      CollectSettles(job, s);
    }
  }

  /** A repository still running is settled by the run. */
  lemma CollectSettles(job: Job, s: State)
    requires Inv(job, s) && s.main.Collecting? && s.main.next < |job.slugs|
    requires s.entries[s.main.next].None? && s.progress[s.main.next].Some?
    ensures var i := s.main.next;
            var e := StillRunning(job.slugs[i], s.progress[i].value);
            Inv(job, Settle(s, i, e).(main := Collecting(s.main.started, i + 1)))
  {
    var i := s.main.next;
    var e := StillRunning(job.slugs[i], s.progress[i].value);
    SettleKeepsEvents(job, s, i, e);
    SettleKeepsPlaces(job, s, i, e);
    CollectedOne(job, Settle(s, i, e));
  }

  lemma CollectedOne(job: Job, s: State)
    requires Inv(job, s) && s.main.Collecting? && s.main.next < |job.slugs| && s.entries[s.main.next].Some?
    ensures Inv(job, s.(main := Collecting(s.main.started, s.main.next + 1)))
  {
  }

  lemma CollectedAll(job: Job, s: State)
    requires Inv(job, s) && s.main.Collecting? && Enabled(job, s, Collect) && s.main.next >= |job.slugs|
    ensures Inv(job, s.(main := Returned(s.main.started, Entries(s))))
  {
  }

  lemma WriteOk(job: Job, s: State, step: Step)
    requires Inv(job, s) && Enabled(job, s, step) && step.Write?
    ensures Inv(job, Next(job, s, step))
  {
  }

  lemma SettleOneOk(job: Job, s: State, i: nat)
    requires Inv(job, s) && Enabled(job, s, SettleOne(i))
    ensures Inv(job, Next(job, s, SettleOne(i)))
  {
    SettleKeepsEvents(job, s, i, s.workers[i].entry);
    TotalUpdate(s.workers, Holds, i, Releasing);
    SettleKeepsPlaces(job, s, i, s.workers[i].entry);
    var settled := Settle(s, i, s.workers[i].entry);
    WorkerMoves(job, settled, i, Releasing);
  }

  lemma SettleKeepsPlaces(job: Job, s: State, i: nat, e: RepoEntry)
    requires Shaped(job, s) && i < |job.slugs| && e.slug == job.slugs[i]
    requires StartedOk(job, s) && SettledOk(job, s) && PlaceOk(job, s)
    requires i < Started(s.main) || (s.main.Abandoning? && i == s.main.next)
    requires s.main.Abandoning? && i == s.main.next ==> s.entries[i].None?
    ensures var s' := Settle(s, i, e);
            && Shaped(job, s') && s'.entries[i].Some? && StartedOk(job, s') && PlaceOk(job, s')
            && (!(s.main.Abandoning? && i == s.main.next) ==> SettledOk(job, s'))
  {
  }

  /** A started worker moves on: to its result, or, once its repository is settled, past it. */
  lemma WorkerMoves(job: Job, s: State, i: nat, to: Worker)
    requires Shaped(job, s) && i < |job.slugs| && !s.workers[i].NotStarted? && !to.NotStarted?
    requires to.Finished? ==> to.entry.slug == job.slugs[i]
    requires to.Releasing? || to.Released? || to.Exited? ==> s.entries[i].Some?
    requires StartedOk(job, s) && SettledOk(job, s) && PlaceOk(job, s) && EventsOk(job, s)
    ensures var s' := s.(workers := s.workers[i := to]);
            Shaped(job, s') && StartedOk(job, s') && SettledOk(job, s') && PlaceOk(job, s') && EventsOk(job, s')
  {
  }

  lemma WorkerStepOk(job: Job, s: State, step: Step)
    requires Inv(job, s) && Enabled(job, s, step) && (step.Return? || step.Release? || step.Exit?)
    ensures Inv(job, Next(job, s, step))
  {
    var to := Next(job, s, step).workers[step.i];
    WorkerMoves(job, s, step.i, to);
    TotalUpdate(s.workers, Holds, step.i, to);
    SlotsFollow(job, s, step, to);
  }

  lemma SlotsFollow(job: Job, s: State, step: Step, to: Worker)
    requires Inv(job, s) && Enabled(job, s, step) && (step.Return? || step.Release? || step.Exit?)
    requires to == Next(job, s, step).workers[step.i]
    requires Total(s.workers[step.i := to], Holds) + Holds(s.workers[step.i]) == Total(s.workers, Holds) + Holds(to)
    ensures SlotsOk(job, Next(job, s, step))
  {
  }

  lemma StepOk(job: Job, s: State, step: Step)
    requires Inv(job, s) && Enabled(job, s, step)
    ensures Inv(job, Next(job, s, step))
  {
    if step.Check? {
      CheckOk(job, s);
    } else if step.Abandon? {
      AbandonOk(job, s);
    } else if step.Collect? {
      CollectOk(job, s);
    } else if step.Write? {
      WriteOk(job, s, step);
    } else if step.SettleOne? {
      SettleOneOk(job, s, step.i);
    } else if step.Return? || step.Release? || step.Exit? {
      WorkerStepOk(job, s, step);
    } else {
      MainStepOk(job, s, step);
    }
  }

  ghost predicate Leads(job: Job, s: State, steps: seq<Step>, s': State)
    decreases |steps|
  {
    if steps == [] then s' == s
    else Shaped(job, s) && Enabled(job, s, steps[0]) && Leads(job, Next(job, s, steps[0]), steps[1..], s')
  }

  lemma {:induction false} InvAlong(job: Job, s: State, steps: seq<Step>, s': State)
    requires Inv(job, s) && Leads(job, s, steps, s')
    ensures Inv(job, s')
    decreases |steps|
  {
    if steps != [] {
      StepOk(job, s, steps[0]);
      InvAlong(job, Next(job, s, steps[0]), steps[1..], s');
    }
  }

  // ---------------------------------------------------------------- what follows

  /**
   What a run returns, over every interleaving: one entry for each repository, in input order and under
   its own slug, and exactly one finished event for each, carrying that very entry.
   */
  lemma ReturnsEveryRepositoryOnce(job: Job, steps: seq<Step>, s: State)
    requires Leads(job, Start(job), steps, s) && s.main.Returned?
    ensures |s.main.entries| == |job.slugs|
    ensures forall i | 0 <= i < |job.slugs| :: s.main.entries[i].slug == job.slugs[i]
    ensures forall i | 0 <= i < |job.slugs| :: exists k :: 0 <= k < |s.events| && s.events[k] == (i, s.main.entries[i])
    ensures forall k, l | 0 <= k < l < |s.events| :: s.events[k].0 != s.events[l].0
    ensures forall k | 0 <= k < |s.events| :: s.events[k].0 < |job.slugs|
  {
    StartOk(job);
    InvAlong(job, Start(job), steps, s);
    forall i | 0 <= i < |job.slugs|
      ensures s.main.entries[i].slug == job.slugs[i]
      ensures exists k :: 0 <= k < |s.events| && s.events[k] == (i, s.main.entries[i])
    {
      assert s.entries[i] == Some(s.main.entries[i]);
      var k :| 0 <= k < |s.events| && s.events[k].0 == i;
      assert s.events[k] == (i, s.main.entries[i]);
    }
  }

  function IsRunning(w: Worker): nat {
    if w.Running? then 1 else 0
  }

  lemma {:induction false} RunningHold(ws: seq<Worker>)
    ensures Total(ws, IsRunning) <= Total(ws, Holds)
    decreases |ws|
  {
    if ws != [] {
      RunningHold(ws[1..]);
    }
  }

  /** Never more repositories at work than the limit, at any moment of any interleaving, the stop included. */
  lemma AtMostLimitAtOnce(job: Job, steps: seq<Step>, s: State)
    requires Leads(job, Start(job), steps, s)
    ensures Total(s.workers, IsRunning) <= Max(1, job.concurrency)
  {
    StartOk(job);
    InvAlong(job, Start(job), steps, s);
    RunningHold(s.workers);
  }

  /** What was returned is never changed after, by however late a repository, and no event follows. */
  lemma {:induction false} LateChangesNothing(job: Job, s: State, steps: seq<Step>, s': State)
    requires Inv(job, s) && s.main.Returned? && Leads(job, s, steps, s')
    ensures s'.main == s.main && s'.entries == s.entries && s'.events == s.events
    decreases |steps|
  {
    if steps != [] {
      StepOk(job, s, steps[0]);
      OneLateStep(job, s, steps[0]);
      LateChangesNothing(job, Next(job, s, steps[0]), steps[1..], s');
    }
  }

  lemma OneLateStep(job: Job, s: State, step: Step)
    requires Inv(job, s) && s.main.Returned? && Enabled(job, s, step)
    ensures var s' := Next(job, s, step); s'.main == s.main && s'.entries == s.entries && s'.events == s.events
  {
  }

  /** An entry once settled stays as it is: whichever of the repository and the run came second is dropped. */
  lemma {:induction false} SettledForGood(job: Job, s: State, steps: seq<Step>, s': State, i: nat)
    requires Inv(job, s) && i < |job.slugs| && s.entries[i].Some? && Leads(job, s, steps, s')
    ensures |s'.entries| == |job.slugs| && s'.entries[i] == s.entries[i] && s.events <= s'.events
    decreases |steps|
  {
    if steps != [] {
      StepOk(job, s, steps[0]);
      OneStepKeepsEntry(job, s, steps[0], i);
      SettledForGood(job, Next(job, s, steps[0]), steps[1..], s', i);
    }
  }

  lemma OneStepKeepsEntry(job: Job, s: State, step: Step, i: nat)
    requires Shaped(job, s) && Enabled(job, s, step) && i < |job.slugs| && s.entries[i].Some?
    requires PlaceOk(job, s)
    ensures var s' := Next(job, s, step);
            Shaped(job, s') && s'.entries[i] == s.entries[i] && s.events <= s'.events
  {
  }

  /** Once the run is stopped nothing more is started, however long it goes on. */
  lemma {:induction false} StopStartsNothing(job: Job, s: State, steps: seq<Step>, s': State, i: nat)
    requires Inv(job, s) && s.stopped && i < |job.slugs| && s.workers[i].NotStarted? && Leads(job, s, steps, s')
    ensures |s'.workers| == |job.slugs| && s'.workers[i].NotStarted?
    decreases |steps|
  {
    if steps != [] {
      StepOk(job, s, steps[0]);
      StoppedStep(job, s, steps[0], i);
      StopStartsNothing(job, Next(job, s, steps[0]), steps[1..], s', i);
    }
  }

  lemma StoppedStep(job: Job, s: State, step: Step, i: nat)
    requires Inv(job, s) && s.stopped && i < |job.slugs| && s.workers[i].NotStarted? && Enabled(job, s, step)
    ensures var s' := Next(job, s, step); s'.stopped && |s'.workers| == |job.slugs| && s'.workers[i].NotStarted?
  {
  }

  /** A repository never started is settled, if at all, as failed with nothing written. */
  ghost predicate UnstartedFailed(job: Job, s: State)
    requires Shaped(job, s)
  {
    forall i | 0 <= i < |job.slugs| :: s.workers[i].NotStarted? && s.entries[i].Some? ==>
      s.entries[i] == Some(FailedEntry(job.slugs[i]))
  }

  lemma UnstartedStep(job: Job, s: State, step: Step)
    requires Inv(job, s) && Enabled(job, s, step) && UnstartedFailed(job, s)
    requires Shaped(job, Next(job, s, step))
    ensures UnstartedFailed(job, Next(job, s, step))
  {
    if step.Abandon? || step.Collect? || step.SettleOne? {
      UnstartedSettle(job, s, step);
    } else {
      UnstartedStays(job, s, step);
    }
  }

  lemma UnstartedStays(job: Job, s: State, step: Step)
    requires Shaped(job, s) && Enabled(job, s, step) && UnstartedFailed(job, s)
    requires !step.Abandon? && !step.Collect? && !step.SettleOne?
    requires Shaped(job, Next(job, s, step)) && PlaceOk(job, s)
    ensures UnstartedFailed(job, Next(job, s, step))
  {
  }

  /** Only Abandon settles one never started. */
  lemma UnstartedSettle(job: Job, s: State, step: Step)
    requires Shaped(job, s) && StartedOk(job, s) && SettledOk(job, s) && PlaceOk(job, s)
    requires Enabled(job, s, step) && UnstartedFailed(job, s)
    requires step.Abandon? || step.Collect? || step.SettleOne?
    requires Shaped(job, Next(job, s, step))
    ensures UnstartedFailed(job, Next(job, s, step))
  {
  }

  lemma {:induction false} UnstartedAlong(job: Job, s: State, steps: seq<Step>, s': State)
    requires Inv(job, s) && UnstartedFailed(job, s) && Leads(job, s, steps, s')
    ensures Inv(job, s') && UnstartedFailed(job, s')
    decreases |steps|
  {
    if steps != [] {
      StepOk(job, s, steps[0]);
      UnstartedStep(job, s, steps[0]);
      UnstartedAlong(job, Next(job, s, steps[0]), steps[1..], s');
    }
  }

  /** So a run that returns names every repository it never started, as failed with nothing written. */
  lemma NeverStartedIsNamed(job: Job, steps: seq<Step>, s: State, i: nat)
    requires Leads(job, Start(job), steps, s) && s.main.Returned? && i < |job.slugs|
    ensures |s.workers| == |job.slugs| == |s.main.entries|
    ensures s.workers[i].NotStarted? ==> s.main.entries[i] == FailedEntry(job.slugs[i])
  {
    StartOk(job);
    UnstartedAlong(job, Start(job), steps, s);
    assert s.entries[i] == Some(s.main.entries[i]);
  }

  /** The run reads the progress of a repository only when it was started, so there is one to read. */
  lemma CollectReadsStarted(job: Job, steps: seq<Step>, s: State)
    requires Leads(job, Start(job), steps, s) && s.main.Collecting?
    ensures Inv(job, s) && Enabled(job, s, Collect)
    ensures s.main.next < |job.slugs| && s.entries[s.main.next].None? ==>
              s.main.next < s.main.started && !s.workers[s.main.next].NotStarted?
  {
    StartOk(job);
    InvAlong(job, Start(job), steps, s);
  }

  // ---------------------------------------------------------------- the run always returns

  /** The steps only the outside takes: a stop, and an artifact landing. All others bring the return nearer. */
  predicate Outside(step: Step) {
    step.Stop? || step.Write?
  }

  function Ahead(w: Worker): nat {
    match w
    case NotStarted => 5
    case Running => 4
    case Finished(_) => 3
    case Releasing => 2
    case Released => 1
    case Exited => 0
  }

  function MainAhead(n: nat, m: Main): int {
    match m
    case Launching(i, acquired) => 2 * n + 5 + 2 * (n - i) + (if acquired then 0 else 1)
    case Abandoning(_, j) => n + 4 + (n - j)
    case Draining(_) => n + 3
    case Grace(_) => n + 2
    case Collecting(_, i) => n - i + 1
    case Returned(_, _) => 0
  }

  function Measure(job: Job, s: State): int {
    MainAhead(|job.slugs|, s.main) + Total(s.workers, Ahead)
  }

  lemma MeasureIsNatural(job: Job, s: State)
    requires Inv(job, s)
    ensures Measure(job, s) >= 0
  {
  }

  /** A step of the run's own leaves its workers where they are, or starts one. */
  lemma RunStepGetsNearer(job: Job, s: State, step: Step)
    requires Inv(job, s) && Enabled(job, s, step) && !Outside(step)
    requires !step.Return? && !step.SettleOne? && !step.Release? && !step.Exit?
    ensures Measure(job, Next(job, s, step)) < Measure(job, s)
  {
    if step.Check? && s.main.next < |job.slugs| && !s.stopped {
      TotalUpdate(s.workers, Ahead, s.main.next, Running);
    }
  }

  lemma WorkerStepGetsNearer(job: Job, s: State, step: Step)
    requires Inv(job, s) && Enabled(job, s, step)
    requires step.Return? || step.SettleOne? || step.Release? || step.Exit?
    ensures Measure(job, Next(job, s, step)) < Measure(job, s)
  {
    TotalUpdate(s.workers, Ahead, step.i, Next(job, s, step).workers[step.i]);
  }

  /** No history of steps inside the run goes on for ever. */
  lemma EveryStepGetsNearer(job: Job, s: State, step: Step)
    requires Inv(job, s) && Enabled(job, s, step) && !Outside(step)
    ensures 0 <= Measure(job, Next(job, s, step)) < Measure(job, s)
  {
    StepOk(job, s, step);
    var s' := Next(job, s, step);
    MeasureIsNatural(job, s');
    if step.Return? || step.SettleOne? || step.Release? || step.Exit? {
      WorkerStepGetsNearer(job, s, step);
    } else {
      RunStepGetsNearer(job, s, step);
    }
  }

  lemma {:induction false} SomeoneHolds(ws: seq<Worker>) returns (i: nat)
    requires Total(ws, Holds) > 0
    ensures i < |ws| && Holds(ws[i]) == 1
    decreases |ws|
  {
    if Holds(ws[0]) == 1 {
      i := 0;
    } else {
      i := SomeoneHolds(ws[1..]);
      i := i + 1;
    }
  }

  /** A started worker that is not done has a step to take, unless the run holds the lock. */
  function StepOfWorker(job: Job, s: State, i: nat): Step
    requires Shaped(job, s) && i < |job.slugs|
  {
    match s.workers[i]
    case Finished(_) => SettleOne(i)
    case Releasing => Release(i)
    case Released => Exit(i)
    case _ => Return(i, FailedEntry(job.slugs[i]))
  }

  /** Until the run has returned, something other than the outside can always move: it never hangs on itself. */
  lemma NeverStuck(job: Job, s: State) returns (step: Step)
    requires Inv(job, s) && !s.main.Returned?
    ensures Enabled(job, s, step) && !Outside(step)
  {
    var n := |job.slugs|;
    match s.main
    case Launching(i, acquired) =>
      if i >= n || acquired || s.stopped {
        step := Check;
      } else if s.inUse < job.Limit() {
        step := Acquire;
      } else {
        var k := SomeoneHolds(s.workers);
        step := StepOfWorker(job, s, k);
        HolderMoves(job, s, k);
      }
    case Abandoning(_, _) => step := Abandon;
    case Draining(started) => step := DrainStep(job, s, started);
    case Grace(_) => step := TimeUp;
    case Collecting(_, _) => step := Collect;
  }

  lemma HolderMoves(job: Job, s: State, i: nat)
    requires Inv(job, s) && i < |job.slugs| && !s.main.Collecting?
    requires !s.workers[i].NotStarted? && !s.workers[i].Exited?
    ensures Enabled(job, s, StepOfWorker(job, s, i)) && !Outside(StepOfWorker(job, s, i))
  {
    if s.workers[i].Releasing? {
      HeldIsCounted(s.workers, i);
    }
  }

  lemma {:induction false} HeldIsCounted(ws: seq<Worker>, i: nat)
    requires i < |ws| && Holds(ws[i]) == 1
    ensures Total(ws, Holds) > 0
    decreases |ws|
  {
    if i > 0 {
      HeldIsCounted(ws[1..], i - 1);
    }
  }

  lemma DrainStep(job: Job, s: State, started: nat) returns (step: Step)
    requires Inv(job, s) && s.main == Draining(started)
    ensures Enabled(job, s, step) && !Outside(step)
  {
    if AllExited(s, started) {
      step := SeeAll;
    } else {
      var i :| 0 <= i < started && s.workers[i] != Exited;
      HolderMoves(job, s, i);
      step := StepOfWorker(job, s, i);
    }
  }

  /**
   When every started worker is done, every repository is settled, in the grace period as before it:
   SeeAll finds no gap.
   */
  lemma AllExitedAllSettled(job: Job, s: State)
    requires Inv(job, s) && Waits(s.main) && AllExited(s, s.main.started)
    ensures forall i | 0 <= i < |job.slugs| :: s.entries[i].Some?
    ensures Enabled(job, s, SeeAll)
  {
  }

  /** A step of the run itself, no worker's. */
  predicate OwnStep(step: Step) {
    step.Check? || step.Abandon? || step.SeeStop? || step.TimeUp? || step.Collect?
  }

  /** What a stopped run does next on its own, whatever its workers do or fail to do. */
  function OwnNext(s: State): Step {
    match s.main
    case Launching(_, _) => Check
    case Abandoning(_, _) => Abandon
    case Draining(_) => SeeStop
    case Grace(_) => TimeUp
    case _ => Collect
  }

  lemma OwnNextMoves(job: Job, s: State)
    requires Inv(job, s) && s.stopped && !s.main.Returned?
    ensures OwnStep(OwnNext(s)) && Enabled(job, s, OwnNext(s))
    ensures var s' := Next(job, s, OwnNext(s));
            s'.stopped && 0 <= MainAhead(|job.slugs|, s'.main) < MainAhead(|job.slugs|, s.main)
  {
    StepOk(job, s, OwnNext(s));
  }

  /**
   A stopped run returns without waiting on any worker: by its own steps alone, from any state, with every
   worker left where it is, hung ones included.
   */
  lemma {:induction false} StoppedRunReturns(job: Job, s: State) returns (steps: seq<Step>, s': State)
    requires Inv(job, s) && s.stopped
    ensures Leads(job, s, steps, s') && s'.main.Returned?
    ensures forall step <- steps :: OwnStep(step)
    ensures s'.workers == s.workers
    decreases MainAhead(|job.slugs|, s.main)
  {
    if s.main.Returned? {
      steps, s' := [], s;
    } else {
      var step := OwnNext(s);
      OwnNextMoves(job, s);
      StepOk(job, s, step);
      var next := Next(job, s, step);
      assert next.workers == s.workers;
      var rest: seq<Step>;
      rest, s' := StoppedRunReturns(job, next);
      steps := [step] + rest;
      assert steps[1..] == rest;
    }
  }
}
