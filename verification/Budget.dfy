/**
 Waiting out a rate limit: one budget for a run, shared by every request and charged for the time in
 which any of them waits; and the loop that sends one request until it is answered.
 */
module Budget {
  import opened Base
  import opened Records

  /** A wait the budget granted, from now until resume. */
  datatype Wait = Wait(now: Time, resume: Time)

  /** The instants of a wait. */
  function Span(a: Time, b: Time): (s: set<Time>)
    ensures forall t :: t in s <==> a <= t < b
    ensures |s| == Max(b - a, 0)
    decreases b - a
  {
    if a < b then Span(a, b - 1) + {b - 1} else {}
  }

  /** The instants at which something was waiting. */
  function Waiting(granted: seq<Wait>): set<Time>
    decreases |granted|
  {
    if granted == [] then {}
    else Waiting(granted[..|granted| - 1]) + Span(granted[|granted| - 1].now, granted[|granted| - 1].resume)
  }

  /** When the latest wait granted ends. */
  function LatestEnd(granted: seq<Wait>): Option<Time>
    decreases |granted|
  {
    if granted == [] then None
    else
      var rest, w := LatestEnd(granted[..|granted| - 1]), granted[|granted| - 1];
      if rest.Some? && rest.value >= w.resume then rest else Some(w.resume)
  }

  /** Where the part of a wait begins that no wait granted before it reaches. */
  function NewFrom(granted: seq<Wait>, now: Time): Time {
    if LatestEnd(granted).Some? then Max(now, LatestEnd(granted).value) else now
  }

  function Charged(granted: seq<Wait>): nat
    decreases |granted|
  {
    if granted == [] then 0
    else
      var rest, w := granted[..|granted| - 1], granted[|granted| - 1];
      Charged(rest) + Max(w.resume - NewFrom(rest, w.now), 0)
  }

  ghost predicate OneOf(waits: seq<Wait>, w: Wait) {
    exists i :: 0 <= i < |waits| && waits[i] == w
  }

  class WaitBudget {
    const most: int
    var spent: int
    var until: Option<Time>
    ghost var granted: seq<Wait>

    ghost predicate Valid()
      reads this
    {
      && spent == Charged(granted) && until == LatestEnd(granted)
      && (spent <= most || granted == [])
      && forall w <- granted :: w.now <= w.resume
    }

    constructor (most: int)
      ensures Valid() && this.most == most && granted == []
    {
      this.most, spent, until, granted := most, 0, None, [];
    }

    method Reserve(now: Time, resume: Time) returns (ok: bool)
      requires Valid() && now <= resume
      modifies this
      ensures Valid()
      ensures ok <==> Charged(old(granted) + [Wait(now, resume)]) <= most
      ensures ok ==> granted == old(granted) + [Wait(now, resume)]
      ensures !ok ==> granted == old(granted) && spent == old(spent) && until == old(until)
    {
      var from := now;
      if until.Some? && until.value > from {
        from := until.value;
      }
      var charge := Max(resume - from, 0);
      ghost var next := granted + [Wait(now, resume)];
      assert next[..|granted|] == granted;
      if spent + charge > most {
        return false;
      }
      spent := spent + charge;
      if until.None? || resume > until.value {
        until := Some(resume);
      }
      granted := next;
      return true;
    }

    /** Other requests reserve, each as it may. */
    method ReserveOthers(waits: seq<Wait>)
      requires Valid() && forall i :: 0 <= i < |waits| ==> waits[i].now <= waits[i].resume
      modifies this
      ensures Valid() && old(granted) <= granted
      ensures forall k :: |old(granted)| <= k < |granted| ==> OneOf(waits, granted[k])
    {
      for i := 0 to |waits|
        invariant Valid() && old(granted) <= granted
        invariant forall k :: |old(granted)| <= k < |granted| ==> OneOf(waits, granted[k])
      {
        assert OneOf(waits, Wait(waits[i].now, waits[i].resume));
        var ok := Reserve(waits[i].now, waits[i].resume);
      }
    }
  }

  // ---------------------------------------------------------------- what the budget measures

  lemma {:induction false} NothingAfterEnd(granted: seq<Wait>, t: Time)
    requires t in Waiting(granted)
    ensures LatestEnd(granted).Some? && t < LatestEnd(granted).value
    decreases |granted|
  {
    var k := |granted| - 1;
    if t in Waiting(granted[..k]) {
      NothingAfterEnd(granted[..k], t);
    }
  }

  lemma DisjointSizes<T>(a: set<T>, b: set<T>)
    requires a !! b
    ensures |a + b| == |a| + |b|
  {
  }

  /** The instants a wait adds: those from where no earlier wait reaches. */
  lemma AddedInstants(rest: seq<Wait>, w: Wait)
    requires w.now <= w.resume
    ensures var added := Span(NewFrom(rest, w.now), w.resume);
            added !! Waiting(rest) && added <= Span(w.now, w.resume)
              && |added| == Max(w.resume - NewFrom(rest, w.now), 0)
  {
    forall t | t in Span(NewFrom(rest, w.now), w.resume)
      ensures t !in Waiting(rest)
    {
      if t in Waiting(rest) {
        NothingAfterEnd(rest, t);
        assert false;
      }
    }
  }

  /**
   No instant is charged twice: in any order of calls, the budget spends no more than the time
   something was waiting.
   */
  lemma {:induction false} ChargesNoInstantTwice(granted: seq<Wait>)
    requires forall w <- granted :: w.now <= w.resume
    ensures Charged(granted) <= |Waiting(granted)|
    decreases |granted|
  {
    if granted != [] {
      var rest, w := granted[..|granted| - 1], granted[|granted| - 1];
      assert w in granted;
      ChargesNoInstantTwice(rest);
      AddedInstants(rest, w);
      var added := Span(NewFrom(rest, w.now), w.resume);
      DisjointSizes(Waiting(rest), added);
      SubsetSize(Waiting(rest) + added, Waiting(granted));
    }
  }

  /**
   A call made at no idle moment before the latest end already charged: all the budget lets pass,
   something waited for.
   */
  ghost predicate FillsIn(rest: seq<Wait>, w: Wait) {
    Span(w.now, w.resume) <= Waiting(rest) + Span(NewFrom(rest, w.now), w.resume)
  }

  /** No call of these was made in an idle gap before an end already charged. */
  ghost predicate NoGap(granted: seq<Wait>)
    decreases |granted|
  {
    granted == [] || (NoGap(granted[..|granted| - 1]) && FillsIn(granted[..|granted| - 1], granted[|granted| - 1]))
  }

  /** What one call adds to the charge and to the instants: as much, exactly when it fills no gap. */
  lemma ChargeOfOne(rest: seq<Wait>, w: Wait)
    requires w.now <= w.resume
    ensures |Waiting(rest) + Span(w.now, w.resume)| - |Waiting(rest)| >= Max(w.resume - NewFrom(rest, w.now), 0)
    ensures |Waiting(rest) + Span(w.now, w.resume)| - |Waiting(rest)| == Max(w.resume - NewFrom(rest, w.now), 0)
            <==> FillsIn(rest, w)
  {
    var added := Span(NewFrom(rest, w.now), w.resume);
    AddedInstants(rest, w);
    DisjointSizes(Waiting(rest), added);
    var all := Waiting(rest) + Span(w.now, w.resume);
    SubsetSize(Waiting(rest) + added, all);
    if FillsIn(rest, w) {
      assert all == Waiting(rest) + added;
    }
  }

  /** The budget spends exactly the time something was waiting, exactly when no call fell in such a gap. */
  lemma {:induction false} ChargesEveryInstantIff(granted: seq<Wait>)
    requires forall w <- granted :: w.now <= w.resume
    ensures Charged(granted) == |Waiting(granted)| <==> NoGap(granted)
    decreases |granted|
  {
    if granted != [] {
      var rest, w := granted[..|granted| - 1], granted[|granted| - 1];
      assert w in granted;
      ChargesEveryInstantIff(rest);
      ChargesNoInstantTwice(rest);
      ChargeOfOne(rest, w);
    }
  }

  ghost predicate ClockForward(granted: seq<Wait>) {
    forall i, j :: 0 <= i < j < |granted| ==> granted[i].now <= granted[j].now
  }

  lemma {:induction false} WaitingUntilEnd(granted: seq<Wait>, now: Time)
    requires forall w <- granted :: w.now <= now
    requires LatestEnd(granted).Some?
    ensures Span(now, LatestEnd(granted).value) <= Waiting(granted)
    decreases |granted|
  {
    var rest, w := granted[..|granted| - 1], granted[|granted| - 1];
    assert w in granted;
    if LatestEnd(granted) != Some(w.resume) {
      WaitingUntilEnd(rest, now);
    }
  }

  /** A clock that goes forward leaves none, so on it the budget spends exactly that time. */
  lemma {:induction false} ClockForwardLeavesNoGap(granted: seq<Wait>)
    requires forall w <- granted :: w.now <= w.resume
    requires ClockForward(granted)
    ensures NoGap(granted) && Charged(granted) == |Waiting(granted)|
    decreases |granted|
  {
    if granted != [] {
      var rest, w := granted[..|granted| - 1], granted[|granted| - 1];
      ClockForwardLeavesNoGap(rest);
      if LatestEnd(rest).Some? {
        WaitingUntilEnd(rest, w.now);
      }
    }
    ChargesEveryInstantIff(granted);
  }

  /** A call that began before the earliest one charged, and ends with it, falls in one: it is charged nothing. */
  lemma EarlierCallFallsInGap(early: Time, late: Time, end: Time)
    requires early < late < end
    ensures var granted := [Wait(late, end)] + [Wait(early, end)];
            !NoGap(granted) && Charged(granted) == end - late < |Waiting(granted)|
  {
    var first := [Wait(late, end)];
    var granted := first + [Wait(early, end)];
    assert first[..0] == [] && granted[..1] == first;
    assert Charged(first) == end - late && LatestEnd(first) == Some(end);
    SubsetSize(Span(early, end), Waiting(granted));
    ChargesEveryInstantIff(granted);
  }

  // ---------------------------------------------------------------- one request

  const RATE_LIMIT_WAITS := 5
  const UNNAMED_WAIT := 60 * SECOND
  const SLACK := SECOND
  const SERVER_ERROR_ATTEMPTS := 4

  /** How a request is answered. A limit may name its reset, on GitHub's clock, beside the answer's own date. */
  datatype Answer =
    | Fine
    | Primary(reset: Option<Time>, date: Option<Time>)
    | Secondary(retryAfter: Option<Time>)
    | ServerError
    | OtherError

  predicate Limited(a: Answer) {
    a.Primary? || a.Secondary?
  }

  function Doubled(wait: Time, times: nat): Time {
    if times == 0 then wait else 2 * Doubled(wait, times - 1)
  }

  /** When the limit lifts, on this host's clock. */
  function LimitLifts(a: Answer, now: Time, waits: nat): Time
    requires Limited(a)
  {
    var unnamed := now + Doubled(UNNAMED_WAIT, waits);
    match a
    case Primary(reset, date) =>
      if reset.None? then unnamed else if date.Some? then now + (reset.value - date.value) else reset.value
    case Secondary(retryAfter) =>
      if retryAfter.Some? && retryAfter.value > 0 then now + retryAfter.value else unnamed
  }

  datatype Stop = TooManyWaits | PastDeadline | OverBudget | Interrupted | TooManyErrors | Fatal

  /**
   Everything a request meets: the answers, the clock at each, the jitter, whether a sleep is cut short, and
   the waits that other requests ask of the budget between two answers.
   */
  datatype World = World(answer: (nat, bool) -> Answer, clock: nat -> Time, jitter: nat -> Time, cut: nat -> bool,
                         others: nat -> seq<Wait>) {
    ghost predicate Valid() {
      && (forall i :: 0 <= jitter(i) < SECOND)
      && forall i, k :: 0 <= k < |others(i)| ==> others(i)[k].now <= others(i)[k].resume
    }
  }

  function CountIf(log: seq<Answer>, limited: bool): nat
    decreases |log|
  {
    if log == [] then 0
    else
      var a := log[|log| - 1];
      CountIf(log[..|log| - 1], limited) + if (if limited then Limited(a) else a.ServerError?) then 1 else 0
  }

  lemma CountOneMore(log: seq<Answer>, a: Answer, limited: bool)
    ensures CountIf(log + [a], limited) ==
            CountIf(log, limited) + if (if limited then Limited(a) else a.ServerError?) then 1 else 0
  {
    assert (log + [a])[..|log|] == log;
  }

  /** Each answer is the world's, to a request that bypasses the client's check once a limit was waited for. */
  ghost predicate Asked(log: seq<Answer>, world: World) {
    forall i :: 0 <= i < |log| ==> log[i] == world.answer(i, CountIf(log[..i], true) > 0)
  }

  /** Only answers to go on after, a limit or a server error, and no sleep between them cut short. */
  ghost predicate WentOn(log: seq<Answer>, world: World) {
    forall i :: 0 <= i < |log| ==> (Limited(log[i]) || log[i].ServerError?) && !world.cut(i)
  }

  /** So far only answers to go on after: so many limits, so many server errors. */
  ghost predicate SoFar(log: seq<Answer>, world: World, waits: nat, serverErrors: nat) {
    && |log| == waits + serverErrors && WentOn(log, world) && Asked(log, world)
    && CountIf(log, true) == waits && CountIf(log, false) == serverErrors
  }

  lemma OneAnswerMore(log: seq<Answer>, world: World, waits: nat, serverErrors: nat, a: Answer)
    requires SoFar(log, world, waits, serverErrors) && a == world.answer(|log|, waits > 0)
    ensures var more := log + [a];
            && more[..|log|] == log && Asked(more, world)
            && CountIf(more, true) == waits + (if Limited(a) then 1 else 0)
            && CountIf(more, false) == serverErrors + (if a.ServerError? then 1 else 0)
            && (Limited(a) && !world.cut(|log|) ==> SoFar(more, world, waits + 1, serverErrors))
            && (a.ServerError? && !world.cut(|log|) ==> SoFar(more, world, waits, serverErrors + 1))
  {
    var more := log + [a];
    CountOneMore(log, a, true);
    CountOneMore(log, a, false);
    forall i | 0 <= i < |more|
      ensures more[i] == world.answer(i, CountIf(more[..i], true) > 0)
    {
      assert more[..i] == log[..i];
      assert log[..|log|] == log;
    }
  }

  /** The wait for the limit just met. */
  function WaitAfter(log: seq<Answer>, world: World): Wait
    requires log != [] && Limited(log[|log| - 1])
  {
    var i := |log| - 1;
    var now := world.clock(i);
    Wait(now, Max(LimitLifts(log[i], now, CountIf(log[..i], true)), now) + SLACK + world.jitter(i))
  }

  /** The wait ends past the deadline. */
  predicate Late(w: Wait, deadline: Option<Time>) {
    deadline.Some? && w.resume > deadline.value
  }

  /** A wait that ends with the deadline is still in time. */
  lemma LateMeans(w: Wait, deadline: Option<Time>)
    ensures deadline.None? ==> !Late(w, deadline)
    ensures deadline.Some? ==> (Late(w, deadline) <==> w.resume > deadline.value)
  {
  }

  /** Why a request ended without an answer to use: each reason exactly where it holds, and none before it. */
  ghost predicate StoppedFor(stop: Stop, log: seq<Answer>, world: World, deadline: Option<Time>, budget: WaitBudget)
    requires log != []
    reads budget
  {
    var a := log[|log| - 1];
    && (stop.TooManyWaits? <==> CountIf(log, true) == 6)
    && (stop.TooManyErrors? <==> CountIf(log, false) == 4)
    && (stop.Fatal? <==> a.OtherError?)
    && (stop.PastDeadline? <==> Limited(a) && !stop.TooManyWaits? && Late(WaitAfter(log, world), deadline))
    && (stop.OverBudget? <==>
          && Limited(a) && !stop.TooManyWaits? && !stop.PastDeadline?
          && Charged(budget.granted + [WaitAfter(log, world)]) > budget.most)
    && (stop.Interrupted? <==>
          && (Limited(a) || a.ServerError?) && world.cut(|log| - 1)
          && !stop.TooManyWaits? && !stop.TooManyErrors? && !stop.PastDeadline? && !stop.OverBudget?)
  }

  /** The same, of this wait after `waits` others. */
  ghost predicate LimitStop(stop: Stop, w: Wait, deadline: Option<Time>, budget: WaitBudget, waits: nat, cut: bool)
    reads budget
  {
    if waits == RATE_LIMIT_WAITS then stop == TooManyWaits
    else if Late(w, deadline) then stop == PastDeadline
    else if Charged(budget.granted + [w]) > budget.most then stop == OverBudget
    else stop == Interrupted && cut
  }

  lemma LimitStopIs(stop: Stop, log: seq<Answer>, world: World, deadline: Option<Time>, budget: WaitBudget, waits: nat)
    requires log != [] && Limited(log[|log| - 1])
    requires LimitStop(stop, WaitAfter(log, world), deadline, budget, waits, world.cut(|log| - 1))
    requires CountIf(log, true) == waits + 1 && CountIf(log, false) < SERVER_ERROR_ATTEMPTS
    ensures StoppedFor(stop, log, world, deadline, budget)
  {
  }

  /** A wait already granted would be charged nothing more. */
  lemma AgainIsFree(held: seq<Wait>, w: Wait)
    requires w.now <= w.resume
    ensures Charged(held + [w] + [w]) == Charged(held + [w])
  {
    var once := held + [w];
    assert once[..|held|] == held && (once + [w])[..|once|] == once;
  }

  /** One wait: inside the count, the deadline, the budget and the context, or not at all. */
  method Serve(budget: WaitBudget, w: Wait, deadline: Option<Time>, waits: nat, cut: bool) returns (stop: Option<Stop>)
    requires budget.Valid() && w.now <= w.resume && waits <= RATE_LIMIT_WAITS
    modifies budget
    ensures budget.Valid()
    ensures budget.granted == old(budget.granted) + (if stop.None? || stop == Some(Interrupted) then [w] else [])
    ensures stop.None? || stop == Some(Interrupted) ==> !Late(w, deadline)
    ensures stop.None? ==> waits < RATE_LIMIT_WAITS && !cut
    ensures stop.Some? ==> LimitStop(stop.value, w, deadline, budget, waits, cut)
  {
    assert old(budget.granted) + [] == old(budget.granted);
    if waits == RATE_LIMIT_WAITS {
      return Some(TooManyWaits);
    }
    if Late(w, deadline) {
      return Some(PastDeadline);
    }
    var granted := budget.Reserve(w.now, w.resume);
    if !granted {
      return Some(OverBudget);
    }
    AgainIsFree(old(budget.granted), w);
    return if cut then Some(Interrupted) else None;
  }

  // ---------------------------------------------------------------- a call among others

  /** The waits for the limits these answers named, in order. */
  function Waited(log: seq<Answer>, world: World): seq<Wait>
    decreases |log|
  {
    if log == [] then []
    else
      Waited(log[..|log| - 1], world) + if Limited(log[|log| - 1]) then [WaitAfter(log, world)] else []
  }

  lemma WaitedSnoc(log: seq<Answer>, a: Answer, world: World)
    ensures Waited(log + [a], world) ==
            Waited(log, world) + if Limited(a) then [WaitAfter(log + [a], world)] else []
  {
    assert (log + [a])[..|log|] == log;
  }

  function Pow2(k: nat): (p: nat)
    ensures p >= 1
  {
    if k == 0 then 1 else 2 * Pow2(k - 1)
  }

  /** A second past the limit's end, and less than a second of jitter more. */
  ghost predicate JustPast(resume: Time, end: Time) {
    end + SECOND <= resume < end + 2 * SECOND
  }

  /**
   Where a wait for this limit may end, after k others. A reset is named on GitHub's clock: beside a date,
   this host's clock is taken to be ahead by what it is ahead of that date; without one, not at all. A
   limit that names nothing is waited for a minute, and twice as long after each wait before.
   */
  ghost predicate EndsRight(w: Wait, a: Answer, k: nat) {
    var unnamed := w.now + 60 * SECOND * Pow2(k);
    match a
    case Primary(None, _) => JustPast(w.resume, unnamed)
    case Primary(Some(reset), None) => JustPast(w.resume, Max(reset, w.now))
    case Primary(Some(reset), Some(date)) =>
      var ahead := w.now - date;
      JustPast(w.resume - ahead, Max(reset, date))
    case Secondary(Some(after)) => JustPast(w.resume, if after > 0 then w.now + after else unnamed)
    case Secondary(None) => JustPast(w.resume, unnamed)
    case _ => false
  }

  lemma {:induction false} DoubledIs(wait: Time, k: nat)
    ensures Doubled(wait, k) == wait * Pow2(k)
    decreases k
  {
    if k > 0 {
      DoubledIs(wait, k - 1);
    }
  }

  lemma WaitEndsRight(log: seq<Answer>, world: World)
    requires world.Valid() && log != [] && Limited(log[|log| - 1])
    ensures EndsRight(WaitAfter(log, world), log[|log| - 1], CountIf(log[..|log| - 1], true))
  {
    DoubledIs(UNNAMED_WAIT, CountIf(log[..|log| - 1], true));
  }

  /** The limit at answer i is the one the k-th wait is for: it came after k others, at the wait's beginning. */
  ghost predicate WaitsFor(w: Wait, log: seq<Answer>, world: World, k: int, i: int) {
    && 0 <= i < |log| && k == CountIf(log[..i], true) && w.now == world.clock(i) && EndsRight(w, log[i], k)
  }

  /** Each limit has its wait, and each wait is for a limit: from when it came, and just past its end. */
  lemma {:induction false} EachWaitIsForALimit(log: seq<Answer>, world: World, k: nat) returns (i: nat)
    requires world.Valid() && k < |Waited(log, world)|
    ensures |Waited(log, world)| == CountIf(log, true)
    ensures WaitsFor(Waited(log, world)[k], log, world, k, i)
    decreases |log|
  {
    var rest := log[..|log| - 1];
    WaitsAreLimits(rest, world);
    WaitsAreLimits(log, world);
    if k < |Waited(rest, world)| {
      i := EachWaitIsForALimit(rest, world, k);
      assert rest[..i] == log[..i];
    } else {
      i := |log| - 1;
      WaitEndsRight(log, world);
    }
  }

  lemma {:induction false} WaitsAreLimits(log: seq<Answer>, world: World)
    ensures |Waited(log, world)| == CountIf(log, true)
    decreases |log|
  {
    if log != [] {
      WaitsAreLimits(log[..|log| - 1], world);
    }
  }

  /** The places of the limits among the answers, or of the server errors. */
  ghost function PlacesOf(log: seq<Answer>, limited: bool): set<int> {
    set i | 0 <= i < |log| && if limited then log[i].Primary? || log[i].Secondary? else log[i].ServerError?
  }

  lemma {:induction false} CountIfCounts(log: seq<Answer>, limited: bool)
    ensures CountIf(log, limited) == |PlacesOf(log, limited)|
    decreases |log|
  {
    if log != [] {
      var k := |log| - 1;
      CountIfCounts(log[..k], limited);
      assert PlacesOf(log, limited) ==
             if k in PlacesOf(log, limited) then PlacesOf(log[..k], limited) + {k} else PlacesOf(log[..k], limited);
    }
  }

  ghost predicate InTime(own: seq<Wait>, deadline: Option<Time>) {
    forall w <- own :: deadline.Some? ==> w.resume <= deadline.value
  }

  /** Among what was granted from the first on, in this order and at these places, are one's own waits. */
  ghost predicate Picks(mine: seq<int>, first: nat, granted: seq<Wait>, own: seq<Wait>) {
    && |mine| == |own| && first <= |granted|
    && (forall k :: 0 <= k < |mine| ==> first <= mine[k] < |granted| && granted[mine[k]] == own[k])
    && forall k, l :: 0 <= k < l < |mine| ==> mine[k] < mine[l]
  }

  lemma PicksOneMore(mine: seq<int>, first: nat, granted: seq<Wait>, own: seq<Wait>, w: Wait)
    requires Picks(mine, first, granted, own)
    ensures Picks(mine + [|granted|], first, granted + [w], own + [w])
  {
  }

  lemma PicksStay(mine: seq<int>, first: nat, granted: seq<Wait>, more: seq<Wait>, own: seq<Wait>)
    requires Picks(mine, first, granted, own) && granted <= more
    ensures Picks(mine, first, more, own)
  {
  }

  /** Another request's wait. */
  ghost predicate OfOthers(w: Wait, world: World) {
    exists t :: OneOf(world.others(t), w)
  }

  /** All granted from the first on and not at these places is others'. */
  ghost predicate RestIsOthers(mine: seq<int>, first: nat, granted: seq<Wait>, world: World) {
    forall k :: first <= k < |granted| && k !in mine ==> OfOthers(granted[k], world)
  }

  lemma RestGrows(mine: seq<int>, first: nat, held: seq<Wait>, granted: seq<Wait>, world: World, t: nat)
    requires RestIsOthers(mine, first, held, world) && held <= granted
    requires forall k :: |held| <= k < |granted| ==> OneOf(world.others(t), granted[k])
    ensures RestIsOthers(mine, first, granted, world)
  {
    forall k | first <= k < |granted| && k !in mine ensures OfOthers(granted[k], world) {
      if k < |held| {
        assert OfOthers(held[k], world);
      } else {
        assert OneOf(world.others(t), granted[k]);
      }
    }
  }

  lemma RestWithMine(mine: seq<int>, first: nat, held: seq<Wait>, w: Wait, world: World)
    requires RestIsOthers(mine, first, held, world)
    ensures RestIsOthers(mine + [|held|], first, held + [w], world)
  {
    var ours, granted := mine + [|held|], held + [w];
    assert ours[|mine|] == |held|;
    forall k | first <= k < |granted| && k !in ours ensures OfOthers(granted[k], world) {
      assert k !in mine && OfOthers(held[k], world);
    }
  }

  /** Of what was granted since a call began, exactly its own waits, all inside the deadline, are on its account. */
  ghost predicate Charges(before: seq<Wait>, granted: seq<Wait>, mine: seq<int>, own: seq<Wait>, world: World,
                          deadline: Option<Time>) {
    && before <= granted && Picks(mine, |before|, granted, own) && InTime(own, deadline)
    && RestIsOthers(mine, |before|, granted, world)
  }

  /** A call that goes on: so many limits waited for, each charged, and so many server errors. */
  ghost predicate Underway(before: seq<Wait>, granted: seq<Wait>, mine: seq<int>, log: seq<Answer>, world: World,
                           deadline: Option<Time>, waits: nat, serverErrors: nat) {
    && SoFar(log, world, waits, serverErrors) && waits <= RATE_LIMIT_WAITS && serverErrors < SERVER_ERROR_ATTEMPTS
    && Charges(before, granted, mine, Waited(log, world), world, deadline)
  }

  /** The limit that ends a call is not charged, except where the wait for it was cut short. */
  predicate Uncharged(res: Result<bool, Stop>) {
    res.Err? && (res.error.TooManyWaits? || res.error.PastDeadline? || res.error.OverBudget?)
  }

  /**
   How a call ends: after at most nine requests, every answer but the last one to go on after and each the
   answer to the request sent; well exactly on a good last answer, and otherwise for a reason that holds.
   What it charged is exactly the waits for the limits it met, the last one's as Uncharged says.
   */
  ghost predicate Final(res: Result<bool, Stop>, before: seq<Wait>, mine: seq<int>, log: seq<Answer>, world: World,
                        deadline: Option<Time>, budget: WaitBudget)
    reads budget
  {
    && 1 <= |log| <= 9 && WentOn(log[..|log| - 1], world) && Asked(log, world)
    && (res.Ok? <==> log[|log| - 1].Fine?)
    && Charges(before, budget.granted, mine, Waited(if Uncharged(res) then log[..|log| - 1] else log, world),
               world, deadline)
    && (res.Err? ==> StoppedFor(res.error, log, world, deadline, budget))
  }

  /** A call that met one more answer and goes on from there, its waits in place. */
  lemma GoesOn(before: seq<Wait>, granted: seq<Wait>, mine: seq<int>, sofar: seq<Answer>, a: Answer, world: World,
               deadline: Option<Time>, waits: nat, serverErrors: nat)
    requires SoFar(sofar, world, waits, serverErrors) && a == world.answer(|sofar|, waits > 0)
    requires (Limited(a) && waits < RATE_LIMIT_WAITS) || (a.ServerError? && serverErrors + 1 < SERVER_ERROR_ATTEMPTS)
    requires waits <= RATE_LIMIT_WAITS && serverErrors < SERVER_ERROR_ATTEMPTS && !world.cut(|sofar|)
    requires Charges(before, granted, mine, Waited(sofar + [a], world), world, deadline)
    ensures Underway(before, granted, mine, sofar + [a], world, deadline,
                     if Limited(a) then waits + 1 else waits, if Limited(a) then serverErrors else serverErrors + 1)
  {
    OneAnswerMore(sofar, world, waits, serverErrors, a);
  }

  /** A call that met its last answer. */
  lemma Ends(res: Result<bool, Stop>, before: seq<Wait>, mine: seq<int>, sofar: seq<Answer>, a: Answer, world: World,
             deadline: Option<Time>, waits: nat, serverErrors: nat, budget: WaitBudget)
    requires SoFar(sofar, world, waits, serverErrors) && a == world.answer(|sofar|, waits > 0)
    requires waits <= RATE_LIMIT_WAITS && serverErrors < SERVER_ERROR_ATTEMPTS && (res.Ok? <==> a.Fine?)
    requires Charges(before, budget.granted, mine, Waited(if Uncharged(res) then sofar else sofar + [a], world),
                     world, deadline)
    requires res.Err? ==> StoppedFor(res.error, sofar + [a], world, deadline, budget)
    ensures Final(res, before, mine, sofar + [a], world, deadline, budget)
  {
    OneAnswerMore(sofar, world, waits, serverErrors, a);
    assert (sofar + [a])[..|sofar|] == sofar;
  }

  /** A limit after these answers, its wait charged. */
  lemma ChargedOnce(before: seq<Wait>, held: seq<Wait>, mine: seq<int>, sofar: seq<Answer>, a: Answer, world: World,
                    deadline: Option<Time>)
    requires Limited(a) && !Late(WaitAfter(sofar + [a], world), deadline)
    requires Charges(before, held, mine, Waited(sofar, world), world, deadline)
    ensures Charges(before, held + [WaitAfter(sofar + [a], world)], mine + [|held|], Waited(sofar + [a], world),
                    world, deadline)
  {
    WaitedSnoc(sofar, a, world);
    PicksOneMore(mine, |before|, held, Waited(sofar, world), WaitAfter(sofar + [a], world));
    RestWithMine(mine, |before|, held, WaitAfter(sofar + [a], world), world);
  }

  /** A limit the call ends at: its wait is charged only where it was cut short. */
  lemma LimitEnds(stop: Stop, before: seq<Wait>, held: seq<Wait>, mine: seq<int>, sofar: seq<Answer>, a: Answer,
                  world: World, deadline: Option<Time>, waits: nat, serverErrors: nat, budget: WaitBudget)
    requires Underway(before, held, mine, sofar, world, deadline, waits, serverErrors)
    requires Limited(a) && a == world.answer(|sofar|, waits > 0)
    requires LimitStop(stop, WaitAfter(sofar + [a], world), deadline, budget, waits, world.cut(|sofar|))
    requires budget.granted == held + if stop.Interrupted? then [WaitAfter(sofar + [a], world)] else []
    ensures Final(Err(stop), before, if stop.Interrupted? then mine + [|held|] else mine, sofar + [a], world, deadline,
                  budget)
  {
    OneAnswerMore(sofar, world, waits, serverErrors, a);
    LimitStopIs(stop, sofar + [a], world, deadline, budget, waits);
    if stop.Interrupted? {
      ChargedOnce(before, held, mine, sofar, a, world, deadline);
      Ends(Err(stop), before, mine + [|held|], sofar, a, world, deadline, waits, serverErrors, budget);
    } else {
      assert budget.granted == held;
      Ends(Err(stop), before, mine, sofar, a, world, deadline, waits, serverErrors, budget);
    }
  }

  /** A limit the call goes on after, its wait charged. */
  lemma LimitGoesOn(before: seq<Wait>, held: seq<Wait>, mine: seq<int>, sofar: seq<Answer>, a: Answer, world: World,
                    deadline: Option<Time>, waits: nat, serverErrors: nat)
    requires Underway(before, held, mine, sofar, world, deadline, waits, serverErrors)
    requires Limited(a) && a == world.answer(|sofar|, waits > 0) && waits < RATE_LIMIT_WAITS && !world.cut(|sofar|)
    requires !Late(WaitAfter(sofar + [a], world), deadline)
    ensures Underway(before, held + [WaitAfter(sofar + [a], world)], mine + [|held|], sofar + [a], world, deadline,
                     waits + 1, serverErrors)
  {
    var granted := held + [WaitAfter(sofar + [a], world)];
    ChargedOnce(before, held, mine, sofar, a, world, deadline);
    GoesOn(before, granted, mine + [|held|], sofar, a, world, deadline, waits, serverErrors);
  }

  /** The wait computed for a limit is the one named after it. */
  lemma ThatWait(before: seq<Wait>, held: seq<Wait>, mine: seq<int>, sofar: seq<Answer>, a: Answer, world: World,
                 deadline: Option<Time>, waits: nat, serverErrors: nat)
    requires world.Valid() && Underway(before, held, mine, sofar, world, deadline, waits, serverErrors) && Limited(a)
    ensures WaitAfter(sofar + [a], world).now <= WaitAfter(sofar + [a], world).resume
    ensures var now := world.clock(|sofar|);
            WaitAfter(sofar + [a], world) ==
            Wait(now, Max(LimitLifts(a, now, waits), now) + SLACK + world.jitter(|sofar|))
  {
    assert (sofar + [a])[..|sofar|] == sofar;
  }

  /** What serving that wait comes to. */
  lemma Served(stop: Option<Stop>, before: seq<Wait>, held: seq<Wait>, mine: seq<int>, sofar: seq<Answer>, a: Answer,
               world: World, deadline: Option<Time>, waits: nat, serverErrors: nat, budget: WaitBudget)
    requires Underway(before, held, mine, sofar, world, deadline, waits, serverErrors)
    requires Limited(a) && a == world.answer(|sofar|, waits > 0)
    requires var w := WaitAfter(sofar + [a], world);
             var granted := stop.None? || stop == Some(Interrupted);
             && budget.granted == held + (if granted then [w] else [])
             && (granted ==> !Late(w, deadline))
             && (stop.None? ==> waits < RATE_LIMIT_WAITS && !world.cut(|sofar|))
             && (stop.Some? ==> LimitStop(stop.value, w, deadline, budget, waits, world.cut(|sofar|)))
    ensures stop.None? ==>
              Underway(before, budget.granted, mine + [|held|], sofar + [a], world, deadline, waits + 1, serverErrors)
    ensures stop.Some? ==>
              Final(Err(stop.value), before, if stop.value.Interrupted? then mine + [|held|] else mine, sofar + [a],
                    world, deadline, budget)
  {
    if stop.Some? {
      LimitEnds(stop.value, before, held, mine, sofar, a, world, deadline, waits, serverErrors, budget);
    } else {
      LimitGoesOn(before, held, mine, sofar, a, world, deadline, waits, serverErrors);
    }
  }

  /** The limit just met, waited out past its lifting, or a reason to stop. */
  method WaitOut(budget: WaitBudget, world: World, deadline: Option<Time>, sofar: seq<Answer>, a: Answer, waits: nat,
          ghost serverErrors: nat, ghost before: seq<Wait>, ghost mine: seq<int>)
    returns (stop: Option<Stop>, ghost ours: seq<int>)
    requires budget.Valid() && world.Valid()
    requires Underway(before, budget.granted, mine, sofar, world, deadline, waits, serverErrors)
    requires Limited(a) && a == world.answer(|sofar|, waits > 0)
    modifies budget
    ensures budget.Valid()
    ensures stop.None? ==>
            Underway(before, budget.granted, ours, sofar + [a], world, deadline, waits + 1, serverErrors)
    ensures stop.Some? ==> Final(Err(stop.value), before, ours, sofar + [a], world, deadline, budget)
  {
    ghost var held := budget.granted;
    var now := world.clock(|sofar|);
    var reset := LimitLifts(a, now, waits);
    var w := Wait(now, Max(reset, now) + SLACK + world.jitter(|sofar|));
    ThatWait(before, held, mine, sofar, a, world, deadline, waits, serverErrors);
    stop := Serve(budget, w, deadline, waits, world.cut(|sofar|));
    ours := if stop.None? || stop == Some(Interrupted) then mine + [|held|] else mine;
    Served(stop, before, held, mine, sofar, a, world, deadline, waits, serverErrors, budget);
  }

  /** A server error just met: another try after a wait, up to the last. */
  method BackOff(ghost budget: WaitBudget, world: World, ghost deadline: Option<Time>, sofar: seq<Answer>, a: Answer,
          ghost waits: nat, serverErrors: nat, ghost before: seq<Wait>, ghost mine: seq<int>)
    returns (stop: Option<Stop>)
    requires Underway(before, budget.granted, mine, sofar, world, deadline, waits, serverErrors)
    requires a.ServerError? && a == world.answer(|sofar|, waits > 0)
    ensures stop.None? ==>
            Underway(before, budget.granted, mine, sofar + [a], world, deadline, waits, serverErrors + 1)
    ensures stop.Some? ==> Final(Err(stop.value), before, mine, sofar + [a], world, deadline, budget)
  {
    WaitedSnoc(sofar, a, world);
    if serverErrors + 1 == SERVER_ERROR_ATTEMPTS {
      stop := Some(TooManyErrors);
    } else {
      stop := if world.cut(|sofar|) then Some(Interrupted) else None;
    }
    if stop.Some? {
      OneAnswerMore(sofar, world, waits, serverErrors, a);
      Ends(Err(stop.value), before, mine, sofar, a, world, deadline, waits, serverErrors, budget);
    } else {
      GoesOn(before, budget.granted, mine, sofar, a, world, deadline, waits, serverErrors);
    }
  }

  /** What others reserve takes nothing from a call's own. */
  lemma OthersChangeNothing(before: seq<Wait>, held: seq<Wait>, granted: seq<Wait>, mine: seq<int>, sofar: seq<Answer>,
                            world: World, deadline: Option<Time>, waits: nat, serverErrors: nat)
    requires Underway(before, held, mine, sofar, world, deadline, waits, serverErrors) && held <= granted
    requires forall k :: |held| <= k < |granted| ==> OneOf(world.others(|sofar|), granted[k])
    ensures Underway(before, granted, mine, sofar, world, deadline, waits, serverErrors)
  {
    PicksStay(mine, |before|, held, granted, Waited(sofar, world));
    RestGrows(mine, |before|, held, granted, world, |sofar|);
  }

  /** One request, and what others reserve while it is under way. */
  method Request(budget: WaitBudget, world: World, ghost deadline: Option<Time>, sofar: seq<Answer>, waits: nat,
          ghost serverErrors: nat, ghost before: seq<Wait>, ghost mine: seq<int>)
    returns (a: Answer)
    requires budget.Valid() && world.Valid()
    requires Underway(before, budget.granted, mine, sofar, world, deadline, waits, serverErrors)
    modifies budget
    ensures budget.Valid() && a == world.answer(|sofar|, waits > 0)
    ensures Underway(before, budget.granted, mine, sofar, world, deadline, waits, serverErrors)
  {
    a := world.answer(|sofar|, waits > 0);
    ghost var held := budget.granted;
    budget.ReserveOthers(world.others(|sofar|));
    OthersChangeNothing(before, held, budget.granted, mine, sofar, world, deadline, waits, serverErrors);
  }

  /** A request and what its answer leads to. */
  method Attempt(budget: WaitBudget, world: World, deadline: Option<Time>, sofar: seq<Answer>, waits: nat,
          serverErrors: nat, ghost before: seq<Wait>, ghost mine: seq<int>)
    returns (res: Option<Result<bool, Stop>>, log: seq<Answer>, w: nat, e: nat, ghost ours: seq<int>)
    requires budget.Valid() && world.Valid()
    requires Underway(before, budget.granted, mine, sofar, world, deadline, waits, serverErrors)
    modifies budget
    ensures budget.Valid()
    ensures res.None? ==>
            Underway(before, budget.granted, ours, log, world, deadline, w, e) && w + e == waits + serverErrors + 1
    ensures res.Some? ==> Final(res.value, before, ours, log, world, deadline, budget)
  {
    var a := Request(budget, world, deadline, sofar, waits, serverErrors, before, mine);
    log, w, e, ours := sofar + [a], waits, serverErrors, mine;
    var stop: Option<Stop>;
    if Limited(a) {
      stop, ours := WaitOut(budget, world, deadline, sofar, a, waits, serverErrors, before, mine);
      w := waits + 1;
    } else if a.ServerError? {
      stop := BackOff(budget, world, deadline, sofar, a, waits, serverErrors, before, mine);
      e := serverErrors + 1;
    } else {
      res := Some(if a.Fine? then Ok(true) else Err(Fatal));
      Answered(res.value, before, mine, sofar, a, world, deadline, waits, serverErrors, budget);
      return;
    }
    res := if stop.Some? then Some(Err(stop.value)) else None;
  }

  /** An answer that is neither a limit nor a server error. */
  lemma Answered(res: Result<bool, Stop>, before: seq<Wait>, mine: seq<int>, sofar: seq<Answer>, a: Answer,
                 world: World, deadline: Option<Time>, waits: nat, serverErrors: nat, budget: WaitBudget)
    requires Underway(before, budget.granted, mine, sofar, world, deadline, waits, serverErrors)
    requires a == world.answer(|sofar|, waits > 0) && !Limited(a) && !a.ServerError?
    requires res == if a.Fine? then Ok(true) else Err(Fatal)
    ensures Final(res, before, mine, sofar + [a], world, deadline, budget)
  {
    WaitedSnoc(sofar, a, world);
    OneAnswerMore(sofar, world, waits, serverErrors, a);
    Ends(res, before, mine, sofar, a, world, deadline, waits, serverErrors, budget);
  }

  /** Each of a call's own waits is for a limit it met. */
  ghost predicate WaitsForLimits(granted: seq<Wait>, mine: seq<int>, log: seq<Answer>, world: World) {
    forall k | 0 <= k < |mine| ::
      0 <= mine[k] < |granted| && exists i :: WaitsFor(granted[mine[k]], log, world, k, i)
  }

  lemma FinalWaits(res: Result<bool, Stop>, before: seq<Wait>, mine: seq<int>, log: seq<Answer>, world: World,
                   deadline: Option<Time>, budget: WaitBudget)
    requires world.Valid() && Final(res, before, mine, log, world, deadline, budget)
    ensures WaitsForLimits(budget.granted, mine, log, world)
  {
    var charged := if Uncharged(res) then log[..|log| - 1] else log;
    forall k | 0 <= k < |mine| ensures exists i :: WaitsFor(budget.granted[mine[k]], log, world, k, i) {
      var i := EachWaitIsForALimit(charged, world, k);
      assert charged[..i] == log[..i];
      assert WaitsFor(budget.granted[mine[k]], log, world, k, i);
    }
  }

  /** Sends one request until it is answered, waiting out limits and retrying server errors. */
  method Call(budget: WaitBudget, world: World, deadline: Option<Time>)
    returns (res: Result<bool, Stop>, log: seq<Answer>, ghost mine: seq<int>)
    requires budget.Valid() && world.Valid()
    modifies budget
    ensures budget.Valid()
    ensures Final(res, old(budget.granted), mine, log, world, deadline, budget)
    ensures WaitsForLimits(budget.granted, mine, log, world)
  {
    var waits: nat, serverErrors: nat, done := 0, 0, None;
    log, mine := [], [];
    while done.None?
      invariant budget.Valid()
      invariant done.None? ==>
                Underway(old(budget.granted), budget.granted, mine, log, world, deadline, waits, serverErrors)
      invariant done.Some? ==> Final(done.value, old(budget.granted), mine, log, world, deadline, budget)
      decreases done.None?, RATE_LIMIT_WAITS + SERVER_ERROR_ATTEMPTS - waits - serverErrors
    {
      done, log, waits, serverErrors, mine :=
        Attempt(budget, world, deadline, log, waits, serverErrors, old(budget.granted), mine);
    }
    res := done.value;
    FinalWaits(res, old(budget.granted), mine, log, world, deadline, budget);
  }
}
