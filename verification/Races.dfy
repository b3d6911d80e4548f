/**
 What a store saw: the looks and landings of this writer, and what others put. It says whether a landing
 replaced somebody's object, and whether somebody had put one since this writer last knew the key.
 */
module Races {
  import opened Base

  /** put is what a landing puts, over the object of another's it replaced; knew is what was known of the key before. */
  datatype Event<Blob> =
    | Looked(key: string) // nothing was there
    | Landed(key: string, put: Blob, over: Option<Blob>, knew: Option<bool>)
    | Others(keys: set<string>)

  /** This writer learns the state of the key: it sees nothing there, or puts its own object there. */
  predicate Marks<Blob>(e: Event<Blob>, key: string) {
    (e.Looked? || e.Landed?) && e.key == key
  }

  /** Whether another has put at the key since this writer last knew it; None when it never did. */
  function Known<Blob>(log: seq<Event<Blob>>, key: string): Option<bool>
    decreases |log|
  {
    if log == [] then None
    else
      var before, e := Known(log[..|log| - 1], key), log[|log| - 1];
      match e
      case Looked(k) => if k == key then Some(false) else before
      case Landed(k, _, _, _) => if k == key then Some(false) else before
      case Others(keys) => if key in keys && before.Some? then Some(true) else before
  }

  /** Another put at the key at i, after this writer last knew it, at l. */
  ghost predicate OvertakenAt<Blob>(log: seq<Event<Blob>>, key: string, l: int, i: int) {
    && 0 <= l < i < |log| && Marks(log[l], key) && log[i].Others? && key in log[i].keys
    && forall j | l < j < |log| :: !Marks(log[j], key)
  }

  ghost predicate Overtaken<Blob>(log: seq<Event<Blob>>, key: string) {
    exists l, i :: OvertakenAt(log, key, l, i)
  }

  ghost predicate Marked<Blob>(log: seq<Event<Blob>>, key: string) {
    exists l :: 0 <= l < |log| && Marks(log[l], key)
  }

  /** What is known is just that. */
  lemma {:induction false} KnownMeans<Blob>(log: seq<Event<Blob>>, key: string)
    ensures Known(log, key).Some? <==> Marked(log, key)
    ensures Known(log, key) == Some(true) <==> Overtaken(log, key)
    decreases |log|
  {
    if log != [] {
      var front, e := log[..|log| - 1], log[|log| - 1];
      KnownMeans(front, key);
      if Marked(front, key) {
        var l :| 0 <= l < |front| && Marks(front[l], key);
        assert Marks(log[l], key);
      }
      if Marks(e, key) {
        assert Marks(log[|log| - 1], key);
      } else {
        if Overtaken(front, key) {
          var l, i :| OvertakenAt(front, key, l, i);
          assert OvertakenAt(log, key, l, i);
        }
        if e.Others? && key in e.keys && Marked(front, key) {
          var l := LastMark(front, key);
          assert OvertakenAt(log, key, l, |log| - 1);
        }
        if Overtaken(log, key) {
          var l, i :| OvertakenAt(log, key, l, i);
          assert Marks(front[l], key);
          if i < |front| {
            assert OvertakenAt(front, key, l, i);
          }
        }
      }
    }
  }

  lemma {:induction false} LastMark<Blob>(log: seq<Event<Blob>>, key: string) returns (l: int)
    requires Marked(log, key)
    ensures 0 <= l < |log| && Marks(log[l], key) && forall j | l < j < |log| :: !Marks(log[j], key)
    decreases |log|
  {
    var k := |log| - 1;
    if Marks(log[k], key) {
      l := k;
    } else {
      var m :| 0 <= m < |log| && Marks(log[m], key);
      assert Marks(log[..k][m], key);
      l := LastMark(log[..k], key);
    }
  }

  lemma KnownSnoc<Blob>(log: seq<Event<Blob>>, e: Event<Blob>, key: string)
    ensures Known(log + [e], key) ==
            if Marks(e, key) then Some(false)
            else if e.Others? && key in e.keys && Known(log, key).Some? then Some(true) else Known(log, key)
  {
    assert (log + [e])[..|log|] == log;
  }

  lemma {:induction false} KnownStays<Blob>(log: seq<Event<Blob>>, more: seq<Event<Blob>>, key: string)
    requires log <= more && Known(log, key).Some?
    ensures Known(more, key).Some?
    decreases |more|
  {
    if |more| > |log| {
      KnownStays(log, more[..|more| - 1], key);
    } else {
      assert more == log;
    }
  }

  // ---------------------------------------------------------------- a log and the store it tells of

  /** Every landing is told with what was known just before it; known, it replaced an object exactly when overtaken. */
  ghost predicate LandingsOk<Blob(!new)>(log: seq<Event<Blob>>) {
    forall j | 0 <= j < |log| && log[j].Landed? ::
      && log[j].knew == Known(log[..j], log[j].key)
      && (log[j].knew.Some? ==> (log[j].over.Some? <==> log[j].knew.value))
  }

  /** What is known of a key is so: another's object is there, or none is. */
  ghost predicate KnownIsSo<Blob(!new)>(log: seq<Event<Blob>>, objects: map<string, Blob>, theirs: set<string>) {
    forall key | Known(log, key).Some? :: Known(log, key).value <==> key in objects && key in theirs
  }

  ghost predicate TellsOf<Blob(!new)>(log: seq<Event<Blob>>, objects: map<string, Blob>, theirs: set<string>) {
    LandingsOk(log) && KnownIsSo(log, objects, theirs)
  }

  lemma LandingsStay<Blob(!new)>(log: seq<Event<Blob>>, e: Event<Blob>)
    requires LandingsOk(log)
    requires e.Landed? ==> e.knew == Known(log, e.key) && (e.knew.Some? ==> (e.over.Some? <==> e.knew.value))
    ensures LandingsOk(log + [e])
  {
    var more := log + [e];
    forall j | 0 <= j < |more| && more[j].Landed?
      ensures more[j].knew == Known(more[..j], more[j].key)
      ensures more[j].knew.Some? ==> (more[j].over.Some? <==> more[j].knew.value)
    {
      if j < |log| {
        assert more[..j] == log[..j] && more[j] == log[j];
      } else {
        assert more[..j] == log;
      }
    }
  }

  lemma OthersPut<Blob(!new)>(log: seq<Event<Blob>>, objects: map<string, Blob>, theirs: set<string>,
                              after: map<string, Blob>, put: set<string>)
    requires TellsOf(log, objects, theirs) && put <= after.Keys
    requires forall key | key !in put :: key in after <==> key in objects
    ensures TellsOf(log + [Others(put)], after, theirs + put)
  {
    LandingsStay(log, Others(put));
    forall key | Known(log + [Others(put)], key).Some?
      ensures Known(log + [Others(put)], key).value <==> key in after && key in theirs + put
    {
      KnownSnoc(log, Others(put), key);
    }
  }

  lemma SawNothing<Blob(!new)>(log: seq<Event<Blob>>, objects: map<string, Blob>, theirs: set<string>, k: string)
    requires TellsOf(log, objects, theirs) && k !in objects
    ensures TellsOf(log + [Looked(k)], objects, theirs)
  {
    LandingsStay(log, Looked(k));
    forall key | Known(log + [Looked(k)], key).Some?
      ensures Known(log + [Looked(k)], key).value <==> key in objects && key in theirs
    {
      KnownSnoc(log, Looked(k), key);
    }
  }

  /** The event of a landing in this state. */
  function LandingOf<Blob>(log: seq<Event<Blob>>, objects: map<string, Blob>, theirs: set<string>,
          k: string, blob: Blob): Event<Blob> {
    Landed(k, blob, if k in objects && k in theirs then Some(objects[k]) else None, Known(log, k))
  }

  lemma OwnLanding<Blob(!new)>(log: seq<Event<Blob>>, objects: map<string, Blob>, theirs: set<string>,
          k: string, blob: Blob)
    requires TellsOf(log, objects, theirs)
    ensures TellsOf(log + [LandingOf(log, objects, theirs, k, blob)], objects[k := blob], theirs - {k})
  {
    var e := LandingOf(log, objects, theirs, k, blob);
    LandingsStay(log, e);
    forall key | Known(log + [e], key).Some?
      ensures Known(log + [e], key).value <==> key in objects[k := blob] && key in theirs - {k}
    {
      KnownSnoc(log, e, key);
    }
  }

  // ---------------------------------------------------------------- a store that only creates

  /** No landing replaced anything, what landed is there as it landed, and no key took two. */
  ghost predicate CreateOnly<Blob(!new)>(log: seq<Event<Blob>>, objects: map<string, Blob>) {
    && (forall j | 0 <= j < |log| && log[j].Landed? :: StillThere(log[j], objects))
    && (forall i, j | 0 <= i < j < |log| && log[i].Landed? && log[j].Landed? :: log[i].key != log[j].key)
  }

  ghost predicate StillThere<Blob>(e: Event<Blob>, objects: map<string, Blob>)
    requires e.Landed?
  {
    e.over.None? && e.key in objects && objects[e.key] == e.put
  }

  ghost predicate Extends<Blob(!new)>(before: map<string, Blob>, after: map<string, Blob>) {
    forall k <- before :: k in after && after[k] == before[k]
  }

  lemma CreateOnlyStays<Blob(!new)>(log: seq<Event<Blob>>, objects: map<string, Blob>, e: Event<Blob>,
                                    after: map<string, Blob>)
    requires CreateOnly(log, objects) && !e.Landed? && Extends(objects, after)
    ensures CreateOnly(log + [e], after)
  {
    forall j | 0 <= j < |log + [e]| && (log + [e])[j].Landed? ensures StillThere((log + [e])[j], after) {
      assert StillThere(log[j], objects);
    }
  }

  lemma CreateOnlyLands<Blob(!new)>(log: seq<Event<Blob>>, objects: map<string, Blob>, e: Event<Blob>)
    requires CreateOnly(log, objects) && e.Landed? && e.over.None? && e.key !in objects
    ensures CreateOnly(log + [e], objects[e.key := e.put])
  {
    var more := log + [e];
    forall j | 0 <= j < |more| && more[j].Landed? ensures StillThere(more[j], objects[e.key := e.put]) {
      if j < |log| {
        assert StillThere(log[j], objects);
      }
    }
    forall i, j | 0 <= i < j < |more| && more[i].Landed? && more[j].Landed? ensures more[i].key != more[j].key {
      assert StillThere(log[i], objects);
    }
  }

  // ---------------------------------------------------------------- what a write adds to the log

  /** From n on, every landing is at this key, which the writer had looked at. */
  ghost predicate Knowing<Blob(!new)>(log: seq<Event<Blob>>, n: nat, key: string) {
    forall j | n <= j < |log| && log[j].Landed? :: log[j].key == key && log[j].knew.Some?
  }

  /** From n on, nothing landed. */
  ghost predicate Quiet<Blob(!new)>(log: seq<Event<Blob>>, n: nat) {
    forall j | n <= j < |log| :: !log[j].Landed?
  }

  /** What others put, and then one landing: it is the only one of the two, and knew what was known before. */
  lemma LandsNext<Blob(!new)>(before: seq<Event<Blob>>, put: set<string>, e: Event<Blob>, key: string)
    requires e.Landed? && e.key == key && e.knew == Known(before + [Others(put)], key)
    ensures var log := before + [Others(put)] + [e];
            && |log| == |before| + 2 && log[|before| + 1] == e
            && (forall j | |before| <= j < |log| && log[j].Landed? :: log[j] == e)
            && (Known(before, key).Some? ==> Knowing(log, |before|, key))
  {
    var mid := before + [Others(put)];
    var log := mid + [e];
    assert log[|before|] == Others(put) && log[|before| + 1] == e;
    if Known(before, key).Some? {
      KnownStays(before, mid, key);
    }
  }

  lemma KnowingOn<Blob(!new)>(a: seq<Event<Blob>>, b: seq<Event<Blob>>, n: nat, key: string)
    requires n <= |a| && a <= b && Knowing(a, n, key) && Knowing(b, |a|, key)
    ensures Knowing(b, n, key)
  {
  }

  lemma QuietOn<Blob(!new)>(a: seq<Event<Blob>>, b: seq<Event<Blob>>, n: nat)
    requires n <= |a| && a <= b && Quiet(a, n) && Quiet(b, |a|)
    ensures Quiet(b, n)
  {
  }

  /** Landing j replaced another's object. */
  ghost predicate Replaced<Blob>(log: seq<Event<Blob>>, j: nat) {
    j < |log| && log[j].Landed? && log[j].over.Some?
  }

  /**
   A write that looks before it lands replaces another's object with a landing exactly when another had put
   at the key since the write last looked there, or landed there itself.
   */
  lemma ReplacedExactlyWhenOvertaken<Blob(!new)>(log: seq<Event<Blob>>, n: nat, key: string, j: nat)
    requires LandingsOk(log) && Knowing(log, n, key) && n <= j < |log| && log[j].Landed?
    ensures Replaced(log, j) <==> Overtaken(log[..j], key)
    ensures Marked(log[..j], key)
  {
    KnownMeans(log[..j], key);
  }
}
