/** How old the newest copy of a repository gets while runs keep coming, over every history of regular runs. */
module Schedule {
  import opened Base
  import opened Records
  import opened Unchanged
  import opened Runs
  import opened Histories
  import opened Ledger

  /** A run that signed a manifest in which the repository did not fail and has refs. */
  ghost predicate Protects(w: World, id: RunId, slug: string) {
    && id in w.runs && w.runs[id].manifest.Some?
    && exists e <- w.runs[id].manifest.value.repos :: e.slug == slug && e.status != Failed && e.refs != []
  }

  function StartOf(w: World, id: RunId): Time
    requires id in w.runs
  {
    w.runs[id].startedAt
  }

  function FinishOf(w: World, id: RunId): Time
    requires id in w.runs && w.runs[id].manifest.Some?
  {
    w.runs[id].manifest.value.finishedAt
  }

  /** Runs that protect the repository, each taking at most `length`, each starting at most g after the one before. */
  ghost predicate Regular(w: World, ids: seq<RunId>, slug: string, g: Time, length: Time) {
    && (forall i | 0 <= i < |ids| :: Protects(w, ids[i], slug) && FinishOf(w, ids[i]) - StartOf(w, ids[i]) <= length)
    && (forall i | 0 < i < |ids| :: StartOf(w, ids[i]) - StartOf(w, ids[i - 1]) <= g)
  }

  /** Some copy signed for by t is in the store whole, and was then younger than this. */
  ghost predicate YoungCopy(w: World, slug: string, t: Time, age: Time) {
    exists m, e :: IsCopyBy(w, m, e, slug, t) && t - e.copiedAt.value < age
  }

  ghost predicate IsCopyBy(w: World, m: Manifest, e: RepoEntry, slug: string, t: Time) {
    && m in w.signed && m.finishedAt <= t && e in m.repos && e.slug == slug
    && CopyOk(w, e) && e.copiedAt.value <= t
  }

  /** The run in force at t: it had finished, and the one after it is not due to have. */
  lemma {:induction false} RunInForce(w: World, ids: seq<RunId>, slug: string, g: Time, length: Time, t: Time)
    returns (i: nat)
    requires ids != [] && Regular(w, ids, slug, g, length)
    requires FinishOf(w, ids[0]) <= t <= StartOf(w, ids[|ids| - 1]) + g + length
    ensures i < |ids| && FinishOf(w, ids[i]) <= t <= StartOf(w, ids[i]) + g + length
    decreases |ids|
  {
    var k := |ids| - 1;
    if FinishOf(w, ids[k]) <= t {
      i := k;
    } else {
      i := RunInForce(w, ids[..k], slug, g, length, t);
    }
  }

  /**
   What a run that protects the repository left in force was a copy less than the bound, or a day, old
   at its start.
   */
  lemma CopyInForce(c: Config, w: World, id: RunId, slug: string, t: Time) returns (m: Manifest, e: RepoEntry)
    requires Inv(c, w) && LedgerOk(w) && Protects(w, id, slug) && FinishOf(w, id) <= t
    ensures IsCopyBy(w, m, e, slug, t)
    ensures StartOf(w, id) - e.copiedAt.value < Max(RefreshBound(c.window), DAY)
  {
    var r := w.runs[id];
    assert RunOk(c, w, r) && ManifestOk(r);
    var x :| x in r.manifest.value.repos && x.slug == slug && x.status != Failed && x.refs != [];
    assert AgeOk(c, r, r.entries[slug]);
    EntryHasOrigin(w, r.manifest.value, x);
    m, e :| m in w.signed && m.finishedAt <= r.manifest.value.finishedAt
      && IsOrigin(w, m, e, slug, x.refs, x.copiedAt.value);
  }

  /**
   A history in which runs protect a repository, starting at most g apart and taking at most `length` each,
   and an instant from the first one's finish until the one after the last is due.
   */
  ghost predicate Scheduled(c: Config, w0: World, steps: seq<Step>, w: World, ids: seq<RunId>, slug: string, g: Time,
                            length: Time, t: Time) {
    && Fresh(w0) && Leads(c, w0, steps, w)
    && ids != [] && Regular(w, ids, slug, g, length)
    && FinishOf(w, ids[0]) <= t <= StartOf(w, ids[|ids| - 1]) + g + length
  }

  /**
   There is then always a stored and signed copy younger than the refresh bound, or a day if that is
   more, and g and `length`.
   */
  lemma NewestCopyAge(c: Config, w0: World, steps: seq<Step>, w: World, ids: seq<RunId>, slug: string, g: Time,
                      length: Time, t: Time)
    requires Scheduled(c, w0, steps, w, ids, slug, g, length, t)
    ensures YoungCopy(w, slug, t, Max(RefreshBound(c.window), DAY) + g + length)
    ensures RefreshBound(c.window) >= DAY ==> YoungCopy(w, slug, t, RefreshBound(c.window) + g + length)
  {
    LedgerKept(c, w0, steps, w);
    var i := RunInForce(w, ids, slug, g, length, t);
    var m, e := CopyInForce(c, w, ids[i], slug, t);
  }
}
