/**
 The history in which S3's settle takes another writer's object for one's own: of the same size and checksum,
 and not the same bytes. The copy is signed for with a hash that is not stored.
 */
module Mistakes {
  import opened Base
  import opened Records
  import opened Runs
  import opened Histories
  import opened Overdue

  /** Another writer's object: the bundle's size and checksum, and other bytes. */
  function Other(window: Time): Stored {
    Stored(1, 0, "other", 0, window, Foreign, Opaque)
  }

  /** The bundle taken for it. */
  const MISTAKE := Taken(KeyOf(Bundle), 1, 0, NameOf(Bundle))

  /** As the run sees it there is no difference. */
  function Wrong(window: Time, w: World): World {
    w.(store := w.store[KeyOf(Bundle) := Other(window)], taken := {MISTAKE})
  }

  lemma BundleTaken(window: Time)
    requires 0 < window
    ensures Reaches(Holding(window), EMPTY, Wrong(window, UploadingAt(window, 1)))
  {
    var c, w := Holding(window), UploadingAt(window, 0);
    Staging(window);
    var s := ForeignPut(KeyOf(Bundle), Other(window));
    Then(c, EMPTY, w, s);
    var w1 := Apply(c, w, s);
    var s1 := Upload(0, SLUG, Settled);
    assert NextArtifact(w1, 0, SLUG) == Part(Bundle) && "other" != "bundle";
    Then(c, EMPTY, w1, s1);
    var w2 := Apply(c, w1, s1);
    assert w2.taken == {MISTAKE};
    assert ProgressAt(window, 1) == map[][Bundle := Art(window, Bundle)];
    assert w2.runs[0].phases == map[SLUG := Uploading(1, ProgressAt(window, 1))];
    assert w2.runs == UploadingAt(window, 1).runs;
    assert w2.store == map[KeyOf(Bundle) := Other(window)] == Wrong(window, UploadingAt(window, 1)).store;
  }

  lemma EitherOrder(m: map<Key, Stored>, k: Key, v: Stored, k': Key, v': Stored)
    requires k != k'
    ensures m[k := v][k' := v'] == m[k' := v'][k := v]
  {
  }

  /** The rest of the copy is put beside it. */
  lemma PutBeside(window: Time, next: nat)
    requires 1 <= next < 3 && Reaches(Holding(window), EMPTY, Wrong(window, UploadingAt(window, next)))
    ensures Reaches(Holding(window), EMPTY, Wrong(window, UploadingAt(window, next + 1)))
  {
    var c, s, w := Holding(window), Upload(0, SLUG, Written), Wrong(window, UploadingAt(window, next));
    var kind := KINDS[next];
    assert NextArtifact(w, 0, SLUG) == Part(kind);
    StoredKeys(window, next, kind);
    NamesDiffer(kind, Bundle);
    assert kind !in KINDS[..next];
    Then(c, EMPTY, w, s);
    PutLands(c, w, 0, SLUG);
    var w' := Apply(c, w, s);
    var p := Uploading(next + 1, ProgressAt(window, next + 1));
    EitherOrder(StoreAt(window, next), KeyOf(Bundle), Other(window), KeyOf(kind), Thing(window, kind));
    assert w'.runs[0].phases == map[SLUG := p];
    assert w'.runs == UploadingAt(window, next + 1).runs;
  }

  lemma CopyFinishesWrong(window: Time)
    requires 0 < window
    ensures Reaches(Holding(window), EMPTY,
                    Wrong(window, World(0, StoreAt(window, 3), {}, map[0 := FirstDone(window, None)], {})))
  {
    var c := Holding(window);
    BundleTaken(window);
    PutBeside(window, 1);
    PutBeside(window, 2);
    CopiedList();
    var w, s := Wrong(window, UploadingAt(window, 3)), Finish(0, SLUG, LIST);
    Then(c, EMPTY, w, s);
    var w' := Apply(c, w, s);
    ProgressIsAll(window);
    assert w'.runs[0].phases == map[SLUG := Done];
    assert w'.runs[0].entries == map[SLUG := CopyEntry(window)];
    assert w'.runs == map[0 := FirstDone(window, None)];
  }

  /** Where it ends: the run has signed for the copy. */
  function SignedWrong(window: Time): World {
    Wrong(window, Signed0(window, StoreAt(window, 3)))
  }

  /** The signed copy lists its bundle with a hash that what is stored does not have. */
  lemma MistakenCopyIsSigned(window: Time) returns (steps: seq<Step>)
    requires 0 < window
    ensures Accepted(Holding(window)) && Fresh(EMPTY) && Leads(Holding(window), EMPTY, steps, SignedWrong(window))
    ensures FirstManifest(window) in SignedWrong(window).signed && CopyEntry(window) in FirstManifest(window).repos
    ensures CopyEntry(window).status == Success && Art(window, Bundle) in CopyEntry(window).artifacts
    ensures var a := Art(window, Bundle);
            a.key in SignedWrong(window).store && SignedWrong(window).store[a.key].sha != a.sha
    ensures Mistook(Holding(window), EMPTY, steps, KeyOf(Bundle), NameOf(Bundle))
  {
    var c, m, w := Holding(window), FirstManifest(window), SignedWrong(window);
    HoldingIsAccepted(window);
    CopyFinishesWrong(window);
    var before := Wrong(window, World(0, StoreAt(window, 3), {}, map[0 := FirstDone(window, None)], {}));
    var s := Sign(0, [SLUG]);
    Then(c, EMPTY, before, s);
    var w' := Apply(c, before, s);
    assert w'.runs[0].manifest.value == m;
    assert w'.runs == map[0 := FirstDone(window, Some(m))] && w'.signed == {m};
    steps :| Leads(c, EMPTY, steps, w);
    var a := Art(window, Bundle);
    assert a in CopyEntry(window).artifacts && "other" != "bundle";
    ListedIsStored(c, EMPTY, steps, w, m, CopyEntry(window), a);
  }
}
