/** The check a run makes of its own date: copy, skip or refuse, by what is found there. */
module Resume {
  import opened Base
  import opened Records
  import opened Recorded
  import Namespaces

  /** A listing by prefix also shows deeper keys; those are no part of the date. */
  function Under(objs: seq<Object>, dir: string): seq<Object>
    decreases |objs|
  {
    if objs == [] then []
    else if objs[0].key.dir == dir then [objs[0]] + Under(objs[1..], dir)
    else Under(objs[1..], dir)
  }

  /** Stored on that very day, by the store's own clock. */
  predicate WrittenOn(o: Object, day: int) {
    o.modified.Some? && DayOf(o.modified.value) == day
  }

  /** The entry's artifacts are exactly the objects under the date. */
  predicate SameKeys(e: RepoEntry, under: seq<Object>) {
    && (forall a <- e.artifacts :: exists o <- under :: o.key == a.key)
    && (forall o <- under :: NamesArtifact(e, o.key))
  }

  function SkippedAgain(slug: string, copy: Copy): RepoEntry {
    RepoEntry(slug, Skipped, AlreadyBackedUp, [], copy.entry.refs, CopiedAtOf(copy.entry, copy.finishedAt))
  }

  predicate Believable(copy: Copy, now: Time) {
    var at := CopiedAtOf(copy.entry, copy.finishedAt);
    at.Some? ==> Plausible(at.value, copy.finishedAt, now)
  }

  /** None where the date shows nothing, or cannot be listed, and the copy goes ahead. */
  function Verdict(listing: Option<seq<Object>>, dir: string, day: int, slug: string, answer: Answer,
          now: Time): Option<RepoEntry> {
    if listing.None? || Under(listing.value, dir) == [] then None
    else
      var under := Under(listing.value, dir);
      if (exists o <- under :: !WrittenOn(o, day)) || !answer.Found? then Some(FailedEntry(slug))
      else if !SameKeys(answer.copy.entry, under) || !Believable(answer.copy, now) then Some(FailedEntry(slug))
      else Some(SkippedAgain(slug, answer.copy))
  }

  lemma {:induction false} UnderMembers(objs: seq<Object>, dir: string)
    ensures forall o :: o in Under(objs, dir) <==> o in objs && o.key.dir == dir
    decreases |objs|
  {
    if objs != [] {
      UnderMembers(objs[1..], dir);
      assert objs == [objs[0]] + objs[1..];
    }
  }

  /** resumed: one listing of the date, then the search for a manifest of the copy. */
  method Resumed(search: CopySearch, listing: Option<seq<Object>>, dir: string, day: int, host: string,
          owner: string, name: string,
                 bundleKey: Key, metaKey: Key, now: Time)
    returns (r: Option<RepoEntry>)
    requires search.Valid() && Namespaces.Namespace(owner)
    modifies search
    ensures search.Valid()
    ensures var slug := owner + "/" + name;
            var dirs := Namespaces.SearchDirs(host, Namespaces.Split(owner));
            var answer := Search(search.dst, search.keep, Probes(dirs, day),
              Question(slug, [bundleKey, metaKey], Some(now)), EMPTY_REPORT);
            r == Verdict(listing, dir, day, slug, answer, now)
  {
    var slug := owner + "/" + name;
    if listing.None? {
      return None;
    }
    var objs := listing.value;
    var stored: set<Key> := {};
    var under: seq<Object> := [];
    var foreign := false;
    for i := 0 to |objs|
      invariant Under(objs, dir) == under + Under(objs[i..], dir)
      invariant forall k :: k in stored <==> exists o <- under :: o.key == k
      invariant foreign <==> exists o <- under :: !WrittenOn(o, day)
    {
      var o := objs[i];
      assert objs[i..][0] == o && objs[i..][1..] == objs[i + 1..];
      if o.key.dir != dir {
        continue;
      }
      assert under + Under(objs[i..], dir) == under + [o] + Under(objs[i + 1..], dir);
      stored := stored + {o.key};
      under := under + [o];
      assert o in under;
      if !WrittenOn(o, day) {
        foreign := true;
      }
    }
    assert objs[|objs|..] == [] && under + [] == under;
    if |under| == 0 {
      return None;
    }
    if foreign {
      return Some(FailedEntry(slug));
    }
    var dirs := Namespaces.ManifestSearchDirs(host, owner);
    var answer := search.Find(dirs, day, Question(slug, [bundleKey, metaKey], Some(now)));
    if !answer.Found? {
      return Some(FailedEntry(slug));
    }
    var found := answer.copy;
    r := Complete(found, stored, under, slug, now);
  }

  /** The copy against what is stored: nothing missing, nothing over, and a date that can be believed. */
  method Complete(found: Copy, stored: set<Key>, under: seq<Object>, slug: string, now: Time)
    returns (r: Option<RepoEntry>)
    requires forall k :: k in stored <==> exists o <- under :: o.key == k
    ensures r == if SameKeys(found.entry, under) && Believable(found, now)
                 then Some(SkippedAgain(slug, found)) else Some(FailedEntry(slug))
  {
    var artifacts := found.entry.artifacts;
    var listed: set<Key> := {};
    for i := 0 to |artifacts|
      invariant forall k :: k in listed <==> exists j :: 0 <= j < i && artifacts[j].key == k
      invariant forall j | 0 <= j < i :: artifacts[j].key in stored
    {
      listed := listed + {artifacts[i].key};
      if artifacts[i].key !in stored {
        assert artifacts[i] in found.entry.artifacts;
        return Some(FailedEntry(slug));
      }
    }
    assert forall k :: k in listed <==> NamesArtifact(found.entry, k);
    for i := 0 to |under|
      invariant forall j | 0 <= j < i :: under[j].key in listed
    {
      if under[i].key !in listed {
        assert under[i] in under;
        return Some(FailedEntry(slug));
      }
    }
    var copiedAt := CopiedAtOf(found.entry, found.finishedAt);
    if copiedAt.Some? && !Plausible(copiedAt.value, found.finishedAt, now) {
      return Some(FailedEntry(slug));
    }
    return Some(SkippedAgain(slug, found));
  }

  /** The rule over what the listing shows. */
  lemma SkipsExactly(listing: Option<seq<Object>>, dir: string, day: int, slug: string,
          answer: Answer, now: Time)
    ensures var v := Verdict(listing, dir, day, slug, answer, now);
            && (v.None? <==> listing.None? || forall o <- listing.value :: o.key.dir != dir)
            && (v.Some? && v.value.reason == AlreadyBackedUp <==>
                  && listing.Some? && answer.Found? && Believable(answer.copy, now)
                  && (exists o <- listing.value :: o.key.dir == dir)
                  && (forall o <- listing.value | o.key.dir == dir ::
                      WrittenOn(o, day) && NamesArtifact(answer.copy.entry, o.key))
                  && (forall a <- answer.copy.entry.artifacts :: exists o <- listing.value ::
                      o.key.dir == dir && o.key == a.key))
            && (v.Some? && v.value.reason != AlreadyBackedUp ==> v.value == FailedEntry(slug))
  {
    if listing.Some? {
      UnderMembers(listing.value, dir);
      if Under(listing.value, dir) != [] {
        assert Under(listing.value, dir)[0] in Under(listing.value, dir);
      }
    }
  }

  /** What a skip is. */
  lemma SkipIs(listing: Option<seq<Object>>, dir: string, day: int, slug: string, answer: Answer, now: Time)
    requires Verdict(listing, dir, day, slug, answer, now).Some?
    requires Verdict(listing, dir, day, slug, answer, now).value.reason == AlreadyBackedUp
    ensures listing.Some? && answer.Found?
    ensures Verdict(listing, dir, day, slug, answer, now).value == SkippedAgain(slug, answer.copy)
    ensures exists o <- listing.value :: WrittenOn(o, day) && NamesArtifact(answer.copy.entry, o.key)
  {
    SkipsExactly(listing, dir, day, slug, answer, now);
  }

  /** The store gives it a time on that day, and the entry lists its key. */
  ghost predicate StoredThatDay(e: RepoEntry, o: Object, day: int) {
    o.modified.Some? && DayOf(o.modified.value) == day && exists a <- e.artifacts :: a.key == o.key
  }

  /** The date of the copy: its entry's own, or its manifest's finish where it has refs and no date. */
  ghost predicate DatedAt(copy: Copy, at: Option<Time>) {
    && (copy.entry.copiedAt.Some? ==> at == copy.entry.copiedAt)
    && (copy.entry.copiedAt.None? && copy.entry.refs != [] ==> at == Some(copy.finishedAt))
    && (copy.entry.copiedAt.None? && copy.entry.refs == [] ==> at == None)
  }

  /** Its date, if it has one, is neither after the manifest's finish nor still to come. */
  ghost predicate DateHolds(copy: Copy, now: Time) {
    forall at: Time | DatedAt(copy, Some(at)) :: at <= copy.finishedAt && at <= now
  }

  lemma DateHoldsIs(copy: Copy, now: Time)
    ensures DateHolds(copy, now) <==> Believable(copy, now)
    ensures DatedAt(copy, CopiedAtOf(copy.entry, copy.finishedAt))
  {
    var at := CopiedAtOf(copy.entry, copy.finishedAt);
    if at.Some? {
      assert DatedAt(copy, Some(at.value));
    }
  }

  /**
   The date is skipped with AlreadyBackedUp exactly when some manifest vouches for the copy, every object
   under it was written that day, and the keys under it are the artifacts that manifest lists.
   Other objects there are a failure, and none at all means a copy.
   */
  lemma SkippedOnlyWhenRecorded(listing: Option<seq<Object>>, dir: string, day: int, slug: string,
          answer: Answer, now: Time)
    ensures var v := Verdict(listing, dir, day, slug, answer, now);
            && (v.None? <==> listing.None? || forall o <- listing.value :: o.key.dir != dir)
            && (v.Some? && v.value.reason == AlreadyBackedUp <==>
                  && listing.Some? && answer.Found? && DateHolds(answer.copy, now)
                  && (exists o <- listing.value :: o.key.dir == dir)
                  && (forall o <- listing.value | o.key.dir == dir :: StoredThatDay(answer.copy.entry, o, day))
                  && (forall a <- answer.copy.entry.artifacts :: exists o <- listing.value ::
                      o.key.dir == dir && o.key == a.key))
            && (v.Some? && v.value.reason != AlreadyBackedUp ==>
                  v.value == RepoEntry(slug, Failed, NoReason, [], [], None))
  {
    SkipsExactly(listing, dir, day, slug, answer, now);
    if answer.Found? {
      DateHoldsIs(answer.copy, now);
    }
  }

  /** A skip lists nothing, and carries the recorded copy's refs and date. */
  lemma SkipSays(listing: Option<seq<Object>>, dir: string, day: int, slug: string, answer: Answer, now: Time)
    requires Verdict(listing, dir, day, slug, answer, now).Some?
    requires Verdict(listing, dir, day, slug, answer, now).value.reason == AlreadyBackedUp
    ensures listing.Some? && answer.Found?
    ensures var e := Verdict(listing, dir, day, slug, answer, now).value;
            && e.slug == slug && e.status == Skipped && e.artifacts == [] && e.refs == answer.copy.entry.refs
            && DatedAt(answer.copy, e.copiedAt)
    ensures exists o <- listing.value :: StoredThatDay(answer.copy.entry, o, day)
  {
    SkipIs(listing, dir, day, slug, answer, now);
    DateHoldsIs(answer.copy, now);
  }

  /**
   When every listed manifest that records the copy has this entry for it, and the date holds exactly what
   the entry lists, a rerun skips the repository, with that copy's refs and copiedAt.
   */
  lemma RerunSkips(d: Dest, keep: string -> bool, probes: seq<(string, int)>, q: Question, found: Copy,
                   listing: seq<Object>, dir: string, day: int, now: Time)
    requires keep(q.slug) && (forall p <- probes :: d.list(p.0, p.1).Some?) && HasAnswer(d, probes, q)
    requires forall p | d.Lists(p) && Answers(p, q) :: CopyIn(p, q).(manifestKey := found.manifestKey) == found
    requires (exists o <- listing :: o.key.dir == dir)
    requires forall o <- listing | o.key.dir == dir :: WrittenOn(o, day) && NamesArtifact(found.entry, o.key)
    requires forall a <- found.entry.artifacts :: exists o <- listing :: o.key.dir == dir && o.key == a.key
    requires Believable(found, now)
    ensures Verdict(Some(listing), dir, day, q.slug, Search(d, keep, probes, q, EMPTY_REPORT), now)
            == Some(SkippedAgain(q.slug, found))
  {
    var answer := Search(d, keep, probes, q, EMPTY_REPORT);
    SearchMeans(d, keep, probes, q, EMPTY_REPORT);
    var p := FoundIsRecorded(d, keep, probes, q, EMPTY_REPORT);
    assert answer.copy.entry == found.entry && answer.copy.finishedAt == found.finishedAt;
    SkipsExactly(Some(listing), dir, day, q.slug, answer, now);
  }
}
