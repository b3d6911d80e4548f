/** Reading the recent runs: which earlier copy each repository may rely on. */
module Previous {
  import opened Base
  import opened Order
  import opened Records
  import opened Filing
  import opened Unchanged

  const MAX_PREVIOUS_MANIFESTS := 10

  datatype PreviousCopy = PreviousCopy(refs: RefMap, copiedAt: Time)

  /** The copy an entry lets a skip rely on: none for a failure or an entry without refs. */
  function CopyFrom(finishedAt: Time, e: RepoEntry, now: Time): Option<PreviousCopy> {
    if e.status == Failed || e.refs == [] then None
    else
      var copiedAt := if e.copiedAt.Some? then e.copiedAt.value else finishedAt;
      if !Plausible(copiedAt, finishedAt, now) then None
      else Some(PreviousCopy(MapOf(e.refs), copiedAt))
  }

  // ---------------------------------------------------------------- the plain rule

  /** An entry that decides its repository: any but a failed one that lists no artifacts. */
  predicate Decides(e: RepoEntry) {
    !(e.status == Failed && e.artifacts == [])
  }

  function FirstDeciding(repos: seq<RepoEntry>, slug: string): Option<RepoEntry>
    decreases |repos|
  {
    if repos == [] then None
    else if repos[0].slug == slug && Decides(repos[0]) then Some(repos[0])
    else FirstDeciding(repos[1..], slug)
  }

  datatype Decision = Decision(finishedAt: Time, entry: RepoEntry)

  /** The first deciding entry of the newest usable manifest that has one. */
  function DecidedBy(manifests: seq<Object>, slug: string): Option<Decision>
    decreases |manifests|
  {
    if manifests == [] then None
    else
      var m := Load(manifests[0]);
      if m.Some? && FirstDeciding(m.value.repos, slug).Some?
      then Some(Decision(m.value.finishedAt, FirstDeciding(m.value.repos, slug).value))
      else DecidedBy(manifests[1..], slug)
  }

  /** Named not later than now, and younger than the bound. */
  predicate Recent(o: Object, now: Time, bound: Time)
  {
    var finished := Named(o) * SECOND;
    finished <= now && now - finished < bound
  }

  function RecentOnes(filed: seq<Object>, now: Time, bound: Time): seq<Object>
    decreases |filed|
  {
    if filed == [] then []
    else if Recent(filed[0], now, bound) then [filed[0]] + RecentOnes(filed[1..], now, bound)
    else RecentOnes(filed[1..], now, bound)
  }

  function Take<T>(s: seq<T>, n: nat): seq<T> {
    s[..Min(n, |s|)]
  }

  /** The manifests the next run looks at. */
  function Window(filed: seq<Object>, now: Time, bound: Time): seq<Object>
  {
    Take(RecentOnes(filed, now, bound), MAX_PREVIOUS_MANIFESTS)
  }

  function CopyOf(manifests: seq<Object>, slug: string, now: Time): Option<PreviousCopy> {
    var d := DecidedBy(manifests, slug);
    if d.None? then None else CopyFrom(d.value.finishedAt, d.value.entry, now)
  }

  function Selected(selected: Option<set<string>>, slug: string): bool {
    selected.None? || slug in selected.value
  }

  // ---------------------------------------------------------------- facts about the rule

  lemma {:induction false} DecidedByConcat(a: seq<Object>, b: seq<Object>, slug: string)
    ensures DecidedBy(a + b, slug) == if DecidedBy(a, slug).Some? then DecidedBy(a, slug) else DecidedBy(b, slug)
    decreases |a|
  {
    if a == [] {
      assert a + b == b;
    } else {
      assert (a + b)[1..] == a[1..] + b;
      DecidedByConcat(a[1..], b, slug);
    }
  }

  lemma {:induction false} FirstDecidingConcat(a: seq<RepoEntry>, b: seq<RepoEntry>, slug: string)
    ensures FirstDeciding(a + b, slug) ==
            if FirstDeciding(a, slug).Some? then FirstDeciding(a, slug) else FirstDeciding(b, slug)
    decreases |a|
  {
    if a == [] {
      assert a + b == b;
    } else {
      assert (a + b)[1..] == a[1..] + b;
      FirstDecidingConcat(a[1..], b, slug);
    }
  }

  lemma AppendFirst(repos: seq<RepoEntry>, e: RepoEntry)
    ensures forall slug :: FirstDeciding(repos + [e], slug) ==
              if FirstDeciding(repos, slug).Some? then FirstDeciding(repos, slug)
              else if slug == e.slug && Decides(e) then Some(e) else None
  {
    forall slug
      ensures FirstDeciding(repos + [e], slug) ==
              if FirstDeciding(repos, slug).Some? then FirstDeciding(repos, slug)
              else if slug == e.slug && Decides(e) then Some(e) else None
    {
      FirstDecidingConcat(repos, [e], slug);
    }
  }

  lemma {:induction false} NoneRecent(filed: seq<Object>, dir: string, now: Time, bound: Time)
    requires NewestFirst(filed, dir)
    requires filed == [] || now - Named(filed[0]) * SECOND >= bound
    ensures RecentOnes(filed, now, bound) == []
    decreases |filed|
  {
    if |filed| > 1 {
      NoneRecent(filed[1..], dir, now, bound);
    }
  }

  /** A copy the run relies on comes from an entry of a usable manifest it read. */
  lemma {:induction false} CopyHasSource(manifests: seq<Object>, slug: string, now: Time)
    returns (o: Object, e: RepoEntry)
    requires CopyOf(manifests, slug, now).Some?
    ensures o in manifests && Load(o).Some? && e in Load(o).value.repos
    ensures e.slug == slug && e.status != Failed && e.refs != []
    ensures CopyOf(manifests, slug, now) == CopyFrom(Load(o).value.finishedAt, e, now)
    decreases |manifests|
  {
    var m := Load(manifests[0]);
    if m.Some? && FirstDeciding(m.value.repos, slug).Some? {
      o, e := manifests[0], FirstDeciding(m.value.repos, slug).value;
      FirstDecidingSlug(m.value.repos, slug);
    } else {
      o, e := CopyHasSource(manifests[1..], slug, now);
    }
  }

  lemma {:induction false} RecentMembers(filed: seq<Object>, now: Time, bound: Time)
    ensures forall o :: o in RecentOnes(filed, now, bound) <==>
              o in filed && Named(o) * SECOND <= now && now - Named(o) * SECOND < bound
    decreases |filed|
  {
    if filed != [] {
      RecentMembers(filed[1..], now, bound);
      assert filed == [filed[0]] + filed[1..];
    }
  }

  lemma {:induction false} RecentInOrder(filed: seq<Object>, dir: string, now: Time, bound: Time)
    requires NewestFirst(filed, dir)
    ensures NewestFirst(RecentOnes(filed, now, bound), dir)
    decreases |filed|
  {
    if filed != [] {
      var rest := RecentOnes(filed[1..], now, bound);
      RecentInOrder(filed[1..], dir, now, bound);
      RecentMembers(filed[1..], now, bound);
      forall j | 0 <= j < |rest| ensures Named(rest[j]) < Named(filed[0]) {
        assert rest[j] in filed[1..];
        var k :| 0 <= k < |filed[1..]| && filed[1..][k] == rest[j];
        assert filed[k + 1] == rest[j];
      }
      assert IsFiled(filed[0], dir) by {
        assert filed[0] in filed;
      }
      InFront(filed[0], rest, dir);
    }
  }

  lemma InFront(o: Object, objs: seq<Object>, dir: string)
    requires IsFiled(o, dir) && NewestFirst(objs, dir) && forall j | 0 <= j < |objs| :: Named(objs[j]) < Named(o)
    ensures NewestFirst([o] + objs, dir)
  {
  }

  /**
   The window read: at most ten, each filed, not in the future and younger than the bound, the newest
   first; and all such when fewer.
   */
  lemma WindowIsListed(filed: seq<Object>, dir: string, now: Time, bound: Time)
    requires NewestFirst(filed, dir)
    ensures forall o :: o in RecentOnes(filed, now, bound) <==>
              o in filed && Named(o) * SECOND <= now && now - Named(o) * SECOND < bound
    ensures NewestFirst(RecentOnes(filed, now, bound), dir)
    ensures |Window(filed, now, bound)| <= 10
    ensures Window(filed, now, bound) <= RecentOnes(filed, now, bound)
    ensures |Window(filed, now, bound)| < 10 ==> Window(filed, now, bound) == RecentOnes(filed, now, bound)
  {
    RecentMembers(filed, now, bound);
    RecentInOrder(filed, dir, now, bound);
  }

  // ---------------------------------------------------------------- the rule without its parts

  /** No usable manifest of these has anything to say of the repository. */
  ghost predicate NothingSaid(manifests: seq<Object>, slug: string) {
    forall o <- manifests | Load(o).Some? :: Silent(Load(o).value.repos, slug)
  }

  ghost predicate Silent(repos: seq<RepoEntry>, slug: string) {
    forall e <- repos :: e.slug == slug ==> e.status == Failed && e.artifacts == []
  }

  /** e is the first to say something: no entry before it in its manifest does, and no newer manifest. */
  ghost predicate SaysFirst(manifests: seq<Object>, slug: string, k: int, j: int) {
    && 0 <= k < |manifests| && Load(manifests[k]).Some? && NothingSaid(manifests[..k], slug)
    && var repos := Load(manifests[k]).value.repos;
       0 <= j < |repos| && repos[j].slug == slug && (repos[j].status != Failed || repos[j].artifacts != [])
       && Silent(repos[..j], slug)
  }

  /** What an entry gives the repository: nothing, or its refs and the date of its copy. */
  ghost predicate Gives(e: RepoEntry, finishedAt: Time, now: Time, c: Option<PreviousCopy>) {
    var at := if e.copiedAt.Some? then e.copiedAt.value else finishedAt;
    if e.status == Failed || e.refs == [] || at > finishedAt || at > now then c.None?
    else c.Some? && c.value.copiedAt == at && ReadBack(e.refs, c.value.refs)
  }

  lemma {:induction false} FirstDecidingAt(repos: seq<RepoEntry>, slug: string, j: int)
    requires 0 <= j <= |repos| && Silent(repos[..j], slug)
    requires j < |repos| ==> repos[j].slug == slug && (repos[j].status != Failed || repos[j].artifacts != [])
    ensures FirstDeciding(repos, slug) == if j < |repos| then Some(repos[j]) else None
    decreases |repos|
  {
    if j > 0 {
      assert repos[..j][0] == repos[0] && repos[..j][1..] == repos[1..][..j - 1];
      FirstDecidingAt(repos[1..], slug, j - 1);
    }
  }

  lemma {:induction false} NothingDecides(manifests: seq<Object>, slug: string)
    requires NothingSaid(manifests, slug)
    ensures DecidedBy(manifests, slug).None?
    decreases |manifests|
  {
    if manifests != [] {
      NothingDecides(manifests[1..], slug);
      if Load(manifests[0]).Some? {
        var repos := Load(manifests[0]).value.repos;
        assert repos[..|repos|] == repos;
        FirstDecidingAt(repos, slug, |repos|);
      }
    }
  }

  lemma EntryGives(e: RepoEntry, finishedAt: Time, now: Time)
    ensures Gives(e, finishedAt, now, CopyFrom(finishedAt, e, now))
  {
    MapReadsBack(e.refs);
  }

  lemma FirstSaidGives(manifests: seq<Object>, slug: string, now: Time, k: int, j: int)
    requires SaysFirst(manifests, slug, k, j)
    ensures Gives(Load(manifests[k]).value.repos[j], Load(manifests[k]).value.finishedAt, now,
                  CopyOf(manifests, slug, now))
  {
    var m := Load(manifests[k]).value;
    NothingDecides(manifests[..k], slug);
    assert manifests == manifests[..k] + manifests[k..] && manifests[k..][0] == manifests[k];
    DecidedByConcat(manifests[..k], manifests[k..], slug);
    FirstDecidingAt(m.repos, slug, j);
    EntryGives(m.repos[j], m.finishedAt, now);
  }

  function Lookup(out: map<string, PreviousCopy>, slug: string): Option<PreviousCopy> {
    if slug in out then Some(out[slug]) else None
  }

  /**
   What the run relies on, by status and artifacts alone: for a selected repository, what the first entry
   gives that is not a failure with nothing written, the newest manifest first; and nothing for any other.
   */
  ghost predicate Relies(manifests: seq<Object>, selected: Option<set<string>>, now: Time,
                         out: map<string, PreviousCopy>) {
    && (forall slug :: slug in out ==>
          (selected.None? || slug in selected.value) && !NothingSaid(manifests, slug))
    && (forall slug, k, j | (selected.None? || slug in selected.value) && SaysFirst(manifests, slug, k, j) ::
          Gives(Load(manifests[k]).value.repos[j], Load(manifests[k]).value.finishedAt, now, Lookup(out, slug)))
  }

  /** What the plain rule gives each selected repository, and nothing else. */
  ghost predicate HoldsCopies(manifests: seq<Object>, selected: Option<set<string>>, now: Time,
                              out: map<string, PreviousCopy>) {
    && (forall slug :: slug in out <==> Selected(selected, slug) && CopyOf(manifests, slug, now).Some?)
    && (forall slug <- out :: out[slug] == CopyOf(manifests, slug, now).value)
  }

  lemma CopiesAreRelied(manifests: seq<Object>, selected: Option<set<string>>, now: Time,
                        out: map<string, PreviousCopy>)
    requires HoldsCopies(manifests, selected, now, out)
    ensures Relies(manifests, selected, now, out)
  {
    forall slug | slug in out ensures !NothingSaid(manifests, slug) {
      if NothingSaid(manifests, slug) {
        NothingDecides(manifests, slug);
        assert false;
      }
    }
    forall slug, k, j | Selected(selected, slug) && SaysFirst(manifests, slug, k, j)
      ensures Gives(Load(manifests[k]).value.repos[j], Load(manifests[k]).value.finishedAt, now, Lookup(out, slug))
    {
      FirstSaidGives(manifests, slug, now, k, j);
      assert Lookup(out, slug) == CopyOf(manifests, slug, now);
    }
  }

  /**
   The newest usable manifest that names the repository, with one entry e for it: a failure that lists an
   artifact leaves it without a copy, whatever older manifests have; a failure that lists none leaves the
   answer to the others; and any other gives its own copy.
   */
  lemma NewestEntryRules(manifests: seq<Object>, slug: string, now: Time, k: nat, e: RepoEntry)
    requires k < |manifests| && Load(manifests[k]).Some?
    requires forall o <- manifests[..k] | Load(o).Some? :: forall f <- Load(o).value.repos :: f.slug != slug
    requires e in Load(manifests[k]).value.repos && e.slug == slug
    requires forall f <- Load(manifests[k]).value.repos :: f.slug == slug ==> f == e
    ensures e.status == Failed && e.artifacts != [] ==> CopyOf(manifests, slug, now).None?
    ensures e.status == Failed && e.artifacts == [] ==>
              CopyOf(manifests, slug, now) == CopyOf(manifests[..k] + manifests[k + 1..], slug, now)
    ensures e.status != Failed ==> Gives(e, Load(manifests[k]).value.finishedAt, now, CopyOf(manifests, slug, now))
  {
    var m := Load(manifests[k]).value;
    if e.status == Failed && e.artifacts == [] {
      var one := [manifests[k]];
      assert NothingSaid(one, slug);
      NothingDecides(one, slug);
      assert manifests == manifests[..k] + (one + manifests[k + 1..]);
      DecidedByConcat(manifests[..k], one + manifests[k + 1..], slug);
      DecidedByConcat(one, manifests[k + 1..], slug);
      DecidedByConcat(manifests[..k], manifests[k + 1..], slug);
    } else {
      var j := FirstOf(m.repos, slug, e);
      FirstSaidGives(manifests, slug, now, k, j);
    }
  }

  lemma {:induction false} FirstOf(repos: seq<RepoEntry>, slug: string, e: RepoEntry) returns (j: int)
    requires e in repos && e.slug == slug && forall f <- repos :: f.slug == slug ==> f == e
    ensures 0 <= j < |repos| && repos[j] == e && forall i | 0 <= i < j :: repos[i].slug != slug
    decreases |repos|
  {
    if repos[0].slug == slug {
      assert repos[0] in repos;
      j := 0;
    } else {
      j := FirstOf(repos[1..], slug, e);
      j := j + 1;
    }
  }

  // ---------------------------------------------------------------- the loop

  ghost predicate Kept(entries: seq<RepoEntry>, repos: seq<RepoEntry>, decided: set<string>,
          selected: Option<set<string>>) {
    && (forall e <- entries :: Decides(e) && e.slug !in decided && Selected(selected, e.slug))
    && forall slug | slug !in decided && Selected(selected, slug) ::
         FirstDeciding(entries, slug) == FirstDeciding(repos, slug)
  }

  /** The entries of m kept while it is decoded: the selected repositories still undecided. */
  method KeptEntries(m: Manifest, decided: set<string>, selected: Option<set<string>>) returns (entries: seq<RepoEntry>)
    ensures Kept(entries, m.repos, decided, selected)
    ensures forall e :: e in entries <==>
              && e in m.repos && e.slug !in decided && (selected.None? || e.slug in selected.value)
              && (e.status != Failed || e.artifacts != [])
  {
    entries := [];
    for i := 0 to |m.repos|
      invariant Kept(entries, m.repos[..i], decided, selected)
      invariant forall e :: e in entries <==> e in m.repos[..i] && e.slug !in decided && Selected(selected, e.slug)
                                               && Decides(e)
    {
      var e := m.repos[i];
      assert m.repos[..i + 1] == m.repos[..i] + [e];
      AppendFirst(m.repos[..i], e);
      AppendFirst(entries, e);
      if e.slug in decided || !Selected(selected, e.slug) {
        continue;
      }
      if e.status == Failed && |e.artifacts| == 0 {
        continue;
      }
      entries := entries + [e];
    }
    assert m.repos[..|m.repos|] == m.repos;
  }

  /** What a pass over `seen` has established: who is decided, and what it gave. */
  ghost predicate Established(seen: seq<Object>, selected: Option<set<string>>, now: Time,
                              decided: set<string>, out: map<string, PreviousCopy>)
  {
    && (forall slug :: slug in decided <==> Selected(selected, slug) && DecidedBy(seen, slug).Some?)
    && (forall slug :: slug in out <==> slug in decided && CopyOf(seen, slug, now).Some?)
    && (forall slug <- out :: out[slug] == CopyOf(seen, slug, now).value)
  }

  /** The undecided repositories of entries settled by their first entry, the decided ones left alone. */
  ghost predicate Settled(finishedAt: Time, entries: seq<RepoEntry>, now: Time,
                          decided0: set<string>, out0: map<string, PreviousCopy>,
                          decided: set<string>, out: map<string, PreviousCopy>)
  {
    && (forall slug :: slug in decided <==> slug in decided0 || FirstDeciding(entries, slug).Some?)
    && out.Keys <= decided && (forall slug <- decided0 :: slug in out <==> slug in out0)
    && (forall slug <- out0 :: slug in out && out[slug] == out0[slug])
    && (forall slug | slug !in decided0 && FirstDeciding(entries, slug).Some? ::
          var c := CopyFrom(finishedAt, FirstDeciding(entries, slug).value, now);
          (slug in out <==> c.Some?) && (c.Some? ==> out[slug] == c.value))
  }

  /** The inner loop: the kept entries of one manifest settle their repositories, first come first. */
  method Settle(m: Manifest, entries: seq<RepoEntry>, now: Time, decided0: set<string>, out0: map<string, PreviousCopy>)
    returns (decided: set<string>, out: map<string, PreviousCopy>)
    requires forall e <- entries :: Decides(e) && e.slug !in decided0
    requires out0.Keys <= decided0
    ensures Settled(m.finishedAt, entries, now, decided0, out0, decided, out)
  {
    decided, out := decided0, out0;
    for i := 0 to |entries|
      invariant Settled(m.finishedAt, entries[..i], now, decided0, out0, decided, out)
    {
      var e := entries[i];
      assert e in entries;
      assert entries[..i + 1] == entries[..i] + [e];
      AppendFirst(entries[..i], e);
      if e.slug in decided {
        continue;
      }
      decided := decided + {e.slug};
      var c := CopyFrom(m.finishedAt, e, now);
      if c.Some? {
        out := out[e.slug := c.value];
      }
    }
    assert entries[..|entries|] == entries;
  }

  lemma DecidedByOne(seen: seq<Object>, o: Object, slug: string)
    ensures DecidedBy(seen + [o], slug) == if DecidedBy(seen, slug).Some? then DecidedBy(seen, slug)
            else if Load(o).Some? && FirstDeciding(Load(o).value.repos, slug).Some?
            then Some(Decision(Load(o).value.finishedAt, FirstDeciding(Load(o).value.repos, slug).value)) else None
  {
    DecidedByConcat(seen, [o], slug);
  }

  /** A manifest that cannot be used changes nothing. */
  lemma PassedOver(seen: seq<Object>, o: Object, selected: Option<set<string>>, now: Time,
                   decided: set<string>, out: map<string, PreviousCopy>)
    requires Established(seen, selected, now, decided, out) && Load(o).None?
    ensures Established(seen + [o], selected, now, decided, out)
  {
    forall slug ensures DecidedBy(seen + [o], slug) == DecidedBy(seen, slug) {
      DecidedByOne(seen, o, slug);
    }
  }

  /** One usable manifest, settled over what the newer ones established. */
  lemma SettledStep(seen: seq<Object>, o: Object, selected: Option<set<string>>, now: Time,
                    decided0: set<string>, out0: map<string, PreviousCopy>, entries: seq<RepoEntry>,
                    decided: set<string>, out: map<string, PreviousCopy>)
    requires Established(seen, selected, now, decided0, out0) && Load(o).Some?
    requires Kept(entries, Load(o).value.repos, decided0, selected)
    requires Settled(Load(o).value.finishedAt, entries, now, decided0, out0, decided, out)
    ensures Established(seen + [o], selected, now, decided, out)
  {
    forall slug
      ensures slug in decided <==> Selected(selected, slug) && DecidedBy(seen + [o], slug).Some?
      ensures slug in out <==> slug in decided && CopyOf(seen + [o], slug, now).Some?
      ensures slug in out ==> out[slug] == CopyOf(seen + [o], slug, now).value
    {
      DecidedByOne(seen, o, slug);
      FirstDecidingSlug(entries, slug);
    }
  }

  lemma {:induction false} FirstDecidingSlug(entries: seq<RepoEntry>, slug: string)
    ensures FirstDeciding(entries, slug).Some? ==>
              FirstDeciding(entries, slug).value in entries && FirstDeciding(entries, slug).value.slug == slug
    decreases |entries|
  {
    if entries != [] {
      FirstDecidingSlug(entries[1..], slug);
    }
  }

  /** One usable manifest: its entries of the repositories still undecided, kept and settled. */
  method ReadOne(o: Object, now: Time, selected: Option<set<string>>, decided0: set<string>,
          out0: map<string, PreviousCopy>, ghost seen: seq<Object>)
    returns (decided: set<string>, out: map<string, PreviousCopy>)
    requires Load(o).Some? && Established(seen, selected, now, decided0, out0)
    ensures Established(seen + [o], selected, now, decided, out)
  {
    var m := Load(o).value;
    var entries := KeptEntries(m, decided0, selected);
    decided, out := Settle(m, entries, now, decided0, out0);
    SettledStep(seen, o, selected, now, decided0, out0, entries, decided, out);
  }

  /** The window is what was read, and then what is still ahead in it. */
  ghost predicate Ahead(window: seq<Object>, seen: seq<Object>, filed: seq<Object>, i: nat, now: Time, bound: Time)
    requires i <= |filed|
  {
    && |seen| <= MAX_PREVIOUS_MANIFESTS
    && window == seen + Take(RecentOnes(filed[i..], now, bound), MAX_PREVIOUS_MANIFESTS - |seen|)
  }

  lemma AllAhead(filed: seq<Object>, now: Time, bound: Time)
    ensures Ahead(Window(filed, now, bound), [], filed, 0, now, bound)
  {
    assert filed[0..] == filed;
  }

  lemma NoneAhead(window: seq<Object>, seen: seq<Object>, filed: seq<Object>, now: Time, bound: Time)
    requires Ahead(window, seen, filed, |filed|, now, bound)
    ensures window == seen
  {
    assert filed[|filed|..] == [];
  }

  /** A manifest of the future is no part of it. */
  lemma AheadOfFuture(window: seq<Object>, seen: seq<Object>, filed: seq<Object>, i: nat, now: Time, bound: Time)
    requires i < |filed| && Ahead(window, seen, filed, i, now, bound) && Named(filed[i]) * SECOND > now
    ensures Ahead(window, seen, filed, i + 1, now, bound)
  {
    assert filed[i..][1..] == filed[i + 1..];
  }

  /** Where the names are too old, or ten were read, it ends. */
  lemma AheadEnds(window: seq<Object>, seen: seq<Object>, filed: seq<Object>, i: nat, dir: string, now: Time,
                  bound: Time)
    requires i < |filed| && Ahead(window, seen, filed, i, now, bound) && NewestFirst(filed, dir)
    requires now - Named(filed[i]) * SECOND >= bound || |seen| == MAX_PREVIOUS_MANIFESTS
    ensures window == seen
  {
    if |seen| < MAX_PREVIOUS_MANIFESTS {
      NoneRecent(filed[i..], dir, now, bound);
    }
  }

  /** Any other is the next one in it. */
  lemma AheadNext(window: seq<Object>, seen: seq<Object>, filed: seq<Object>, i: nat, now: Time, bound: Time)
    requires i < |filed| && Ahead(window, seen, filed, i, now, bound) && |seen| < MAX_PREVIOUS_MANIFESTS
    requires Named(filed[i]) * SECOND <= now && now - Named(filed[i]) * SECOND < bound
    ensures Ahead(window, seen + [filed[i]], filed, i + 1, now, bound)
    ensures window == seen + [filed[i]] + window[|seen| + 1..]
  {
    assert filed[i..][1..] == filed[i + 1..];
    NextInWindow(seen, filed[i], RecentOnes(filed[i + 1..], now, bound), |seen|);
  }

  lemma NextInWindow(seen: seq<Object>, o: Object, later: seq<Object>, read: nat)
    requires read < MAX_PREVIOUS_MANIFESTS
    ensures seen + Take([o] + later, MAX_PREVIOUS_MANIFESTS - read)
            == seen + [o] + Take(later, MAX_PREVIOUS_MANIFESTS - (read + 1))
  {
  }

  /** What was read decides each selected repository as the whole window does. */
  ghost predicate Agrees(window: seq<Object>, seen: seq<Object>, selected: Option<set<string>>) {
    forall slug | Selected(selected, slug) :: DecidedBy(window, slug) == DecidedBy(seen, slug)
  }

  /** When as many are decided as are selected, all of them are. */
  lemma AllDecided(window: seq<Object>, seen: seq<Object>, rest: seq<Object>, selected: set<string>, now: Time,
                   decided: set<string>, out: map<string, PreviousCopy>)
    requires Established(seen, Some(selected), now, decided, out) && |decided| == |selected| && window == seen + rest
    ensures Agrees(window, seen, Some(selected))
  {
    SubsetSize(decided, selected);
    forall slug <- selected ensures DecidedBy(window, slug) == DecidedBy(seen, slug) {
      DecidedByConcat(seen, rest, slug);
    }
  }

  lemma AgreedCopies(window: seq<Object>, seen: seq<Object>, selected: Option<set<string>>, now: Time,
                     decided: set<string>, out: map<string, PreviousCopy>)
    requires Established(seen, selected, now, decided, out) && Agrees(window, seen, selected)
    ensures HoldsCopies(window, selected, now, out)
  {
  }

  lemma NothingEstablished(selected: Option<set<string>>, now: Time)
    ensures Established([], selected, now, {}, map[])
  {
  }

  /** The loop over what is filed. */
  method ReadWindow(filed: seq<Object>, ghost dir: string, now: Time, bound: Time, selected: Option<set<string>>)
    returns (out: map<string, PreviousCopy>)
    requires NewestFirst(filed, dir)
    ensures HoldsCopies(Window(filed, now, bound), selected, now, out)
  {
    out := map[];
    var decided: set<string> := {};
    ghost var window := Window(filed, now, bound);
    ghost var seen: seq<Object> := [];
    ghost var agreed := false;
    AllAhead(filed, now, bound);
    NothingEstablished(selected, now);
    var read := 0;
    for i := 0 to |filed|
      invariant Established(seen, selected, now, decided, out)
      invariant !agreed && read == |seen| && Ahead(window, seen, filed, i, now, bound)
    {
      var o := filed[i];
      if Named(o) * SECOND > now {
        AheadOfFuture(window, seen, filed, i, now, bound);
        continue;
      }
      if now - Named(o) * SECOND >= bound || read == MAX_PREVIOUS_MANIFESTS {
        AheadEnds(window, seen, filed, i, dir, now, bound);
        agreed := true;
        break;
      }
      AheadNext(window, seen, filed, i, now, bound);
      read := read + 1;
      if Load(o).None? {
        PassedOver(seen, o, selected, now, decided, out);
        seen := seen + [o];
        continue;
      }
      decided, out := ReadOne(o, now, selected, decided, out, seen);
      seen := seen + [o];
      if selected.Some? && |decided| == |selected.value| {
        AllDecided(window, seen, window[|seen|..], selected.value, now, decided, out);
        agreed := true;
        break;
      }
    }
    if !agreed {
      NoneAhead(window, seen, filed, now, bound);
    }
    assert Agrees(window, seen, selected);
    AgreedCopies(window, seen, selected, now, decided, out);
  }

  /** The newest-first read. `listing` is None where listing failed. */
  method LoadPrevious(listing: Option<seq<Object>>, haveKey: bool, dir: string, now: Time, bound: Time,
          selected: Option<set<string>>)
    returns (out: map<string, PreviousCopy>)
    requires listing.Some? ==> DistinctKeys(listing.value)
    ensures !haveKey || listing.None? ==> out == map[]
    ensures haveKey && listing.Some? ==>
              var window := Window(FiledManifests(listing.value, dir), now, bound);
              HoldsCopies(window, selected, now, out) && Relies(window, selected, now, out)
  {
    if !haveKey {
      return map[];
    }
    if listing.None? {
      return map[];
    }
    var filed := FiledManifests(listing.value, dir);
    FiledNewestFirst(listing.value, dir);
    out := ReadWindow(filed, dir, now, bound, selected);
    CopiesAreRelied(Window(filed, now, bound), selected, now, out);
  }

  // ---------------------------------------------------------------- what the age cutoff costs

  function NotFuture(filed: seq<Object>, now: Time): seq<Object>
    decreases |filed|
  {
    if filed == [] then []
    else if Named(filed[0]) * SECOND <= now then [filed[0]] + NotFuture(filed[1..], now)
    else NotFuture(filed[1..], now)
  }

  /** The window without the age cutoff. */
  function Uncut(filed: seq<Object>, now: Time): seq<Object> {
    Take(NotFuture(filed, now), MAX_PREVIOUS_MANIFESTS)
  }

  ghost predicate AllOld(objs: seq<Object>, now: Time, bound: Time) {
    forall o <- objs :: Named(o) * SECOND <= now && now - Named(o) * SECOND >= bound
  }

  lemma {:induction false} CutoffIsSuffix(filed: seq<Object>, dir: string, now: Time, bound: Time)
    returns (aged: seq<Object>)
    requires NewestFirst(filed, dir)
    ensures NotFuture(filed, now) == RecentOnes(filed, now, bound) + aged && AllOld(aged, now, bound)
    decreases |filed|
  {
    if filed == [] {
      aged := [];
    } else if Named(filed[0]) * SECOND > now {
      aged := CutoffIsSuffix(filed[1..], dir, now, bound);
      assert NotFuture(filed, now) == NotFuture(filed[1..], now);
      assert RecentOnes(filed, now, bound) == RecentOnes(filed[1..], now, bound);
    } else if Recent(filed[0], now, bound) {
      aged := CutoffIsSuffix(filed[1..], dir, now, bound);
      Associates([filed[0]], RecentOnes(filed[1..], now, bound), aged);
      assert NotFuture(filed, now) == [filed[0]] + NotFuture(filed[1..], now);
      assert RecentOnes(filed, now, bound) == [filed[0]] + RecentOnes(filed[1..], now, bound);
    } else {
      aged := NotFuture(filed, now);
      NoneRecent(filed, dir, now, bound);
      OldFromHere(filed, dir, now, bound);
    }
  }

  lemma {:induction false} OldFromHere(filed: seq<Object>, dir: string, now: Time, bound: Time)
    requires NewestFirst(filed, dir)
    requires filed != [] ==> now - Named(filed[0]) * SECOND >= bound
    ensures AllOld(NotFuture(filed, now), now, bound)
    decreases |filed|
  {
    if filed != [] {
      OldFromHere(filed[1..], dir, now, bound);
    }
  }

  /** A usable manifest named at least a bound ago gives no copy younger than the bound, to within a second. */
  lemma OldNameOldCopy(o: Object, now: Time, bound: Time, e: RepoEntry)
    requires Load(o).Some? && now - Named(o) * SECOND >= bound
    requires CopyFrom(Load(o).value.finishedAt, e, now).Some?
    ensures now - CopyFrom(Load(o).value.finishedAt, e, now).value.copiedAt > bound - SECOND
  {
    var finished := Load(o).value.finishedAt;
    assert Named(o) == finished / SECOND;
  }

  lemma {:induction false} OldDecision(objs: seq<Object>, slug: string, now: Time, bound: Time)
    requires AllOld(objs, now, bound) && CopyOf(objs, slug, now).Some?
    ensures now - CopyOf(objs, slug, now).value.copiedAt > bound - SECOND
    decreases |objs|
  {
    var m := Load(objs[0]);
    if m.Some? && FirstDeciding(m.value.repos, slug).Some? {
      assert objs[0] in objs;
      OldNameOldCopy(objs[0], now, bound, FirstDeciding(m.value.repos, slug).value);
    } else {
      OldDecision(objs[1..], slug, now, bound);
    }
  }

  /**
   The cutoff takes no skip away but one whose copy is within a second of the bound: any younger copy
   the uncut read would rely on, the cut read relies on too.
   */
  lemma CutoffKeepsYoungCopies(filed: seq<Object>, dir: string, now: Time, bound: Time, slug: string)
    requires NewestFirst(filed, dir)
    requires CopyOf(Uncut(filed, now), slug, now).Some?
    requires now - CopyOf(Uncut(filed, now), slug, now).value.copiedAt <= bound - SECOND
    ensures CopyOf(Window(filed, now, bound), slug, now) == CopyOf(Uncut(filed, now), slug, now)
  {
    var aged := CutoffIsSuffix(filed, dir, now, bound);
    var recent := RecentOnes(filed, now, bound);
    var window := Window(filed, now, bound);
    var rest := Take(aged, MAX_PREVIOUS_MANIFESTS - |window|);
    assert Uncut(filed, now) == window + rest;
    DecidedByConcat(window, rest, slug);
    if DecidedBy(window, slug).None? {
      OldDecision(rest, slug, now, bound);
      assert false;
    }
  }

  /** The manifest whose entry decides the repository. */
  function DecidingManifest(manifests: seq<Object>, slug: string): Option<Object>
    decreases |manifests|
  {
    if manifests == [] then None
    else if Load(manifests[0]).Some? && FirstDeciding(Load(manifests[0]).value.repos, slug).Some? then
      Some(manifests[0])
    else DecidingManifest(manifests[1..], slug)
  }

  lemma {:induction false} DecidingConcat(a: seq<Object>, b: seq<Object>, slug: string)
    ensures DecidingManifest(a + b, slug) ==
            if DecidingManifest(a, slug).Some? then DecidingManifest(a, slug) else DecidingManifest(b, slug)
    ensures DecidingManifest(a, slug).Some? <==> DecidedBy(a, slug).Some?
    ensures DecidingManifest(a, slug).Some? ==> DecidingManifest(a, slug).value in a
    decreases |a|
  {
    if a == [] {
      assert a + b == b;
    } else {
      assert (a + b)[1..] == a[1..] + b;
      DecidingConcat(a[1..], b, slug);
    }
  }

  /**
   What the age cutoff changes, exactly: a repository loses the decision the uncut read gives it when the
   manifest that decides it is named at least a bound ago, and keeps it otherwise.
   */
  lemma CutoffChangesIff(filed: seq<Object>, dir: string, now: Time, bound: Time, slug: string)
    requires NewestFirst(filed, dir)
    ensures var decider := DecidingManifest(Uncut(filed, now), slug);
            var lost := decider.Some? && now - Named(decider.value) * SECOND >= bound;
            && (lost <==> DecidedBy(Window(filed, now, bound), slug) != DecidedBy(Uncut(filed, now), slug))
            && (lost ==> DecidedBy(Window(filed, now, bound), slug).None?)
            && (lost && CopyOf(Uncut(filed, now), slug, now).Some? <==>
                  CopyOf(Window(filed, now, bound), slug, now) != CopyOf(Uncut(filed, now), slug, now))
  {
    var aged := CutoffIsSuffix(filed, dir, now, bound);
    var window := Window(filed, now, bound);
    var rest := Take(aged, MAX_PREVIOUS_MANIFESTS - |window|);
    assert Uncut(filed, now) == window + rest;
    DecidedByConcat(window, rest, slug);
    DecidingConcat(window, rest, slug);
    DecidingConcat(rest, [], slug);
    assert rest + [] == rest;
    WindowIsListed(filed, dir, now, bound);
    assert forall o <- window :: Recent(o, now, bound);
    assert forall o <- rest :: o in aged;
  }

  lemma OneObject(o: Object, now: Time, bound: Time)
    requires Named(o) * SECOND <= now
    ensures NotFuture([o], now) == [o]
    ensures RecentOnes([o], now, bound) == if Recent(o, now, bound) then [o] else []
  {
    var none := [o][1..];
    assert none == [];
    assert RecentOnes(none, now, bound) == [] && NotFuture(none, now) == [];
  }

  /** With this one manifest filed, the uncut read gives a copy inside the bound, and the cut read none. */
  ghost predicate LosesASkip(o: Object, now: Time, retention: Time) {
    && NewestFirst([o], "h/a/manifests")
    && CopyOf(Window([o], now, RefreshBound(retention)), "a/b", now).None?
    && CopyOf(Uncut([o], now), "a/b", now).Some?
    && now - CopyOf(Uncut([o], now), "a/b", now).value.copiedAt < RefreshBound(retention)
  }

  /**
   And it can lose a skip: this copy is half a second short of the bound, its manifest's name a whole
   number of seconds, and the read that has it without the cutoff does not have it with it.
   */
  lemma CutoffCanTakeASkip()
    ensures exists o, now, retention :: LosesASkip(o, now, retention)
  {
    var e := RepoEntry("a/b", Success, NoReason, [], [Ref("refs/heads/main", "1")], Some(500_000_000));
    var m := Manifest(true, 500_000_000, [e]);
    var o := Object(Key("h/a/manifests", Stamped(0)), 1, None, Signed(m));
    var now, retention := 8 * HOUR, DAY;
    var bound := RefreshBound(retention);
    assert bound == 8 * HOUR && !Recent(o, now, bound);
    assert Load(o) == Some(m) && FirstDeciding(m.repos, "a/b") == Some(e);
    OneObject(o, now, bound);
    assert Uncut([o], now) == [o] && Window([o], now, bound) == [];
    assert CopyOf([o], "a/b", now) == Some(PreviousCopy(MapOf(e.refs), 500_000_000));
    assert LosesASkip(o, now, retention);
  }

  /**
   An entry without a copiedAt is dated by its manifest's finish, and so looks younger than the copy made
   before it. With the refs unmoved the next run's decision is another than the copy's own date would
   give exactly while the finish is within the bound and the copy is not: it skips where it should refresh.
   */
  lemma UndatedEntryLooksYounger(e: RepoEntry, madeAt: Time, finishedAt: Time, now: Time, retention: Time,
          current: RefMap)
    requires e.status != Failed && e.refs != [] && e.copiedAt.None? && madeAt <= finishedAt <= now
    requires MapOf(e.refs) == current && NoEmptyIds(current)
    ensures CopyFrom(finishedAt, e, now) == Some(PreviousCopy(MapOf(e.refs), finishedAt))
    ensures var taken := Decide(MapOf(e.refs), current, finishedAt, now, retention);
            var due := Decide(MapOf(e.refs), current, madeAt, now, retention);
            && (taken.Skip? != due.Skip? <==> now - finishedAt < RefreshBound(retention) <= now - madeAt)
            && (taken.Skip? != due.Skip? ==> taken.Skip? && due == Refresh)
  {
    SkipIff(MapOf(e.refs), current, finishedAt, now, retention);
    SkipIff(MapOf(e.refs), current, madeAt, now, retention);
    var k := |e.refs| - 1;
    assert e.refs[k].name in MapOf(e.refs);
  }

  /** A run whose window holds this one manifest skips on a copy made at madeAt, which is past the bound. */
  ghost predicate SkipsPastBound(o: Object, madeAt: Time, now: Time, retention: Time, current: RefMap) {
    var window := Window(FiledManifests([o], "h/a/manifests"), now, RefreshBound(retention));
    var copy := CopyOf(window, "a/b", now);
    && Load(o).Some? && madeAt < Load(o).value.finishedAt && now - madeAt >= RefreshBound(retention)
    && copy.Some? && Decide(copy.value.refs, current, copy.value.copiedAt, now, retention).Skip?
  }

  /** Such a run: it reads a manifest with an undated entry and skips. */
  lemma UndatedCopyOutlastsBound()
    ensures exists o, madeAt, now, retention, current :: SkipsPastBound(o, madeAt, now, retention, current)
  {
    var e := RepoEntry("a/b", Success, NoReason, [], [Ref("refs/heads/main", "1")], None);
    var m := Manifest(true, HOUR, [e]);
    var o := Object(Key("h/a/manifests", Stamped(3600)), 1, None, Signed(m));
    var now, retention := 8 * HOUR, DAY;
    var current := MapOf(e.refs);
    assert RefreshBound(retention) == 8 * HOUR;
    assert Load(o) == Some(m) && FirstDeciding(m.repos, "a/b") == Some(e);
    assert [o][1..] == [] && FiledManifests([o], "h/a/manifests") == [o];
    var bound := RefreshBound(retention);
    OneObject(o, now, bound);
    assert Take([o], MAX_PREVIOUS_MANIFESTS) == [o];
    assert Window(FiledManifests([o], "h/a/manifests"), now, bound) == [o];
    assert e.refs[..0] == [] && current == map["refs/heads/main" := "1"];
    SkipIff(current, current, HOUR, now, retention);
    assert "refs/heads/main" in current && Decide(current, current, HOUR, now, retention).Skip?;
    assert CopyOf([o], "a/b", now) == Some(PreviousCopy(current, HOUR));
    assert SkipsPastBound(o, 0, now, retention, current);
  }
}
