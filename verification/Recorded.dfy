/** The memoised search for the manifest of a copy: a rerun of its day and a restore by date both ask it. */
module Recorded {
  import opened Base
  import opened Records
  import opened Filing
  import Namespaces

  /** The destination as a search sees it: the listing under a directory's names of one day, or a failure. */
  datatype Dest = Dest(list: (string, int) -> Option<seq<Object>>) {
    ghost predicate Lists(o: Object) {
      exists dir, day :: list(dir, day).Some? && o in list(dir, day).value
    }

    /** One key is one object, whichever listing shows it. */
    ghost predicate Coherent() {
      && (forall dir, day | list(dir, day).Some? :: DistinctKeys(list(dir, day).value))
      && (forall o, p | Lists(o) && Lists(p) && o.key == p.key :: o == p)
    }
  }

  datatype Copy = Copy(manifestKey: Key, finishedAt: Time, entry: RepoEntry)

  /** What a search passed over. */
  datatype Report = Report(seen: nat, passed: nat, tooLarge: nat, named: Option<RepoEntry>, namedIn: Option<Key>)

  const EMPTY_REPORT := Report(0, 0, 0, None, None)

  datatype Answer = Found(copy: Copy, report: Report) | NotFound(report: Report) | ListFailed(report: Report)

  /** What a search keeps of one manifest. */
  datatype Searched = Refused(tooLarge: bool) | Usable(finishedAt: Time, entries: map<string, RepoEntry>)

  /** The first entry of each kept repository. */
  function FirstEntries(repos: seq<RepoEntry>, keep: string -> bool): map<string, RepoEntry>
    decreases |repos|
  {
    if repos == [] then map[]
    else
      var before := FirstEntries(repos[..|repos| - 1], keep);
      var e := repos[|repos| - 1];
      if keep(e.slug) && e.slug !in before then before[e.slug := e] else before
  }

  function LoadSearched(o: Object, keep: string -> bool): Searched {
    if o.size > MAX_MANIFEST_BYTES then Refused(true)
    else
      var m := Load(o);
      if m.None? then Refused(false) else Usable(m.value.finishedAt, FirstEntries(m.value.repos, keep))
  }

  // ---------------------------------------------------------------- a search without memory

  datatype Question = Question(slug: string, keys: seq<Key>, notAfter: Option<Time>)

  predicate RecordsOneOf(e: RepoEntry, q: Question) {
    exists k <- q.keys :: RecordsCopy(e, q.slug, k)
  }

  predicate NamesOneOf(e: RepoEntry, q: Question) {
    exists k <- q.keys :: NamesArtifact(e, k)
  }

  predicate LeftOut(o: Object, q: Question) {
    q.notAfter.Some? && Named(o) * SECOND > q.notAfter.value
  }

  /** One manifest asked one question. */
  function Ask(o: Object, s: Searched, q: Question, rep: Report): Answer {
    if LeftOut(o, q) then NotFound(rep)
    else
      var rep := rep.(seen := rep.seen + 1);
      match s
      case Refused(large) => NotFound(rep.(passed := rep.passed + 1, tooLarge := rep.tooLarge + if large then 1 else 0))
      case Usable(finishedAt, entries) =>
        if q.slug !in entries then NotFound(rep)
        else
          var e := entries[q.slug];
          if RecordsOneOf(e, q) then Found(Copy(o.key, finishedAt, e), rep)
          else if rep.named.None? && NamesOneOf(e, q) then NotFound(rep.(named := Some(e), namedIn := Some(o.key)))
          else NotFound(rep)
  }

  function SearchFiled(filed: seq<Object>, keep: string -> bool, q: Question, rep: Report): Answer
    decreases |filed|
  {
    if filed == [] then NotFound(rep)
    else
      var a := Ask(filed[0], LoadSearched(filed[0], keep), q, rep);
      if a.Found? then a else SearchFiled(filed[1..], keep, q, a.report)
  }

  /** Where to look, in order: each directory, the day and then the day after. */
  function Probes(dirs: seq<string>, day: int): seq<(string, int)>
    decreases |dirs|
  {
    if dirs == [] then [] else [(dirs[0], day), (dirs[0], day + 1)] + Probes(dirs[1..], day)
  }

  function Search(d: Dest, keep: string -> bool, probes: seq<(string, int)>, q: Question, rep: Report): Answer
    decreases |probes|
  {
    if probes == [] then NotFound(rep)
    else
      var objs := d.list(probes[0].0, probes[0].1);
      if objs.None? then ListFailed(rep)
      else
        var a := SearchFiled(FiledManifests(objs.value, probes[0].0), keep, q, rep);
        if a.Found? then a else Search(d, keep, probes[1..], q, a.report)
  }

  /** What one probe answers. */
  function ProbeAnswer(d: Dest, keep: string -> bool, p: (string, int), q: Question, rep: Report): Answer {
    var objs := d.list(p.0, p.1);
    if objs.None? then ListFailed(rep) else SearchFiled(FiledManifests(objs.value, p.0), keep, q, rep)
  }

  /** The search from the k-th probe on: that probe, and the rest where it finds nothing. */
  lemma SearchStep(d: Dest, keep: string -> bool, probes: seq<(string, int)>, k: nat, q: Question, rep: Report)
    requires k < |probes|
    ensures var a := ProbeAnswer(d, keep, probes[k], q, rep);
            Search(d, keep, probes[k..], q, rep) ==
            if a.NotFound? then Search(d, keep, probes[k + 1..], q, a.report) else a
  {
    assert probes[k..][0] == probes[k] && probes[k..][1..] == probes[k + 1..];
    SearchFiledAnswers(d, keep, probes[k], q, rep);
  }

  lemma SearchFiledAnswers(d: Dest, keep: string -> bool, p: (string, int), q: Question, rep: Report)
    ensures d.list(p.0, p.1).Some? ==> !ProbeAnswer(d, keep, p, q, rep).ListFailed?
  {
    if d.list(p.0, p.1).Some? {
      FiledSearchNeverFails(FiledManifests(d.list(p.0, p.1).value, p.0), keep, q, rep);
    }
  }

  lemma {:induction false} FiledSearchNeverFails(filed: seq<Object>, keep: string -> bool, q: Question, rep: Report)
    ensures !SearchFiled(filed, keep, q, rep).ListFailed?
    decreases |filed|
  {
    if filed != [] {
      forall r: Report { FiledSearchNeverFails(filed[1..], keep, q, r); }
    }
  }

  lemma {:induction false} SearchConcat(d: Dest, keep: string -> bool, x: seq<(string, int)>,
          y: seq<(string, int)>, q: Question, rep: Report)
    ensures var a := Search(d, keep, x, q, rep);
            Search(d, keep, x + y, q, rep) == if a.NotFound? then Search(d, keep, y, q, a.report) else a
    decreases |x|
  {
    if x == [] {
      assert x + y == y;
    } else {
      assert (x + y)[1..] == x[1..] + y;
      var objs := d.list(x[0].0, x[0].1);
      if objs.Some? {
        var a := SearchFiled(FiledManifests(objs.value, x[0].0), keep, q, rep);
        if !a.Found? {
          SearchConcat(d, keep, x[1..], y, q, a.report);
        }
      }
    }
  }

  // ---------------------------------------------------------------- the search with memory

  class CopySearch {
    const dst: Dest
    const keep: string -> bool
    var listings: map<(string, int), seq<Object>>
    var loaded: map<Key, Searched>
    ghost var listed: multiset<(string, int)> // the listings the destination has answered
    ghost var read: multiset<Key>             // the manifests taken from it

    /** Everything remembered is what asking again would give. */
    ghost predicate Valid()
      reads this
    {
      && dst.Coherent()
      && (forall p <- listings :: dst.list(p.0, p.1) == Some(listings[p]))
      && (forall o {:trigger dst.Lists(o)} | dst.Lists(o) && o.key in loaded :: loaded[o.key] == LoadSearched(o, keep))
      && (forall p :: listed[p] == if p in listings then 1 else 0)
      && (forall k :: read[k] == if k in loaded then 1 else 0)
    }

    /** No listing is asked for again once answered, and no manifest read twice. */
    lemma NothingTwice()
      requires Valid()
      ensures (forall p :: listed[p] <= 1) && (forall k :: read[k] <= 1)
    {
    }

    constructor (dst: Dest, keep: string -> bool)
      requires dst.Coherent()
      ensures Valid() && this.dst == dst && this.keep == keep
    {
      this.dst, this.keep := dst, keep;
      listings, loaded, listed, read := map[], map[], multiset{}, multiset{};
    }

    method List(dir: string, day: int) returns (objs: Option<seq<Object>>)
      requires Valid()
      modifies this
      ensures Valid() && objs == dst.list(dir, day) && read == old(read)
      ensures listed ==
              old(listed) + if (dir, day) in old(listings) || objs.None? then multiset{} else multiset{(dir, day)}
    {
      if (dir, day) in listings {
        return Some(listings[(dir, day)]);
      }
      objs := dst.list(dir, day);
      if objs.Some? {
        listings := listings[(dir, day) := objs.value];
        listed := listed + multiset{(dir, day)};
      }
    }

    method LoadOnce(o: Object) returns (s: Searched)
      requires Valid() && dst.Lists(o)
      modifies this
      ensures Valid() && s == LoadSearched(o, keep) && listed == old(listed)
      ensures read == old(read) + if o.key in old(loaded) then multiset{} else multiset{o.key}
    {
      if o.key in loaded {
        return loaded[o.key];
      }
      if o.size > MAX_MANIFEST_BYTES {
        s := Refused(true);
      } else {
        var m := Load(o);
        if m.None? {
          s := Refused(false);
        } else {
          var entries: map<string, RepoEntry> := map[];
          var repos := m.value.repos;
          for i := 0 to |repos|
            invariant entries == FirstEntries(repos[..i], keep)
          {
            assert repos[..i + 1][..i] == repos[..i];
            var e := repos[i];
            if keep(e.slug) && e.slug !in entries {
              entries := entries[e.slug := e];
            }
          }
          assert repos[..|repos|] == repos;
          s := Usable(m.value.finishedAt, entries);
        }
      }
      loaded := loaded[o.key := s];
      read := read + multiset{o.key};
    }

    /** The answer a fresh search of the same destination gives, whatever was asked before. */
    method Find(dirs: seq<string>, day: int, q: Question) returns (a: Answer)
      requires Valid()
      modifies this
      ensures Valid() && a == Search(dst, keep, Probes(dirs, day), q, EMPTY_REPORT)
    {
      var rep := EMPTY_REPORT;
      for i := 0 to |dirs|
        invariant Valid()
        invariant Search(dst, keep, Probes(dirs[i..], day), q, rep) ==
                  Search(dst, keep, Probes(dirs, day), q, EMPTY_REPORT)
      {
        assert dirs[i..][0] == dirs[i] && dirs[i..][1..] == dirs[i + 1..];
        SearchConcat(dst, keep, [(dirs[i], day), (dirs[i], day + 1)], Probes(dirs[i + 1..], day), q, rep);
        a := FindInDir(dirs[i], day, q, rep);
        if !a.NotFound? {
          return a;
        }
        rep := a.report;
      }
      return NotFound(rep);
    }

    method FindDay(dir: string, day: int, q: Question, rep: Report) returns (a: Answer)
      requires Valid()
      modifies this
      ensures Valid() && a == ProbeAnswer(dst, keep, (dir, day), q, rep)
    {
      var objs := List(dir, day);
      if objs.None? {
        return ListFailed(rep);
      }
      a := FindFiled(objs.value, dir, day, q, rep);
    }

    /** The loop over the day and the day after. */
    method FindInDir(dir: string, day: int, q: Question, rep0: Report) returns (a: Answer)
      requires Valid()
      modifies this
      ensures Valid() && a == Search(dst, keep, [(dir, day), (dir, day + 1)], q, rep0)
    {
      var rep := rep0;
      ghost var days := [(dir, day), (dir, day + 1)];
      assert days[0..] == days && days[2..] == [];
      for k := 0 to 2
        invariant Valid()
        invariant Search(dst, keep, days[k..], q, rep) == Search(dst, keep, days, q, rep0)
      {
        assert days[k] == (dir, day + k);
        SearchStep(dst, keep, days, k, q, rep);
        a := FindDay(dir, day + k, q, rep);
        if !a.NotFound? {
          return a;
        }
        rep := a.report;
      }
      return NotFound(rep);
    }

    method FindFiled(objs: seq<Object>, dir: string, day: int, q: Question, rep0: Report) returns (a: Answer)
      requires Valid() && dst.list(dir, day) == Some(objs)
      modifies this
      ensures Valid() && !a.ListFailed?
      ensures a == SearchFiled(FiledManifests(objs, dir), keep, q, rep0)
    {
      var filed := FiledManifests(objs, dir);
      var rep := rep0;
      for i := 0 to |filed|
        invariant Valid()
        invariant SearchFiled(filed[i..], keep, q, rep) == SearchFiled(filed, keep, q, rep0)
      {
        assert filed[i] in filed && filed[i] in objs && dst.Lists(filed[i]);
        assert filed[i..][1..] == filed[i + 1..];
        if LeftOut(filed[i], q) {
          continue;
        }
        var s := LoadOnce(filed[i]);
        a := Ask(filed[i], s, q, rep);
        if a.Found? {
          return a;
        }
        rep := a.report;
      }
      return NotFound(rep);
    }
  }

  // ---------------------------------------------------------------- what an answer means

  function FirstEntry(repos: seq<RepoEntry>, slug: string): Option<RepoEntry>
    decreases |repos|
  {
    if repos == [] then None else if repos[0].slug == slug then Some(repos[0]) else FirstEntry(repos[1..], slug)
  }

  lemma {:induction false} FirstEntrySnoc(repos: seq<RepoEntry>, e: RepoEntry, slug: string)
    ensures FirstEntry(repos + [e], slug) ==
            if FirstEntry(repos, slug).Some? then FirstEntry(repos, slug) else if e.slug == slug then Some(e) else None
    decreases |repos|
  {
    if repos == [] {
      assert repos + [e] == [e] && [e][1..] == [];
    } else {
      assert (repos + [e])[1..] == repos[1..] + [e];
      FirstEntrySnoc(repos[1..], e, slug);
    }
  }

  lemma {:induction false} FirstEntriesAre(repos: seq<RepoEntry>, keep: string -> bool, slug: string)
    ensures var m := FirstEntries(repos, keep);
            if keep(slug) && FirstEntry(repos, slug).Some? then slug in m && m[slug] == FirstEntry(repos, slug).value
            else slug !in m
    decreases |repos|
  {
    if repos != [] {
      var front, e := repos[..|repos| - 1], repos[|repos| - 1];
      assert repos == front + [e];
      FirstEntrySnoc(front, e, slug);
      FirstEntriesAre(front, keep, slug);
    }
  }

  lemma {:induction false} FirstEntryIsThere(repos: seq<RepoEntry>, slug: string)
    ensures FirstEntry(repos, slug).Some? ==>
              FirstEntry(repos, slug).value in repos && FirstEntry(repos, slug).value.slug == slug
    decreases |repos|
  {
    if repos != [] {
      FirstEntryIsThere(repos[1..], slug);
    }
  }

  /** o answers q: usable, not left out, and its first entry of the repository records the copy. */
  predicate Answers(o: Object, q: Question) {
    && !LeftOut(o, q) && Load(o).Some?
    && FirstEntry(Load(o).value.repos, q.slug).Some?
    && RecordsOneOf(FirstEntry(Load(o).value.repos, q.slug).value, q)
  }

  /** The first entry of the repository, a copy its run made, lists one of the keys. */
  ghost predicate HasCopyAt(repos: seq<RepoEntry>, q: Question, j: int) {
    && 0 <= j < |repos| && repos[j].slug == q.slug && (forall i | 0 <= i < j :: repos[i].slug != q.slug)
    && (repos[j].status == Success || (repos[j].status == Skipped && repos[j].reason == NoCommits))
    && exists a <- repos[j].artifacts :: a.key in q.keys
  }

  /** Which manifests answer: the usable ones, named no later than was asked, that so list one of the keys. */
  lemma AnswersMeans(o: Object, q: Question)
    ensures Answers(o, q) <==>
            && (q.notAfter.Some? ==> Named(o) * SECOND <= q.notAfter.value)
            && Load(o).Some? && exists j :: HasCopyAt(Load(o).value.repos, q, j)
  {
    if Load(o).Some? {
      var repos := Load(o).value.repos;
      FirstEntryAt(repos, q.slug);
      var e := FirstEntry(repos, q.slug);
      if e.Some? {
        var j :| 0 <= j < |repos| && repos[j] == e.value && forall i | 0 <= i < j :: repos[i].slug != q.slug;
        RecordsOneMeans(e.value, q);
        assert RecordsOneOf(e.value, q) <==> HasCopyAt(repos, q, j);
        assert forall k | HasCopyAt(repos, q, k) :: k == j;
      }
    }
  }

  lemma RecordsOneMeans(e: RepoEntry, q: Question)
    ensures RecordsOneOf(e, q) <==>
            && e.slug == q.slug && (e.status == Success || (e.status == Skipped && e.reason == NoCommits))
            && exists a <- e.artifacts :: a.key in q.keys
  {
    if a :| a in e.artifacts && a.key in q.keys {
      assert NamesArtifact(e, a.key);
    }
    if k :| k in q.keys && RecordsCopy(e, q.slug, k) {
      var a :| a in e.artifacts && a.key == k;
    }
  }

  lemma {:induction false} FirstEntryAt(repos: seq<RepoEntry>, slug: string)
    ensures FirstEntry(repos, slug).Some? ==>
              exists j :: 0 <= j < |repos| && repos[j] == FirstEntry(repos, slug).value && repos[j].slug == slug
                          && forall i | 0 <= i < j :: repos[i].slug != slug
    ensures FirstEntry(repos, slug).None? ==> forall e <- repos :: e.slug != slug
    decreases |repos|
  {
    if repos == [] {
    } else if repos[0].slug == slug {
      assert repos[0] == FirstEntry(repos, slug).value;
    } else {
      FirstEntryAt(repos[1..], slug);
      if FirstEntry(repos, slug).Some? {
        var j :| 0 <= j < |repos[1..]| && repos[1..][j] == FirstEntry(repos, slug).value && repos[1..][j].slug == slug
          && forall i | 0 <= i < j :: repos[1..][i].slug != slug;
        assert repos[j + 1] == FirstEntry(repos, slug).value;
        forall i | 0 <= i < j + 1 ensures repos[i].slug != slug {
          assert i > 0 ==> repos[i] == repos[1..][i - 1];
        }
      }
    }
  }

  function CopyIn(o: Object, q: Question): Copy
    requires Answers(o, q)
  {
    Copy(o.key, Load(o).value.finishedAt, FirstEntry(Load(o).value.repos, q.slug).value)
  }

  lemma AskMeans(o: Object, keep: string -> bool, q: Question, rep: Report)
    requires keep(q.slug)
    ensures var a := Ask(o, LoadSearched(o, keep), q, rep);
            && (a.Found? <==> Answers(o, q)) && !a.ListFailed?
            && (a.Found? ==> a.copy == CopyIn(o, q))
  {
    if Load(o).Some? {
      FirstEntriesAre(Load(o).value.repos, keep, q.slug);
    }
  }

  /** The first object of objs that answers q. */
  function FirstAnswer(objs: seq<Object>, q: Question): Option<Object>
    decreases |objs|
  {
    if objs == [] then None else if Answers(objs[0], q) then Some(objs[0]) else FirstAnswer(objs[1..], q)
  }

  lemma {:induction false} FirstAnswerIs(objs: seq<Object>, q: Question)
    ensures FirstAnswer(objs, q).Some? ==> FirstAnswer(objs, q).value in objs && Answers(FirstAnswer(objs, q).value, q)
    ensures FirstAnswer(objs, q).None? ==> forall o <- objs :: !Answers(o, q)
    decreases |objs|
  {
    if objs != [] {
      FirstAnswerIs(objs[1..], q);
      assert objs == [objs[0]] + objs[1..];
    }
  }

  lemma {:induction false} SearchFiledMeans(filed: seq<Object>, keep: string -> bool, q: Question, rep: Report)
    requires keep(q.slug)
    ensures var a := SearchFiled(filed, keep, q, rep);
            var first := FirstAnswer(filed, q);
            && !a.ListFailed? && (a.Found? <==> first.Some?)
            && (a.Found? ==> Answers(first.value, q) && a.copy == CopyIn(first.value, q))
    decreases |filed|
  {
    if filed != [] {
      AskMeans(filed[0], keep, q, rep);
      var a := Ask(filed[0], LoadSearched(filed[0], keep), q, rep);
      if !a.Found? {
        SearchFiledMeans(filed[1..], keep, q, a.report);
      }
    }
  }

  /** Some listing along the probes holds an object that answers q, filed where it is looked for. */
  ghost predicate HasAnswer(d: Dest, probes: seq<(string, int)>, q: Question) {
    exists i, o :: 0 <= i < |probes| && IsAnswerAt(d, probes[i], o, q)
  }

  ghost predicate IsAnswerAt(d: Dest, probe: (string, int), o: Object, q: Question) {
    && d.list(probe.0, probe.1).Some? && o in d.list(probe.0, probe.1).value
    && IsFiled(o, probe.0) && Answers(o, q)
  }

  /**
   With every listing answered, the search finds a copy exactly when some listed manifest records one,
   and what it finds is such a manifest's first entry for the repository.
   */
  lemma {:induction false} SearchMeans(d: Dest, keep: string -> bool, probes: seq<(string, int)>, q: Question,
          rep: Report)
    requires keep(q.slug) && forall p <- probes :: d.list(p.0, p.1).Some?
    ensures var a := Search(d, keep, probes, q, rep);
            && !a.ListFailed? && (a.Found? <==> HasAnswer(d, probes, q))
            && (a.Found? ==> exists i, o ::
                  0 <= i < |probes| && IsAnswerAt(d, probes[i], o, q) && a.copy == CopyIn(o, q))
    decreases |probes|
  {
    if probes != [] {
      var p, rest := probes[0], probes[1..];
      assert p in probes && forall r <- rest :: r in probes;
      var filed := FiledManifests(d.list(p.0, p.1).value, p.0);
      SearchFiledMeans(filed, keep, q, rep);
      FirstAnswerIs(filed, q);
      var a := SearchFiled(filed, keep, q, rep);
      if a.Found? {
        assert IsAnswerAt(d, probes[0], FirstAnswer(filed, q).value, q);
      } else {
        SearchMeans(d, keep, rest, q, a.report);
        ShiftAnswer(d, probes, q);
        if HasAnswer(d, rest, q) {
          var i, o :| 0 <= i < |rest| && IsAnswerAt(d, rest[i], o, q)
            && Search(d, keep, rest, q, a.report).copy == CopyIn(o, q);
          assert IsAnswerAt(d, probes[i + 1], o, q);
        }
      }
    }
  }

  lemma ShiftAnswer(d: Dest, probes: seq<(string, int)>, q: Question)
    requires probes != [] && d.list(probes[0].0, probes[0].1).Some?
    requires FirstAnswer(FiledManifests(d.list(probes[0].0, probes[0].1).value, probes[0].0), q).None?
    ensures HasAnswer(d, probes, q) <==> HasAnswer(d, probes[1..], q)
  {
    FirstAnswerIs(FiledManifests(d.list(probes[0].0, probes[0].1).value, probes[0].0), q);
    if HasAnswer(d, probes, q) {
      var i, o :| 0 <= i < |probes| && IsAnswerAt(d, probes[i], o, q);
      assert i > 0 && IsAnswerAt(d, probes[1..][i - 1], o, q);
    }
    if HasAnswer(d, probes[1..], q) {
      var i, o :| 0 <= i < |probes[1..]| && IsAnswerAt(d, probes[1..][i], o, q);
      assert IsAnswerAt(d, probes[i + 1], o, q);
    }
  }

  lemma Listed(d: Dest, dir: string, day: int, o: Object)
    requires d.list(dir, day).Some? && o in d.list(dir, day).value
    ensures d.Lists(o)
  {
  }

  /** Whatever listings failed, a copy that is found is one a listed manifest records. */
  lemma {:induction false} FoundIsRecorded(d: Dest, keep: string -> bool, probes: seq<(string, int)>,
          q: Question, rep: Report) returns (o: Object)
    requires keep(q.slug) && Search(d, keep, probes, q, rep).Found?
    ensures d.Lists(o) && Answers(o, q) && Search(d, keep, probes, q, rep).copy == CopyIn(o, q)
    decreases |probes|
  {
    var p := probes[0];
    var filed := FiledManifests(d.list(p.0, p.1).value, p.0);
    SearchFiledMeans(filed, keep, q, rep);
    FirstAnswerIs(filed, q);
    var a := SearchFiled(filed, keep, q, rep);
    if a.Found? {
      o := FirstAnswer(filed, q).value;
      Listed(d, p.0, p.1, o);
    } else {
      o := FoundIsRecorded(d, keep, probes[1..], q, a.report);
    }
  }

  lemma {:induction false} ProbesCover(dirs: seq<string>, day: int, dir: string)
    requires dir in dirs
    ensures (dir, day) in Probes(dirs, day) && (dir, day + 1) in Probes(dirs, day)
    decreases |dirs|
  {
    if dir != dirs[0] {
      ProbesCover(dirs[1..], day, dir);
    }
  }

  // ---------------------------------------------------------------- what a search that found nothing reports

  /** All the manifests filed where the probes look, in the order they are looked at. */
  function Along(d: Dest, probes: seq<(string, int)>): seq<Object>
    decreases |probes|
  {
    if probes == [] then []
    else
      var objs := d.list(probes[0].0, probes[0].1);
      (if objs.Some? then FiledManifests(objs.value, probes[0].0) else []) + Along(d, probes[1..])
  }

  lemma {:induction false} FiledConcat(x: seq<Object>, y: seq<Object>, keep: string -> bool, q: Question, rep: Report)
    ensures var a := SearchFiled(x, keep, q, rep);
            SearchFiled(x + y, keep, q, rep) == if a.Found? then a else SearchFiled(y, keep, q, a.report)
    decreases |x|
  {
    if x == [] {
      assert x + y == y;
    } else {
      assert (x + y)[1..] == x[1..] + y;
      var a := Ask(x[0], LoadSearched(x[0], keep), q, rep);
      if !a.Found? {
        FiledConcat(x[1..], y, keep, q, a.report);
      }
    }
  }

  /** With every listing answered the search goes through one list of manifests. */
  lemma {:induction false} SearchIsOneList(d: Dest, keep: string -> bool, probes: seq<(string, int)>, q: Question,
          rep: Report)
    requires forall p <- probes :: d.list(p.0, p.1).Some?
    ensures Search(d, keep, probes, q, rep) == SearchFiled(Along(d, probes), keep, q, rep)
    decreases |probes|
  {
    if probes != [] {
      var p, rest := probes[0], probes[1..];
      assert p in probes && forall r <- rest :: r in probes;
      var filed := FiledManifests(d.list(p.0, p.1).value, p.0);
      FiledConcat(filed, Along(d, rest), keep, q, rep);
      var a := SearchFiled(filed, keep, q, rep);
      if !a.Found? {
        SearchIsOneList(d, keep, rest, q, a.report);
        FiledSearchNeverFails(filed, keep, q, rep);
      }
    }
  }

  /** How many of these were looked at, how many of them could not be used, and how many of those are too large. */
  function Tally(objs: seq<Object>, q: Question): (t: (nat, nat, nat))
    decreases |objs|
  {
    if objs == [] then (0, 0, 0)
    else
      var o, rest := objs[0], Tally(objs[1..], q);
      if q.notAfter.Some? && Named(o) * SECOND > q.notAfter.value then rest
      else if o.size > 134_217_728 then (rest.0 + 1, rest.1 + 1, rest.2 + 1)
      else if Load(o).None? then (rest.0 + 1, rest.1 + 1, rest.2)
      else (rest.0 + 1, rest.1, rest.2)
  }

  /** This manifest's entry of the repository lists one of the keys. */
  ghost predicate NamesBundle(o: Object, q: Question, e: RepoEntry) {
    && (q.notAfter.Some? ==> Named(o) * SECOND <= q.notAfter.value)
    && Load(o).Some? && FirstEntry(Load(o).value.repos, q.slug) == Some(e)
    && exists a <- e.artifacts :: a.key in q.keys
  }

  /** The first entry that names the bundle and is no copy of it, with the manifest it is in. */
  ghost predicate FirstNamed(objs: seq<Object>, q: Question, e: RepoEntry, key: Key) {
    exists k :: 0 <= k < |objs| && objs[k].key == key && NamesBundle(objs[k], q, e)
                && forall i, f | 0 <= i < k :: !NamesBundle(objs[i], q, f)
  }

  lemma AskReports(o: Object, keep: string -> bool, q: Question, rep: Report)
    requires keep(q.slug) && !Ask(o, LoadSearched(o, keep), q, rep).Found?
    ensures var after, t := Ask(o, LoadSearched(o, keep), q, rep).report, Tally([o], q);
            && after.seen == rep.seen + t.0 && after.passed == rep.passed + t.1 && after.tooLarge == rep.tooLarge + t.2
            && (rep.named.Some? ==> after.named == rep.named && after.namedIn == rep.namedIn)
            && (rep.named.None? && after.named.Some? ==>
                  NamesBundle(o, q, after.named.value) && after.namedIn == Some(o.key))
            && (after.named.None? ==> forall e :: !NamesBundle(o, q, e))
  {
    assert [o][1..] == [];
    if Load(o).Some? {
      FirstEntriesAre(Load(o).value.repos, keep, q.slug);
    }
    forall e: RepoEntry ensures NamesOneOf(e, q) <==> exists a <- e.artifacts :: a.key in q.keys {
      NamesOneMeans(e, q);
    }
  }

  lemma NamesOneMeans(e: RepoEntry, q: Question)
    ensures NamesOneOf(e, q) <==> exists a <- e.artifacts :: a.key in q.keys
  {
    if a :| a in e.artifacts && a.key in q.keys {
      assert NamesArtifact(e, a.key);
    }
    if k :| k in q.keys && NamesArtifact(e, k) {
      var a :| a in e.artifacts && a.key == k;
    }
  }

  /**
   What a search that found nothing says of the manifests it went through: how many there were, how many
   could not be used, how many of those were too large, and the first entry that names the bundle.
   */
  lemma {:induction false} ReportMeans(objs: seq<Object>, keep: string -> bool, q: Question, rep: Report)
    requires keep(q.slug) && !SearchFiled(objs, keep, q, rep).Found? && (rep.named.None? <==> rep.namedIn.None?)
    ensures var after, t := SearchFiled(objs, keep, q, rep).report, Tally(objs, q);
            && after.seen == rep.seen + t.0 && after.passed == rep.passed + t.1 && after.tooLarge == rep.tooLarge + t.2
            && (after.named.None? <==> after.namedIn.None?)
            && (rep.named.Some? ==> after.named == rep.named && after.namedIn == rep.namedIn)
            && (rep.named.None? && after.named.Some? ==>
                  FirstNamed(objs, q, after.named.value, after.namedIn.value))
            && (after.named.None? ==> forall k, e | 0 <= k < |objs| :: !NamesBundle(objs[k], q, e))
    decreases |objs|
  {
    if objs != [] {
      var o, rest := objs[0], objs[1..];
      var a := Ask(o, LoadSearched(o, keep), q, rep);
      assert [o][1..] == [];
      AskReports(o, keep, q, rep);
      ReportMeans(rest, keep, q, a.report);
      var after := SearchFiled(objs, keep, q, rep).report;
      if rep.named.None? && after.named.Some? {
        NamedFirst(objs, q, a.report, after);
      }
    }
  }

  lemma NamedFirst(objs: seq<Object>, q: Question, mid: Report, after: Report)
    requires objs != [] && after.named.Some? && after.namedIn.Some?
    requires mid.named.Some? ==>
               && after.named == mid.named && NamesBundle(objs[0], q, mid.named.value)
               && after.namedIn == Some(objs[0].key)
    requires mid.named.None? ==>
               && FirstNamed(objs[1..], q, after.named.value, after.namedIn.value)
               && forall e :: !NamesBundle(objs[0], q, e)
    ensures FirstNamed(objs, q, after.named.value, after.namedIn.value)
  {
    if mid.named.None? {
      var rest, e, key := objs[1..], after.named.value, after.namedIn.value;
      var k :| 0 <= k < |rest| && rest[k].key == key && NamesBundle(rest[k], q, e)
        && forall i, f | 0 <= i < k :: !NamesBundle(rest[i], q, f);
      assert objs[k + 1] == rest[k];
      forall i, f | 0 <= i < k + 1 ensures !NamesBundle(objs[i], q, f) {
        assert i > 0 ==> objs[i] == rest[i - 1];
      }
    }
  }

  // ---------------------------------------------------------------- restore by date

  datatype Checks = Checks(manifestKey: Key, bundleSha: string, lfsSha: string)

  /** The last artifact listed at key, empty when there is none. */
  function ShaAt(artifacts: seq<Artifact>, key: Key): string
    decreases |artifacts|
  {
    if artifacts == [] then ""
    else if artifacts[|artifacts| - 1].key == key then artifacts[|artifacts| - 1].sha
    else ShaAt(artifacts[..|artifacts| - 1], key)
  }

  /** The hash an entry records for what is at a key: the one it lists there, the last if several, and none if none. */
  ghost predicate HashFor(artifacts: seq<Artifact>, key: Key, sha: string) {
    && ((forall a <- artifacts :: a.key != key) ==> sha == "")
    && forall j | 0 <= j < |artifacts| && artifacts[j].key == key && NoneAfter(artifacts, key, j) ::
         sha == artifacts[j].sha
  }

  ghost predicate NoneAfter(artifacts: seq<Artifact>, key: Key, j: int) {
    forall k | 0 <= j < k < |artifacts| :: artifacts[k].key != key
  }

  /** With one artifact a key, it is that artifact's. */
  ghost predicate OnlyHashFor(artifacts: seq<Artifact>, key: Key, sha: string) {
    (forall j, k | 0 <= j < k < |artifacts| :: artifacts[j].key != artifacts[k].key) ==>
      forall a <- artifacts | a.key == key :: sha == a.sha
  }

  lemma {:induction false} ShaAtIs(artifacts: seq<Artifact>, key: Key)
    ensures HashFor(artifacts, key, ShaAt(artifacts, key))
    decreases |artifacts|
  {
    if artifacts != [] {
      var k := |artifacts| - 1;
      ShaAtIs(artifacts[..k], key);
      assert artifacts == artifacts[..k] + [artifacts[k]];
      if artifacts[k].key != key {
        forall j | 0 <= j < |artifacts| && artifacts[j].key == key && NoneAfter(artifacts, key, j)
          ensures ShaAt(artifacts, key) == artifacts[j].sha
        {
          assert NoneAfter(artifacts[..k], key, j);
        }
      } else {
        forall j | 0 <= j < k ensures !NoneAfter(artifacts, key, j) {
        }
      }
    }
  }

  lemma OnlyOneAtKey(artifacts: seq<Artifact>, key: Key, sha: string)
    requires HashFor(artifacts, key, sha)
    ensures OnlyHashFor(artifacts, key, sha)
  {
    if forall j, k | 0 <= j < k < |artifacts| :: artifacts[j].key != artifacts[k].key {
      forall a | a in artifacts && a.key == key ensures sha == a.sha {
        var j :| 0 <= j < |artifacts| && artifacts[j] == a;
        assert NoneAfter(artifacts, key, j);
      }
    }
  }

  method RecordedChecks(manifestKey: Key, e: RepoEntry, bundleKey: Key, lfsKey: Key) returns (c: Checks)
    requires bundleKey != lfsKey
    ensures c == Checks(manifestKey, ShaAt(e.artifacts, bundleKey), ShaAt(e.artifacts, lfsKey))
    ensures c.manifestKey == manifestKey
    ensures HashFor(e.artifacts, bundleKey, c.bundleSha) && OnlyHashFor(e.artifacts, bundleKey, c.bundleSha)
    ensures HashFor(e.artifacts, lfsKey, c.lfsSha) && OnlyHashFor(e.artifacts, lfsKey, c.lfsSha)
  {
    c := Checks(manifestKey, "", "");
    for i := 0 to |e.artifacts|
      invariant c == Checks(manifestKey, ShaAt(e.artifacts[..i], bundleKey), ShaAt(e.artifacts[..i], lfsKey))
    {
      assert e.artifacts[..i + 1][..i] == e.artifacts[..i];
      var a := e.artifacts[i];
      if a.key == bundleKey {
        c := c.(bundleSha := a.sha);
      } else if a.key == lfsKey {
        c := c.(lfsSha := a.sha);
      }
    }
    assert e.artifacts[..|e.artifacts|] == e.artifacts;
    ShaAtIs(e.artifacts, bundleKey);
    ShaAtIs(e.artifacts, lfsKey);
    OnlyOneAtKey(e.artifacts, bundleKey, c.bundleSha);
    OnlyOneAtKey(e.artifacts, lfsKey, c.lfsSha);
  }

  /** A usable manifest some listing showed, and its entry for the repository: a copy that lists the bundle. */
  ghost predicate IsRecord(d: Dest, o: Object, e: RepoEntry, slug: string, bundleKey: Key) {
    && d.Lists(o) && o.doc.Signed? && Load(o) == Some(o.doc.manifest)
    && e in o.doc.manifest.repos && e.slug == slug
    && (e.status == Success || (e.status == Skipped && e.reason == NoCommits))
    && exists a <- e.artifacts :: a.key == bundleKey
  }

  /** What a restore is to check is what such a manifest records: its key, and its hashes of bundle and LFS archive. */
  ghost predicate Expects(d: Dest, slug: string, bundleKey: Key, lfsKey: Key, c: Checks) {
    exists o, e ::
      && IsRecord(d, o, e, slug, bundleKey) && c.manifestKey == o.key
      && HashFor(e.artifacts, bundleKey, c.bundleSha) && OnlyHashFor(e.artifacts, bundleKey, c.bundleSha)
      && HashFor(e.artifacts, lfsKey, c.lfsSha) && OnlyHashFor(e.artifacts, lfsKey, c.lfsSha)
  }

  lemma FoundIsRecord(d: Dest, keep: string -> bool, probes: seq<(string, int)>, slug: string, bundleKey: Key)
    returns (o: Object)
    requires keep(slug) && Search(d, keep, probes, Question(slug, [bundleKey], None), EMPTY_REPORT).Found?
    ensures var copy := Search(d, keep, probes, Question(slug, [bundleKey], None), EMPTY_REPORT).copy;
            copy.manifestKey == o.key && IsRecord(d, o, copy.entry, slug, bundleKey)
  {
    var q := Question(slug, [bundleKey], None);
    o := FoundIsRecorded(d, keep, probes, q, EMPTY_REPORT);
    FirstEntryIsThere(Load(o).value.repos, slug);
  }

  /** findRestoreChecks: the checksums to expect, out of the manifest the search finds. */
  method FindRestoreChecks(search: CopySearch, host: string, owner: string, name: string, day: int,
          bundleKey: Key, lfsKey: Key)
    returns (c: Option<Checks>)
    requires search.Valid() && Namespaces.Namespace(owner) && bundleKey != lfsKey
    modifies search
    ensures search.Valid()
    ensures var q := Question(owner + "/" + name, [bundleKey], None);
            var dirs := Namespaces.SearchDirs(host, Namespaces.Split(owner));
            var a := Search(search.dst, search.keep, Probes(dirs, day), q, EMPTY_REPORT);
            c == if a.Found? then
                   var e := a.copy.entry;
                   Some(Checks(a.copy.manifestKey, ShaAt(e.artifacts, bundleKey), ShaAt(e.artifacts, lfsKey)))
                 else None
    ensures c.Some? && search.keep(owner + "/" + name) ==>
              Expects(search.dst, owner + "/" + name, bundleKey, lfsKey, c.value)
  {
    var dirs := Namespaces.ManifestSearchDirs(host, owner);
    var a := search.Find(dirs, day, Question(owner + "/" + name, [bundleKey], None));
    if !a.Found? {
      return None;
    }
    var checks := RecordedChecks(a.copy.manifestKey, a.copy.entry, bundleKey, lfsKey);
    if search.keep(owner + "/" + name) {
      ghost var o := FoundIsRecord(search.dst, search.keep, Probes(dirs, day), owner + "/" + name, bundleKey);
    }
    return Some(checks);
  }

  /** The listing of a directory and day shows every object filed there under that day's names. */
  ghost predicate Complete(d: Dest, store: set<Object>) {
    && (forall dir, day :: d.list(dir, day).Some?)
    && (forall dir, day, o | o in store && IsFiled(o, dir) && DayOf(Named(o) * SECOND) == day ::
          o in d.list(dir, day).value)
  }

  /**
   Restore by date finds the copy: a run over repos filed its manifest where ManifestDir says, under
   the second it finished, that day or the next, with r's entry recording the
   bundle. Then the search from r's namespace finds a manifest that records that bundle.
   */
  lemma FiledIsFound(d: Dest, store: set<Object>, keep: string -> bool, repos: seq<Namespaces.Repo>,
          anchor: seq<string>, r: Namespaces.Repo, o: Object, day: int, bundleKey: Key)
    requires Complete(d, store) && o in store
    requires Namespaces.IsAnchor(anchor, repos) && r in repos
    requires IsFiled(o, Namespaces.DirUnder(r.host, Namespaces.Join(anchor)))
    requires var q := Question(r.owner + "/" + r.name, [bundleKey], None);
             keep(q.slug) && Answers(o, q)
    requires day <= DayOf(Load(o).value.finishedAt) <= day + 1
    ensures var q := Question(r.owner + "/" + r.name, [bundleKey], None);
            var dirs := Namespaces.SearchDirs(r.host, Namespaces.Split(r.owner));
            var a := Search(d, keep, Probes(dirs, day), q, EMPTY_REPORT);
            a.Found? && RecordsCopy(a.copy.entry, q.slug, bundleKey)
  {
    var q := Question(r.owner + "/" + r.name, [bundleKey], None);
    var dirs := Namespaces.SearchDirs(r.host, Namespaces.Split(r.owner));
    var dir := Namespaces.DirUnder(r.host, Namespaces.Join(anchor));
    Namespaces.FiledWhereSearched(repos, anchor, r);
    ProbesCover(dirs, day, dir);
    var on := DayOf(Load(o).value.finishedAt);
    SecondsKeepDays(Load(o).value.finishedAt);
    var probes := Probes(dirs, day);
    var i :| 0 <= i < |probes| && probes[i] == (dir, on);
    assert IsAnswerAt(d, probes[i], o, q);
    forall p <- probes ensures d.list(p.0, p.1).Some? {
      var x, y := p.0, p.1;
      assert d.list(x, y).Some?;
    }
    SearchMeans(d, keep, probes, q, EMPTY_REPORT);
  }

  /**
   And then what the restore is to check is what that manifest records: the hash of the bundle it lists,
   and of the LFS archive where it lists one.
   */
  lemma FiledHashIsExpected(d: Dest, store: set<Object>, keep: string -> bool, repos: seq<Namespaces.Repo>,
          anchor: seq<string>, r: Namespaces.Repo, o: Object, day: int, bundleKey: Key, lfsKey: Key)
    requires Complete(d, store) && o in store
    requires Namespaces.IsAnchor(anchor, repos) && r in repos
    requires IsFiled(o, Namespaces.DirUnder(r.host, Namespaces.Join(anchor)))
    requires var q := Question(r.owner + "/" + r.name, [bundleKey], None);
             keep(q.slug) && Answers(o, q)
    requires day <= DayOf(Load(o).value.finishedAt) <= day + 1
    ensures var slug := r.owner + "/" + r.name;
            var dirs := Namespaces.SearchDirs(r.host, Namespaces.Split(r.owner));
            var a := Search(d, keep, Probes(dirs, day), Question(slug, [bundleKey], None), EMPTY_REPORT);
            && a.Found?
            && var listed := a.copy.entry.artifacts;
               Expects(d, slug, bundleKey, lfsKey,
                       Checks(a.copy.manifestKey, ShaAt(listed, bundleKey), ShaAt(listed, lfsKey)))
  {
    FiledIsFound(d, store, keep, repos, anchor, r, o, day, bundleKey);
    var dirs := Namespaces.SearchDirs(r.host, Namespaces.Split(r.owner));
    var slug := r.owner + "/" + r.name;
    var a := Search(d, keep, Probes(dirs, day), Question(slug, [bundleKey], None), EMPTY_REPORT);
    var found := FoundIsRecord(d, keep, Probes(dirs, day), slug, bundleKey);
    HashesAreExpected(d, found, a.copy.entry, slug, bundleKey, lfsKey);
  }

  lemma HashesAreExpected(d: Dest, o: Object, e: RepoEntry, slug: string, bundleKey: Key, lfsKey: Key)
    requires IsRecord(d, o, e, slug, bundleKey)
    ensures Expects(d, slug, bundleKey, lfsKey,
                    Checks(o.key, ShaAt(e.artifacts, bundleKey), ShaAt(e.artifacts, lfsKey)))
  {
    ShaAtIs(e.artifacts, bundleKey);
    ShaAtIs(e.artifacts, lfsKey);
    OnlyOneAtKey(e.artifacts, bundleKey, ShaAt(e.artifacts, bundleKey));
    OnlyOneAtKey(e.artifacts, lfsKey, ShaAt(e.artifacts, lfsKey));
  }

  lemma SecondsKeepDays(t: Time)
    ensures DayOf(SecondOf(t) * SECOND) == DayOf(t)
  {
    assert t == SECOND * SecondOf(t) + t % SECOND;
    assert DAY == SECOND * 86400;
  }

  /** Once answered, a question has one answer whatever else the search was asked to keep. */
  lemma {:induction false} KeepingMoreChangesNothing(d: Dest, keep: string -> bool, keep': string -> bool,
                                                     probes: seq<(string, int)>, q: Question, rep: Report)
    requires keep(q.slug) && keep'(q.slug)
    ensures Search(d, keep, probes, q, rep) == Search(d, keep', probes, q, rep)
    decreases |probes|
  {
    if probes != [] && d.list(probes[0].0, probes[0].1).Some? {
      var filed := FiledManifests(d.list(probes[0].0, probes[0].1).value, probes[0].0);
      KeepingMoreInOne(filed, keep, keep', q, rep);
      var a := SearchFiled(filed, keep, q, rep);
      if !a.Found? {
        KeepingMoreChangesNothing(d, keep, keep', probes[1..], q, a.report);
      }
    }
  }

  lemma {:induction false} KeepingMoreInOne(filed: seq<Object>, keep: string -> bool, keep': string -> bool,
          q: Question, rep: Report)
    requires keep(q.slug) && keep'(q.slug)
    ensures SearchFiled(filed, keep, q, rep) == SearchFiled(filed, keep', q, rep)
    decreases |filed|
  {
    if filed != [] {
      var o := filed[0];
      if Load(o).Some? {
        FirstEntriesAre(Load(o).value.repos, keep, q.slug);
        FirstEntriesAre(Load(o).value.repos, keep', q.slug);
      }
      var a := Ask(o, LoadSearched(o, keep), q, rep);
      assert a == Ask(o, LoadSearched(o, keep'), q, rep);
      if !a.Found? {
        KeepingMoreInOne(filed[1..], keep, keep', q, a.report);
      }
    }
  }
}
