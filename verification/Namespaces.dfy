/** The directories of manifests and of artifacts, and the searches that must meet them. Paths are strings. */
module Namespaces {
  import opened Base

  // ---------------------------------------------------------------- splitting and joining

  /** strings.Split(s, "/"). */
  function Split(s: string): (segs: seq<string>)
    ensures |segs| >= 1
    decreases |s|
  {
    if s == "" then [""]
    else
      var rest := Split(s[1..]);
      if s[0] == '/' then [""] + rest else [[s[0]] + rest[0]] + rest[1..]
  }

  /** strings.Join(segs, "/"). */
  function Join(segs: seq<string>): string
    decreases |segs|
  {
    if |segs| == 0 then "" else if |segs| == 1 then segs[0] else segs[0] + "/" + Join(segs[1..])
  }

  /** path.Join of clean elements: the empty ones are dropped. */
  function PathJoin(elems: seq<string>): string {
    Join(NonEmpty(elems))
  }

  function NonEmpty(elems: seq<string>): seq<string>
    decreases |elems|
  {
    if elems == [] then [] else if elems[0] == "" then NonEmpty(elems[1..]) else [elems[0]] + NonEmpty(elems[1..])
  }

  predicate NoSlash(s: string) {
    forall i | 0 <= i < |s| :: s[i] != '/'
  }

  /** A path segment path.Clean leaves alone. */
  predicate Segment(s: string) {
    s != "" && s != "." && s != ".." && NoSlash(s)
  }

  predicate Segments(segs: seq<string>) {
    forall s <- segs :: Segment(s)
  }

  /** A namespace of any depth: an organisation, or a GitLab group inside groups. */
  predicate Namespace(owner: string) {
    Segments(Split(owner))
  }

  lemma {:induction false} JoinSplit(s: string)
    ensures Join(Split(s)) == s
    decreases |s|
  {
    if s != "" {
      var rest := Split(s[1..]);
      JoinSplit(s[1..]);
      if s[0] == '/' {
        assert ([""] + rest)[1..] == rest;
        assert s == "/" + s[1..];
      } else {
        var segs := [[s[0]] + rest[0]] + rest[1..];
        assert segs[1..] == rest[1..];
        assert s == [s[0]] + s[1..];
      }
    }
  }

  lemma {:induction false} SplitPlain(s: string)
    requires NoSlash(s)
    ensures Split(s) == [s]
    decreases |s|
  {
    if s != "" {
      SplitPlain(s[1..]);
      assert s == [s[0]] + s[1..];
    }
  }

  lemma {:induction false} SplitAtSlash(s: string, t: string)
    requires NoSlash(s)
    ensures Split(s + "/" + t) == [s] + Split(t)
    decreases |s|
  {
    if s == "" {
      assert s + "/" + t == "/" + t;
      assert ("/" + t)[1..] == t;
    } else {
      assert (s + "/" + t)[1..] == s[1..] + "/" + t;
      SplitAtSlash(s[1..], t);
      assert s == [s[0]] + s[1..];
    }
  }

  lemma {:induction false} SplitJoin(segs: seq<string>)
    requires segs != [] && forall s <- segs :: NoSlash(s)
    ensures Split(Join(segs)) == segs
    decreases |segs|
  {
    if |segs| == 1 {
      SplitPlain(segs[0]);
    } else {
      SplitJoin(segs[1..]);
      SplitAtSlash(segs[0], Join(segs[1..]));
      assert segs == [segs[0]] + segs[1..];
    }
  }

  lemma {:induction false} JoinConcat(a: seq<string>, b: seq<string>)
    requires a != [] && b != []
    ensures Join(a + b) == Join(a) + "/" + Join(b)
    decreases |a|
  {
    if |a| == 1 {
      assert (a + b)[1..] == b;
    } else {
      assert (a + b)[1..] == a[1..] + b;
      JoinConcat(a[1..], b);
      assert a[0] + "/" + (Join(a[1..]) + "/" + Join(b)) == a[0] + "/" + Join(a[1..]) + "/" + Join(b);
    }
  }

  lemma {:induction false} JoinNotEmpty(segs: seq<string>)
    requires segs != [] && Segments(segs)
    ensures Join(segs) != ""
    decreases |segs|
  {
    assert segs[0] in segs;
  }

  // ---------------------------------------------------------------- filing

  datatype Repo = Repo(host: string, owner: string, name: string)

  /** p is the deepest path every owner lies in. */
  ghost predicate IsAnchor(p: seq<string>, repos: seq<Repo>) {
    && Holds(p, repos)
    && (forall q | Holds(q, repos) :: q <= p)
  }

  ghost predicate Holds(p: seq<string>, repos: seq<Repo>) {
    forall r <- repos :: p <= Split(r.owner)
  }

  /** There is one anchor, whatever order the source lists its repositories in. */
  lemma AnchorIsUnique(p: seq<string>, q: seq<string>, repos: seq<Repo>, others: seq<Repo>)
    requires IsAnchor(p, repos) && IsAnchor(q, others)
    requires forall r :: r in repos <==> r in others
    ensures p == q
  {
    assert Holds(q, repos) && Holds(p, others);
    assert q <= p && p <= q;
  }

  /** The inner loop: how far two paths agree. */
  method SharedLength(shared: seq<string>, segs: seq<string>) returns (n: nat)
    ensures n <= |shared| && n <= |segs| && shared[..n] == segs[..n]
    ensures n < |shared| && n < |segs| ==> shared[n] != segs[n]
  {
    n := 0;
    while n < |shared| && n < |segs| && shared[n] == segs[n]
      invariant n <= |shared| && n <= |segs| && shared[..n] == segs[..n]
    {
      n := n + 1;
    }
  }

  method ManifestAnchor(repos: seq<Repo>) returns (anchor: string, ghost p: seq<string>)
    ensures repos == [] ==> anchor == ""
    ensures repos != [] ==> IsAnchor(p, repos) && anchor == Join(p)
  {
    if |repos| == 0 {
      p := [];
      return "", p;
    }
    var shared := Split(repos[0].owner);
    for i := 1 to |repos|
      invariant IsAnchor(shared, repos[..i])
    {
      var segs := Split(repos[i].owner);
      var n := SharedLength(shared, segs);
      Narrow(shared, segs, n, repos, i);
      shared := shared[..n];
    }
    assert repos[..|repos|] == repos;
    p := shared;
    anchor := Join(shared);
  }

  lemma SharedSegment(q: seq<string>, a: seq<string>, b: seq<string>, n: nat)
    requires q <= a && q <= b
    ensures n < |q| ==> n < |a| && n < |b| && a[n] == b[n]
  {
  }

  lemma Narrow(shared: seq<string>, segs: seq<string>, n: nat, repos: seq<Repo>, i: nat)
    requires i < |repos| && segs == Split(repos[i].owner) && IsAnchor(shared, repos[..i])
    requires n <= |shared| && n <= |segs| && shared[..n] == segs[..n]
    requires n < |shared| && n < |segs| ==> shared[n] != segs[n]
    ensures IsAnchor(shared[..n], repos[..i + 1])
  {
    var narrow, front, wide := shared[..n], repos[..i], repos[..i + 1];
    assert wide == front + [repos[i]];
    assert Holds(narrow, wide);
    forall q | Holds(q, wide) ensures q <= narrow {
      assert Holds(q, front);
      assert repos[i] in wide;
      SharedSegment(q, shared, segs, n);
    }
  }

  function DirUnder(host: string, ns: string): string {
    PathJoin([host, ns, "manifests"])
  }

  method ManifestDir(repos: seq<Repo>) returns (dir: string, ghost p: seq<string>)
    ensures repos == [] ==> dir == ""
    ensures repos != [] ==> IsAnchor(p, repos) && dir == DirUnder(repos[0].host, Join(p))
  {
    var anchor: string;
    anchor, p := ManifestAnchor(repos);
    if |repos| == 0 {
      return "", p;
    }
    dir := DirUnder(repos[0].host, anchor);
  }

  /** The namespaces of segs from its full depth up, then the host. */
  function SearchDirs(host: string, segs: seq<string>): seq<string>
    decreases |segs|
  {
    if segs == [] then [PathJoin([host, "manifests"])]
    else [DirUnder(host, Join(segs))] + SearchDirs(host, segs[..|segs| - 1])
  }

  /** strings.LastIndex(s, "/"). */
  function LastSlash(s: string): (i: int)
    ensures -1 <= i < |s|
    decreases |s|
  {
    if s == "" then -1 else if s[|s| - 1] == '/' then |s| - 1 else LastSlash(s[..|s| - 1])
  }

  lemma {:induction false} NoLastSlash(s: string)
    requires NoSlash(s)
    ensures LastSlash(s) == -1
    decreases |s|
  {
    if s != "" {
      NoLastSlash(s[..|s| - 1]);
    }
  }

  lemma {:induction false} LastSlashIs(front: string, last: string)
    requires NoSlash(last)
    ensures LastSlash(front + "/" + last) == |front|
    decreases |last|
  {
    var s := front + "/" + last;
    if last != "" {
      var k := |last| - 1;
      assert s[..|s| - 1] == front + "/" + last[..k];
      LastSlashIs(front, last[..k]);
    }
  }

  lemma LastSlashOfJoin(segs: seq<string>)
    requires segs != [] && Segments(segs)
    ensures |segs| == 1 ==> LastSlash(Join(segs)) < 0
    ensures |segs| > 1 ==>
              LastSlash(Join(segs)) >= 0 && Join(segs)[..LastSlash(Join(segs))] == Join(segs[..|segs| - 1])
  {
    var front, last := segs[..|segs| - 1], segs[|segs| - 1];
    assert last in segs && Segment(last);
    if |segs| > 1 {
      assert segs == front + [last];
      JoinConcat(front, [last]);
      CutsAtLast(Join(segs), Join(front), last);
    } else {
      NoLastSlash(last);
    }
  }

  lemma CutsAtLast(s: string, front: string, last: string)
    requires NoSlash(last) && s == front + "/" + last
    ensures LastSlash(s) == |front| && s[..LastSlash(s)] == front
  {
    LastSlashIs(front, last);
    TakeFront(front, "/" + last);
    Regroup3(front, "/", last);
  }

  lemma TakeFront(a: string, b: string)
    ensures (a + b)[..|a|] == a
  {
  }

  lemma Regroup3(a: string, b: string, c: string)
    ensures a + b + c == a + (b + c)
  {
  }

  method ManifestSearchDirs(host: string, owner: string) returns (dirs: seq<string>)
    requires Namespace(owner)
    ensures dirs == SearchDirs(host, Split(owner))
  {
    ghost var segs := Split(owner);
    ghost var n := |segs|;
    JoinSplit(owner);
    JoinNotEmpty(segs);
    assert segs[..n] == segs;
    dirs := [];
    var ns := owner;
    while ns != ""
      invariant 1 <= n <= |segs| && ns == Join(segs[..n]) && ns != ""
      invariant SearchDirs(host, segs) == dirs + SearchDirs(host, segs[..n])
      decreases n
    {
      dirs := dirs + [DirUnder(host, ns)];
      LastSlashOfJoin(segs[..n]);
      assert segs[..n][..n - 1] == segs[..n - 1];
      var i := LastSlash(ns);
      if i < 0 {
        assert n == 1;
        assert SearchDirs(host, segs[..n]) == [DirUnder(host, ns)] + SearchDirs(host, []);
        break;
      }
      ns := ns[..i];
      n := n - 1;
      JoinNotEmpty(segs[..n]);
    }
    dirs := dirs + [PathJoin([host, "manifests"])];
  }

  lemma {:induction false} PrefixIsSearched(host: string, segs: seq<string>, p: seq<string>)
    requires p <= segs
    ensures DirUnder(host, Join(p)) in SearchDirs(host, segs)
    decreases |segs|
  {
    if p == segs {
      if segs == [] {
        assert NonEmpty([host, "", "manifests"]) == NonEmpty([host, "manifests"]) by {
          assert [host, "", "manifests"][1..] == ["", "manifests"] && ["", "manifests"][1..] == ["manifests"];
          assert [host, "manifests"][1..] == ["manifests"];
        }
        assert DirUnder(host, Join(p)) == PathJoin([host, "manifests"]);
      }
    } else {
      PrefixIsSearched(host, segs[..|segs| - 1], p);
    }
  }

  /** A namespace's manifests lie beside its repositories, and the host's own beside its namespaces. */
  lemma DirPlainly(host: string, ns: string)
    requires host != ""
    ensures DirUnder(host, ns) == if ns == "" then host + "/manifests" else host + "/" + ns + "/manifests"
    ensures PathJoin([host, "manifests"]) == host + "/manifests"
  {
    NonEmptyAll([host, "manifests"]);
    JoinTwo(host, "manifests");
    if ns == "" {
      assert NonEmpty([host, "", "manifests"]) == NonEmpty([host, "manifests"]) by {
        assert [host, "", "manifests"][1..] == ["", "manifests"] && ["", "manifests"][1..] == ["manifests"];
        assert [host, "manifests"][1..] == ["manifests"];
      }
    } else {
      var elems := [host, ns, "manifests"];
      NonEmptyAll(elems);
      assert elems[1..] == [ns, "manifests"];
      JoinTwo(ns, "manifests");
      Regroup3(host + "/", ns, "/manifests");
      assert ns + "/" + "manifests" == ns + "/manifests";
    }
  }

  /** The directories searched: one for each depth of the namespace, the deepest first, and the host's last. */
  lemma {:induction false} SearchDirAt(host: string, segs: seq<string>, i: nat)
    requires host != "" && Segments(segs) && i <= |segs|
    ensures |SearchDirs(host, segs)| == |segs| + 1
    ensures SearchDirs(host, segs)[i] ==
            if i == |segs| then host + "/manifests" else host + "/" + Join(segs[..|segs| - i]) + "/manifests"
    decreases |segs|
  {
    if segs == [] {
      DirPlainly(host, "");
    } else {
      var front := segs[..|segs| - 1];
      SearchDirAt(host, front, if i == 0 then 0 else i - 1);
      if i == 0 {
        DirPlainly(host, Join(segs));
        JoinNotEmpty(segs);
        assert segs[..|segs|] == segs;
      } else {
        assert front[..|front| - (i - 1)] == segs[..|segs| - i];
      }
    }
  }

  /** A run's manifest is filed in one of the directories searched for any repository it covered. */
  lemma FiledWhereSearched(repos: seq<Repo>, p: seq<string>, r: Repo)
    requires IsAnchor(p, repos) && r in repos
    ensures DirUnder(r.host, Join(p)) in SearchDirs(r.host, Split(r.owner))
  {
    PrefixIsSearched(r.host, Split(r.owner), p);
  }

  // ---------------------------------------------------------------- artifact keys

  function DateDir(host: string, owner: string, name: string, date: string): string {
    PathJoin([host, owner, name, date])
  }

  datatype ArtifactKeys = ArtifactKeys(bundle: string, sidecar: string, lfs: string)

  function KeysOf(host: string, owner: string, name: string, date: string): ArtifactKeys {
    var prefix := DateDir(host, owner, name, date);
    ArtifactKeys(PathJoin([prefix, name + ".bundle"]), PathJoin([prefix, name + ".sha256"]),
      PathJoin([prefix, name + ".lfs.tar"]))
  }

  /** The three keys of a copy: all under host, owner, name and date, and each named for the repository. */
  lemma KeysPlainly(host: string, owner: string, name: string, date: string)
    requires Segment(host) && Namespace(owner) && Segment(name) && Segment(date)
    ensures var stem := host + "/" + owner + "/" + name + "/" + date + "/" + name;
            KeysOf(host, owner, name, date) == ArtifactKeys(stem + ".bundle", stem + ".sha256", stem + ".lfs.tar")
  {
    KeyPlainly(host, owner, name, date, name, ".bundle");
    KeyPlainly(host, owner, name, date, name, ".sha256");
    KeyPlainly(host, owner, name, date, name, ".lfs.tar");
  }

  lemma KeyPlainly(host: string, owner: string, name: string, date: string, base: string, suffix: string)
    requires host != "" && Namespace(owner) && name != "" && date != "" && base != ""
    ensures PathJoin([DateDir(host, owner, name, date), base + suffix]) ==
            host + "/" + owner + "/" + name + "/" + date + "/" + base + suffix
  {
    JoinSplit(owner);
    JoinNotEmpty(Split(owner));
    NonEmptyAll([host, owner, name, date]);
    JoinFour(host, owner, name, date);
    var dir := DateDir(host, owner, name, date);
    NonEmptyAll([dir, base + suffix]);
    JoinTwo(dir, base + suffix);
    Flat(host, owner, name, date);
    Regroup3(dir + "/", base, suffix);
  }

  lemma Flat(a: string, b: string, c: string, d: string)
    ensures a + "/" + (b + "/" + (c + "/" + d)) == a + "/" + b + "/" + c + "/" + d
  {
  }

  datatype Located = Located(host: string, owner: string, name: string, date: string)

  /** {host}/{owner}/{name}/{date}/{file}, taken apart from the right, for owners of any depth. */
  function SplitArtifactKey(key: string): Option<Located> {
    var parts := Split(key);
    if |parts| < 5 then None
    else Some(Located(parts[0], Join(parts[1..|parts| - 3]), parts[|parts| - 3], parts[|parts| - 2]))
  }

  lemma PathOfParts(host: string, owner: string, name: string, date: string, file: string)
    requires Segment(host) && Namespace(owner) && Segment(name) && Segment(date) && Segment(file)
    ensures PathJoin([DateDir(host, owner, name, date), file]) == Join([host] + Split(owner) + [name, date, file])
  {
    JoinSplit(owner);
    JoinNotEmpty(Split(owner));
    var dir := [host, owner, name, date];
    NonEmptyAll(dir);
    assert DateDir(host, owner, name, date) == Join(dir);
    JoinNotEmptyStrings(dir);
    NonEmptyAll([Join(dir), file]);
    JoinFour(host, owner, name, date);
    JoinTwo(Join(dir), file);
    JoinOwner(host, Split(owner), name, date, file);
  }

  lemma JoinTwo(a: string, b: string)
    ensures Join([a, b]) == a + "/" + b
  {
    assert [a, b][1..] == [b];
  }

  lemma JoinFour(a: string, b: string, c: string, d: string)
    ensures Join([a, b, c, d]) == a + "/" + (b + "/" + (c + "/" + d))
  {
    assert [a, b, c, d][1..] == [b, c, d] && [b, c, d][1..] == [c, d];
    JoinTwo(c, d);
  }

  lemma JoinOwner(host: string, segs: seq<string>, name: string, date: string, file: string)
    requires segs != []
    ensures Join([host] + segs + [name, date, file])
            == host + "/" + (Join(segs) + "/" + (name + "/" + date)) + "/" + file
  {
    var tail := [name, date, file];
    assert [host] + segs + tail == [host] + (segs + tail);
    JoinConcat([host], segs + tail);
    JoinConcat(segs, tail);
    assert tail[1..] == [date, file];
    JoinTwo(date, file);
    Regroup(host, Join(segs), name, date, file);
  }

  lemma Regroup(h: string, o: string, n: string, d: string, f: string)
    ensures h + "/" + (o + "/" + (n + "/" + (d + "/" + f))) == h + "/" + (o + "/" + (n + "/" + d)) + "/" + f
  {
  }

  lemma {:induction false} NonEmptyAll(elems: seq<string>)
    requires forall i | 0 <= i < |elems| :: elems[i] != ""
    ensures NonEmpty(elems) == elems
    decreases |elems|
  {
    if elems != [] {
      NonEmptyAll(elems[1..]);
    }
  }

  lemma JoinNotEmptyStrings(elems: seq<string>)
    requires elems != [] && elems[0] != ""
    ensures Join(elems) != ""
  {
  }

  /** A key gitdr writes comes apart into exactly what it was made of, for owners of any depth. */
  lemma ArtifactKeyRoundTrip(host: string, owner: string, name: string, date: string, file: string)
    requires Segment(host) && Namespace(owner) && Segment(name) && Segment(date) && Segment(file)
    ensures SplitArtifactKey(PathJoin([DateDir(host, owner, name, date), file])) ==
            Some(Located(host, owner, name, date))
  {
    PathOfParts(host, owner, name, date, file);
    var segs := Split(owner);
    var parts := [host] + segs + [name, date, file];
    forall s <- parts ensures NoSlash(s) {
      if s in segs {
        assert Segment(s);
      }
    }
    SplitJoin(parts);
    assert parts[1..|parts| - 3] == segs;
    JoinSplit(owner);
  }

  /** The key is one of a copy's three. */
  predicate IsKeyOf(key: string, host: string, owner: string, name: string, date: string) {
    var keys := KeysOf(host, owner, name, date);
    key == keys.bundle || key == keys.sidecar || key == keys.lfs
  }

  /** Every artifact key gives its repository and date back. */
  lemma KeyLocatesItsCopy(key: string, host: string, owner: string, name: string, date: string)
    requires Segment(host) && Namespace(owner) && Segment(name) && Segment(date)
    requires IsKeyOf(key, host, owner, name, date)
    ensures SplitArtifactKey(key) == Some(Located(host, owner, name, date))
  {
    FileSegments(name);
    ArtifactKeyRoundTrip(host, owner, name, date, name + ".bundle");
    ArtifactKeyRoundTrip(host, owner, name, date, name + ".sha256");
    ArtifactKeyRoundTrip(host, owner, name, date, name + ".lfs.tar");
  }

  /** So no two copies share a key, of whatever kind. */
  lemma KeysLocateTheirCopy(key: string, host: string, owner: string, name: string, date: string,
                            host': string, owner': string, name': string, date': string)
    requires Segment(host) && Namespace(owner) && Segment(name) && Segment(date)
    requires Segment(host') && Namespace(owner') && Segment(name') && Segment(date')
    requires IsKeyOf(key, host, owner, name, date) && IsKeyOf(key, host', owner', name', date')
    ensures host' == host && owner' == owner && name' == name && date' == date
  {
    KeyLocatesItsCopy(key, host, owner, name, date);
    KeyLocatesItsCopy(key, host', owner', name', date');
  }

  lemma FileSegments(name: string)
    requires Segment(name)
    ensures Segment(name + ".bundle") && Segment(name + ".sha256") && Segment(name + ".lfs.tar")
  {
  }
}
