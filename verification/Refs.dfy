/**
 The proof a restore gives: the refs a bundle declares, or the source advertised, against the refs of
 the restored repository, where a clone has renamed some of them and left others out.
 */
module Refs {
  import opened Base
  import opened Order
  import opened Unchanged

  const HEAD := "HEAD"
  const HEADS := "refs/heads/"
  const TAGS := "refs/tags/"
  const REMOTES := "refs/remotes/origin/"

  predicate Clonable(name: string) {
    HEADS <= name || TAGS <= name
  }

  /** The names a declared ref may have landed under. */
  function Candidates(name: string): seq<string> {
    if HEADS <= name then [name, REMOTES + name[|HEADS|..]] else [name]
  }

  function Lower(c: char): char {
    if 'A' <= c <= 'Z' then (c as int + 32) as char else c
  }

  /** strings.EqualFold on object ids, which are ASCII. */
  predicate EqualFold(a: string, b: string) {
    |a| == |b| && forall i :: 0 <= i < |a| ==> Lower(a[i]) == Lower(b[i])
  }

  function LowerAll(s: string): (t: string)
    ensures |t| == |s| && forall i :: 0 <= i < |s| ==> t[i] == Lower(s[i])
  {
    seq(|s|, i requires 0 <= i < |s| => Lower(s[i]))
  }

  ghost predicate NoUpper(s: string) {
    forall c <- s :: !('A' <= c <= 'Z')
  }

  /**
   Two ids fold equal exactly when their lower-case forms are equal. That form has each of A to Z as far
   from a as it was from A, and every other character as it is; so ids without capitals fold equal exactly
   when they are equal.
   */
  lemma FoldsIff(a: string, b: string)
    ensures EqualFold(a, b) <==> LowerAll(a) == LowerAll(b)
    ensures NoUpper(LowerAll(a)) && forall i :: 0 <= i < |a| ==>
              if 'A' <= a[i] <= 'Z' then LowerAll(a)[i] as int - 'a' as int == a[i] as int - 'A' as int
              else LowerAll(a)[i] == a[i]
    ensures NoUpper(a) ==> LowerAll(a) == a
    ensures NoUpper(a) && NoUpper(b) ==> (EqualFold(a, b) <==> a == b)
  {
    if NoUpper(a) {
      forall i | 0 <= i < |a| ensures Lower(a[i]) == a[i] {
        assert a[i] in a;
      }
    }
    if NoUpper(b) {
      forall i | 0 <= i < |b| ensures Lower(b[i]) == b[i] {
        assert b[i] in b;
      }
    }
    assert EqualFold(a, b) ==> LowerAll(a) == LowerAll(b);
    if LowerAll(a) == LowerAll(b) {
      forall i | 0 <= i < |a| ensures Lower(a[i]) == Lower(b[i]) {
        assert LowerAll(a)[i] == LowerAll(b)[i];
      }
    }
  }

  // ---------------------------------------------------------------- the comparison

  datatype Mismatch = Mismatch(name: string, want: string, got: string)

  datatype Comparison = Comparison(declared: nat, matched: nat, unreferenced: seq<string>, mismatches: seq<Mismatch>)

  datatype Verdict = Matched | Wrong(got: string) | Unreferenced

  /** Some name it may have has it at this object. */
  predicate Carries(names: seq<string>, restored: RefMap, oid: string) {
    exists n <- names :: n in restored && EqualFold(restored[n], oid)
  }

  /** The first object held under any of the names. An empty id counts as none. */
  function FirstHeld(names: seq<string>, restored: RefMap): string
    decreases |names|
  {
    if names == [] then ""
    else if names[0] in restored && restored[names[0]] != "" then restored[names[0]]
    else FirstHeld(names[1..], restored)
  }

  ghost function Judge(d: Ref, restored: RefMap, head: string): Verdict {
    var names := Candidates(d.name);
    if d.name == HEAD then
      if head == "" then Wrong("") else if EqualFold(head, d.oid) then Matched else Wrong(head)
    else if Carries(names, restored, d.oid) then Matched
    else if FirstHeld(names, restored) != "" then Wrong(FirstHeld(names, restored))
    else if Clonable(d.name) then Wrong("")
    else Unreferenced
  }

  function Add(t: Comparison, d: Ref, v: Verdict): Comparison {
    match v
    case Matched => Comparison(t.declared + 1, t.matched + 1, t.unreferenced, t.mismatches)
    case Wrong(got) =>
      Comparison(t.declared + 1, t.matched, t.unreferenced, t.mismatches + [Mismatch(d.name, d.oid, got)])
    case Unreferenced => Comparison(t.declared + 1, t.matched, t.unreferenced + [d.name], t.mismatches)
  }

  /** Every ref judged on its own, in order. */
  ghost function Tally(s: seq<Ref>, restored: RefMap, head: string): Comparison
    decreases |s|
  {
    if s == [] then Comparison(0, 0, [], [])
    else
      var k := |s| - 1;
      Add(Tally(s[..k], restored, head), s[k], Judge(s[k], restored, head))
  }

  ghost function Loose(s: seq<Ref>, restored: RefMap, head: string): seq<string> {
    Tally(s, restored, head).unreferenced
  }

  ghost function Misses(s: seq<Ref>, restored: RefMap, head: string): seq<Mismatch> {
    Tally(s, restored, head).mismatches
  }

  /** Every declared ref is counted once: matched, named apart, or a failure. */
  lemma {:induction false} TallyAddsUp(s: seq<Ref>, restored: RefMap, head: string)
    ensures var c := Tally(s, restored, head);
            c.declared == |s| == c.matched + |c.unreferenced| + |c.mismatches|
    decreases |s|
  {
    if s != [] {
      TallyAddsUp(s[..|s| - 1], restored, head);
    }
  }

  /** The inner loop: where a ref landed, and whether at its object. */
  method Locate(names: seq<string>, restored: RefMap, oid: string) returns (matched: bool, found: string)
    ensures matched <==> Carries(names, restored, oid)
    ensures !matched ==> found == FirstHeld(names, restored)
  {
    found := "";
    for i := 0 to |names|
      invariant FirstHeld(names, restored) == if found != "" then found else FirstHeld(names[i..], restored)
      invariant forall j :: 0 <= j < i ==> !(names[j] in restored && EqualFold(restored[names[j]], oid))
    {
      assert names[i..][1..] == names[i + 1..];
      if names[i] in restored {
        var got := restored[names[i]];
        if found == "" {
          found := got;
        }
        if EqualFold(got, oid) {
          assert names[i] in names;
          return true, found;
        }
      }
    }
    return false, found;
  }

  /** One declared ref: where it is, and whether that is a failure. */
  method Account(d: Ref, restored: RefMap, head: string) returns (v: Verdict)
    ensures v == Judge(d, restored, head)
  {
    if d.name == HEAD {
      return if head == "" then Wrong("") else if EqualFold(head, d.oid) then Matched else Wrong(head);
    }
    var here, found := Locate(Candidates(d.name), restored, d.oid);
    if here {
      return Matched;
    }
    if found != "" {
      return Wrong(found);
    }
    return if Clonable(d.name) then Wrong("") else Unreferenced;
  }

  /** What it means for a declared ref to be accounted for. */
  ghost predicate AccountedFor(d: Ref, restored: RefMap, head: string) {
    if d.name == HEAD then head != "" && EqualFold(head, d.oid)
    else
      || Carries(Candidates(d.name), restored, d.oid)
      || (!Clonable(d.name) && (d.name !in restored || restored[d.name] == ""))
  }

  lemma JudgedByAccount(d: Ref, restored: RefMap, head: string)
    ensures !Judge(d, restored, head).Wrong? <==> AccountedFor(d, restored, head)
  {
    if !Clonable(d.name) {
      var names := Candidates(d.name);
      assert names == [d.name] && names[1..] == [];
      assert FirstHeld(names[1..], restored) == "";
      assert FirstHeld(names, restored) == if d.name in restored then restored[d.name] else "";
    }
  }

  lemma {:induction false} NoMisses(s: seq<Ref>, restored: RefMap, head: string)
    ensures Misses(s, restored, head) == [] <==> forall d <- s :: AccountedFor(d, restored, head)
    decreases |s|
  {
    if s != [] {
      var k := |s| - 1;
      NoMisses(s[..k], restored, head);
      JudgedByAccount(s[k], restored, head);
      assert s == s[..k] + [s[k]];
    }
  }

  lemma {:induction false} LooseAre(s: seq<Ref>, restored: RefMap, head: string, n: string)
    ensures n in Loose(s, restored, head) <==> exists d <- s :: d.name == n && Judge(d, restored, head).Unreferenced?
    decreases |s|
  {
    if s != [] {
      var k := |s| - 1;
      LooseAre(s[..k], restored, head, n);
      assert s == s[..k] + [s[k]];
    }
  }

  lemma SameMembers(s: seq<Ref>)
    ensures forall d :: d in SortByName(s) <==> d in s
  {
    SortByNameSorts(s);
    forall d ensures d in SortByName(s) <==> d in s {
      assert d in SortByName(s) <==> d in multiset(SortByName(s));
    }
  }

  /** No mismatch is the same as each declared ref being accounted for, HEAD and all branches and tags among them. */
  lemma OkMeansAccountedFor(declared: seq<Ref>, restored: RefMap, head: string)
    ensures Misses(SortByName(declared), restored, head) == [] <==>
            forall d <- declared :: AccountedFor(d, restored, head)
  {
    NoMisses(SortByName(declared), restored, head);
    SameMembers(declared);
  }

  // ---------------------------------------------------------------- the comparison without its parts

  /** No id of the comparison has a capital letter, as git writes none. */
  ghost predicate AllLower(declared: seq<Ref>, restored: RefMap, head: string) {
    NoUpper(head) && (forall d <- declared :: NoUpper(d.oid)) && forall n <- restored :: NoUpper(restored[n])
  }

  ghost predicate HeldAt(restored: RefMap, name: string, oid: string) {
    name in restored && restored[name] == oid
  }

  /** What the restored repository owes a declared ref, by the kind of its name. */
  ghost predicate Good(d: Ref, restored: RefMap, head: string) {
    && (d.name == "HEAD" ==> head != "" && head == d.oid)
    && (forall x | d.name == "refs/heads/" + x ::
          HeldAt(restored, "refs/heads/" + x, d.oid) || HeldAt(restored, "refs/remotes/origin/" + x, d.oid))
    && (forall x | d.name == "refs/tags/" + x :: HeldAt(restored, "refs/tags/" + x, d.oid))
    && (IsOther(d.name) ==> d.name !in restored || restored[d.name] == "" || restored[d.name] == d.oid)
  }

  /** Neither HEAD nor a branch nor a tag. */
  ghost predicate IsOther(name: string) {
    name != "HEAD" && (forall x :: name != "refs/heads/" + x) && forall x :: name != "refs/tags/" + x
  }

  lemma KindOfName(name: string)
    ensures HEADS <= name <==> exists x :: name == "refs/heads/" + x
    ensures TAGS <= name <==> exists x :: name == "refs/tags/" + x
    ensures forall x | name == "refs/heads/" + x :: Candidates(name) == [name, "refs/remotes/origin/" + x]
  {
    PrefixesDiffer(name);
    if TAGS <= name {
      assert name == "refs/tags/" + name[|TAGS|..];
    }
    forall x | name == "refs/heads/" + x ensures Candidates(name) == [name, "refs/remotes/origin/" + x] {
      assert name[|HEADS|..] == x;
    }
    if x :| name == "refs/tags/" + x {
      assert TAGS <= name;
    }
    if x :| name == "refs/heads/" + x {
      assert HEADS <= name;
    }
  }

  lemma AccountedForPlainly(d: Ref, restored: RefMap, head: string)
    requires NoUpper(d.oid) && NoUpper(head) && forall n <- restored :: NoUpper(restored[n])
    ensures AccountedFor(d, restored, head) <==> Good(d, restored, head)
  {
    KindOfName(d.name);
    PrefixesDiffer(d.name);
    FoldsIff(head, d.oid);
    forall n | n in restored ensures EqualFold(restored[n], d.oid) <==> restored[n] == d.oid {
      FoldsIff(restored[n], d.oid);
    }
    if x :| d.name == "refs/heads/" + x {
      assert Candidates(d.name)[0] == d.name && Candidates(d.name)[1] == "refs/remotes/origin/" + x;
      assert Carries(Candidates(d.name), restored, d.oid) <==>
             HeldAt(restored, d.name, d.oid) || HeldAt(restored, "refs/remotes/origin/" + x, d.oid);
      assert forall y | d.name == "refs/heads/" + y :: y == x by {
        forall y | d.name == "refs/heads/" + y ensures y == x {
          assert d.name[|HEADS|..] == y && d.name[|HEADS|..] == x;
        }
      }
    } else {
      assert Candidates(d.name) == [d.name];
      assert Carries(Candidates(d.name), restored, d.oid) <==> HeldAt(restored, d.name, d.oid);
    }
  }

  /** The object under the name, or the empty id where there is none. */
  function IdAt(restored: RefMap, name: string): string {
    if name in restored then restored[name] else ""
  }

  /** What a failure reports as found: HEAD's object, or the ref's own, or, for a branch without, its clone's. */
  ghost predicate Found(d: Ref, restored: RefMap, head: string, got: string) {
    && (d.name == "HEAD" ==> got == head)
    && (forall x | d.name == "refs/heads/" + x ::
          got == if IdAt(restored, d.name) != "" then IdAt(restored, d.name)
                 else IdAt(restored, "refs/remotes/origin/" + x))
    && (d.name != "HEAD" && (forall x :: d.name != "refs/heads/" + x) ==> got == IdAt(restored, d.name))
  }

  /** A failure for this ref: what it should be at, and what was found. */
  ghost predicate Fails(d: Ref, restored: RefMap, head: string, m: Mismatch) {
    !Good(d, restored, head) && m.name == d.name && m.want == d.oid && Found(d, restored, head, m.got)
  }

  /** Neither HEAD nor branch nor tag, and not there. */
  ghost predicate Absent(d: Ref, restored: RefMap) {
    IsOther(d.name) && IdAt(restored, d.name) == "" && !HeldAt(restored, d.name, d.oid)
  }

  lemma JudgedPlainly(d: Ref, restored: RefMap, head: string)
    requires NoUpper(d.oid) && NoUpper(head) && forall n <- restored :: NoUpper(restored[n])
    ensures var v := Judge(d, restored, head);
            && (v.Wrong? <==> !Good(d, restored, head))
            && (v.Wrong? ==> Found(d, restored, head, v.got))
            && (v.Unreferenced? <==> Absent(d, restored))
  {
    JudgedByAccount(d, restored, head);
    AccountedForPlainly(d, restored, head);
    KindOfName(d.name);
    PrefixesDiffer(d.name);
    var names := Candidates(d.name);
    FirstOfTwo(names, restored);
    forall n | n in restored ensures EqualFold(restored[n], d.oid) <==> restored[n] == d.oid {
      FoldsIff(restored[n], d.oid);
    }
    forall x | d.name == "refs/heads/" + x ensures names[1] == "refs/remotes/origin/" + x {
    }
  }

  lemma FirstOfTwo(names: seq<string>, restored: RefMap)
    requires 1 <= |names| <= 2
    ensures FirstHeld(names, restored) ==
            if IdAt(restored, names[0]) != "" || |names| == 1 then IdAt(restored, names[0])
            else IdAt(restored, names[1])
  {
    assert names[1..] == if |names| == 1 then [] else [names[1]];
    if |names| == 2 {
      assert names[1..][1..] == [];
    }
  }

  ghost predicate SomeFails(s: seq<Ref>, restored: RefMap, head: string, m: Mismatch) {
    exists d <- s :: Fails(d, restored, head, m)
  }

  ghost predicate SomeAbsent(s: seq<Ref>, restored: RefMap, name: string) {
    exists d <- s :: d.name == name && Absent(d, restored)
  }

  lemma {:induction false} LoosePlainly(s: seq<Ref>, restored: RefMap, head: string, n: string)
    requires AllLower(s, restored, head)
    ensures n in Loose(s, restored, head) <==> SomeAbsent(s, restored, n)
    decreases |s|
  {
    if s != [] {
      var k := |s| - 1;
      assert s == s[..k] + [s[k]];
      LoosePlainly(s[..k], restored, head, n);
      JudgedPlainly(s[k], restored, head);
    }
  }

  lemma {:induction false} MissesPlainly(s: seq<Ref>, restored: RefMap, head: string, m: Mismatch)
    requires AllLower(s, restored, head)
    ensures m in Misses(s, restored, head) <==> SomeFails(s, restored, head, m)
    decreases |s|
  {
    if s != [] {
      var k := |s| - 1;
      assert s == s[..k] + [s[k]];
      MissesPlainly(s[..k], restored, head, m);
      JudgedPlainly(s[k], restored, head);
      OneFailure(s[k], restored, head, m);
    }
  }

  lemma OneFailure(d: Ref, restored: RefMap, head: string, m: Mismatch)
    requires NoUpper(d.oid) && NoUpper(head) && forall n <- restored :: NoUpper(restored[n])
    ensures var v := Judge(d, restored, head);
            Fails(d, restored, head, m) <==> v.Wrong? && m == Mismatch(d.name, d.oid, v.got)
  {
    JudgedPlainly(d, restored, head);
    if x :| d.name == "refs/heads/" + x {
      PrefixesDiffer(d.name);
    }
  }

  /** What a comparison says of the declared refs: which fail, and as what, and which are named apart. */
  ghost predicate Compares(c: Comparison, declared: seq<Ref>, restored: RefMap, head: string) {
    && (c.mismatches == [] <==> forall d <- declared :: Good(d, restored, head))
    && (forall m :: m in c.mismatches <==> SomeFails(declared, restored, head, m))
    && (forall n :: n in c.unreferenced <==> SomeAbsent(declared, restored, n))
  }

  /**
   For ids without capitals there is no mismatch exactly when HEAD, if it is declared, is there and equal,
   each branch is at its object under its own name or under the one a clone gives it, each tag under its
   own name, and any other ref is absent, empty or equal. Every other ref that is absent is named apart.
   */
  lemma ComparisonPlainly(declared: seq<Ref>, restored: RefMap, head: string)
    requires AllLower(declared, restored, head)
    ensures Compares(Tally(SortByName(declared), restored, head), declared, restored, head)
  {
    var sorted := SortByName(declared);
    SameMembers(declared);
    OkPlainly(declared, restored, head);
    forall m ensures m in Misses(sorted, restored, head) <==> SomeFails(declared, restored, head, m) {
      MissesPlainly(sorted, restored, head, m);
      SameSome(sorted, declared, restored, head, m);
    }
    forall n ensures n in Loose(sorted, restored, head) <==> SomeAbsent(declared, restored, n) {
      LoosePlainly(sorted, restored, head, n);
      SameSome(sorted, declared, restored, head, Mismatch(n, "", ""));
    }
  }

  lemma OkPlainly(declared: seq<Ref>, restored: RefMap, head: string)
    requires AllLower(declared, restored, head)
    ensures Misses(SortByName(declared), restored, head) == [] <==> forall d <- declared :: Good(d, restored, head)
  {
    OkMeansAccountedFor(declared, restored, head);
    forall d | d in declared ensures AccountedFor(d, restored, head) <==> Good(d, restored, head) {
      AccountedForPlainly(d, restored, head);
    }
  }

  lemma SameSome(s: seq<Ref>, t: seq<Ref>, restored: RefMap, head: string, m: Mismatch)
    requires forall d :: d in s <==> d in t
    ensures SomeFails(s, restored, head, m) <==> SomeFails(t, restored, head, m)
    ensures SomeAbsent(s, restored, m.name) <==> SomeAbsent(t, restored, m.name)
  {
  }

  method CompareRefs(declared: seq<Ref>, restored: RefMap, head: string) returns (c: Comparison)
    ensures c.declared == |declared| == c.matched + |c.unreferenced| + |c.mismatches|
    ensures c == Tally(SortByName(declared), restored, head)
    ensures AllLower(declared, restored, head) ==> Compares(c, declared, restored, head)
  {
    var sorted := SortByName(declared);
    c := Comparison(0, 0, [], []);
    for i := 0 to |sorted|
      invariant c == Tally(sorted[..i], restored, head)
    {
      var v := Account(sorted[i], restored, head);
      assert sorted[..i + 1][..i] == sorted[..i];
      c := Add(c, sorted[i], v);
    }
    assert sorted[..|sorted|] == sorted;
    TallyAddsUp(sorted, restored, head);
    if AllLower(declared, restored, head) {
      ComparisonPlainly(declared, restored, head);
    }
  }

  // ---------------------------------------------------------------- what git clone makes of a bundle

  /** The ref a clone's default refspec creates for a declared one. */
  function LandsAt(name: string): Option<string> {
    if HEADS <= name then Some(REMOTES + name[|HEADS|..])
    else if TAGS <= name then Some(name)
    else None
  }

  function Fetched(declared: seq<Ref>): RefMap
    decreases |declared|
  {
    if declared == [] then map[]
    else
      var k := |declared| - 1;
      var rest := Fetched(declared[..k]);
      if LandsAt(declared[k].name).Some? then rest[LandsAt(declared[k].name).value := declared[k].oid] else rest
  }

  /** With a branch checked out, a clone has that branch itself and refs/remotes/origin/HEAD, both at its object. */
  function Cloned(declared: seq<Ref>, branch: Option<Ref>): RefMap {
    if branch.None? then Fetched(declared)
    else Fetched(declared)[REMOTES + HEAD := branch.value.oid][branch.value.name := branch.value.oid]
  }

  /**
   A bundle of distinct refs, none at the empty object, no branch called HEAD, and the branch a clone
   of it checks out.
   */
  ghost predicate Bundled(declared: seq<Ref>, branch: Option<Ref>, head: string) {
    && DistinctNames(declared)
    && (forall d <- declared :: d.oid != "" && d.name != HEADS + HEAD && (d.name == HEAD ==> head == d.oid))
    && (branch.Some? ==> branch.value in declared && HEADS <= branch.value.name)
  }

  lemma PrefixesDiffer(name: string)
    ensures HEADS <= name ==> name == HEADS + name[|HEADS|..] && !(REMOTES <= name) && !(TAGS <= name) && name != HEAD
    ensures TAGS <= name ==> !(REMOTES <= name) && name != HEAD
    ensures REMOTES <= name ==> name == REMOTES + name[|REMOTES|..] && name != HEAD
  {
    assert HEADS[5] == 'h' && TAGS[5] == 't' && REMOTES[5] == 'r';
  }

  lemma LandsApart(a: string, b: string)
    requires LandsAt(a).Some? && LandsAt(a) == LandsAt(b)
    ensures a == b
  {
    PrefixesDiffer(a);
    PrefixesDiffer(b);
    var at := LandsAt(a).value;
    PrefixesDiffer(at);
    if HEADS <= a {
      assert REMOTES <= at;
      assert HEADS <= b;
      assert a[|HEADS|..] == at[|REMOTES|..] == b[|HEADS|..];
    } else {
      assert TAGS <= at;
      assert !(REMOTES <= at);
    }
  }

  lemma NotTheLast(s: seq<Ref>, d: Ref)
    requires DistinctNames(s) && s != [] && d in s[..|s| - 1]
    ensures d.name != s[|s| - 1].name
  {
  }

  lemma {:induction false} FetchedAt(declared: seq<Ref>, at: string)
    requires DistinctNames(declared)
    ensures at in Fetched(declared) ==>
            exists d <- declared :: LandsAt(d.name) == Some(at) && Fetched(declared)[at] == d.oid
    ensures forall d <- declared :: LandsAt(d.name) == Some(at) ==>
            at in Fetched(declared) && Fetched(declared)[at] == d.oid
    decreases |declared|
  {
    if declared != [] {
      var k := |declared| - 1;
      FetchedAt(declared[..k], at);
      assert declared == declared[..k] + [declared[k]];
      forall d | d in declared && LandsAt(d.name) == Some(at)
        ensures at in Fetched(declared) && Fetched(declared)[at] == d.oid
      {
        if d in declared[..k] {
          NotTheLast(declared, d);
          if LandsAt(declared[k].name) == Some(at) {
            LandsApart(d.name, declared[k].name);
            assert false;
          }
        }
      }
    }
  }

  lemma FoldsToItself(a: string)
    ensures EqualFold(a, a)
  {
  }

  lemma LandsUnderRemotes(name: string, rest: string)
    ensures LandsAt(name) == Some(REMOTES + rest) <==> name == HEADS + rest
  {
    PrefixesDiffer(name);
    PrefixesDiffer(REMOTES + rest);
    assert REMOTES <= REMOTES + rest && HEADS <= HEADS + rest;
    assert (HEADS + rest)[|HEADS|..] == rest;
    if LandsAt(name) == Some(REMOTES + rest) {
      assert HEADS <= name;
      assert name[|HEADS|..] == (REMOTES + name[|HEADS|..])[|REMOTES|..] == rest;
    }
  }

  /** Every declared branch and tag is in a clone at its object. */
  lemma ClonableIsCarried(declared: seq<Ref>, branch: Option<Ref>, head: string, d: Ref)
    requires Bundled(declared, branch, head) && d in declared && Clonable(d.name)
    ensures Carries(Candidates(d.name), Cloned(declared, branch), d.oid)
    ensures HeldAt(Cloned(declared, branch), LandsAt(d.name).value, d.oid)
    ensures d.name != HEAD
  {
    PrefixesDiffer(d.name);
    var at := LandsAt(d.name).value;
    FetchedAt(declared, at);
    assert at in Candidates(d.name) by {
      assert Candidates(d.name)[|Candidates(d.name)| - 1] == at;
    }
    FoldsToItself(d.oid);
    if branch.Some? {
      PrefixesDiffer(branch.value.name);
      LandsUnderRemotes(d.name, HEAD);
      assert at != branch.value.name by {
        PrefixesDiffer(at);
      }
    }
  }

  /** A declared name under refs/remotes/origin/ that a clone gives to another branch, at another object. */
  ghost predicate Clashes(declared: seq<Ref>, branch: Option<Ref>, d: Ref) {
    && REMOTES <= d.name
    && var rest := d.name[|REMOTES|..];
       || (exists e <- declared :: e.name == HEADS + rest && !EqualFold(e.oid, d.oid))
       || (branch.Some? && rest == HEAD && !EqualFold(branch.value.oid, d.oid))
  }

  /** What a clone holds under a name that no branch or tag has: nothing, but where a branch is tracked. */
  lemma OtherNamesInClone(declared: seq<Ref>, branch: Option<Ref>, head: string, d: Ref)
    requires Bundled(declared, branch, head) && d in declared && !Clonable(d.name)
    ensures !(REMOTES <= d.name) ==> d.name !in Cloned(declared, branch)
    ensures Clashes(declared, branch, d) <==>
            d.name in Cloned(declared, branch) && !EqualFold(Cloned(declared, branch)[d.name], d.oid)
  {
    FetchedAt(declared, d.name);
    PrefixesDiffer(d.name);
    if branch.Some? {
      assert d.name != branch.value.name;
    }
    if REMOTES <= d.name {
      var rest := d.name[|REMOTES|..];
      forall e | e in declared
        ensures LandsAt(e.name) == Some(d.name) <==> e.name == HEADS + rest
      {
        LandsUnderRemotes(e.name, rest);
      }
      assert d.name == REMOTES + HEAD <==> rest == HEAD by {
        assert (REMOTES + HEAD)[|REMOTES|..] == HEAD;
      }
    } else {
      forall e | e in declared
        ensures LandsAt(e.name) != Some(d.name)
      {
        PrefixesDiffer(e.name);
      }
      assert REMOTES <= REMOTES + HEAD;
    }
  }

  /**
   A clone of a bundle compares good exactly when none of the bundle's own refs lies where the clone put
   a branch at another object.
   */
  lemma CloneComparesIff(declared: seq<Ref>, branch: Option<Ref>, head: string)
    requires Bundled(declared, branch, head)
    ensures Misses(SortByName(declared), Cloned(declared, branch), head) == [] <==>
            forall d <- declared :: !Clashes(declared, branch, d)
  {
    OkMeansAccountedFor(declared, Cloned(declared, branch), head);
    forall d | d in declared
      ensures AccountedFor(d, Cloned(declared, branch), head) <==> !Clashes(declared, branch, d)
    {
      RestoredOrClashes(declared, branch, head, d);
    }
  }

  lemma RestoredOrClashes(declared: seq<Ref>, branch: Option<Ref>, head: string, d: Ref)
    requires Bundled(declared, branch, head) && d in declared
    ensures AccountedFor(d, Cloned(declared, branch), head) <==> !Clashes(declared, branch, d)
  {
    PrefixesDiffer(d.name);
    if d.name == HEAD {
      FoldsToItself(d.oid);
    } else if Clonable(d.name) {
      ClonableIsCarried(declared, branch, head, d);
    } else {
      OtherNamesInClone(declared, branch, head, d);
      if d.name in Cloned(declared, branch) {
        ClonedIsHeld(declared, branch, head, d.name);
      }
    }
  }

  /** No ref of a clone is at the empty object. */
  lemma ClonedIsHeld(declared: seq<Ref>, branch: Option<Ref>, head: string, at: string)
    requires Bundled(declared, branch, head) && at in Cloned(declared, branch)
    ensures Cloned(declared, branch)[at] != ""
  {
    FetchedAt(declared, at);
  }

  /**
   Without such refs it always does, and what it names apart is exactly what a clone creates no ref for:
   every other ref but HEAD, by name, in order.
   */
  lemma CloneAlwaysCompares(declared: seq<Ref>, branch: Option<Ref>, head: string, n: string)
    requires Bundled(declared, branch, head) && forall d <- declared :: !(REMOTES <= d.name)
    ensures Misses(SortByName(declared), Cloned(declared, branch), head) == []
    ensures n in Loose(SortByName(declared), Cloned(declared, branch), head) <==>
            n != HEAD && !Clonable(n) && exists d <- declared :: d.name == n
  {
    CloneComparesIff(declared, branch, head);
    LooseAre(SortByName(declared), Cloned(declared, branch), head, n);
    SameMembers(declared);
    forall d | d in declared
      ensures Judge(d, Cloned(declared, branch), head).Unreferenced? <==> d.name != HEAD && !Clonable(d.name)
    {
      LooseInClone(declared, branch, head, d);
    }
  }

  lemma LooseInClone(declared: seq<Ref>, branch: Option<Ref>, head: string, d: Ref)
    requires Bundled(declared, branch, head) && d in declared && !(REMOTES <= d.name)
    ensures Judge(d, Cloned(declared, branch), head).Unreferenced? <==> d.name != HEAD && !Clonable(d.name)
  {
    if d.name != HEAD {
      if Clonable(d.name) {
        ClonableIsCarried(declared, branch, head, d);
      } else {
        OtherNamesInClone(declared, branch, head, d);
        var names := Candidates(d.name);
        assert names == [d.name] && names[1..] == [];
        assert FirstHeld(names[1..], Cloned(declared, branch)) == "";
        assert FirstHeld(names, Cloned(declared, branch)) == "";
      }
    }
  }

  /** With one, it need not: the clone's branch lies over the declared ref. */
  lemma TrackedNameClashes()
    ensures exists declared, head ::
              Bundled(declared, None, head) && Misses(SortByName(declared), Cloned(declared, None), head) != []
  {
    var declared := [Ref(HEADS + "x", "1"), Ref(REMOTES + "x", "2")];
    assert declared[0].name[5] == 'h' && declared[1].name[5] == 'r';
    assert |declared[0].name| == 12 && |HEADS + HEAD| == 15 && |declared[1].name| == 21;
    assert declared[1].name[|REMOTES|..] == "x";
    assert !EqualFold("1", "2") by {
      assert Lower("1"[0]) != Lower("2"[0]);
    }
    assert declared[0] in declared && declared[1] in declared;
    assert Clashes(declared, None, declared[1]);
    CloneComparesIff(declared, None, "");
  }

  // ---------------------------------------------------------------- what a copy is held to

  /** The clonable names the first listing had and the clone lacks. */
  function Lacking(advertised: RefMap, copied: RefMap): set<string> {
    set n | n in advertised && n !in copied && Clonable(n)
  }

  ghost predicate IsBranchOrTag(name: string) {
    "refs/heads/" <= name || "refs/tags/" <= name
  }

  lemma HeldOrLacking(advertised: RefMap, copied: RefMap, n: string)
    requires n in advertised && Clonable(n)
    ensures n in copied || n in Lacking(advertised, copied)
  {
  }

  /**
   What was advertised before cloning and still is afterwards, the clone has; without a
   second listing, all of them.
   */
  method CloneHolds(advertised: RefMap, copied: RefMap, again: Option<RefMap>) returns (holds: bool, asked: bool)
    ensures asked <==> exists n <- advertised :: n !in copied && IsBranchOrTag(n)
    ensures holds <==> forall n <- advertised | n !in copied && IsBranchOrTag(n) :: again.Some? && n !in again.value
  {
    var lacking: set<string> := {};
    var left := advertised.Keys;
    while left != {}
      invariant left <= advertised.Keys
      invariant lacking == set n | n in Lacking(advertised, copied) && n !in left
      decreases left
    {
      var n :| n in left;
      if n !in copied && Clonable(n) {
        lacking := lacking + {n};
      }
      left := left - {n};
    }
    assert lacking == Lacking(advertised, copied);
    forall n | n in advertised ensures n in lacking <==> n !in copied && IsBranchOrTag(n) {
    }
    if lacking == {} {
      return true, false;
    }
    if again.None? {
      return false, true;
    }
    var still: set<string> := set n | n in lacking && n in again.value;
    holds := still == {};
    if !holds {
      var n :| n in still;
      assert n in advertised && IsBranchOrTag(n);
    }
    asked := true;
  }

  /** Declared and recorded refs agree, names and objects both, with none over on either side. */
  method BundleHolds(copied: RefMap, heads: seq<Ref>) returns (holds: bool)
    ensures NoEmptyIds(copied) && DistinctNames(heads) ==>
              (holds <==> forall r :: r in heads <==> r.name in copied && copied[r.name] == r.oid)
  {
    var declared := EntriesToRefs(heads);
    holds := SameRefs(copied, declared);
    if DistinctNames(heads) {
      MapOfDistinct(heads);
      MapIs(heads, copied);
    }
  }

  lemma MapIs(heads: seq<Ref>, copied: RefMap)
    requires DistinctNames(heads)
    ensures copied == MapOf(heads) <==> forall r :: r in heads <==> r.name in copied && copied[r.name] == r.oid
  {
    MapOfDistinct(heads);
    if forall r :: r in heads <==> r.name in copied && copied[r.name] == r.oid {
      forall n ensures n in copied <==> n in MapOf(heads) {
        if n in copied {
          assert Ref(n, copied[n]) in heads;
        }
        if n in MapOf(heads) {
          assert Ref(n, MapOf(heads)[n]) in heads;
        }
      }
      forall n | n in copied ensures copied[n] == MapOf(heads)[n] {
        assert Ref(n, copied[n]) in heads;
      }
    }
  }

  /**
   From the source to the restore. A copy both checks let through, whose bundle is cloned, compares good
   against the refs it records; and a branch or tag in the source's first listing that is also
   advertised after it is in the restored repository at the object the record gives.
   */
  lemma NothingIsLost(advertised: RefMap, again: Option<RefMap>, copied: RefMap, heads: seq<Ref>,
          branch: Option<Ref>, head: string, n: string)
    requires forall m <- advertised | m !in copied && IsBranchOrTag(m) :: again.Some? && m !in again.value
    requires forall r :: r in heads <==> r.name in copied && copied[r.name] == r.oid
    requires Bundled(heads, branch, head) && forall d <- heads :: !(REMOTES <= d.name)
    ensures Misses(SortByName(heads), Cloned(heads, branch), head) == []
    ensures n in advertised && IsBranchOrTag(n) && (again.Some? ==> n in again.value) ==>
              && n in copied
              && (forall x | n == "refs/heads/" + x ::
                    HeldAt(Cloned(heads, branch), "refs/remotes/origin/" + x, copied[n]))
              && ("refs/tags/" <= n ==> HeldAt(Cloned(heads, branch), n, copied[n]))
  {
    CloneAlwaysCompares(heads, branch, head, n);
    if n in advertised && IsBranchOrTag(n) && (again.Some? ==> n in again.value) {
      HeldOrLacking(advertised, copied, n);
      KindOfName(n);
      PrefixesDiffer(n);
      var d := Ref(n, copied[n]);
      assert d in heads;
      ClonableIsCarried(heads, branch, head, d);
    }
  }
}
