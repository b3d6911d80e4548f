/** Go's string order, and sorting by name: what sort.Slice and slices.Sort leave behind. */
module Order {
  /** a <= b, byte for byte. */
  predicate AtMost(a: string, b: string)
    decreases |a|
  {
    a == [] || (b != [] && (a[0] < b[0] || (a[0] == b[0] && AtMost(a[1..], b[1..]))))
  }

  lemma {:induction false} AtMostReflexive(a: string)
    ensures AtMost(a, a)
    decreases |a|
  {
    if a != [] {
      AtMostReflexive(a[1..]);
    }
  }

  lemma {:induction false} AtMostTotal(a: string, b: string)
    ensures AtMost(a, b) || AtMost(b, a)
    decreases |a|
  {
    if a != [] && b != [] && a[0] == b[0] {
      AtMostTotal(a[1..], b[1..]);
    }
  }

  lemma {:induction false} AtMostAntisymmetric(a: string, b: string)
    requires AtMost(a, b) && AtMost(b, a)
    ensures a == b
    decreases |a|
  {
    if a != [] && b != [] {
      AtMostAntisymmetric(a[1..], b[1..]);
      assert a == [a[0]] + a[1..] && b == [b[0]] + b[1..];
    }
  }

  lemma {:induction false} AtMostTransitive(a: string, b: string, c: string)
    requires AtMost(a, b) && AtMost(b, c)
    ensures AtMost(a, c)
    decreases |a|
  {
    if a != [] && a[0] == b[0] && b[0] == c[0] {
      AtMostTransitive(a[1..], b[1..], c[1..]);
    }
  }

  /** A ref and the object it points at: a manifest's ref entry, and a bundle header's line. */
  datatype Ref = Ref(name: string, oid: string)

  ghost predicate SortedByName(s: seq<Ref>) {
    forall i, j | 0 <= i < j < |s| :: AtMost(s[i].name, s[j].name)
  }

  ghost predicate DistinctNames(s: seq<Ref>) {
    forall i, j | 0 <= i < j < |s| :: s[i].name != s[j].name
  }

  /** r before the first element with a larger name. */
  function Insert(r: Ref, s: seq<Ref>): (out: seq<Ref>)
    ensures |out| == |s| + 1
    decreases |s|
  {
    if s == [] || AtMost(r.name, s[0].name) then [r] + s else [s[0]] + Insert(r, s[1..])
  }

  function SortByName(s: seq<Ref>): (out: seq<Ref>)
    ensures |out| == |s|
    decreases |s|
  {
    if s == [] then [] else Insert(s[0], SortByName(s[1..]))
  }

  lemma {:induction false} InsertKeeps(r: Ref, s: seq<Ref>)
    requires SortedByName(s)
    ensures SortedByName(Insert(r, s)) && multiset(Insert(r, s)) == multiset(s) + multiset{r}
    decreases |s|
  {
    if s == [] {
    } else if AtMost(r.name, s[0].name) {
      forall j | 0 <= j < |s| ensures AtMost(r.name, s[j].name) {
        if j > 0 {
          AtMostTransitive(r.name, s[0].name, s[j].name);
        }
      }
    } else {
      AtMostTotal(r.name, s[0].name);
      var rest := Insert(r, s[1..]);
      InsertKeeps(r, s[1..]);
      assert s == [s[0]] + s[1..];
      forall j | 0 <= j < |rest| ensures AtMost(s[0].name, rest[j].name) {
        assert rest[j] in multiset(rest);
        if rest[j] != r {
          assert rest[j] in multiset(s[1..]);
          assert rest[j] in s[1..];
        }
      }
    }
  }

  lemma {:induction false} SortByNameSorts(s: seq<Ref>)
    ensures SortedByName(SortByName(s)) && multiset(SortByName(s)) == multiset(s)
    decreases |s|
  {
    if s != [] {
      SortByNameSorts(s[1..]);
      InsertKeeps(s[0], SortByName(s[1..]));
      assert s == [s[0]] + s[1..];
    }
  }

  lemma {:induction false} InsertMembers(r: Ref, s: seq<Ref>)
    ensures forall q :: q in Insert(r, s) <==> q == r || q in s
    decreases |s|
  {
    if s != [] && !AtMost(r.name, s[0].name) {
      InsertMembers(r, s[1..]);
      assert s == [s[0]] + s[1..];
    }
  }

  lemma {:induction false} InsertDistinct(r: Ref, s: seq<Ref>)
    requires DistinctNames(s) && forall q <- s :: q.name != r.name
    ensures DistinctNames(Insert(r, s))
    decreases |s|
  {
    if s != [] && !AtMost(r.name, s[0].name) {
      var rest := Insert(r, s[1..]);
      InsertDistinct(r, s[1..]);
      InsertMembers(r, s[1..]);
      forall j | 0 <= j < |rest| ensures rest[j].name != s[0].name {
        assert rest[j] in rest;
      }
    }
  }

  lemma {:induction false} SortingKeepsDistinct(s: seq<Ref>)
    requires DistinctNames(s)
    ensures DistinctNames(SortByName(s)) && forall r :: r in SortByName(s) <==> r in s
    decreases |s|
  {
    if s != [] {
      SortingKeepsDistinct(s[1..]);
      InsertDistinct(s[0], SortByName(s[1..]));
      InsertMembers(s[0], SortByName(s[1..]));
      assert s == [s[0]] + s[1..];
    }
  }

  /** Same elements, distinct names, both sorted: the same list. */
  lemma {:induction false} SortedUnique(s: seq<Ref>, t: seq<Ref>)
    requires SortedByName(s) && SortedByName(t) && DistinctNames(s) && DistinctNames(t)
    requires forall r :: r in s <==> r in t
    ensures s == t
    decreases |s|
  {
    if s == [] {
      if t != [] {
        HasMember(t);
        assert false;
      }
    } else {
      assert s[0] in s && s[0] in t;
      assert t[0] in t && t[0] in s;
      FirstIsLeast(s, t[0]);
      FirstIsLeast(t, s[0]);
      AtMostAntisymmetric(s[0].name, t[0].name);
      SameNameSameRef(s, s[0], t[0]);
      TailMembers(s);
      TailMembers(t);
      SortedUnique(s[1..], t[1..]);
    }
  }

  lemma HasMember(s: seq<Ref>)
    requires s != []
    ensures exists r :: r in s
  {
    assert s[0] in s;
  }

  lemma FirstIsLeast(s: seq<Ref>, r: Ref)
    requires SortedByName(s) && r in s
    ensures AtMost(s[0].name, r.name)
  {
    AtMostReflexive(r.name);
  }

  lemma SameNameSameRef(s: seq<Ref>, r: Ref, q: Ref)
    requires DistinctNames(s) && r in s && q in s && r.name == q.name
    ensures r == q
  {
  }

  lemma TailMembers(s: seq<Ref>)
    requires s != [] && DistinctNames(s)
    ensures forall r :: r in s[1..] <==> r in s && r != s[0]
  {
    assert s == [s[0]] + s[1..];
  }
}
