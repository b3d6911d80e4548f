/** The skip of an unmoved repository: its rule, its bound, and ref maps as sorted lists and back. */
module Unchanged {
  import opened Base
  import opened Order
  import opened Records

  type RefMap = map<string, string>

  const REFRESH_FLOOR := 3
  const MAX_SKIP_DAYS := 30

  /** The age from which a copy is made anew: a third of the retention, and thirty days at most. */
  function RefreshBound(retention: Time): (bound: Time)
    ensures 0 <= bound <= MAX_SKIP_DAYS * DAY
    ensures retention > 0 ==> REFRESH_FLOOR * bound <= retention
  {
    var limit := MAX_SKIP_DAYS * DAY;
    if retention <= 0 then limit else Min(limit, retention / REFRESH_FLOOR)
  }

  /** The shorter of the configured days and the period the destination reports, zero for none. */
  function RetentionWindow(days: int, held: Time): (window: Time)
    ensures window > 0 <==> days > 0 || held > 0
    ensures (days > 0 ==> window <= days * DAY) && (held > 0 ==> window <= held)
    ensures window > 0 ==> window == days * DAY || window == held
  {
    var window := days * DAY;
    if held > 0 && (window <= 0 || held < window) then held else window
  }

  /** A map read as Go reads one: a missing name is the empty id. */
  function Read(m: RefMap, name: string): string {
    if name in m then m[name] else ""
  }

  /** What sameRefs computes: equal sizes, and every name of a read back from b. */
  ghost predicate SameRefsHolds(a: RefMap, b: RefMap) {
    |a| == |b| && forall n <- a :: Read(b, n) == a[n]
  }

  predicate NoEmptyIds(m: RefMap) {
    forall n <- m :: m[n] != ""
  }

  method SameRefs(a: RefMap, b: RefMap) returns (same: bool)
    ensures same <==> SameRefsHolds(a, b)
    ensures NoEmptyIds(a) ==> (same <==> a == b)
  {
    SameRefsIsEquality(a, b);
    if |a| != |b| {
      return false;
    }
    var left := a.Keys;
    while left != {}
      invariant left <= a.Keys
      invariant forall n <- a.Keys - left :: Read(b, n) == a[n]
      decreases left
    {
      var n :| n in left;
      if Read(b, n) != a[n] {
        return false;
      }
      left := left - {n};
    }
    return true;
  }

  /** The comparison is equality exactly when no empty id of a stands for a name b lacks. */
  lemma SameRefsIsEquality(a: RefMap, b: RefMap)
    ensures a == b <==> SameRefsHolds(a, b) && forall n <- a :: a[n] != "" || n in b
  {
    if SameRefsHolds(a, b) && forall n <- a :: a[n] != "" || n in b {
      forall n <- a.Keys ensures n in b.Keys && b[n] == a[n] {
        assert Read(b, n) == a[n];
      }
      SubsetSize(a.Keys, b.Keys);
    }
  }

  /** And without that it is not: one empty id makes two different maps compare the same. */
  lemma EmptyIdFoolsSameRefs()
    ensures exists a: RefMap, b: RefMap :: SameRefsHolds(a, b) && a != b
  {
    var a: RefMap := map["x" := ""];
    var b: RefMap := map["y" := "1"];
    assert "x" in a && "x" !in b;
    assert SameRefsHolds(a, b);
  }

  // ---------------------------------------------------------------- the skip

  datatype Decision = Copy | Refresh | Skip(since: int)

  ghost function Decide(previous: RefMap, current: RefMap, copiedAt: Time, now: Time, retention: Time): Decision {
    if previous == map[] || current == map[] || !SameRefsHolds(previous, current) then Copy
    else if now < copiedAt then Copy
    else if now - copiedAt >= RefreshBound(retention) then Refresh
    else Skip(DayOf(copiedAt))
  }

  method DecideUnchanged(previous: RefMap, current: RefMap, copiedAt: Time, now: Time, retention: Time)
    returns (d: Decision)
    ensures d == Decide(previous, current, copiedAt, now, retention)
  {
    if |previous| == 0 {
      return Copy;
    }
    if |current| == 0 {
      return Copy;
    }
    var same := SameRefs(previous, current);
    if !same {
      return Copy;
    }
    var age := now - copiedAt;
    if age < 0 {
      return Copy;
    }
    if age >= RefreshBound(retention) {
      return Refresh;
    }
    return Skip(DayOf(copiedAt));
  }

  /**
   The bound in full: thirty days without a retention, and with one as much as makes three of it fit, thirty
   days at most.
   */
  lemma BoundIs(retention: Time)
    ensures retention <= 0 ==> RefreshBound(retention) == 30 * DAY
    ensures retention > 0 ==>
              var bound := RefreshBound(retention);
              && 3 * bound <= retention && bound <= 30 * DAY
              && (3 * (bound + 1) > retention || bound == 30 * DAY)
  {
  }

  /** And the window: of a period that is set, the days or what the destination holds for, the shorter. */
  lemma WindowIs(days: int, held: Time)
    ensures var window := RetentionWindow(days, held);
            && (days > 0 && held > 0 ==> window == Min(days * DAY, held))
            && (days > 0 && held <= 0 ==> window == days * DAY)
            && (days <= 0 && held > 0 ==> window == held)
            && (days <= 0 && held <= 0 ==> window <= 0)
  {
  }

  /**
   The decision, by cases: a copy where no refs are known or they moved, or the recorded date is still to
   come; else a refresh from the bound on; else a skip, said to be since the day of the copy.
   */
  lemma DecideMeans(previous: RefMap, current: RefMap, copiedAt: Time, now: Time, retention: Time)
    requires NoEmptyIds(previous)
    ensures var d := Decide(previous, current, copiedAt, now, retention);
            && (d == Copy <==> previous == map[] || previous != current || now < copiedAt)
            && (d == Refresh <==>
                  previous == current != map[] && now >= copiedAt && now - copiedAt >= RefreshBound(retention))
            && (d.Skip? ==> 0 <= copiedAt - d.since * DAY < DAY)
  {
    SkipIff(previous, current, copiedAt, now, retention);
    SameRefsIsEquality(previous, current);
    assert copiedAt == DAY * DayOf(copiedAt) + copiedAt % DAY;
  }

  /** A skip happens exactly on a known, unmoved ref map and a copy whose age is in [0, bound). */
  lemma SkipIff(previous: RefMap, current: RefMap, copiedAt: Time, now: Time, retention: Time)
    requires NoEmptyIds(previous)
    ensures Decide(previous, current, copiedAt, now, retention).Skip? <==>
            previous == current != map[] && 0 <= now - copiedAt < RefreshBound(retention)
  {
    SameRefsIsEquality(previous, current);
  }

  /**
   When a skip is taken, a lock of the whole retention that was fixed at most `lead` before the copy
   was recorded has more than two thirds of the retention left, less that lead.
   */
  lemma LockOutlivesSkip(previous: RefMap, current: RefMap, copiedAt: Time, now: Time, retention: Time,
          until: Time, lead: Time)
    requires Decide(previous, current, copiedAt, now, retention).Skip? && retention > 0
    requires until >= copiedAt - lead + retention
    ensures 3 * (until - now) > 2 * retention - 3 * lead
  {
    assert REFRESH_FLOOR * RefreshBound(retention) <= retention;
  }

  // ---------------------------------------------------------------- ref lists

  /** The manifest's list of a ref map: every name once, in order. */
  ghost predicate ListOf(s: seq<Ref>, m: RefMap) {
    && SortedByName(s) && DistinctNames(s)
    && forall r :: r in s <==> r.name in m && m[r.name] == r.oid
  }

  lemma ListIsUnique(s: seq<Ref>, t: seq<Ref>, m: RefMap)
    requires ListOf(s, m) && ListOf(t, m)
    ensures s == t
  {
    SortedUnique(s, t);
  }

  method RefsToEntries(refs: RefMap) returns (out: seq<Ref>)
    ensures ListOf(out, refs)
  {
    out := [];
    var left := refs.Keys;
    while left != {}
      invariant left <= refs.Keys && DistinctNames(out)
      invariant forall r :: r in out <==> r.name in refs.Keys - left && refs[r.name] == r.oid
      decreases left
    {
      var n :| n in left;
      out := out + [Ref(n, refs[n])];
      left := left - {n};
    }
    SortByNameSorts(out);
    SortingKeepsDistinct(out);
    out := SortByName(out);
  }

  /** The inverse: the last entry of a name wins, as a Go map write does. */
  function MapOf(entries: seq<Ref>): RefMap
    decreases |entries|
  {
    if entries == [] then map[]
    else MapOf(entries[..|entries| - 1])[entries[|entries| - 1].name := entries[|entries| - 1].oid]
  }

  method EntriesToRefs(entries: seq<Ref>) returns (out: RefMap)
    ensures out == MapOf(entries) && ReadBack(entries, out)
  {
    MapReadsBack(entries);
    out := map[];
    for i := 0 to |entries|
      invariant out == MapOf(entries[..i])
    {
      assert entries[..i + 1][..i] == entries[..i];
      out := out[entries[i].name := entries[i].oid];
    }
    assert entries[..|entries|] == entries;
  }

  lemma {:induction false} MapOfDistinct(s: seq<Ref>)
    requires DistinctNames(s)
    ensures forall r :: r in s <==> r.name in MapOf(s) && MapOf(s)[r.name] == r.oid
    decreases |s|
  {
    if s != [] {
      var k := |s| - 1;
      MapOfDistinct(s[..k]);
      assert s == s[..k] + [s[k]];
      forall r ensures r in s <==> r.name in MapOf(s) && MapOf(s)[r.name] == r.oid {
        if r in s[..k] {
          var i :| 0 <= i < k && s[i] == r;
          assert s[i].name != s[k].name;
        }
      }
    }
  }

  /** No later entry has the name of entry j. */
  ghost predicate LastNamed(list: seq<Ref>, j: int) {
    0 <= j < |list| && forall k | j < k < |list| :: list[k].name != list[j].name
  }

  ghost predicate Names(list: seq<Ref>, n: string) {
    exists r <- list :: r.name == n
  }

  /** The map a list is read back as: each name in it, at the object its last entry gives. */
  ghost predicate ReadBack(list: seq<Ref>, m: RefMap) {
    && (forall n :: n in m <==> Names(list, n))
    && forall j | LastNamed(list, j) :: list[j].name in m && m[list[j].name] == list[j].oid
  }

  lemma MapReadsBack(list: seq<Ref>)
    ensures ReadBack(list, MapOf(list))
  {
    forall n ensures n in MapOf(list) <==> Names(list, n) {
      NamesInMap(list, n);
    }
    forall j | LastNamed(list, j) ensures list[j].name in MapOf(list) && MapOf(list)[list[j].name] == list[j].oid {
      LastInMap(list, j);
    }
  }

  lemma {:induction false} NamesInMap(list: seq<Ref>, n: string)
    ensures n in MapOf(list) <==> Names(list, n)
    decreases |list|
  {
    if list != [] {
      NamesInMap(list[..|list| - 1], n);
      assert list == list[..|list| - 1] + [list[|list| - 1]];
    }
  }

  lemma {:induction false} LastInMap(list: seq<Ref>, j: int)
    requires LastNamed(list, j)
    ensures list[j].name in MapOf(list) && MapOf(list)[list[j].name] == list[j].oid
    decreases |list|
  {
    if j < |list| - 1 {
      LastInMap(list[..|list| - 1], j);
      assert list[|list| - 1].name != list[j].name;
    }
  }

  /** Writing a ref map down and reading it back loses nothing. */
  lemma RefsRoundTrip(s: seq<Ref>, m: RefMap)
    requires ListOf(s, m)
    ensures MapOf(s) == m
  {
    MapOfDistinct(s);
    forall n ensures n in MapOf(s) <==> n in m {
      if n in m {
        assert Ref(n, m[n]) in s;
      }
      if n in MapOf(s) {
        assert Ref(n, MapOf(s)[n]) in s;
      }
    }
    forall n | n in m ensures MapOf(s)[n] == m[n] {
      assert Ref(n, m[n]) in s;
    }
  }

  /** Reading a list a run wrote and writing it again gives the same list: a skip carries refs unchanged. */
  lemma CarriedListIsSame(s: seq<Ref>, t: seq<Ref>)
    requires SortedByName(s) && DistinctNames(s) && ListOf(t, MapOf(s))
    ensures t == s
  {
    MapOfDistinct(s);
    ListIsUnique(s, t, MapOf(s));
  }
}
