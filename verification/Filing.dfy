/** One directory's manifests by descending name, picked from a listing by prefix, which reaches below it. */
module Filing {
  import opened Base
  import opened Records

  /** An object store never lists one key twice. */
  ghost predicate DistinctKeys(objs: seq<Object>) {
    forall i, j | 0 <= i < j < |objs| :: objs[i].key != objs[j].key
  }

  /** The second an object is named for, when it is named like a manifest. */
  function Named(o: Object): int {
    if o.key.base.Stamped? then o.key.base.second else 0
  }

  predicate IsFiled(o: Object, dir: string) {
    o.key.dir == dir && o.key.base.Stamped?
  }

  /** Strictly descending by name, all of them filed in dir. */
  ghost predicate NewestFirst(objs: seq<Object>, dir: string) {
    && (forall o <- objs :: IsFiled(o, dir))
    && forall i, j | 0 <= i < j < |objs| :: Named(objs[i]) > Named(objs[j])
  }

  function InsertNewest(o: Object, objs: seq<Object>): seq<Object>
    decreases |objs|
  {
    if objs == [] || Named(o) >= Named(objs[0]) then [o] + objs
    else [objs[0]] + InsertNewest(o, objs[1..])
  }

  function FiledManifests(objs: seq<Object>, dir: string): (out: seq<Object>)
    ensures forall o :: o in out <==> o in objs && o.key.dir == dir && o.key.base.Stamped?
    decreases |objs|
  {
    if objs == [] then []
    else
      var rest := FiledManifests(objs[1..], dir);
      if IsFiled(objs[0], dir) then
        InsertNewestMembers(objs[0], rest);
        InsertNewest(objs[0], rest)
      else rest
  }

  lemma {:induction false} InsertNewestMembers(o: Object, objs: seq<Object>)
    ensures forall p :: p in InsertNewest(o, objs) <==> p == o || p in objs
    decreases |objs|
  {
    if objs != [] && Named(o) < Named(objs[0]) {
      InsertNewestMembers(o, objs[1..]);
      assert objs == [objs[0]] + objs[1..];
    }
  }

  lemma {:induction false} InsertNewestSorts(o: Object, objs: seq<Object>, dir: string)
    requires IsFiled(o, dir) && NewestFirst(objs, dir)
    requires forall p <- objs :: p.key != o.key
    ensures NewestFirst(InsertNewest(o, objs), dir)
    decreases |objs|
  {
    if objs == [] {
    } else if Named(o) >= Named(objs[0]) {
      assert objs[0].key != o.key;
    } else {
      var rest := InsertNewest(o, objs[1..]);
      InsertNewestSorts(o, objs[1..], dir);
      InsertNewestMembers(o, objs[1..]);
      forall j | 0 <= j < |rest| ensures Named(objs[0]) > Named(rest[j]) {
        assert rest[j] in rest;
        if rest[j] != o {
          var k :| 0 <= k < |objs[1..]| && objs[1..][k] == rest[j];
          assert objs[k + 1] == rest[j];
        }
      }
    }
  }

  /** The order every reader relies on. */
  lemma {:induction false} FiledNewestFirst(objs: seq<Object>, dir: string)
    requires DistinctKeys(objs)
    ensures NewestFirst(FiledManifests(objs, dir), dir)
    decreases |objs|
  {
    if objs != [] {
      FiledNewestFirst(objs[1..], dir);
      if IsFiled(objs[0], dir) {
        var rest := FiledManifests(objs[1..], dir);
        forall p <- rest ensures p.key != objs[0].key {
          var k :| 0 <= k < |objs[1..]| && objs[1..][k] == p;
          assert objs[k + 1] == p;
        }
        InsertNewestSorts(objs[0], rest, dir);
      }
    }
  }

  /** Of dir's own manifests, the one with the greatest name that is not ahead of the clock. */
  method NewestManifest(objs: seq<Object>, dir: string, now: Time) returns (newest: Option<Object>)
    requires DistinctKeys(objs)
    ensures newest.Some? ==>
              && newest.value in objs && newest.value.key.dir == dir && newest.value.key.base.Stamped?
              && newest.value.key.base.second * SECOND <= now
    ensures forall o <- objs | o.key.dir == dir && o.key.base.Stamped? && o.key.base.second * SECOND <= now ::
              newest.Some? && o.key.base.second <= newest.value.key.base.second
  {
    var filed := FiledManifests(objs, dir);
    FiledNewestFirst(objs, dir);
    for i := 0 to |filed|
      invariant forall k | 0 <= k < i :: Named(filed[k]) * SECOND > now
    {
      if Named(filed[i]) * SECOND > now {
        continue;
      }
      forall o <- objs | IsFiled(o, dir) && Named(o) * SECOND <= now
        ensures Named(o) <= Named(filed[i])
      {
        var k :| 0 <= k < |filed| && filed[k] == o;
      }
      return Some(filed[i]);
    }
    forall o <- objs | IsFiled(o, dir) ensures Named(o) * SECOND > now {
      var k :| 0 <= k < |filed| && filed[k] == o;
    }
    return None;
  }
}
