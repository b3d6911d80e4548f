/**
 A write's body may only be whole when its stream is the artifact: size bytes and not one more, ending
 there. S3's reader withholds the last bytes until it has seen the end; GCS's and Azure's say the end
 only where it is, and what commits waits for that.
 */
module ExactReaders {
  import opened Base
  import opened Streams

  // ---------------------------------------------------------------- S3

  const EMPTY_READS := 100

  /** Past the last byte, the end is reached before the reader gives up on reads of nothing. */
  predicate EndsInTime(empties: nat, eager: bool) {
    empties < EMPTY_READS || (empties == EMPTY_READS && eager)
  }

  /** The stream holds exactly `need` more bytes, then ends, with few enough reads of nothing before the end. */
  predicate Exact(s: Script, need: int) {
    Ends(s, need) && EndsInTime(Trailing(s.pieces), s.eager)
  }

  /**
   The same, of the reader's answers: so many bytes in all, an end and no failure, and at most 99 reads of
   nothing before it, or 100 when the last of them says the end itself.
   */
  lemma ExactMeans(s: Script, need: int)
    ensures Exact(s, need) <==>
            && |Flatten(s.pieces)| == need && s.ending.Eof?
            && (Trailing(s.pieces) <= 99 || (Trailing(s.pieces) == 100 && s.eager))
  {
  }

  lemma ExactAfterShortRead(s: Script, max: nat, need: int)
    requires s.Valid() && max > 0 && |ReadOne(s, max).0| < need
    ensures var (got, err, rest) := ReadOne(s, max);
            && (err == NoErr ==> (Exact(rest, need - |got|) <==> Exact(s, need)))
            && (err != NoErr ==> !Exact(s, need))
  {
    ReadOneMeans(s, max);
    EndsAfterRead(s, max, need);
  }

  lemma ExactAfterLastRead(s: Script, max: nat, need: int)
    requires s.Valid() && max > 0 && |ReadOne(s, max).0| == need > 0
    ensures var (got, err, rest) := ReadOne(s, max);
            && (err == NoErr ==>
                (Exact(s, need) <==> rest.Data() == [] && rest.ending.Eof? && EndsInTime(|rest.pieces|, rest.eager)))
            && (err != NoErr ==> (Exact(s, need) <==> err.Eof?))
            && (Exact(s, need) ==> got == s.Data())
  {
    ReadOneMeans(s, max);
    EndsAfterRead(s, max, need);
    var (got, err, rest) := ReadOne(s, max);
    assert |s.Data()| == |got| + |rest.Data()|;
    assert rest.Data() == [] ==> got + rest.Data() == got;
  }

  lemma PrefixThrough(a: Bytes, b: Bytes)
    ensures a <= a + b
  {
  }

  class S3Reader {
    const r: Reader
    const size: int
    var n: int
    var err: Err
    ghost var from: int      // where the last seek landed, measured from the artifact's start
    ghost var source: Script // all the stream would give from there
    ghost var passed: Bytes  // what has been passed on since

    ghost predicate Valid()
      reads this, r
    {
      && r.Valid() && source.Valid() && size >= 0
      && n == from + |passed| && (passed != [] ==> from >= 0)
      && (err == NoErr ==> Open())
      && (err.Eof? ==> Whole())
      && (err != NoErr && !err.Eof? ==> Broken())
    }

    /** Still reading: what was passed and what is left make up the source, and some of the artifact is left. */
    ghost predicate Open()
      reads this, r
    {
      && passed + r.script.Data() == source.Data()
      && (passed != [] ==> n < size)
      && (Exact(r.script, size - n) <==> Exact(source, size - from))
    }

    /** Everything to the artifact's end was passed, and the stream was exact. */
    ghost predicate Whole()
      reads this
    {
      err == Eof(false) && 0 <= from && n == size && passed == source.Data() && Exact(source, size - from)
    }

    /** Ended in an error: a prefix was passed, short of the artifact's end, and the stream was not exact. */
    ghost predicate Broken()
      reads this
    {
      passed <= source.Data() && (passed == [] || n < size) && (0 <= from ==> !Exact(source, size - from))
    }

    constructor (r: Reader, size: int)
      requires r.Valid() && size >= 0
      ensures Valid() && this.r == r && this.size == size
      ensures n == 0 && err == NoErr && from == 0 && source == r.script && passed == []
    {
      this.r, this.size := r, size;
      n, err := 0, NoErr;
      from, source, passed := 0, r.script, [];
    }

    method Read(max: nat) returns (got: Bytes, e: Err)
      requires Valid()
      modifies this, r
      ensures Valid() && from == old(from) && source == old(source)
      ensures passed == old(passed) + got && |got| <= max
      ensures old(err) != NoErr ==> got == [] && e == err == old(err) && r.script == old(r.script)
      ensures e == NoErr || e == err
      ensures err == NoErr && max > 0 ==> r.script.Size() < old(r.script.Size())
    {
      if err != NoErr {
        return [], err;
      }
      if max == 0 {
        return [], NoErr;
      }
      if n < 0 || n > size {
        err := MovedOutside;
        return [], err;
      }
      var want := Min(max, size - n);
      if want == 0 {
        got, e := Finish([], NoErr);
        return;
      }
      ghost var before := r.script;
      ReadOneMeans(before, want);
      var k: Bytes;
      k, e := r.Read(want);
      if n + |k| < size {
        got, e := Short(before, want, k, e);
        return;
      }
      ExactAfterLastRead(before, want, size - n);
      got, e := Finish(k, e);
    }

    /** These k bytes leave some of the artifact unread, and an end here is too soon. */
    method Short(ghost before: Script, ghost want: nat, k: Bytes, read: Err) returns (got: Bytes, e: Err)
      requires r.Valid() && source.Valid() && size >= 0 && err == NoErr && from >= 0 && want > 0
      requires before.Valid() && (k, read, r.script) == ReadOne(before, want)
      requires n == from + |passed| && n + |k| < size && passed + before.Data() == source.Data()
      requires Exact(before, size - n) <==> Exact(source, size - from)
      modifies this
      ensures Valid() && from == old(from) && source == old(source)
      ensures got == k && passed == old(passed) + k
      ensures e == err && (e == NoErr <==> read == NoErr)
    {
      ReadOneMeans(before, want);
      ExactAfterShortRead(before, want, size - n);
      Associates(passed, k, r.script.Data());
      PrefixThrough(passed + k, r.script.Data());
      n := n + |k|;
      passed := passed + k;
      e := if read.Eof? then TooShort else read;
      err := e;
      got := k;
    }

    /** With these k the artifact is all there, so they are handed on only after the stream was seen to end. */
    method Finish(k: Bytes, read: Err) returns (got: Bytes, e: Err)
      requires r.Valid() && source.Valid() && size >= 0 && err == NoErr && from >= 0
      requires n == from + |passed| && n + |k| == size
      requires passed + k <= source.Data() && (passed != [] ==> n < size)
      requires read == NoErr ==>
                 (Exact(source, size - from) <==>
                   r.script.Data() == [] && r.script.ending.Eof? && EndsInTime(|r.script.pieces|, r.script.eager))
      requires read != NoErr ==> (Exact(source, size - from) <==> read.Eof?)
      requires Exact(source, size - from) ==> passed + k == source.Data()
      modifies this, r
      ensures Valid() && from == old(from) && source == old(source)
      ensures passed == old(passed) + got && |got| <= |k|
      ensures err != NoErr && (e == NoErr || e == err)
    {
      e := read;
      if e == NoErr {
        e := Past();
      }
      if !e.Eof? {
        err := e;
        return [], e;
      }
      n := n + |k|;
      passed := passed + k;
      err := Eof(false);
      if |k| == 0 {
        return [], err;
      }
      return k, NoErr;
    }

    /** One byte beyond the artifact, or the end, or a failure. */
    method Past() returns (e: Err)
      requires r.Valid()
      modifies r
      ensures r.Valid() && e != NoErr
      ensures e.Eof? <==>
              && old(r.script.Data()) == [] && old(r.script.ending).Eof?
              && EndsInTime(|old(r.script.pieces)|, old(r.script.eager))
    {
      ghost var s := r.script;
      for i := 0 to EMPTY_READS
        invariant r.Valid() && r.script.ending == s.ending && r.script.eager == s.eager
        invariant r.script.Data() == s.Data()
        invariant s.Data() == [] ==> |r.script.pieces| + i == |s.pieces|
        invariant i > 0 && r.script.pieces == [] ==> !s.eager
      {
        ghost var before := r.script;
        ReadOneMeans(before, 1);
        var b: Bytes;
        b, e := r.Read(1);
        if |b| > 0 {
          return TooLong;
        }
        if e != NoErr {
          return e;
        }
      }
      return NoProgress;
    }

    /** A seek moves the stream to `pos` from the artifact's start; what it gives from there is `script`. */
    method Seek(pos: int, script: Script)
      requires Valid() && script.Valid()
      modifies this, r
      ensures Valid() && n == from == pos && err == NoErr && source == script && passed == []
    {
      r.script := script;
      n, err := pos, NoErr;
      from, source, passed := pos, script, [];
    }
  }

  /**
   Whatever was read since a seek to the artifact's start, and however the reads were cut: it is a prefix
   of the stream, and it is all of the artifact only when the stream is exactly the artifact.
   */
  lemma PassedOnlyExact(e: S3Reader)
    requires e.Valid() && e.from == 0
    ensures e.passed <= e.source.Data() && |e.passed| <= e.size
    ensures |e.passed| == e.size > 0 ==> Exact(e.source, e.size) && e.passed == e.source.Data()
    ensures e.err.Eof? ==> Exact(e.source, e.size) && e.passed == e.source.Data()
  {
  }

  const COPY_BUFFER := 32 * 1024

  /** io.Copy from an artifact's reader into a running sum. */
  method Copy<S>(e: S3Reader, step: (S, byte) -> S, init: S) returns (sum: S, err: Err)
    requires e.Valid() && e.err == NoErr && e.passed == [] && e.from >= 0
    modifies e, e.r
    ensures e.Valid() && e.from == old(e.from) && e.source == old(e.source)
    ensures err == NoErr <==> Exact(e.source, e.size - e.from)
    ensures err == NoErr ==> e.passed == e.source.Data() && sum == Fold(step, init, e.source.Data())
  {
    sum := init;
    var ended := NoErr;
    while ended == NoErr
      invariant e.Valid() && e.from == old(e.from) && e.source == old(e.source)
      invariant sum == Fold(step, init, e.passed)
      invariant ended == NoErr || ended == e.err
      decreases e.err == NoErr, e.r.script.Size(), ended == NoErr
    {
      ghost var before := e.passed;
      var got: Bytes;
      got, ended := e.Read(COPY_BUFFER);
      FoldConcat(step, init, before, got);
      sum := Fold(step, sum, got);
    }
    err := if ended == Eof(false) then NoErr else ended;
  }

  /**
   The checksum of a body that can seek, and the body rewound to where it stood. `again` is what the
   stream gives the second time: nothing makes a file give the same bytes twice.
   */
  method Crc32Of<S>(e: S3Reader, step: (S, byte) -> S, init: S, again: Script) returns (sum: Result<S, Err>)
    requires e.Valid() && e.n >= 0 && again.Valid()
    modifies e, e.r
    ensures sum.Ok? <==> Exact(old(e.r.script), e.size - old(e.n))
    ensures sum.Ok? ==> sum.value == Fold(step, init, old(e.r.script).Data())
    ensures sum.Ok? ==> e.Valid() && e.n == e.from == old(e.n) && e.err == NoErr && e.source == again && e.passed == []
  {
    var start := e.n;
    e.Seek(start, e.r.script);
    var s, err := Copy(e, step, init);
    if err != NoErr {
      return Err(err);
    }
    e.Seek(start, again);
    return Ok(s);
  }

  /** The transport sends a body against its length, and stops at the first error. */
  method Send(e: S3Reader) returns (wire: Bytes, whole: bool)
    requires e.Valid() && e.err == NoErr && e.from == 0 && e.passed == []
    modifies e, e.r
    ensures e.Valid()
    ensures whole <==> e.size == 0 || Exact(old(e.source), e.size)
    ensures whole && e.size > 0 ==> wire == old(e.source).Data()
    ensures wire <= old(e.source).Data() && |wire| <= e.size
  {
    wire := [];
    var ended := NoErr;
    while ended == NoErr && |wire| < e.size
      invariant e.Valid() && e.from == 0 && e.source == old(e.source)
      invariant wire == e.passed && |wire| <= e.size
      invariant ended == NoErr || ended == e.err
      decreases e.err == NoErr, e.r.script.Size(), ended == NoErr
    {
      var got: Bytes;
      got, ended := e.Read(COPY_BUFFER);
      wire := wire + got;
      PassedOnlyExact(e);
    }
    PassedOnlyExact(e);
    whole := |wire| == e.size;
  }

  /**
   One PUT of an artifact of `size` bytes. The store takes a request only when it has had all of it and
   the bytes carry the checksum in the header.
   */
  method PutOnce<S(==)>(r: Reader, size: int, step: (S, byte) -> S, init: S, again: Script)
    returns (committed: Option<Bytes>, header: Option<S>)
    requires r.Valid() && again.Valid() && size >= 0
    modifies r
    ensures header.Some? <==> Exact(old(r.script), size)
    ensures committed.Some? <==>
              && Exact(old(r.script), size)
              && (size > 0 ==>
                    Exact(again, size)
                    && Fold(step, init, again.Data()) == Fold(step, init, old(r.script).Data()))
    ensures header.Some? ==> header.value == Fold(step, init, old(r.script).Data())
    ensures committed.Some? ==> |committed.value| == size && header == Some(Fold(step, init, committed.value))
  {
    var e := new S3Reader(r, size);
    var sum := Crc32Of(e, step, init, again);
    if sum.Err? {
      return None, None;
    }
    header := Some(sum.value);
    var wire, whole := Send(e);
    if whole && Fold(step, init, wire) == sum.value {
      committed := Some(wire);
    } else {
      committed := None;
    }
  }

  // ---------------------------------------------------------------- GCS and Azure

  /** The reader both share. GCS says io.EOF itself where the end came wrapped; Azure hands on the wrapped one. */
  class CloudReader {
    const r: Reader
    const size: int
    const plainEnd: bool
    var n: int
    var err: Err
    ghost var source: Script
    ghost var passed: Bytes

    ghost predicate Valid()
      reads this, r
    {
      && r.Valid() && source.Valid() && n == |passed| && (size >= 0 ==> n <= size)
      && passed <= source.Data()
      && (err == NoErr ==>
            passed + r.script.Data() == source.Data() && (Ends(r.script, size - n) <==> Ends(source, size)))
      && (err.Eof? ==> Ends(source, size) && passed == source.Data() && (plainEnd ==> err == Eof(false)))
      && (err != NoErr && !err.Eof? ==> !Ends(source, size))
    }

    constructor (r: Reader, size: int, plainEnd: bool)
      requires r.Valid()
      ensures Valid() && this.r == r && this.size == size && this.plainEnd == plainEnd
      ensures err == NoErr && source == r.script && passed == []
    {
      this.r, this.size, this.plainEnd := r, size, plainEnd;
      n, err := 0, NoErr;
      source, passed := r.script, [];
    }

    method Read(max: nat) returns (got: Bytes, e: Err)
      requires Valid() && size >= 0
      modifies this, r
      ensures Valid() && source == old(source) && passed == old(passed) + got && |got| <= max
      ensures old(err) != NoErr ==> got == [] && err == old(err)
      ensures e == err
      ensures err == NoErr && max > 0 ==> r.script.Size() < old(r.script.Size())
    {
      if err != NoErr || max == 0 {
        return [], err;
      }
      ghost var before := r.script;
      if n == size {
        ReadOneMeans(before, 1);
        EndsAfterRead(before, 1, 0);
        var b: Bytes;
        b, e := r.Read(1);
        if |b| > 0 {
          e := TooLong;
        } else if e.Eof? && plainEnd {
          e := Eof(false);
        }
        err := e;
        return [], e;
      }
      var want := Min(max, size - n);
      ReadOneMeans(before, want);
      EndsAfterRead(before, want, size - n);
      got, e := r.Read(want);
      Associates(passed, got, r.script.Data());
      PrefixThrough(passed + got, r.script.Data());
      n := n + |got|;
      passed := passed + got;
      if e.Eof? && n < size {
        e := TooShort;
      } else if e.Eof? && plainEnd {
        e := Eof(false);
      }
      err := e;
    }
  }

  /** The copy both uploads make: read to an end, and commit only there. io.Copy knows only io.EOF itself as one. */
  method Upload(e: CloudReader) returns (body: Bytes, ended: bool)
    requires e.Valid() && e.size >= 0 && e.err == NoErr && e.passed == []
    modifies e, e.r
    ensures e.Valid() && e.source == old(e.source)
    ensures ended <==> Ends(e.source, e.size)
    ensures ended ==> body == e.source.Data() && e.n == e.size
    ensures body <= e.source.Data() && |body| <= e.size
  {
    body := [];
    while e.err == NoErr
      invariant e.Valid() && e.source == old(e.source) && body == e.passed
      decreases e.err == NoErr, e.r.script.Size()
    {
      var got, _ := e.Read(COPY_BUFFER);
      body := body + got;
    }
    ended := if e.plainEnd then e.err == Eof(false) else e.err.Eof?;
  }

  /** GCS's write: Close commits what was copied; an upload that is abandoned leaves nothing. */
  method PutGcs(r: Reader, size: int) returns (committed: Option<Bytes>)
    requires r.Valid()
    modifies r
    ensures committed.Some? <==> Ends(old(r.script), size)
    ensures committed.Some? ==> committed.value == old(r.script).Data() && |committed.value| == size
  {
    if size < 0 {
      return None;
    }
    var sent := new CloudReader(r, size, true);
    var body, ended := Upload(sent);
    if !ended || sent.n != size {
      return None;
    }
    return Some(body);
  }
}
