/**
 An object over the threshold goes in parts. The plan cuts it, and the checksum pass reads it part by
 part and then looks past its end, from a file that may be shorter or longer than it was said to be,
 fail anywhere, and answer a second read otherwise than the first.
 */
module Parts {
  import opened Base
  import opened Streams
  import opened ExactReaders

  const MAX_PART_SIZE := 5 * 1024 * 1024 * 1024
  const PART_TARGET := 9000

  function CeilDiv(a: nat, b: nat): (q: nat)
    requires b > 0
    ensures (q as int - 1) * b < a <= q * b
  {
    (a + b - 1) / b
  }

  datatype Plan = Plan(size: nat, partSize: nat, count: nat) {
    function Offset(i: nat): nat {
      i * partSize
    }

    function Length(i: nat): int {
      Min(partSize, size - Offset(i))
    }

    ghost predicate Valid() {
      && partSize > 0 && size <= count * partSize
      && forall i :: 0 <= i < count ==> Offset(i) < size
    }
  }

  function PlanParts(size: nat, smallest: nat): Plan
    requires 0 < smallest
  {
    var ps := Min(Max(smallest, CeilDiv(size, PART_TARGET)), MAX_PART_SIZE);
    Plan(size, ps, CeilDiv(size, ps))
  }

  lemma MulMonotone(a: nat, b: nat, c: nat)
    requires a <= b
    ensures a * c <= b * c
  {
  }

  lemma CeilDivLeast(a: nat, b: nat, q: nat)
    requires b > 0
    ensures CeilDiv(a, b) <= q <==> a <= q * b
  {
    if CeilDiv(a, b) <= q {
      MulMonotone(CeilDiv(a, b), q, b);
    } else {
      MulMonotone(q, CeilDiv(a, b) - 1, b);
    }
  }

  lemma PlanIsValid(size: nat, smallest: nat)
    requires 0 < smallest
    ensures PlanParts(size, smallest).Valid()
  {
  }

  /** The parts tile the object: in order, no gap, no overlap, all full but the last, and none empty. */
  lemma PartsTile(p: Plan, i: nat)
    requires p.Valid() && i < p.count
    ensures 0 < p.Length(i) <= p.partSize
    ensures p.Offset(0) == 0
    ensures i + 1 < p.count ==> p.Length(i) == p.partSize && p.Offset(i) + p.Length(i) == p.Offset(i + 1)
    ensures i + 1 == p.count ==> p.Offset(i) + p.Length(i) == p.size
  {
    assert p.Offset(i + 1) == p.Offset(i) + p.partSize;
  }

  predicate InPart(p: Plan, i: nat, at: nat) {
    p.Offset(i) <= at < p.Offset(i) + p.Length(i)
  }

  lemma PartsAreDisjoint(p: Plan, i: nat, j: nat, at: nat)
    requires i < j
    ensures !(InPart(p, i, at) && InPart(p, j, at))
  {
    MulMonotone(i + 1, j, p.partSize);
    assert p.Offset(i + 1) == p.Offset(i) + p.partSize;
  }

  lemma {:induction false} BytesBelow(p: Plan, upto: nat, at: nat) returns (i: nat)
    requires p.Valid() && upto <= p.count && at < p.size && at < p.Offset(upto)
    ensures i < upto && InPart(p, i, at)
  {
    var k := upto - 1;
    assert p.Offset(upto) == p.Offset(k) + p.partSize;
    if p.Offset(k) <= at {
      i := k;
    } else {
      i := BytesBelow(p, k, at);
    }
  }

  /** Every byte of the object is in exactly one part. */
  lemma EveryByteInOnePart(p: Plan, at: nat)
    requires p.Valid() && at < p.size
    ensures exists i: nat :: i < p.count && InPart(p, i, at)
    ensures forall i: nat, j: nat :: InPart(p, i, at) && InPart(p, j, at) ==> i == j
  {
    var i := BytesBelow(p, p.count, at);
    forall i: nat, j: nat | InPart(p, i, at) && InPart(p, j, at)
      ensures i == j
    {
      if i < j {
        PartsAreDisjoint(p, i, j, at);
      } else if j < i {
        PartsAreDisjoint(p, j, i, at);
      }
    }
  }

  /**
   S3's bounds on a part hold of every part but the last, and the count stays at the target as long as
   any legal size keeps it there.
   */
  lemma PlanWithinBounds(size: nat, smallest: nat)
    requires size > 0 && 5_242_880 <= smallest <= 5_368_709_120
    ensures smallest <= PlanParts(size, smallest).partSize <= 5_368_709_120
    ensures PlanParts(size, smallest).count <= 9000 <==> size <= 9000 * 5_368_709_120
  {
    var p := PlanParts(size, smallest);
    CeilDivLeast(size, p.partSize, PART_TARGET);
    if CeilDiv(size, PART_TARGET) <= p.partSize {
      MulMonotone(CeilDiv(size, PART_TARGET), p.partSize, PART_TARGET);
      MulMonotone(p.partSize, MAX_PART_SIZE, PART_TARGET);
    }
  }

  /** No smaller part size, from the setting up, keeps to the target. */
  lemma PartSizeIsLeast(size: nat, smallest: nat, other: nat)
    requires 0 < smallest <= other <= 5_368_709_120
    requires size <= 9000 * other
    ensures PlanParts(size, smallest).partSize <= other
  {
    CeilDivLeast(size, other, PART_TARGET);
    CeilDivLeast(size, PART_TARGET, other);
  }

  // ---------------------------------------------------------------- a file that may change

  /** One read at an offset and its answer. */
  datatype Said = Said(off: nat, n: nat, got: Bytes, e: Err) {
    predicate Has(pos: nat, b: byte) {
      off <= pos < off + |got| && got[pos - off] == b
    }

    /** No byte there, and the end. */
    predicate End(at: nat) {
      off == at && got == [] && e.Eof?
    }
  }

  /** At this place the file gave this byte, in a read from the from-th on. */
  ghost predicate Gave(said: seq<Said>, from: nat, pos: nat, b: byte) {
    exists t :: from <= t < |said| && said[t].Has(pos, b)
  }

  /** Each of these bytes is one the file gave for its place, in a read from the from-th on. */
  ghost predicate Given(said: seq<Said>, from: nat, off: nat, data: Bytes) {
    forall k :: 0 <= k < |data| ==> Gave(said, from, off + k, data[k])
  }

  /** The last thing the file said: nothing at this place, and the end. */
  ghost predicate LastEnd(said: seq<Said>, at: nat) {
    said != [] && said[|said| - 1].End(at)
  }

  /** A file read at offsets. What it answers may depend on when it is asked, and need agree with nothing before. */
  class File {
    const answer: (nat, nat, nat) -> (Bytes, Err) // at a time, an offset and a length
    const settled: nat                            // from when on it no longer answers nothing
    var clock: nat
    ghost var said: seq<Said>

    ghost predicate Valid()
      reads this
    {
      && |said| == clock
      && (forall t :: 0 <= t < |said| ==> (said[t].got, said[t].e) == answer(t, said[t].off, said[t].n))
      && forall t: nat, off: nat, n: nat ::
           && |answer(t, off, n).0| <= n
           && (n > 0 && t >= settled && answer(t, off, n).0 == [] ==> answer(t, off, n).1 != NoErr)
    }

    /** A file that does not change: it gives these bytes and no others, and says the end nowhere before theirs. */
    ghost predicate Holds(content: Bytes) {
      forall t: nat, off: nat, n: nat ::
        && answer(t, off, n).0 <= From(content, off)
        && (answer(t, off, n).1.Eof? ==> off + |answer(t, off, n).0| >= |content|)
    }

    /** Besides, no read fails or comes back with nothing but at the end. */
    ghost predicate Sound(content: Bytes) {
      && Holds(content)
      && forall t: nat, off: nat, n: nat ::
           && (answer(t, off, n).1 == NoErr || answer(t, off, n).1 == Eof(false))
           && (n > 0 && answer(t, off, n).0 == [] ==> answer(t, off, n).1 == Eof(false))
    }

    constructor (answer: (nat, nat, nat) -> (Bytes, Err), settled: nat)
      ensures this.answer == answer && this.settled == settled && said == [] && clock == 0
    {
      this.answer, this.settled, clock, said := answer, settled, 0, [];
    }

    method ReadAt(off: nat, n: nat) returns (got: Bytes, e: Err)
      requires Valid() && n > 0
      modifies this
      ensures Valid() && said == old(said) + [Said(off, n, got, e)] && |got| <= n
      ensures got == [] && e == NoErr ==> old(clock) < settled
    {
      var (g, x) := answer(clock, off, n);
      assert (g, x) == answer(clock, off, n);
      got, e, clock, said := g, x, clock + 1, said + [Said(off, n, g, x)];
    }
  }

  function From(content: Bytes, off: nat): Bytes {
    if off <= |content| then content[off..] else []
  }

  lemma GivenStays(said: seq<Said>, more: seq<Said>, from: nat, later: nat, off: nat, data: Bytes)
    requires Given(said, later, off, data) && said <= more && from <= later
    ensures Given(more, from, off, data)
  {
    forall k | 0 <= k < |data|
      ensures Gave(more, from, off + k, data[k])
    {
      var t :| later <= t < |said| && said[t].Has(off + k, data[k]);
      assert more[t].Has(off + k, data[k]);
    }
  }

  lemma GivenJoins(said: seq<Said>, from: nat, off: nat, data: Bytes, more: Bytes)
    requires Given(said, from, off, data) && Given(said, from, off + |data|, more)
    ensures Given(said, from, off, data + more)
  {
    forall k | 0 <= k < |data + more|
      ensures Gave(said, from, off + k, (data + more)[k])
    {
      if k >= |data| {
        assert (data + more)[k] == more[k - |data|];
      }
    }
  }

  lemma JustGiven(said: seq<Said>, s: Said, from: nat)
    requires from <= |said|
    ensures Given(said + [s], from, s.off, s.got)
  {
    var more := said + [s];
    forall k | 0 <= k < |s.got|
      ensures Gave(more, from, s.off + k, s.got[k])
    {
      assert more[|said|].Has(s.off + k, s.got[k]);
    }
  }

  /** A read that goes on where the bytes so far end. */
  lemma PieceGiven(said: seq<Said>, s: Said, more: seq<Said>, from: nat, off: nat, data: Bytes, all: Bytes)
    requires from <= |said| && Given(said, from, off, data) && s.off == off + |data|
    requires more == said + [s] && all == data + s.got
    ensures Given(more, from, off, all)
  {
    JustGiven(said, s, from);
    GivenStays(said, more, from, from, off, data);
    GivenJoins(more, from, off, data, s.got);
  }

  /** A section read later that goes on where the bytes so far end. */
  lemma SectionGiven(said: seq<Said>, more: seq<Said>, from: nat, off: nat, data: Bytes, next: Bytes)
    requires from <= |said| && said <= more
    requires Given(said, from, off, data) && Given(more, |said|, off + |data|, next)
    ensures Given(more, from, off, data + next)
  {
    GivenStays(said, more, from, from, off, data);
    GivenStays(more, more, from, |said|, off + |data|, next);
    GivenJoins(more, from, off, data, next);
  }

  /** What a file that does not change gives is the bytes it holds. */
  lemma GivenIsHeld(r: File, from: nat, off: nat, data: Bytes, content: Bytes)
    requires r.Valid() && r.Holds(content) && Given(r.said, from, off, data)
    ensures data <= From(content, off)
  {
    if data != [] {
      HeldAt(r, from, off, data, content, |data| - 1);
      forall k | 0 <= k < |data|
        ensures off + k < |content| && data[k] == content[off + k]
      {
        HeldAt(r, from, off, data, content, k);
      }
      IsFront(content, off, data);
    }
  }

  lemma HeldAt(r: File, from: nat, off: nat, data: Bytes, content: Bytes, k: nat)
    requires r.Valid() && r.Holds(content) && Given(r.said, from, off, data) && k < |data|
    ensures off + k < |content| && data[k] == content[off + k]
  {
    assert Gave(r.said, from, off + k, data[k]);
    var t :| from <= t < |r.said| && r.said[t].Has(off + k, data[k]);
    HeldByte(r, t, off + k, data[k], content);
  }

  lemma IsFront(content: Bytes, off: nat, data: Bytes)
    requires off + |data| <= |content|
    requires forall k :: 0 <= k < |data| ==> data[k] == content[off + k]
    ensures data <= From(content, off)
  {
    assert data == From(content, off)[..|data|];
  }

  lemma HeldSlice(content: Bytes, off: nat, data: Bytes)
    requires data <= From(content, off) && off + |data| <= |content|
    ensures data == content[off..off + |data|]
  {
  }

  lemma HeldByte(r: File, t: nat, pos: nat, b: byte, content: Bytes)
    requires r.Valid() && r.Holds(content) && t < |r.said| && r.said[t].Has(pos, b)
    ensures pos < |content| && content[pos] == b
  {
    var s := r.said[t];
    assert (s.got, s.e) == r.answer(t, s.off, s.n);
    assert s.got <= From(content, s.off);
    assert s.got[pos - s.off] == From(content, s.off)[pos - s.off];
  }

  /** What a sound file said last: no failure, nothing only at its end, and no end before. */
  lemma SoundSays(r: File, content: Bytes)
    requires r.Valid() && r.Sound(content) && r.said != [] && r.said[|r.said| - 1].n > 0
    ensures var s := r.said[|r.said| - 1];
            && (s.e == NoErr || s.e == Eof(false)) && (s.got == [] ==> s.e == Eof(false))
            && (s.e == Eof(false) ==> s.off + |s.got| >= |content|)
            && (s.off >= |content| ==> s.got == [])
  {
    var t := |r.said| - 1;
    var s := r.said[t];
    assert (s.got, s.e) == r.answer(t, s.off, s.n);
    assert s.got <= From(content, s.off);
  }

  const SECTION_BUFFER := 1024 * 1024

  /** Reading this section of this file cannot fail or come short. */
  ghost predicate SoundThrough(r: File, content: Bytes, end: nat) {
    r.Sound(content) && |content| >= end
  }

  /** The next read of a section: what it gives joins what the section gave so far. */
  method ReadOn(r: File, off: nat, want: nat, ghost lo: nat, ghost from: nat, ghost data: Bytes, ghost content: Bytes)
    returns (got: Bytes, e: Err)
    requires r.Valid() && want > 0 && from <= |r.said| && off == lo + |data| && Given(r.said, from, lo, data)
    modifies r
    ensures r.Valid() && old(r.said) <= r.said && |got| <= want
    ensures Given(r.said, from, lo, data + got)
    ensures r.clock == old(r.clock) + 1 && (got == [] && e == NoErr ==> old(r.clock) < r.settled)
    ensures r.said != [] && r.said[|r.said| - 1].e == e
    ensures r.Sound(content) ==> SoundAnswer(off, got, e, content)
  {
    got, e := r.ReadAt(off, want);
    ghost var s := Said(off, want, got, e);
    PieceGiven(old(r.said), s, r.said, from, lo, data, data + got);
    assert r.said[|r.said| - 1] == s;
    if r.Sound(content) {
      SoundSays(r, content);
    }
  }

  /** What a sound file answers: no failure, nothing only at its end, and no end before. */
  predicate SoundAnswer(off: nat, got: Bytes, e: Err, content: Bytes) {
    && (e == NoErr || (e == Eof(false) && off + |got| >= |content|))
    && (got == [] ==> e != NoErr)
  }

  /**
   io.CopyBuffer of one section: the bytes it passes on, and two sums over them. Only io.EOF itself
   ends it without an error.
   */
  method CopySection<S>(r: File, off: nat, n: nat, step: (S, byte) -> S, part0: S, full0: S, ghost content: Bytes)
    returns (part: S, full: S, count: nat, err: Err, data: Bytes)
    requires r.Valid()
    modifies r
    ensures r.Valid() && old(r.said) <= r.said
    ensures part == Fold(step, part0, data) && full == Fold(step, full0, data) && count == |data| <= n
    ensures Given(r.said, |old(r.said)|, off, data)
    ensures err == NoErr && count < n ==> r.said != [] && r.said[|r.said| - 1].e == Eof(false)
    ensures SoundThrough(r, content, off + n) ==> err == NoErr && count == n
  {
    part, full, count, err, data := part0, full0, 0, NoErr, [];
    while count < n
      invariant r.Valid() && old(r.said) <= r.said
      invariant part == Fold(step, part0, data) && full == Fold(step, full0, data) && count == |data| <= n
      invariant Given(r.said, |old(r.said)|, off, data)
      decreases n - count, if r.clock < r.settled then r.settled - r.clock else 0
    {
      var want := Min(SECTION_BUFFER, n - count);
      var got, e := ReadOn(r, off + count, want, off, |old(r.said)|, data, content);
      FoldConcat(step, part0, data, got);
      FoldConcat(step, full0, data, got);
      part, full := Fold(step, part, got), Fold(step, full, got);
      data, count := data + got, count + |got|;
      if e == Eof(false) {
        return;
      }
      if e != NoErr {
        err := e;
        return;
      }
    }
  }

  /** Nothing at the end: the read there gives no byte and says the end. */
  method EndsAt(r: File, off: nat, ghost content: Bytes) returns (err: Err)
    requires r.Valid()
    modifies r
    ensures r.Valid() && |r.said| == |old(r.said)| + 1 && old(r.said) <= r.said
    ensures err == NoErr <==> LastEnd(r.said, off)
    ensures r.Sound(content) ==> (err == NoErr <==> |content| <= off)
  {
    var got, e := r.ReadAt(off, 1);
    assert r.said[|r.said| - 1] == Said(off, 1, got, e);
    if r.Sound(content) {
      SoundSays(r, content);
    }
    if |got| > 0 {
      return TooLong;
    }
    if e.Eof? {
      return NoErr;
    }
    if e == NoErr {
      return NoProgress;
    }
    return e;
  }

  // ---------------------------------------------------------------- the checksum pass

  datatype PartSums<S> = PartSums(parts: seq<S>, full: S)

  /** This is the sum of these bytes, and they are all there. */
  ghost predicate SumIs<S>(sum: S, bytes: Bytes, lo: nat, n: int, step: (S, byte) -> S, init: S) {
    0 <= n <= lo + n <= |bytes| && sum == Fold(step, init, bytes[lo..lo + n])
  }

  /** These bytes reach as far as the first |parts| parts do, and each sum is over its own part of them. */
  ghost predicate Summed<S>(parts: seq<S>, bytes: Bytes, p: Plan, step: (S, byte) -> S, init: S) {
    && |parts| <= p.count && |bytes| == Covered(p, |parts|)
    && forall i :: 0 <= i < |parts| ==> SumIs(parts[i], bytes, p.Offset(i), p.Length(i), step, init)
  }

  /** The bytes the first i parts cover. */
  function Covered(p: Plan, i: nat): nat {
    Min(p.Offset(i), p.size)
  }

  lemma CoveredGrows(p: Plan, i: nat)
    requires p.Valid() && i < p.count
    ensures Covered(p, 0) == 0
    ensures Covered(p, i) == p.Offset(i) && Covered(p, i + 1) == p.Offset(i) + p.Length(i) && p.Length(i) > 0
    ensures Covered(p, i + 1) <= p.size
    ensures Covered(p, p.count) == p.size
  {
    PartsTile(p, i);
    assert p.Offset(i + 1) == p.Offset(i) + p.partSize;
  }

  lemma SummedOneMore<S>(parts: seq<S>, sum: S, bytes: Bytes, data: Bytes, p: Plan, step: (S, byte) -> S, init: S)
    requires p.Valid() && Summed(parts, bytes, p, step, init) && |parts| < p.count
    requires |data| == p.Length(|parts|) && sum == Fold(step, init, data)
    ensures Summed(parts + [sum], bytes + data, p, step, init)
  {
    CoveredGrows(p, |parts|);
    var more, all := parts + [sum], bytes + data;
    forall i | 0 <= i < |more|
      ensures SumIs(more[i], all, p.Offset(i), p.Length(i), step, init)
    {
      if i < |parts| {
        assert SumIs(parts[i], bytes, p.Offset(i), p.Length(i), step, init);
        assert all[p.Offset(i)..p.Offset(i) + p.Length(i)] == bytes[p.Offset(i)..p.Offset(i) + p.Length(i)];
      } else {
        assert all[|bytes|..|bytes| + |data|] == data;
      }
    }
  }

  /** One part, summed on its own and into the whole; a part that comes short or fails ends the pass. */
  method ChecksumPart<S>(r: File, base: nat, p: Plan, i: nat, full: S, step: (S, byte) -> S, init: S,
          ghost read: Bytes, ghost content: Bytes)
    returns (part: S, whole: S, err: Err, ghost data: Bytes)
    requires r.Valid() && p.Valid() && i < p.count && full == Fold(step, init, read)
    modifies r
    ensures r.Valid() && old(r.said) <= r.said
    ensures err == NoErr ==> |data| == p.Length(i) && Given(r.said, |old(r.said)|, base + p.Offset(i), data)
    ensures err == NoErr ==> part == Fold(step, init, data) && whole == Fold(step, init, read + data)
    ensures SoundThrough(r, content, base + Covered(p, i + 1)) ==> err == NoErr
  {
    CoveredGrows(p, i);
    var off, n := p.Offset(i), p.Length(i);
    var count: nat;
    part, whole, count, err, data := CopySection(r, base + off, n, step, init, full, content);
    if err == NoErr && count != n {
      err := TooShort;
    }
    FoldConcat(step, init, read, data);
  }

  /**
   Each part's checksum and the object's, in one reading. It answers only with sums over bytes the file
   gave in this reading, after a look past the last of them found the end; and it answers for every sound
   file that ends there.
   */
  method ChecksumParts<S>(r: File, base: nat, p: Plan, step: (S, byte) -> S, init: S, ghost content: Bytes)
    returns (sums: Result<PartSums<S>, Err>, ghost read: Bytes)
    requires r.Valid() && p.Valid() && p.size > 0
    modifies r
    ensures r.Valid() && old(r.said) <= r.said
    ensures sums.Ok? ==> |sums.value.parts| == p.count && |read| == p.size && Given(r.said, |old(r.said)|, base, read)
    ensures sums.Ok? ==> Summed(sums.value.parts, read, p, step, init) && sums.value.full == Fold(step, init, read)
    ensures sums.Ok? ==> LastEnd(r.said, base + p.size)
    ensures r.Sound(content) ==> (sums.Ok? <==> |content| == base + p.size)
  {
    var parts: seq<S>, full := [], init;
    read := [];
    CoveredGrows(p, 0);
    var i := 0;
    while i < p.count
      invariant r.Valid() && old(r.said) <= r.said
      invariant i == |parts| <= p.count && Summed(parts, read, p, step, init) && full == Fold(step, init, read)
      invariant Given(r.said, |old(r.said)|, base, read)
    {
      CoveredGrows(p, i);
      ghost var before := r.said;
      var part, whole, err, data := ChecksumPart(r, base, p, i, full, step, init, read, content);
      if err != NoErr {
        return Err(err), read;
      }
      SectionGiven(before, r.said, |old(r.said)|, base, read, data);
      SummedOneMore(parts, part, read, data, p, step, init);
      parts, full, i, read := parts + [part], whole, i + 1, read + data;
    }
    ghost var before := r.said;
    var err := EndsAt(r, base + p.size, content);
    GivenStays(before, r.said, |old(r.said)|, |old(r.said)|, base, read);
    if r.Sound(content) {
      GivenIsHeld(r, |old(r.said)|, base, read, content);
    }
    if err != NoErr {
      return Err(err), read;
    }
    return Ok(PartSums(parts, full)), read;
  }

  /** Of a file that does not change, the bytes read are its bytes, and it ends with them. */
  lemma UnchangedIsRead(r: File, from: nat, base: nat, read: Bytes, content: Bytes, at: nat)
    requires r.Valid() && r.Holds(content) && Given(r.said, from, base, read) && read != []
    requires 0 < at <= |r.said| && LastEnd(r.said[..at], base + |read|)
    ensures |content| == base + |read| && read == content[base..]
  {
    GivenIsHeld(r, from, base, read, content);
    assert r.said[at - 1].End(base + |read|);
  }

  // ---------------------------------------------------------------- Azure's blocks

  const MIB := 1024 * 1024
  const MAX_BLOCK := 4000 * MIB

  /** The bytes each block must carry, rounded up. Go's division truncates; here neither operand is negative. */
  function PerBlock(size: nat, maxBlocks: nat): nat
    requires maxBlocks > 0
  {
    size / maxBlocks + if size % maxBlocks != 0 then 1 else 0
  }

  function WholeMib(perBlock: nat): nat {
    Max(1, (perBlock + MIB - 1) / MIB) * MIB
  }

  function BlockSizeFor(size: int, maxBlocks: int): Option<nat> {
    if size < 0 || maxBlocks < 1 then None
    else if PerBlock(size, maxBlocks) > MAX_BLOCK then None
    else Some(WholeMib(PerBlock(size, maxBlocks)))
  }

  /** A block size the SDK and Azure take, that commits the blob in few enough blocks. */
  predicate BlockFits(block: int, size: int, maxBlocks: int) {
    0 < block <= 4000 * 1_048_576 && block % 1_048_576 == 0 && 0 <= size <= maxBlocks * block
  }

  lemma PerBlockIsLeast(size: nat, maxBlocks: nat, block: nat)
    requires maxBlocks > 0
    ensures PerBlock(size, maxBlocks) <= block <==> size <= maxBlocks * block
  {
    var q, rem := size / maxBlocks, size % maxBlocks;
    assert size == q * maxBlocks + rem;
    if q < block {
      MulMonotone(q + 1, block, maxBlocks);
    } else if q > block {
      MulMonotone(block + 1, q, maxBlocks);
    }
  }

  lemma WholeMibIsLeast(perBlock: nat, block: nat)
    requires block % MIB == 0 && block > 0
    ensures perBlock <= block <==> WholeMib(perBlock) <= block
    ensures WholeMib(perBlock) % MIB == 0 && WholeMib(perBlock) > 0
  {
  }

  /** The block size is the least legal one, and none is given exactly when no legal one does. */
  lemma BlockSizeIsLeast(size: int, maxBlocks: int)
    requires maxBlocks >= 1
    ensures var chosen := BlockSizeFor(size, maxBlocks);
            && (chosen.Some? ==> BlockFits(chosen.value, size, maxBlocks))
            && (forall block :: BlockFits(block, size, maxBlocks) ==> chosen.Some? && chosen.value <= block)
  {
    if size >= 0 {
      var perBlock := PerBlock(size, maxBlocks);
      forall block | BlockFits(block, size, maxBlocks)
        ensures perBlock <= block && WholeMib(perBlock) <= block
      {
        PerBlockIsLeast(size, maxBlocks, block);
        WholeMibIsLeast(perBlock, block);
      }
      if perBlock <= MAX_BLOCK {
        var chosen := WholeMib(perBlock);
        WholeMibIsLeast(perBlock, MAX_BLOCK);
        WholeMibIsLeast(perBlock, chosen);
        PerBlockIsLeast(size, maxBlocks, chosen);
      }
    }
  }

  const MAX_BLOCKS := 50000

  /** Azure's write: no block is sent unless the blob fits, and only the stream's end commits the ones sent. */
  method PutAzure(r: Reader, size: int, blocks: int) returns (committed: Option<Bytes>, sizeRecorded: int)
    requires r.Valid()
    modifies r
    ensures var most := if blocks <= 0 then 50_000 else blocks;
            committed.Some? <==> (exists block :: BlockFits(block, size, most)) && Ends(old(r.script), size)
    ensures committed.Some? ==> committed.value == old(r.script).Data() && |committed.value| == size == sizeRecorded
  {
    var most := if blocks <= 0 then MAX_BLOCKS else blocks;
    BlockSizeIsLeast(size, most);
    var block := BlockSizeFor(size, most);
    if block.None? {
      return None, 0;
    }
    assert BlockFits(block.value, size, most);
    var sent := new CloudReader(r, size, false);
    var body, ended := Upload(sent);
    if !ended || sent.n != size {
      return None, 0;
    }
    return Some(body), sent.n;
  }
}
