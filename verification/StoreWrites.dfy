/**
 S3 writes: create-only, with answers that get lost, sends that are repeated, and other writers at the
 same keys. A write the store did not acknowledge is settled by asking what is at the key.
 */
module StoreWrites {
  import opened Base
  import opened Streams
  import opened ExactReaders
  import opened Parts
  import opened Races

  datatype Mode = Governance | Compliance

  datatype Lock = Lock(until: int, mode: Mode)

  /** A CRC32 as a store shows it; a composite one may carry the count of its parts. */
  datatype Crc = Crc(sum: int, count: Option<nat>)

  /** The running CRC32 register. */
  type Step = (int, byte) -> int

  /** An object version. A composite upload is shown by the sum of its parts' sums. */
  datatype Blob = Blob(content: Bytes, partSums: seq<int>, lock: Option<Lock>)

  function BigEndian(sum: int): Bytes {
    [sum / 0x100_0000 % 256, sum / 0x1_0000 % 256, sum / 0x100 % 256, sum % 256]
  }

  function Concat(sums: seq<int>): Bytes {
    if sums == [] then [] else BigEndian(sums[0]) + Concat(sums[1..])
  }

  datatype Checksum = Checksum(step: Step, init: int) {
    function Of(content: Bytes): int {
      Fold(step, init, content)
    }

    function Composite(sums: seq<int>): Crc {
      Crc(Of(Concat(sums)), Some(|sums|))
    }

    /** The store may show this CRC32 for this object. */
    predicate Shows(blob: Blob, crc: Crc) {
      if blob.partSums == [] then crc == Crc(Of(blob.content), None)
      else crc == Composite(blob.partSums) || crc == Composite(blob.partSums).(count := None)
    }

    /** The object has this write's size and one of its CRC32s. */
    predicate Matches(blob: Blob, size: int, ours: seq<Crc>) {
      |blob.content| == size && exists crc :: crc in ours && Shows(blob, crc)
    }

    /** Whichever of its CRC32s the store shows, the write knows it. */
    ghost predicate Knows(blob: Blob, size: int, ours: seq<Crc>) {
      |blob.content| == size && forall crc :: Shows(blob, crc) ==> crc in ours
    }

    lemma KnownMatches(blob: Blob, size: int, ours: seq<Crc>)
      requires Knows(blob, size, ours)
      ensures Matches(blob, size, ours)
    {
      var crc := if blob.partSums == [] then Crc(Of(blob.content), None) else Composite(blob.partSums);
      assert Shows(blob, crc);
    }
  }

  /** A sum of 32 bits as four bytes, the first the most significant. */
  lemma BigEndianMeans(sum: int)
    requires 0 <= sum < 0x1_0000_0000
    ensures var b := BigEndian(sum);
            |b| == 4 && sum == 0x100_0000 * (b[0] as int) + 0x1_0000 * (b[1] as int) + 0x100 * (b[2] as int) + b[3]
  {
  }

  /** A composite CRC32 is over the parts' sums one after the other, four bytes each. */
  lemma {:induction false} ConcatMeans(sums: seq<int>, i: nat)
    requires i < |sums|
    ensures |Concat(sums)| == 4 * |sums| && Concat(sums)[4 * i..4 * i + 4] == BigEndian(sums[i])
    decreases |sums|
  {
    var rest := Concat(sums[1..]);
    if |sums| > 1 {
      ConcatMeans(sums[1..], if i == 0 then 0 else i - 1);
      if i > 0 {
        assert Concat(sums)[4 * i..4 * i + 4] == rest[4 * (i - 1)..4 * (i - 1) + 4];
      }
    }
  }

  /** The CRC32 a store has of an object: of its bytes, or of its parts' sums when it was composed of parts. */
  function StoredSum(c: Checksum, blob: Blob): int {
    if blob.partSums == [] then Fold(c.step, c.init, blob.content) else Fold(c.step, c.init, Concat(blob.partSums))
  }

  /**
   What it is to match: the size, and the sum the store has. A write in parts knows two sums, of the whole and
   of its parts' sums, for the store may have either.
   */
  lemma MatchesMeans(c: Checksum, blob: Blob, size: int, crc: int, sums: PartSums<int>)
    ensures c.Matches(blob, size, [Crc(crc, None)]) <==> |blob.content| == size && StoredSum(c, blob) == crc
    ensures c.Matches(blob, size, CrcsOf(c, sums)) <==>
            && |blob.content| == size
            && (StoredSum(c, blob) == sums.full || StoredSum(c, blob) == Fold(c.step, c.init, Concat(sums.parts)))
  {
    var shown := Crc(StoredSum(c, blob), None);
    assert c.Shows(blob, shown);
    assert shown in CrcsOf(c, sums) <==>
           shown.sum == sums.full || shown.sum == Fold(c.step, c.init, Concat(sums.parts)) by {
      CrcsAre(c, sums, shown);
    }
    forall crc | c.Shows(blob, crc) ensures crc.sum == shown.sum {
    }
    forall crc | crc in CrcsOf(c, sums)
      ensures crc.sum == sums.full || crc.sum == Fold(c.step, c.init, Concat(sums.parts))
    {
      CrcsAre(c, sums, crc);
    }
  }

  /** Its own one is of the parts' sums where it asked for a composite CRC32, and of the whole otherwise. */
  lemma OursMeans(c: Checksum, blob: Blob, size: int, sums: PartSums<int>, kind: bool)
    ensures c.Matches(blob, size, OursOf(c, sums, kind)) <==>
            && |blob.content| == size
            && StoredSum(c, blob) == if kind then Fold(c.step, c.init, Concat(sums.parts)) else sums.full
  {
    var shown := Crc(StoredSum(c, blob), None);
    var own := if kind then Fold(c.step, c.init, Concat(sums.parts)) else sums.full;
    assert c.Shows(blob, shown);
    assert forall crc | crc in OursOf(c, sums, kind) :: crc.sum == own;
    assert Crc(own, None) in OursOf(c, sums, kind);
    forall crc | c.Shows(blob, crc) ensures crc.sum == shown.sum {
    }
  }

  lemma CrcsAre(c: Checksum, sums: PartSums<int>, crc: Crc)
    ensures crc in CrcsOf(c, sums) <==>
            var composite := Fold(c.step, c.init, Concat(sums.parts));
            crc == Crc(sums.full, None) || crc == Crc(composite, Some(|sums.parts|)) || crc == Crc(composite, None)
  {
  }

  /** Nothing that was in the store is changed or gone. */
  predicate Grows(before: map<string, Blob>, after: map<string, Blob>) {
    forall k :: k in before ==> k in after && after[k] == before[k]
  }

  /** The only difference is an object of this write's at the key. */
  ghost predicate OnlyOurs(sums: Checksum, before: map<string, Blob>, after: map<string, Blob>, key: string,
          size: int, ours: seq<Crc>) {
    after != before ==>
      key in after && after == before[key := after[key]] && sums.Knows(after[key], size, ours)
  }

  /** An object is at the key that has another size or shows another checksum. */
  ghost predicate Differs(sums: Checksum, objects: map<string, Blob>, key: string, size: int, crc: int) {
    key in objects && !sums.Matches(objects[key], size, [Crc(crc, None)])
  }

  /** What one send of a file gives is a whole request, and carries this checksum. */
  ghost predicate Carries(sums: Checksum, s: Script, size: int, crc: int) {
    if size == 0 then sums.Of([]) == crc else Exact(s, size) && sums.Of(s.Data()) == crc
  }

  /** What a HEAD shows. A store need not show the checksum, nor the lock. */
  datatype Head = NotFound | Unanswered | Found(size: nat, crc: Option<Crc>, lock: Option<Lock>)

  datatype State = Absent | Ours | Other

  datatype PutError = Refused | Failed(conflict: bool)

  datatype PutResult = PutResult(size: int, lock: Option<Lock>)

  datatype Completion = Done(result: PutResult) | Again | Stopped(error: PutError)

  function CompositeCrcs(c: Checksum, sums: PartSums<int>): seq<Crc> {
    [c.Composite(sums.parts), c.Composite(sums.parts).(count := None)]
  }

  /** The CRC32s a store may show for an upload with these sums. */
  function CrcsOf(c: Checksum, sums: PartSums<int>): seq<Crc> {
    [Crc(sums.full, None)] + CompositeCrcs(c, sums)
  }

  lemma MoreCrcs(c: Checksum, blob: Blob, size: int, some: seq<Crc>, more: seq<Crc>)
    requires c.Matches(blob, size, some) && forall crc :: crc in some ==> crc in more
    ensures c.Matches(blob, size, more)
  {
  }

  function OursOf(c: Checksum, sums: PartSums<int>, kind: bool): seq<Crc> {
    if kind then CompositeCrcs(c, sums) else [Crc(sums.full, None)]
  }

  lemma KnownEitherWay(c: Checksum, blob: Blob, sums: PartSums<int>, kind: bool)
    requires sums.parts != [] && blob.partSums == (if kind then sums.parts else [])
    requires kind || c.Of(blob.content) == sums.full
    ensures c.Knows(blob, |blob.content|, OursOf(c, sums, kind))
    ensures c.Knows(blob, |blob.content|, CrcsOf(c, sums))
    ensures c.Matches(blob, |blob.content|, CrcsOf(c, sums))
  {
    assert forall crc :: crc in OursOf(c, sums, kind) ==> crc in CrcsOf(c, sums);
    c.KnownMatches(blob, |blob.content|, CrcsOf(c, sums));
  }

  /** A sound file of just this object, and the sums of it. */
  ghost predicate Intact(c: Checksum, r: File, base: nat, p: Plan, sums: PartSums<int>, content: Bytes) {
    && r.Sound(content) && |content| == base + p.size && SumsOf(c, sums, content[base..], p)
  }

  /** The same, of one part. */
  ghost predicate IntactAt(c: Checksum, r: File, base: nat, p: Plan, sums: PartSums<int>, content: Bytes, i: nat)
    requires i < |sums.parts|
  {
    r.Sound(content) && SumIs(sums.parts[i], content, base + p.Offset(i), p.Length(i), c.step, c.init)
  }

  lemma IntactEverywhere(c: Checksum, r: File, base: nat, p: Plan, sums: PartSums<int>, content: Bytes, i: nat)
    requires i < |sums.parts|
    ensures Intact(c, r, base, p, sums, content) ==> IntactAt(c, r, base, p, sums, content, i)
  {
    if Intact(c, r, base, p, sums, content) {
      var off, n := p.Offset(i), p.Length(i);
      assert SumIs(sums.parts[i], content[base..], off, n, c.step, c.init);
      assert content[base..][off..off + n] == content[base + off..base + off + n];
    }
  }

  /** The sums of these bytes, part by part and whole. */
  ghost predicate SumsOf(c: Checksum, sums: PartSums<int>, read: Bytes, p: Plan) {
    |sums.parts| == p.count && Summed(sums.parts, read, p, c.step, c.init) && sums.full == c.Of(read)
  }

  /** Bytes of the whole object that the file gave from then on, each part with the sum computed for it. */
  ghost predicate SentWhole(c: Checksum, all: Bytes, p: Plan, sums: PartSums<int>, said: seq<Said>, from: nat,
                            base: nat) {
    |all| == p.size && Given(said, from, base, all) && Summed(sums.parts, all, p, c.step, c.init)
  }

  /**
   An object of the write's: bytes the file gave from then on, cut into parts that each carry the sum
   computed for it.
   */
  ghost predicate FromFile(c: Checksum, blob: Blob, p: Plan, sums: PartSums<int>, said: seq<Said>, from: nat,
                           base: nat) {
    SentWhole(c, blob.content, p, sums, said, from, base) && c.Knows(blob, p.size, CrcsOf(c, sums))
  }

  /** One reading of the file, from the from-th read to the summed-th: all the bytes, their sums, and then the end. */
  ghost predicate Passed(c: Checksum, sums: PartSums<int>, read: Bytes, p: Plan, said: seq<Said>, from: nat,
                         summed: nat, base: nat) {
    && |read| == p.size && SumsOf(c, sums, read, p) && from <= summed <= |said|
    && Given(said[..summed], from, base, read) && LastEnd(said[..summed], base + p.size)
  }

  lemma PassedStays(c: Checksum, sums: PartSums<int>, read: Bytes, p: Plan, said: seq<Said>, more: seq<Said>,
                    from: nat, base: nat)
    requires Passed(c, sums, read, p, said, from, |said|, base) && said <= more
    ensures Passed(c, sums, read, p, more, from, |said|, base)
  {
    assert said[..|said|] == said == more[..|said|];
  }

  lemma PassedIsHeld(c: Checksum, sums: PartSums<int>, read: Bytes, p: Plan, r: File, from: nat, summed: nat,
                     base: nat, content: Bytes)
    requires r.Valid() && r.Holds(content) && p.size > 0
    requires Passed(c, sums, read, p, r.said, from, summed, base)
    ensures |content| == base + p.size && read == content[base..]
  {
    GivenStays(r.said[..summed], r.said, from, from, base, read);
    UnchangedIsRead(r, from, base, read, content, summed);
  }

  /** What a write says of an upload that was not asked for again, or not once more. */
  function ResultOf(done: Completion): Result<PutResult, PutError> {
    match done
    case Done(result) => Ok(result)
    case Stopped(error) => Err(error)
    case Again => Err(Failed(true))
  }

  /** All that landed from n on is such an object, under this lock. */
  ghost predicate LandsFromFile(log: seq<Event<Blob>>, n: nat, c: Checksum, p: Plan, sums: PartSums<int>,
                                said: seq<Said>, from: nat, base: nat, lock: Option<Lock>) {
    forall j | n <= j < |log| && log[j].Landed? ::
      log[j].put.lock == lock && FromFile(c, log[j].put, p, sums, said, from, base)
  }

  /** All that landed from n on has this content and lock, and shows only CRC32s the write knows. */
  ghost predicate LandsAs(log: seq<Event<Blob>>, n: nat, c: Checksum, content: Bytes, sums: PartSums<int>,
                          lock: Option<Lock>) {
    forall j | n <= j < |log| && log[j].Landed? ::
      && log[j].put.lock == lock && log[j].put.content == content
      && c.Knows(log[j].put, |content|, CrcsOf(c, sums))
  }

  /** All that landed from n on is one whole object of this size, checksum and lock. */
  ghost predicate LandsWhole(log: seq<Event<Blob>>, n: nat, c: Checksum, size: int, crc: int, lock: Option<Lock>) {
    forall j | n <= j < |log| && log[j].Landed? ::
      var put := log[j].put;
      put.partSums == [] && put.lock == lock && |put.content| == size && c.Of(put.content) == crc
  }

  lemma LandsWholeOn(a: seq<Event<Blob>>, b: seq<Event<Blob>>, log: seq<Event<Blob>>, c: Checksum, size: int,
                     crc: int, lock: Option<Lock>)
    requires a <= b <= log && LandsWhole(b, |a|, c, size, crc, lock) && LandsWhole(log, |b|, c, size, crc, lock)
    ensures LandsWhole(log, |a|, c, size, crc, lock)
  {
    forall j | |a| <= j < |log| && log[j].Landed?
      ensures log[j].put.partSums == [] && log[j].put.lock == lock
      ensures |log[j].put.content| == size && c.Of(log[j].put.content) == crc
    {
      if j < |b| {
        assert log[j] == b[j];
      }
    }
  }

  lemma LandsFromSent(before: seq<Event<Blob>>, log: seq<Event<Blob>>, m: nat, c: Checksum, p: Plan,
                      sums: PartSums<int>, said: seq<Said>, from: nat, base: nat, content: Bytes,
                      lock: Option<Lock>)
    requires m <= |before| && before <= log && Quiet(before, m) && LandsAs(log, |before|, c, content, sums, lock)
    requires SentWhole(c, content, p, sums, said, from, base)
    ensures LandsFromFile(log, m, c, p, sums, said, from, base, lock)
  {
    forall j | m <= j < |log| && log[j].Landed?
      ensures log[j].put.lock == lock && FromFile(c, log[j].put, p, sums, said, from, base)
    {
      assert j >= |before|;
    }
  }

  /** What was given later was given since before, and nothing that did not land needs to be. */
  lemma LandsSince(before: seq<Event<Blob>>, log: seq<Event<Blob>>, m: nat, c: Checksum, p: Plan,
                   sums: PartSums<int>, said: seq<Said>, from: nat, later: nat, base: nat, lock: Option<Lock>)
    requires m <= |before| && before <= log && Quiet(before, m) && from <= later
    requires LandsFromFile(log, |before|, c, p, sums, said, later, base, lock)
    ensures LandsFromFile(log, m, c, p, sums, said, from, base, lock)
  {
    forall j | m <= j < |log| && log[j].Landed?
      ensures log[j].put.lock == lock && FromFile(c, log[j].put, p, sums, said, from, base)
    {
      assert j >= |before|;
      GivenStays(said, said, from, later, base, log[j].put.content);
    }
  }

  /** A part read whole from an intact file is the part that was summed. */
  lemma IntactPart(c: Checksum, r: File, base: nat, p: Plan, sums: PartSums<int>, content: Bytes, i: nat,
                   from: nat, body: Bytes)
    requires r.Valid() && i < |sums.parts| && IntactAt(c, r, base, p, sums, content, i)
    requires Given(r.said, from, base + p.Offset(i), body) && |body| == p.Length(i)
    ensures c.Of(body) == sums.parts[i]
  {
    SlicePart(c, r, base + p.Offset(i), sums.parts[i], content, from, body);
  }

  lemma SlicePart(c: Checksum, r: File, off: nat, sum: int, content: Bytes, from: nat, body: Bytes)
    requires r.Valid() && r.Sound(content) && SumIs(sum, content, off, |body|, c.step, c.init)
    requires Given(r.said, from, off, body)
    ensures c.Of(body) == sum
  {
    GivenIsHeld(r, from, off, body, content);
    HeldSlice(content, off, body);
  }

  /** And so for the whole. */
  lemma IntactWhole(c: Checksum, r: File, base: nat, p: Plan, sums: PartSums<int>, content: Bytes, from: nat,
                    all: Bytes)
    requires r.Valid() && Intact(c, r, base, p, sums, content)
    requires Given(r.said, from, base, all) && |all| == p.size
    ensures c.Of(all) == sums.full
  {
    GivenIsHeld(r, from, base, all, content);
    assert all == content[base..];
  }

  lemma OnePartMore(c: Checksum, p: Plan, sums: PartSums<int>, i: nat, all: Bytes, body: Bytes)
    requires p.Valid() && i < p.count == |sums.parts|
    requires Summed(sums.parts[..i], all, p, c.step, c.init)
    requires |body| == p.Length(i) && c.Of(body) == sums.parts[i]
    ensures Summed(sums.parts[..i + 1], all + body, p, c.step, c.init)
  {
    SummedOneMore(sums.parts[..i], sums.parts[i], all, body, p, c.step, c.init);
    assert sums.parts[..i] + [sums.parts[i]] == sums.parts[..i + 1];
  }

  const PART_ATTEMPTS := 3

  lemma {:induction false} FlattenSnoc(parts: seq<Bytes>, last: Bytes)
    ensures Flatten(parts + [last]) == Flatten(parts) + last
    decreases |parts|
  {
    if parts == [] {
      assert [last][1..] == [];
      assert Flatten([last]) == last + Flatten([]);
    } else {
      assert (parts + [last])[1..] == parts[1..] + [last];
      FlattenSnoc(parts[1..], last);
    }
  }

  class Store {
    const conditional: bool // writes carry If-None-Match, and the store honours it
    const frank: bool       // a HEAD is always answered, with the checksum
    const reachable: bool   // no request is lost on the way there; its answer still may be
    // what else is put before each request: by other writers, or late by ourselves
    const others: nat -> map<string, Blob>
    const sums: Checksum
    var objects: map<string, Blob>
    var clock: nat
    ghost var theirs: set<string>  // the keys whose object no landing of this writer put there
    ghost var log: seq<Event<Blob>>

    ghost predicate Valid()
      reads this
    {
      TellsOf(log, objects, theirs) && (conditional ==> CreateOnly(log, objects))
    }

    constructor (conditional: bool, frank: bool, reachable: bool, others: nat -> map<string, Blob>, sums: Checksum,
                 objects: map<string, Blob>)
      ensures Valid() && log == [] && clock == 0
      ensures this.conditional == conditional && this.frank == frank && this.reachable == reachable
      ensures this.others == others && this.sums == sums && this.objects == objects
    {
      this.conditional, this.frank, this.reachable := conditional, frank, reachable;
      this.others, this.sums, this.objects := others, sums, objects;
      clock, theirs, log := 0, objects.Keys, [];
    }

    /** Nobody else writes meanwhile. */
    ghost predicate Alone() {
      forall t: nat :: others(t) == map[]
    }

    /** Nothing that was there can be changed by others, or by a write that looks first. */
    ghost predicate Safe() {
      conditional || Alone()
    }

    /** Nobody else writes, every request arrives, and every question is answered. */
    ghost predicate Calm() {
      frank && reachable && Alone()
    }

    /** The keys others put at before request t: on a conditional store, only those where nothing is. */
    function Puts(before: map<string, Blob>, t: nat): set<string> {
      if conditional then others(t).Keys - before.Keys else others(t).Keys
    }

    /** What others leave. Nobody removes an object. */
    function After(before: map<string, Blob>, t: nat): map<string, Blob> {
      if conditional then others(t) + before else before + others(t)
    }

    lemma AfterIs(before: map<string, Blob>, t: nat)
      ensures conditional ==> Grows(before, After(before, t))
      ensures Alone() ==> After(before, t) == before && Puts(before, t) == {}
      ensures Puts(before, t) <= After(before, t).Keys
      ensures forall key | key !in Puts(before, t) :: key in After(before, t) <==> key in before
    {
    }

    /** Time for others to write. */
    method Interfere()
      requires Valid()
      modifies this
      ensures Valid() && clock == old(clock) + 1
      ensures objects == After(old(objects), old(clock)) && theirs == old(theirs) + Puts(old(objects), old(clock))
      ensures log == old(log) + [Others(Puts(old(objects), old(clock)))]
      ensures conditional ==> Grows(old(objects), objects)
      ensures Alone() ==> objects == old(objects)
      ensures old(objects).Keys <= objects.Keys
    {
      AfterIs(objects, clock);
      ghost var put := Puts(objects, clock);
      OthersPut(log, objects, theirs, After(objects, clock), put);
      if conditional {
        CreateOnlyStays(log, objects, Others(put), After(objects, clock));
      }
      objects, theirs, log := After(objects, clock), theirs + put, log + [Others(put)];
      clock := clock + 1;
    }

    method HeadObject(key: string) returns (head: Head)
      requires Valid()
      modifies this
      ensures Valid() && clock == old(clock) + 1 && objects == After(old(objects), old(clock))
      ensures log == old(log) + [Others(Puts(old(objects), old(clock)))]
                              + (if head.NotFound? then [Looked(key)] else [])
      ensures conditional ==> Grows(old(objects), objects)
      ensures Alone() ==> objects == old(objects)
      ensures old(objects).Keys <= objects.Keys
      ensures head.NotFound? ==> key !in objects
      ensures head.Found? ==> key in objects && head.size == |objects[key].content|
      ensures head.Found? && head.crc.Some? ==> sums.Shows(objects[key], head.crc.value)
      ensures head.Found? && head.lock.Some? ==> head.lock == objects[key].lock
      ensures frank ==> !head.Unanswered? && (head.Found? ==> head.crc.Some?)
    {
      Interfere();
      assert log + [] == log;
      var answered: bool := *;
      if !answered && !frank {
        return Unanswered;
      }
      if key !in objects {
        SawNothing(log, objects, theirs, key);
        if conditional {
          CreateOnlyStays(log, objects, Looked(key), objects);
        }
        log := log + [Looked(key)];
        return NotFound;
      }
      var blob := objects[key];
      var shown: Option<Crc> := *;
      if shown.Some? && !sums.Shows(blob, shown.value) {
        shown := None;
      }
      if frank && !shown.Some? {
        shown := Some(if blob.partSums == [] then Crc(sums.Of(blob.content), None) else sums.Composite(blob.partSums));
      }
      var lock := blob.lock;
      if * {
        lock := None;
      }
      return Found(|blob.content|, shown, lock);
    }

    /** What of another's a request arriving next at the key would replace. */
    ghost function OverNext(key: string): Option<Blob>
      reads this
    {
      var mid := After(objects, clock);
      if key in mid && key in theirs + Puts(objects, clock) then Some(mid[key]) else None
    }

    /** Where nothing was seen, only what another puts in between can be replaced. */
    lemma OverNextIs(key: string)
      requires Valid() && !conditional && key !in objects
      ensures OverNext(key) == if key in others(clock) then Some(others(clock)[key]) else None
    {
    }

    /** One whole request reaches the store: on a conditional one it commits only where nothing is. */
    method Land(key: string, blob: Blob) returns (landed: bool)
      requires Valid()
      modifies this
      ensures Valid() && old(log) <= log
      ensures conditional ==> Grows(old(objects), objects)
      ensures landed ==> key in objects && objects[key] == blob
      ensures Alone() ==> objects == if landed then old(objects)[key := blob] else old(objects)
      ensures !conditional ==> landed && LandedFirst(log, |old(log)|, key, old(OverNext(key)))
      ensures !landed ==> key in objects
      ensures forall j | |old(log)| <= j < |log| && log[j].Landed? :: log[j].put == blob
      ensures Known(old(log), key).Some? ==> Knowing(log, |old(log)|, key)
    {
      ghost var before := log;
      Interfere();
      if conditional && key in objects {
        return false;
      }
      OwnLanding(log, objects, theirs, key, blob);
      ghost var e := LandingOf(log, objects, theirs, key, blob);
      LandsNext(before, Puts(old(objects), old(clock)), e, key);
      if conditional {
        CreateOnlyLands(log, objects, e);
      }
      objects, theirs, log := objects[key := blob], theirs - {key}, log + [e];
      return true;
    }
  }

  /** The second event from n on is a landing at the key, over this. */
  ghost predicate LandedFirst(log: seq<Event<Blob>>, n: nat, key: string, over: Option<Blob>) {
    |log| >= n + 2 && log[n + 1].Landed? && log[n + 1].key == key && log[n + 1].over == over
  }

  /** What a write adds to the log of a store: without conditional writes, landings only where it had looked. */
  ghost predicate Follows(conditional: bool, before: seq<Event<Blob>>, after: seq<Event<Blob>>, key: string) {
    before <= after && (!conditional ==> Knowing(after, |before|, key))
  }

  lemma FollowsOn(conditional: bool, a: seq<Event<Blob>>, b: seq<Event<Blob>>, c: seq<Event<Blob>>, key: string)
    requires Follows(conditional, a, b, key) && Follows(conditional, b, c, key)
    ensures Follows(conditional, a, c, key)
  {
    if !conditional {
      KnowingOn(b, c, |a|, key);
    }
  }

  lemma KnowingAfterQuiet(a: seq<Event<Blob>>, b: seq<Event<Blob>>, c: seq<Event<Blob>>, key: string)
    requires a <= b <= c && Quiet(b, |a|) && Knowing(c, |b|, key)
    ensures Knowing(c, |a|, key)
  {
  }

  lemma KnowingThenQuiet(a: seq<Event<Blob>>, b: seq<Event<Blob>>, c: seq<Event<Blob>>, key: string)
    requires a <= b <= c && Knowing(b, |a|, key) && Quiet(c, |b|)
    ensures Knowing(c, |a|, key)
  {
  }

  class Backend {
    const store: Store
    const partSize: nat
    var composite: bool // set at the first refusal of a whole object's CRC32, and never cleared

    constructor (store: Store, partSize: nat)
      ensures this.store == store && this.partSize == partSize && !composite
    {
      this.store, this.partSize, composite := store, partSize, false;
    }

    // -------------------------------------------------------------- one PUT

    /** One send, over a file that may read differently every time. */
    method SendOnce(e: S3Reader, key: string, crc: int, lock: Option<Lock>, again: Script)
      returns (landed: Option<bool>)
      requires store.Valid() && e.Valid() && again.Valid()
      requires !store.conditional ==> Known(store.log, key).Some?
      modifies store, e, e.r
      ensures e.Valid() && store.Valid() && Follows(store.conditional, old(store.log), store.log, key)
      ensures !store.conditional && store.reachable && Carries(store.sums, again, e.size, crc) ==>
                LandedFirst(store.log, |old(store.log)|, key, old(store.OverNext(key)))
      ensures store.conditional ==> Grows(old(store.objects), store.objects)
      ensures store.Alone() ==> OnlyOurs(store.sums, old(store.objects), store.objects, key, e.size, [Crc(crc, None)])
      ensures landed == Some(true) ==>
                key in store.objects && store.sums.Matches(store.objects[key], e.size, [Crc(crc, None)])
                  && store.objects[key].lock == lock
      ensures store.reachable && store.Alone() && Carries(store.sums, again, e.size, crc) ==> key in store.objects
      ensures LandsWhole(store.log, |old(store.log)|, store.sums, e.size, crc, lock)
    {
      e.Seek(0, again);
      var wire, whole := Send(e);
      var arrived: bool := *;
      if (!arrived && !store.reachable) || !whole || store.sums.Of(wire) != crc {
        return None;
      }
      var blob := Blob(wire, [], lock);
      store.sums.KnownMatches(blob, e.size, [Crc(crc, None)]);
      var done := store.Land(key, blob);
      return Some(done);
    }

    /**
     The SDK's sends of one PUT. A send whose answer is lost is repeated; on a conditional store a repeat
     finds its own object in the way.
     */
    method PutObject(e: S3Reader, key: string, crc: int, lock: Option<Lock>, sends: seq<Script>)
      returns (answered: bool)
      requires store.Valid() && e.Valid() && forall s :: s in sends ==> s.Valid()
      requires !store.conditional ==> Known(store.log, key).Some?
      modifies store, e, e.r
      ensures store.Valid() && Follows(store.conditional, old(store.log), store.log, key)
      ensures !store.conditional && store.reachable && sends != [] && Carries(store.sums, sends[0], e.size, crc) ==>
                LandedFirst(store.log, |old(store.log)|, key, old(store.OverNext(key)))
      ensures store.conditional ==> Grows(old(store.objects), store.objects)
      ensures store.Alone() ==> OnlyOurs(store.sums, old(store.objects), store.objects, key, e.size, [Crc(crc, None)])
      ensures answered ==>
                key in store.objects && store.sums.Matches(store.objects[key], e.size, [Crc(crc, None)])
                  && store.objects[key].lock == lock
      ensures store.reachable && store.Alone() && sends != [] && Carries(store.sums, sends[0], e.size, crc) ==>
              key in store.objects
      ensures LandsWhole(store.log, |old(store.log)|, store.sums, e.size, crc, lock)
    {
      answered := false;
      for j := 0 to |sends|
        invariant e.Valid() && store.Valid() && Follows(store.conditional, old(store.log), store.log, key)
        invariant !store.conditional && store.reachable && j > 0 && Carries(store.sums, sends[0], e.size, crc) ==>
                    LandedFirst(store.log, |old(store.log)|, key, old(store.OverNext(key)))
        invariant LandsWhole(store.log, |old(store.log)|, store.sums, e.size, crc, lock)
        invariant j == 0 ==> store.log == old(store.log) && store.OverNext(key) == old(store.OverNext(key))
        invariant store.conditional ==> Grows(old(store.objects), store.objects)
        invariant store.Alone() ==>
                  OnlyOurs(store.sums, old(store.objects), store.objects, key, e.size, [Crc(crc, None)])
        invariant store.reachable && store.Alone() && j > 0 && Carries(store.sums, sends[0], e.size, crc) ==>
                  key in store.objects
      {
        ghost var before := store.log;
        if !store.conditional {
          KnownStays(old(store.log), before, key);
        }
        var landed := SendOnce(e, key, crc, lock, sends[j]);
        FollowsOn(store.conditional, old(store.log), before, store.log, key);
        LandsWholeOn(old(store.log), before, store.log, store.sums, e.size, crc, lock);
        var heard: bool := *;
        if landed.Some? && heard {
          return landed.value;
        }
      }
    }

    /** Compares the key's object with what a write sent: its size, and a checksum the store shows. */
    method Settle(key: string, size: int, ours: seq<Crc>) returns (state: State, head: Head)
      requires store.Valid()
      modifies store
      ensures store.Valid() && old(store.log) <= store.log && Quiet(store.log, |old(store.log)|)
      ensures store.conditional ==> Grows(old(store.objects), store.objects)
      ensures store.Alone() ==> store.objects == old(store.objects)
      ensures old(store.objects).Keys <= store.objects.Keys
      ensures state == Ours ==>
              key in store.objects && store.sums.Matches(store.objects[key], size, ours) && head.Found?
      ensures state == Ours && head.lock.Some? ==> head.lock == store.objects[key].lock
      ensures state == Absent ==> key !in store.objects
      ensures state == Other ==> head.Unanswered? || key in store.objects
      ensures store.frank ==> !head.Unanswered?
      ensures store.frank && key in store.objects && store.sums.Knows(store.objects[key], size, ours) ==> state == Ours
    {
      head := store.HeadObject(key);
      if head.NotFound? {
        return Absent, head;
      }
      if head.Found? && head.size == size && head.crc.Some? && head.crc.value in ours {
        return Ours, head;
      }
      return Other, head;
    }

    /** Whether a write may go on: nothing was at the key, and now that is known. */
    method Clear(key: string) returns (clear: Result<bool, PutError>)
      requires store.Valid()
      modifies store
      ensures store.Valid() && old(store.log) <= store.log && Quiet(store.log, |old(store.log)|)
      ensures clear.Ok? ==> Known(store.log, key) == Some(false)
      ensures clear.Ok? ==> |store.log| == |old(store.log)| + 2 && store.clock == old(store.clock) + 1
      ensures store.frank && key !in store.After(old(store.objects), old(store.clock)) ==> clear.Ok?
      ensures store.conditional ==> Grows(old(store.objects), store.objects)
      ensures store.Alone() ==> store.objects == old(store.objects)
      ensures old(store.objects).Keys <= store.objects.Keys
      ensures clear.Ok? ==> key !in store.objects
      ensures clear == Err(Refused) ==> key in store.objects
      ensures store.frank && key !in store.objects ==> clear.Ok?
      ensures store.frank && key in store.objects ==> clear == Err(Refused)
    {
      var head := store.HeadObject(key);
      match head {
        case Unanswered => return Err(Failed(false));
        case Found(_, _, _) => return Err(Refused);
        case NotFound =>
          KnownSnoc(store.log[..|store.log| - 1], Looked(key), key);
          assert store.log == store.log[..|store.log| - 1] + [Looked(key)];
          return Ok(true);
      }
    }

    /** The sends, and where none was answered what is at the key. */
    method SendAndSettle(e: S3Reader, key: string, crc: int, lock: Option<Lock>, sends: seq<Script>)
      returns (res: Result<PutResult, PutError>)
      requires store.Valid() && e.Valid() && |sends| > 0 && forall s :: s in sends ==> s.Valid()
      requires !store.conditional ==> Known(store.log, key).Some?
      modifies store, e, e.r
      ensures store.Valid() && Follows(store.conditional, old(store.log), store.log, key)
      ensures !store.conditional && store.reachable && Carries(store.sums, sends[0], e.size, crc) ==>
                LandedFirst(store.log, |old(store.log)|, key, old(store.OverNext(key)))
      ensures store.conditional ==> Grows(old(store.objects), store.objects)
      ensures store.Alone() ==> OnlyOurs(store.sums, old(store.objects), store.objects, key, e.size, [Crc(crc, None)])
      ensures res.Ok? ==> key in store.objects && store.sums.Matches(store.objects[key], e.size, [Crc(crc, None)])
      ensures res.Ok? ==>
              res.value.size == e.size && (res.value.lock.Some? ==> res.value.lock == store.objects[key].lock)
      ensures res == Err(Refused) ==> key in store.objects
      ensures store.frank && store.Alone() && store.objects != old(store.objects) ==> res.Ok?
      ensures store.Calm() && key !in old(store.objects) && Carries(store.sums, sends[0], e.size, crc) ==> res.Ok?
      ensures LandsWhole(store.log, |old(store.log)|, store.sums, e.size, crc, lock)
      ensures store.frank && Differs(store.sums, store.objects, key, e.size, crc) ==> res == Err(Refused)
    {
      var answered := PutObject(e, key, crc, lock, sends);
      if answered {
        return Ok(PutResult(e.size, lock));
      }
      ghost var sent := store.log;
      var state, head := Settle(key, e.size, [Crc(crc, None)]);
      if !store.conditional {
        KnowingThenQuiet(old(store.log), sent, store.log, key);
      }
      match state {
        case Ours => return Ok(PutResult(e.size, head.lock));
        case Other => return Err(if head.Unanswered? then Failed(false) else Refused);
        case Absent => return Err(Failed(false));
      }
    }

    /** One PUT, of a checksum computed before the first send. */
    method PutSummed(e: S3Reader, key: string, lock: Option<Lock>, sends: seq<Script>)
      returns (res: Result<PutResult, PutError>)
      requires store.Valid() && e.Valid() && e.n == 0 <= e.size && |sends| > 0 && forall s :: s in sends ==> s.Valid()
      requires !store.conditional ==> Known(store.log, key).Some?
      modifies store, e, e.r
      ensures store.Valid() && Follows(store.conditional, old(store.log), store.log, key)
      ensures var crc := store.sums.Of(old(e.r.script).Data());
              !store.conditional && store.reachable && Exact(old(e.r.script), e.size)
              && Carries(store.sums, sends[0], e.size, crc) ==>
                LandedFirst(store.log, |old(store.log)|, key, old(store.OverNext(key)))
      ensures store.conditional ==> Grows(old(store.objects), store.objects)
      ensures store.Alone() && store.objects != old(store.objects) ==> Exact(old(e.r.script), e.size)
      ensures store.Alone() ==>
              OnlyOurs(store.sums, old(store.objects), store.objects, key, e.size,
                       [Crc(store.sums.Of(old(e.r.script).Data()), None)])
      ensures res.Ok? ==> Exact(old(e.r.script), e.size)
      ensures res.Ok? ==>
                key in store.objects
                  && store.sums.Matches(store.objects[key], e.size, [Crc(store.sums.Of(old(e.r.script).Data()), None)])
      ensures res.Ok? ==>
              res.value.size == e.size && (res.value.lock.Some? ==> res.value.lock == store.objects[key].lock)
      ensures res == Err(Refused) ==> key in store.objects
      ensures store.frank && store.Alone() && store.objects != old(store.objects) ==> res.Ok?
      ensures store.Calm() && key !in old(store.objects) && Exact(old(e.r.script), e.size) ==>
                Carries(store.sums, sends[0], e.size, store.sums.Of(old(e.r.script).Data())) ==> res.Ok?
      ensures LandsWhole(store.log, |old(store.log)|, store.sums, e.size, store.sums.Of(old(e.r.script).Data()), lock)
      ensures store.frank && Exact(old(e.r.script), e.size) ==>
                Differs(store.sums, store.objects, key, e.size, store.sums.Of(old(e.r.script).Data())) ==>
                  res == Err(Refused)
    {
      var sum := Crc32Of(e, store.sums.step, store.sums.init, sends[0]);
      if sum.Err? {
        return Err(Failed(false));
      }
      res := SendAndSettle(e, key, sum.value, lock, sends);
    }

    /** A write below the threshold. */
    method PutWhole(key: string, r: Reader, size: int, lock: Option<Lock>, sends: seq<Script>)
      returns (res: Result<PutResult, PutError>)
      requires store.Valid() && r.Valid() && |sends| > 0 && forall s :: s in sends ==> s.Valid()
      modifies store, r
      ensures store.Valid()
      // without conditional writes, a landing of this write replaces another's object exactly when overtaken
      ensures Follows(store.conditional, old(store.log), store.log, key)
      // a first send that arrives lands over just what another put at the key after the look
      ensures !store.conditional && store.frank && store.reachable && Exact(old(r.script), size) ==>
                key !in store.After(old(store.objects), old(store.clock)) ==>
                  Carries(store.sums, sends[0], size, store.sums.Of(old(r.script).Data())) ==>
                    var late := store.others(old(store.clock) + 1);
                    LandedFirst(store.log, |old(store.log)| + 2, key, if key in late then Some(late[key]) else None)
      // create-only: nothing that was there is touched, by this write or on its account
      ensures store.Safe() ==> Grows(old(store.objects), store.objects)
      // and nothing changes but the key, to an object with this size and checksum
      ensures store.Alone() ==>
              OnlyOurs(store.sums, old(store.objects), store.objects, key, size,
                       [Crc(store.sums.Of(old(r.script).Data()), None)])
      // a write reported done is at the key, whichever request put it there
      ensures res.Ok? ==> Exact(old(r.script), size)
      ensures res.Ok? ==>
                key in store.objects
                  && store.sums.Matches(store.objects[key], size, [Crc(store.sums.Of(old(r.script).Data()), None)])
      // and what it says is held is held
      ensures res.Ok? ==> res.value.size == size && (res.value.lock.Some? ==> res.value.lock == store.objects[key].lock)
      // a refusal means something is there, and with a store that says what, a write that landed is never reported lost
      ensures res == Err(Refused) ==> key in store.objects
      ensures store.frank && store.Alone() && store.objects != old(store.objects) ==> res.Ok?
      // a new key, an exact stream that reads the same again, a store that is reached and answers: it is written
      ensures store.Calm() && key !in old(store.objects) && Exact(old(r.script), size) ==>
                Carries(store.sums, sends[0], size, store.sums.Of(old(r.script).Data())) ==> res.Ok?
      // an inexact stream leaves nothing
      ensures !Exact(old(r.script), size) && store.Alone() ==> store.objects == old(store.objects)
      // whoever else writes, each landing is an object of this size and checksum, under the lock that was asked for
      ensures LandsWhole(store.log, |old(store.log)|, store.sums, size, store.sums.Of(old(r.script).Data()), lock)
      // and where the store says what it has, another object at the key is a refusal
      ensures store.frank && Exact(old(r.script), size) ==>
                Differs(store.sums, store.objects, key, size, store.sums.Of(old(r.script).Data())) ==>
                  res == Err(Refused)
    {
      if size < 0 {
        return Err(Failed(false));
      }
      var e := new S3Reader(r, size);
      if !store.conditional {
        var clear := Clear(key);
        if clear.Err? {
          return Err(clear.error);
        }
        store.OverNextIs(key);
      }
      ghost var looked := store.log;
      res := PutSummed(e, key, lock, sends);
      if !store.conditional {
        KnowingAfterQuiet(old(store.log), looked, store.log, key);
      }
    }

    // -------------------------------------------------------------- in parts

    /** Starts an upload; after a first refusal of the whole object's CRC32 it asks for the composite one. */
    method CreateUpload() returns (kind: Option<bool>)
      requires store.Valid()
      modifies store, `composite
      ensures store.Valid() && old(store.log) <= store.log && Quiet(store.log, |old(store.log)|)
      ensures store.conditional ==> Grows(old(store.objects), store.objects)
      ensures store.Alone() ==> store.objects == old(store.objects)
      ensures kind == Some(true) ==> composite
      ensures old(composite) ==> composite && kind != Some(false)
      ensures kind.Some? ==> kind.value == composite
      ensures store.reachable ==> kind.Some?
    {
      store.Interfere();
      var refusedType: bool, started: bool := *, *;
      if !composite && refusedType {
        composite := true;
      }
      return if started || store.reachable then Some(composite) else None;
    }

    /**
     One send of a part: it is read again at its offset and sent with the sum computed for it; the store
     keeps only bytes that match it.
     */
    method SendPartOnce(r: File, base: nat, p: Plan, sums: PartSums<int>, i: nat, ghost content: Bytes)
      returns (sent: Option<Bytes>)
      requires store.Valid() && r.Valid() && p.Valid() && i < p.count == |sums.parts|
      modifies store, r
      ensures r.Valid() && old(r.said) <= r.said
      ensures store.Valid() && old(store.log) <= store.log && Quiet(store.log, |old(store.log)|)
      ensures store.conditional ==> Grows(old(store.objects), store.objects)
      ensures store.Alone() ==> store.objects == old(store.objects)
      ensures sent.Some? ==> |sent.value| == p.Length(i) && store.sums.Of(sent.value) == sums.parts[i]
      ensures sent.Some? ==> Given(r.said, |old(r.said)|, base + p.Offset(i), sent.value)
      ensures store.reachable && IntactAt(store.sums, r, base, p, sums, content, i) ==> sent.Some?
      ensures store.clock == old(store.clock) + 1
    {
      store.Interfere();
      CoveredGrows(p, i);
      var off, n := p.Offset(i), p.Length(i);
      var c := store.sums;
      var got, _, count, err, body := CopySection(r, base + off, n, c.step, c.init, c.init, content);
      var lost: bool := *;
      if err != NoErr || (lost && !store.reachable) || count != n {
        return None;
      }
      if IntactAt(c, r, base, p, sums, content, i) {
        IntactPart(c, r, base, p, sums, content, i, |old(r.said)|, body);
      }
      return if got == sums.parts[i] then Some(body) else None;
    }

    /** A part and its repeats, each reading the file anew, up to the first the store acknowledges. */
    method SendPart(r: File, base: nat, p: Plan, sums: PartSums<int>, i: nat, ghost content: Bytes)
      returns (sent: Option<Bytes>)
      requires store.Valid() && r.Valid() && p.Valid() && i < p.count == |sums.parts|
      modifies store, r
      ensures r.Valid() && old(r.said) <= r.said
      ensures store.Valid() && old(store.log) <= store.log && Quiet(store.log, |old(store.log)|)
      ensures store.conditional ==> Grows(old(store.objects), store.objects)
      ensures store.Alone() ==> store.objects == old(store.objects)
      ensures sent.Some? ==> |sent.value| == p.Length(i) && store.sums.Of(sent.value) == sums.parts[i]
      ensures sent.Some? ==> Given(r.said, |old(r.said)|, base + p.Offset(i), sent.value)
      ensures store.reachable && IntactAt(store.sums, r, base, p, sums, content, i) ==> sent.Some?
      ensures store.clock <= old(store.clock) + 3 && (sent.None? ==> store.clock == old(store.clock) + 3)
    {
      for k := 0 to PART_ATTEMPTS
        invariant store.clock == old(store.clock) + k
        invariant r.Valid() && old(r.said) <= r.said
        invariant store.Valid() && old(store.log) <= store.log && Quiet(store.log, |old(store.log)|)
        invariant store.conditional ==> Grows(old(store.objects), store.objects)
        invariant store.Alone() ==> store.objects == old(store.objects)
        invariant k > 0 ==> !(store.reachable && IntactAt(store.sums, r, base, p, sums, content, i))
      {
        ghost var before, seen := store.log, r.said;
        sent := SendPartOnce(r, base, p, sums, i, content);
        QuietOn(before, store.log, |old(store.log)|);
        if sent.Some? {
          GivenStays(r.said, r.said, |old(r.said)|, |seen|, base + p.Offset(i), sent.value);
          return;
        }
      }
      return None;
    }

    /** Every part, or none of the object. */
    method SendParts(r: File, base: nat, p: Plan, sums: PartSums<int>, ghost content: Bytes)
      returns (sent: Option<seq<Bytes>>)
      requires store.Valid() && r.Valid() && p.Valid() && p.size > 0 && |sums.parts| == p.count
      modifies store, r
      ensures r.Valid() && old(r.said) <= r.said
      ensures store.Valid() && old(store.log) <= store.log && Quiet(store.log, |old(store.log)|)
      ensures store.conditional ==> Grows(old(store.objects), store.objects)
      ensures store.Alone() ==> store.objects == old(store.objects)
      ensures sent.Some? ==>
              |sent.value| == p.count
              && SentWhole(store.sums, Flatten(sent.value), p, sums, r.said, |old(r.said)|, base)
      ensures store.reachable && Intact(store.sums, r, base, p, sums, content) ==> sent.Some?
    {
      var parts: seq<Bytes> := [];
      ghost var all: Bytes := [];
      CoveredGrows(p, 0);
      for i := 0 to p.count
        invariant r.Valid() && old(r.said) <= r.said
        invariant store.Valid() && old(store.log) <= store.log && Quiet(store.log, |old(store.log)|)
        invariant store.conditional ==> Grows(old(store.objects), store.objects)
        invariant store.Alone() ==> store.objects == old(store.objects)
        invariant |parts| == i && all == Flatten(parts) && Given(r.said, |old(r.said)|, base, all)
        invariant Summed(sums.parts[..i], all, p, store.sums.step, store.sums.init)
      {
        CoveredGrows(p, i);
        IntactEverywhere(store.sums, r, base, p, sums, content, i);
        ghost var before, seen := store.log, r.said;
        var body := SendPart(r, base, p, sums, i, content);
        QuietOn(before, store.log, |old(store.log)|);
        if body.None? {
          return None;
        }
        SectionGiven(seen, r.said, |old(r.said)|, base, all, body.value);
        OnePartMore(store.sums, p, sums, i, all, body.value);
        FlattenSnoc(parts, body.value);
        parts, all := parts + [body.value], all + body.value;
      }
      assert sums.parts[..p.count] == sums.parts;
      return Some(parts);
    }

    /**
     There is one Complete an upload, and where its answer is lost the key is looked at to settle it. Again
     says the store answered 409 and nothing is there.
     */
    method Complete(key: string, parts: seq<Bytes>, size: int, sums: PartSums<int>, kind: bool, lock: Option<Lock>)
      returns (res: Completion)
      requires store.Valid() && sums.parts != [] && |Flatten(parts)| == size
      modifies store
      ensures store.Valid() && Follows(store.conditional, old(store.log), store.log, key)
      ensures store.Safe() ==> Grows(old(store.objects), store.objects)
      ensures store.Alone() ==>
              OnlyOurs(store.sums, old(store.objects), store.objects, key, size, CrcsOf(store.sums, sums))
      ensures res.Done? ==>
              key in store.objects && store.sums.Matches(store.objects[key], size, CrcsOf(store.sums, sums))
      ensures res.Done? ==>
              res.result.size == size && (res.result.lock.Some? ==> res.result.lock == store.objects[key].lock)
      ensures res.Again? ==> key !in store.objects && Quiet(store.log, |old(store.log)|)
      ensures res == Stopped(Refused) ==> key in store.objects
      ensures LandsAs(store.log, |old(store.log)|, store.sums, Flatten(parts), sums, lock)
      ensures store.frank && store.Alone() && store.objects != old(store.objects) ==> res.Done?
      ensures store.Calm() && key !in old(store.objects) && store.sums.Of(Flatten(parts)) == sums.full ==> res.Done?
    {
      if !store.conditional {
        var clear := Clear(key);
        if clear.Err? {
          return Stopped(clear.error);
        }
      }
      ghost var looked := store.log;
      var heard := RequestComplete(key, parts, sums, kind, lock);
      if !store.conditional {
        KnowingAfterQuiet(old(store.log), looked, store.log, key);
      }
      if heard {
        return Done(PutResult(size, lock));
      }
      ghost var sent := store.log;
      var conflict: bool := *;
      res := SettleComplete(key, size, sums, kind, conflict);
      if !store.conditional {
        KnowingThenQuiet(old(store.log), sent, store.log, key);
      }
    }

    /** The request itself: a store that takes a full-object CRC32 holds the parts to it. */
    method RequestComplete(key: string, parts: seq<Bytes>, sums: PartSums<int>, kind: bool, lock: Option<Lock>)
      returns (heard: bool)
      requires store.Valid() && sums.parts != []
      requires !store.conditional ==> Known(store.log, key).Some?
      modifies store
      ensures store.Valid() && old(store.log) <= store.log
      ensures !store.conditional ==> Knowing(store.log, |old(store.log)|, key)
      ensures store.conditional ==> Grows(old(store.objects), store.objects)
      ensures store.Alone() && store.objects != old(store.objects) ==>
              key in store.objects && store.objects == old(store.objects)[key := store.objects[key]]
              && store.sums.Knows(store.objects[key], |Flatten(parts)|, OursOf(store.sums, sums, kind))
              && store.sums.Knows(store.objects[key], |Flatten(parts)|, CrcsOf(store.sums, sums))
      ensures heard ==>
              key in store.objects && store.objects[key].lock == lock
              && store.sums.Matches(store.objects[key], |Flatten(parts)|, CrcsOf(store.sums, sums))
      ensures LandsAs(store.log, |old(store.log)|, store.sums, Flatten(parts), sums, lock)
      ensures key !in store.objects ==> Quiet(store.log, |old(store.log)|)
      ensures store.reachable && (kind || store.sums.Of(Flatten(parts)) == sums.full) ==> key in store.objects
    {
      var blob := Blob(Flatten(parts), if kind then sums.parts else [], lock);
      var arrived: bool, answered: bool := *, *;
      if (!arrived && !store.reachable) || (!kind && store.sums.Of(blob.content) != sums.full) {
        return false;
      }
      KnownEitherWay(store.sums, blob, sums, kind);
      var landed := store.Land(key, blob);
      return landed && answered;
    }

    /**
     An answer to Complete that is no success, a 409 or another: what is at the key says what became of it, and
     with nothing there a 409 asks for another try.
     */
    method SettleComplete(key: string, size: int, sums: PartSums<int>, kind: bool, conflict: bool)
      returns (res: Completion)
      requires store.Valid()
      modifies store
      ensures store.Valid() && old(store.log) <= store.log && Quiet(store.log, |old(store.log)|)
      ensures store.conditional ==> Grows(old(store.objects), store.objects)
      ensures store.Alone() ==> store.objects == old(store.objects)
      ensures old(store.objects).Keys <= store.objects.Keys
      ensures res.Done? ==>
              key in store.objects && store.sums.Matches(store.objects[key], size, CrcsOf(store.sums, sums))
              && StoredSum(store.sums, store.objects[key]) ==
                   if kind then Fold(store.sums.step, store.sums.init, Concat(sums.parts)) else sums.full
      ensures res.Done? ==>
              res.result.size == size && (res.result.lock.Some? ==> res.result.lock == store.objects[key].lock)
      ensures res.Again? ==> key !in store.objects && conflict
      ensures store.frank && key !in store.objects ==> (res.Again? <==> conflict)
      ensures res == Stopped(Refused) ==> key in store.objects
      ensures (&& store.frank && key in store.objects
               && store.sums.Knows(store.objects[key], size, OursOf(store.sums, sums, kind))) ==> res.Done?
    {
      var ours := OursOf(store.sums, sums, kind);
      var state, head := Settle(key, size, ours);
      match state {
        case Ours =>
          OursMeans(store.sums, store.objects[key], size, sums, kind);
          MoreCrcs(store.sums, store.objects[key], size, ours, CrcsOf(store.sums, sums));
          return Done(PutResult(size, head.lock));
        case Other => return Stopped(if head.Unanswered? then Failed(conflict) else Refused);
        case Absent => return if conflict then Again else Stopped(Failed(false));
      }
    }

    /** An upload as far as Complete: its parts sent, and then a last look past the file's end. */
    method SendAll(r: File, base: nat, p: Plan, sums: PartSums<int>, ghost content: Bytes)
      returns (sent: Option<seq<Bytes>>, kind: bool)
      requires store.Valid() && r.Valid() && p.Valid() && p.size > 0 && |sums.parts| == p.count
      modifies store, r, `composite
      ensures r.Valid() && old(r.said) <= r.said
      ensures store.Valid() && old(store.log) <= store.log && Quiet(store.log, |old(store.log)|)
      ensures store.conditional ==> Grows(old(store.objects), store.objects)
      ensures store.Alone() ==> store.objects == old(store.objects)
      ensures sent.Some? ==>
              && |r.said| > |old(r.said)| && LastEnd(r.said, base + p.size)
              && SentWhole(store.sums, Flatten(sent.value), p, sums, r.said, |old(r.said)|, base)
      ensures store.reachable && Intact(store.sums, r, base, p, sums, content) ==>
              sent.Some? && store.sums.Of(Flatten(sent.value)) == sums.full
    {
      var started := CreateUpload();
      if started.None? {
        return None, false;
      }
      ghost var before := store.log;
      var parts := SendParts(r, base, p, sums, content);
      QuietOn(before, store.log, |old(store.log)|);
      if parts.None? {
        return None, false;
      }
      ghost var seen, all := r.said, Flatten(parts.value);
      var end := EndsAt(r, base + p.size, content);
      GivenStays(seen, r.said, |old(r.said)|, |old(r.said)|, base, all);
      if Intact(store.sums, r, base, p, sums, content) {
        IntactWhole(store.sums, r, base, p, sums, content, |old(r.said)|, all);
      }
      return if end == NoErr then parts else None, started.value;
    }

    /** One upload, and Complete once its parts are sent and the file's end was seen again. */
    method Upload(key: string, r: File, base: nat, p: Plan, sums: PartSums<int>, lock: Option<Lock>,
            ghost content: Bytes)
      returns (res: Completion)
      requires store.Valid() && r.Valid() && p.Valid() && p.size > 0 && |sums.parts| == p.count
      modifies store, r, `composite
      ensures r.Valid() && old(r.said) <= r.said
      ensures store.Valid() && Follows(store.conditional, old(store.log), store.log, key)
      ensures store.Safe() ==> Grows(old(store.objects), store.objects)
      ensures store.Alone() ==>
              OnlyOurs(store.sums, old(store.objects), store.objects, key, p.size, CrcsOf(store.sums, sums))
      // what lands is bytes the file gave in this upload, each part with its sum, after the end was seen last of all
      ensures LandsFromFile(store.log, |old(store.log)|, store.sums, p, sums, r.said, |old(r.said)|, base, lock)
      ensures res.Done? || !Quiet(store.log, |old(store.log)|) ==>
              |r.said| > |old(r.said)| && LastEnd(r.said, base + p.size)
      ensures res.Done? ==>
              key in store.objects && store.sums.Matches(store.objects[key], p.size, CrcsOf(store.sums, sums))
      ensures res.Done? ==>
              res.result.size == p.size && (res.result.lock.Some? ==> res.result.lock == store.objects[key].lock)
      ensures res.Again? ==> key !in store.objects && Quiet(store.log, |old(store.log)|)
      ensures res == Stopped(Refused) ==> key in store.objects
      ensures store.frank && store.Alone() && store.objects != old(store.objects) ==> res.Done?
      ensures store.Calm() && key !in old(store.objects) && Intact(store.sums, r, base, p, sums, content) ==> res.Done?
    {
      var sent, kind := SendAll(r, base, p, sums, content);
      if sent.None? {
        return Stopped(Failed(false));
      }
      ghost var before, all := store.log, Flatten(sent.value);
      res := Complete(key, sent.value, p.size, sums, kind, lock);
      LandsFromSent(before, store.log, |old(store.log)|, store.sums, p, sums, r.said, |old(r.said)|, base, all, lock);
      if !store.conditional {
        KnowingAfterQuiet(old(store.log), before, store.log, key);
      }
    }

    /** The upload, and once more where a 409 left nothing at the key. */
    method UploadTwice(key: string, r: File, base: nat, p: Plan, sums: PartSums<int>, lock: Option<Lock>,
            ghost content: Bytes)
      returns (res: Completion, uploads: nat)
      requires store.Valid() && r.Valid() && p.Valid() && p.size > 0 && |sums.parts| == p.count
      modifies store, r, `composite
      ensures r.Valid() && old(r.said) <= r.said && 1 <= uploads <= 2
      ensures store.Valid() && Follows(store.conditional, old(store.log), store.log, key)
      ensures store.Safe() ==> Grows(old(store.objects), store.objects)
      ensures LandsFromFile(store.log, |old(store.log)|, store.sums, p, sums, r.said, |old(r.said)|, base, lock)
      ensures store.Alone() ==>
              OnlyOurs(store.sums, old(store.objects), store.objects, key, p.size, CrcsOf(store.sums, sums))
      ensures res.Done? || !Quiet(store.log, |old(store.log)|) ==>
              |r.said| > |old(r.said)| && LastEnd(r.said, base + p.size)
      ensures res.Done? ==>
              key in store.objects && store.sums.Matches(store.objects[key], p.size, CrcsOf(store.sums, sums))
      ensures res.Done? ==>
              res.result.size == p.size && (res.result.lock.Some? ==> res.result.lock == store.objects[key].lock)
      ensures res == Stopped(Refused) ==> key in store.objects
      ensures store.frank && store.Alone() && store.objects != old(store.objects) ==> res.Done?
      ensures store.Calm() && key !in old(store.objects) && Intact(store.sums, r, base, p, sums, content) ==> res.Done?
    {
      uploads := 1;
      res := Upload(key, r, base, p, sums, lock, content);
      if res.Again? {
        uploads := 2;
        ghost var first, seen := store.log, |r.said|;
        res := Upload(key, r, base, p, sums, lock, content);
        FollowsOn(store.conditional, old(store.log), first, store.log, key);
        LandsSince(first, store.log, |old(store.log)|, store.sums, p, sums, r.said, |old(r.said)|, seen, base, lock);
        QuietOn(old(store.log), first, |old(store.log)|);
      }
    }

    /** Before anything is sent: the key is looked at, and the file read once and looked at past its end. */
    method SumFirst(key: string, r: File, base: nat, p: Plan, ghost content: Bytes)
      returns (pass: Result<PartSums<int>, PutError>, ghost read: Bytes)
      requires store.Valid() && r.Valid() && p.Valid() && p.size > 0
      modifies store, r
      ensures r.Valid() && old(r.said) <= r.said
      ensures store.Valid() && old(store.log) <= store.log && Quiet(store.log, |old(store.log)|)
      ensures store.conditional ==> Grows(old(store.objects), store.objects)
      ensures store.Alone() ==> store.objects == old(store.objects)
      ensures pass.Ok? ==> key !in store.objects
      ensures pass == Err(Refused) ==> key in store.objects
      ensures store.frank && key in old(store.objects) ==> pass == Err(Refused)
      ensures pass.Ok? ==> Passed(store.sums, pass.value, read, p, r.said, |old(r.said)|, |r.said|, base)
      ensures store.frank && key !in store.objects && r.Sound(content) ==>
              (pass.Ok? <==> |content| == base + p.size)
    {
      read := [];
      var clear := Clear(key);
      if clear.Err? {
        return Err(clear.error), read;
      }
      var sums, bytes := ChecksumParts(r, base, p, store.sums.step, store.sums.init, content);
      assert r.said[..|r.said|] == r.said;
      return if sums.Ok? then Ok(sums.value) else Err(Failed(false)), bytes;
    }

    /** A write above the threshold: the key is looked at first, and a 409 with nothing there is tried once more. */
    method PutParts(key: string, r: File, base: nat, size: nat, lock: Option<Lock>, ghost content: Bytes)
      returns (res: Result<PutResult, PutError>, uploads: nat, ghost sums: PartSums<int>, ghost read: Bytes,
               ghost summed: nat)
      requires store.Valid() && r.Valid() && size > 0 && partSize > 0
      modifies store, r, `composite
      ensures store.Valid() && r.Valid() && old(r.said) <= r.said
      // without conditional writes, a landing of this write replaces another's object exactly when overtaken
      ensures Follows(store.conditional, old(store.log), store.log, key)
      // create-only
      ensures store.Safe() ==> Grows(old(store.objects), store.objects)
      // and nothing changes but the key, to an object with this size and one of these checksums
      ensures store.Alone() ==>
              OnlyOurs(store.sums, old(store.objects), store.objects, key, size, CrcsOf(store.sums, sums))
      ensures uploads <= 2
      // nothing is sent before one reading of the file gave all of it, with its sums, and then its end
      ensures uploads == 0 ==> res.Err? && Quiet(store.log, |old(store.log)|)
      ensures uploads > 0 ==>
              Passed(store.sums, sums, read, PlanParts(size, partSize), r.said, |old(r.said)|, summed, base)
      // what lands is bytes it gave after that, each part with its sum, and the end was seen again last of all
      ensures LandsFromFile(store.log, |old(store.log)|, store.sums, PlanParts(size, partSize), sums, r.said, summed,
              base, lock)
      ensures res.Ok? || !Quiet(store.log, |old(store.log)|) ==> |r.said| > summed && LastEnd(r.said, base + size)
      // done means there, with this size and a CRC32 of what was read
      ensures res.Ok? ==> key in store.objects && store.sums.Matches(store.objects[key], size, CrcsOf(store.sums, sums))
      ensures res.Ok? ==> res.value.size == size && (res.value.lock.Some? ==> res.value.lock == store.objects[key].lock)
      ensures res == Err(Refused) ==> key in store.objects
      ensures store.frank && store.Alone() && store.objects != old(store.objects) ==> res.Ok?
      // a new key, a sound file of this length, a store that is reached and answers: it is written
      ensures store.Calm() && key !in old(store.objects) && r.Sound(content) && |content| == base + size ==> res.Ok?
      // and where the store says what it has, an object at the key is a refusal
      ensures store.frank && key in old(store.objects) ==> res == Err(Refused)
      // of a file that does not change, what was read is what it holds
      ensures r.Holds(content) && uploads > 0 ==> |content| == base + size && read == content[base..]
      // a file that does not change and has another length leaves nothing, and is never reported written
      ensures r.Holds(content) && |content| != base + size ==>
              res.Err? && Quiet(store.log, |old(store.log)|) && (store.Alone() ==> store.objects == old(store.objects))
    {
      uploads, sums, read, summed := 0, PartSums([], 0), [], 0;
      var p := PlanParts(size, partSize);
      PlanIsValid(size, partSize);
      var pass, bytes := SumFirst(key, r, base, p, content);
      if pass.Err? {
        return Err(pass.error), uploads, sums, read, summed;
      }
      sums, read, summed := pass.value, bytes, |r.said|;
      ghost var before, seen := store.log, r.said;
      var done;
      done, uploads := UploadTwice(key, r, base, p, pass.value, lock, content);
      PassedStays(store.sums, sums, read, p, seen, r.said, |old(r.said)|, base);
      LandsSince(before, store.log, |old(store.log)|, store.sums, p, sums, r.said, summed, summed, base, lock);
      if !store.conditional {
        KnowingAfterQuiet(old(store.log), before, store.log, key);
      }
      if r.Holds(content) {
        PassedIsHeld(store.sums, sums, read, p, r, |old(r.said)|, summed, base, content);
      }
      res := ResultOf(done);
    }
  }

  // ---------------------------------------------------------------- without conditional writes

  /** What a write may have replaced, in the open: Follows and a store's Valid say just this. */
  lemma WriteReplacesExactlyWhenOvertaken(store: Store, before: seq<Event<Blob>>, key: string, j: nat)
    requires store.Valid() && !store.conditional && Follows(store.conditional, before, store.log, key)
    requires |before| <= j < |store.log| && store.log[j].Landed?
    ensures Replaced(store.log, j) <==> Overtaken(store.log[..j], key)
  {
    ReplacedExactlyWhenOvertaken(store.log, |before|, key, j);
  }

  /**
   And it can: another put lands between this write's look and its own, and this write, told that nothing
   was there, puts its own object over the other's.
   */
  method LookingIsNotEnough(theirs: Blob) returns (store: Store)
    ensures !store.conditional && store.Valid() && Follows(false, [], store.log, "k")
    ensures exists j: nat :: Replaced(store.log, j) && store.log[j].over == Some(theirs)
  {
    var nothing := Script([], Eof(false), false);
    var others := (t: nat) => if t == 1 then map["k" := theirs] else map[];
    store := new Store(false, true, true, others, Checksum((s, b) => 0, 0), map[]);
    var backend := new Backend(store, 1);
    var r := new Reader(nothing);
    assert nothing.Data() == [] && Exact(nothing, 0);
    var res := backend.PutWhole("k", r, 0, None, [nothing]);
    assert Replaced(store.log, 3);
  }
}
