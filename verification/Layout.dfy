/** The envelope byte by byte: where a stream has what, and which streams are refused for which reason. */
module Layout {
  import opened Base
  import opened Envelope

  /** These bytes as one number, the first the most significant. */
  function Number(s: Bytes): nat
    decreases |s|
  {
    if s == [] then 0 else 256 * Number(s[..|s| - 1]) + s[|s| - 1]
  }

  lemma {:induction false} LowBytesNumber(counter: nat, k: nat)
    ensures Number(LowBytes(counter, k)) == counter % Pow256(k)
    decreases k
  {
    if k > 0 {
      var s := LowBytes(counter, k);
      assert s[..k - 1] == LowBytes(counter / 256, k - 1);
      LowBytesNumber(counter / 256, k - 1);
      SplitModulus(counter, k);
    }
  }

  /** A chunk's nonce: four bytes of prefix, the counter in seven, most significant first, and one for the last. */
  lemma NonceLayout(prefix: Bytes, counter: nat, last: bool)
    requires |prefix| == 4
    ensures var n := Nonce(prefix, counter, last);
            && |n| == 12 && n[..4] == prefix && n[11] == (if last then 1 else 0)
            && Number(n[4..11]) == counter % 0x100_0000_0000_0000
  {
    var n, s := Nonce(prefix, counter, last), LowBytes(counter, COUNTER_LEN);
    assert n[4..11] == s;
    LowBytesNumber(counter, COUNTER_LEN);
    Pow256Of7();
  }

  // ---------------------------------------------------------------- a stream

  /** Sealing adds sixteen bytes to whatever it seals. */
  ghost predicate AddsTag(a: Aead) {
    forall k, n, p :: |a.seal(k, n, p)| == |p| + 16
  }

  /** Where sealed chunk i begins: every chunk before it is full. */
  function ChunkStart(i: nat): nat {
    69 + i * 65552
  }

  /** These bytes lie here, and nothing lies after them where they are the last. */
  ghost predicate LiesAt(all: Bytes, at: int, c: Bytes, last: bool) {
    0 <= at && at + |c| <= |all| && all[at..at + |c|] == c && (last ==> |all| == at + |c|)
  }

  lemma LiesLater(first: Bytes, rest: Bytes, at: int, c: Bytes, last: bool)
    requires LiesAt(rest, at, c, last)
    ensures LiesAt(first + rest, |first| + at, c, last)
  {
    assert (first + rest)[|first| + at..|first| + at + |c|] == rest[at..at + |c|];
  }

  lemma {:induction false} ChunkIsAt(a: Aead, s: Session, i: nat, j: nat)
    requires AddsTag(a) && !s.fails && i <= j < s.Sealings()
    ensures LiesAt(SealFrom(a, s, i), (j - i) * 65552, SealedChunk(a, s, j), j == s.Sealings() - 1)
    decreases j - i
  {
    var c, rest := SealedChunk(a, s, i), SealFrom(a, s, i + 1);
    assert SealFrom(a, s, i) == c + rest;
    if i == j {
      assert j == s.Sealings() - 1 ==> rest == [];
      SplitAt(c, rest);
    } else {
      ChunkIsAt(a, s, i + 1, j);
      FullChunk(a, s, i);
      LiesLater(c, rest, (j - i - 1) * 65552, SealedChunk(a, s, j), j == s.Sealings() - 1);
    }
  }

  lemma FullChunk(a: Aead, s: Session, i: nat)
    requires AddsTag(a) && i < s.Sealings() && !s.IsLast(i)
    ensures |SealedChunk(a, s, i)| == 65552
  {
    FullRecord(s, i);
  }

  /** The header of every stream: magic, version, the wrap's nonce, the wrapped key and the chunks' prefix. */
  lemma HeaderLayout(a: Aead, s: Session)
    requires s.Valid() && AddsTag(a)
    ensures var stream := Stream(a, s);
            && |stream| >= 69 && stream[..5] == [0x47, 0x44, 0x52, 0x45, 1] && stream[5..17] == s.wrapNonce
            && stream[17..65] == a.seal(s.kek, s.wrapNonce, s.dek) && stream[65..69] == s.prefix
            && stream[69..] == SealFrom(a, s, 0)
  {
    HeaderParts(a, s, SealFrom(a, s, 0));
    var stream := Stream(a, s);
    assert stream[..5] == stream[..4] + [stream[4]];
  }

  /** The piece of the plaintext that chunk i seals. */
  function Piece(plain: Bytes, i: nat): Bytes
    requires i * 65536 <= |plain|
  {
    plain[i * 65536..Min((i + 1) * 65536, |plain|)]
  }

  /** n pieces of 64 KiB, at least one and only the last less than full, are this plaintext. */
  ghost predicate CutsInto(plain: Bytes, n: nat) {
    (n > 0 && (n - 1) * 65536 < |plain| <= n * 65536) || (n == 1 && plain == [])
  }

  /**
   A finished stream: after the header of 69 bytes the plaintext in pieces of 64 KiB, each sealed under the
   data key with its own number and, for the last alone, the flag; and nothing after.
   */
  lemma StreamLayout(a: Aead, s: Session, n: nat, i: nat)
    requires s.Valid() && AddsTag(a) && !s.fails && i < n && CutsInto(s.plain, n)
    ensures i * 65536 <= |s.plain| && (i < n - 1 ==> |Piece(s.plain, i)| == 65536)
    ensures |Stream(a, s)| == 69 + |s.plain| + 16 * n
    ensures var stream, from := Stream(a, s), ChunkStart(i);
            var to := from + |Piece(s.plain, i)| + 16;
            to <= |stream| && stream[from..to] == a.seal(s.dek, Nonce(s.prefix, i, i == n - 1), Piece(s.plain, i))
  {
    CountIs(s.plain, n);
    PieceFits(s.plain, n, i);
    HeaderLayout(a, s);
    ChunkIsAt(a, s, 0, i);
    var c := SealedChunk(a, s, i);
    assert c == a.seal(s.dek, Nonce(s.prefix, i, i == n - 1), Piece(s.plain, i));
    FromTail(Stream(a, s), SealFrom(a, s, 0), i * 65552, i * 65552 + |c|);
    StreamLength(a, s, n);
  }

  lemma StreamLength(a: Aead, s: Session, n: nat)
    requires s.Valid() && AddsTag(a) && !s.fails && CutsInto(s.plain, n)
    ensures |Stream(a, s)| == 69 + |s.plain| + 16 * n
  {
    CountIs(s.plain, n);
    PieceFits(s.plain, n, n - 1);
    HeaderLayout(a, s);
    ChunkIsAt(a, s, 0, n - 1);
  }

  lemma FromTail(stream: Bytes, tail: Bytes, lo: nat, hi: nat)
    requires |stream| >= 69 && stream[69..] == tail && lo <= hi <= |tail|
    ensures stream[69 + lo..69 + hi] == tail[lo..hi]
  {
  }

  lemma CountIs(plain: Bytes, n: nat)
    requires CutsInto(plain, n)
    ensures ChunkCount(plain) == n
  {
  }

  lemma PieceFits(plain: Bytes, n: nat, i: nat)
    requires i < n && CutsInto(plain, n)
    ensures i * 65536 <= |plain| && (i < n - 1 ==> (i + 1) * 65536 <= |plain|)
  {
  }

  // ---------------------------------------------------------------- refusals

  /** What Decrypt makes of a stream that it does not open, and of a source that gives out. */
  lemma RefusedFor(a: Aead, kek: Bytes, stream: Bytes, fails: bool)
    ensures var o := DecryptOutcome(a, kek, stream, fails);
            && (|kek| != 32 ==> o == Outcome([], Some(BadKeyLength)))
            && (|kek| == 32 ==>
                  && (|stream| < 69 ==> o == Outcome([], Some(ShortHeader)))
                  && (|stream| >= 69 && stream[..4] != [0x47, 0x44, 0x52, 0x45] ==>
                        o == Outcome([], Some(NotEncrypted)))
                  && (|stream| >= 69 && stream[..4] == [0x47, 0x44, 0x52, 0x45] && stream[4] != 1 ==>
                        o == Outcome([], Some(BadVersion)))
                  && (|stream| >= 69 && stream[..5] == [0x47, 0x44, 0x52, 0x45, 1] ==>
                        var dek := a.open(kek, stream[5..17], stream[17..65]);
                        && (dek.None? ==> o == Outcome([], Some(WrongKeyOrHeader)))
                        && (dek.Some? && |dek.value| != 16 && |dek.value| != 24 && |dek.value| != 32 ==>
                              o == Outcome([], Some(BadKeyLength)))
                        && (o.error.None? ==> !fails) && (o.error == Some(ReadFailed) ==> fails)))
  {
    if |kek| == 32 && |stream| >= 69 && stream[..5] == [0x47, 0x44, 0x52, 0x45, 1] {
      assert stream[..4] == stream[..5][..4] && stream[4] == stream[..5][4];
      match a.open(kek, stream[5..17], stream[17..65])
      case None =>
      case Some(dek) => EndsInError(a, dek, stream[65..69], stream[69..], fails, 0);
    }
  }

  lemma {:induction false} EndsInError(a: Aead, dek: Bytes, prefix: Bytes, rest: Bytes, fails: bool, i: nat)
    ensures var o := OpenChunks(a, dek, prefix, rest, fails, i);
            && (o.error.None? ==> !fails) && (o.error == Some(ReadFailed) ==> fails)
            && (o.error.Some? ==> o.error == Some(ReadFailed) || o.error == Some(BadData))
    decreases |rest|
  {
    var size := CHUNK + TAG;
    if !(|rest| < size && fails) {
      var last, n := !fails && |rest| <= size, Min(size, |rest|);
      if !last && a.open(dek, Nonce(prefix, i, last), rest[..n]).Some? {
        EndsInError(a, dek, prefix, rest[n..], fails, i + 1);
      }
    }
  }

  /** A writer with too little room keeps what fits, and the call says that writing failed. */
  lemma CutAtRoom(before: Bytes, o: Outcome, room: nat)
    ensures var cut := Through(before, o, room);
            && (|before| + |o.written| <= room ==> cut.written == before + o.written && cut.error == o.error)
            && (|before| + |o.written| > room ==>
                  cut.written == (before + o.written)[..room] && cut.error == Some(WriteFailed))
  {
  }
}
