/**
 The client-side encryption envelope: a header that wraps a random data key, then the data in
 chunks, each sealed under a nonce that carries the chunk's number and whether it is the last.

 The cipher is an ideal AEAD: two functions of which nothing is known except that opening undoes
 sealing and that nothing opens which was not sealed. The framing loops are the engine's own.
 */
module Envelope {
  import opened Base

  const MAGIC: seq<byte> := [0x47, 0x44, 0x52, 0x45] // "GDRE"
  const VERSION: byte := 1
  const CHUNK := 64 * 1024
  const DEK_LEN := 32
  const NONCE_LEN := 12
  const TAG := 16
  const PREFIX_LEN := 4
  const COUNTER_LEN := 7
  const HEADER_LEN := 4 + 1 + NONCE_LEN + (DEK_LEN + TAG) + PREFIX_LEN
  const KEK_LEN := 32
  const NONCE_SPACE := 0x100_0000_0000_0000 // 2^56, the counters seven bytes can tell apart

  // ---------------------------------------------------------------- the ideal cipher

  type Bytes = seq<byte>

  datatype Aead = Aead(seal: (Bytes, Bytes, Bytes) -> Bytes, open: (Bytes, Bytes, Bytes) -> Option<Bytes>)

  /** One call of seal: which key, which nonce, which plaintext. */
  datatype Sealed = Sealed(key: Bytes, nonce: Bytes, plain: Bytes)

  // ---------------------------------------------------------------- nonces

  /** `counter >> (8 * i)`. */
  function ShiftBytes(counter: nat, i: nat): nat
    decreases i
  {
    if i == 0 then counter else ShiftBytes(counter / 256, i - 1)
  }

  /** The low k bytes of the counter, most significant first. */
  function LowBytes(counter: nat, k: nat): (r: Bytes)
    ensures |r| == k
    decreases k
  {
    if k == 0 then [] else LowBytes(counter / 256, k - 1) + [counter % 256]
  }

  function Nonce(prefix: Bytes, counter: nat, last: bool): Bytes {
    prefix + LowBytes(counter, COUNTER_LEN) + [if last then 1 else 0]
  }

  lemma {:induction false} LowByteAt(counter: nat, k: nat, i: nat)
    requires i < k
    ensures LowBytes(counter, k)[k - 1 - i] == ShiftBytes(counter, i) % 256
    decreases i
  {
    if i > 0 {
      LowByteAt(counter / 256, k - 1, i - 1);
    }
  }

  /** Fills the nonce byte by byte, the counter from its last byte back. */
  method ChunkNonce(prefix: Bytes, counter: nat, last: bool) returns (n: array<byte>)
    requires |prefix| == PREFIX_LEN
    ensures fresh(n) && n[..] == Nonce(prefix, counter, last)
  {
    n := new byte[NONCE_LEN](_ => 0);
    for i := 0 to PREFIX_LEN
      invariant forall j :: 0 <= j < i ==> n[j] == prefix[j]
      invariant forall j :: i <= j < NONCE_LEN ==> n[j] == 0
    {
      n[i] := prefix[i];
    }
    for i := 0 to COUNTER_LEN
      invariant forall j :: 0 <= j < PREFIX_LEN ==> n[j] == prefix[j]
      invariant forall j :: 0 <= j < i ==> n[10 - j] == ShiftBytes(counter, j) % 256
      invariant n[11] == 0
    {
      n[10 - i] := ShiftBytes(counter, i) % 256;
    }
    if last {
      n[11] := 1;
    }
    forall j | 0 <= j < 7 ensures n[4 + j] == LowBytes(counter, COUNTER_LEN)[j] {
      LowByteAt(counter, COUNTER_LEN, 6 - j);
      assert n[10 - (6 - j)] == ShiftBytes(counter, 6 - j) % 256;
    }
    assert n[..] == Nonce(prefix, counter, last);
  }

  function Pow256(k: nat): (p: nat)
    ensures p > 0
  {
    if k == 0 then 1 else 256 * Pow256(k - 1)
  }

  lemma Distribute(m: int, a: int, b: int)
    ensures m * (a + b) == m * a + m * b
  {
  }

  lemma SmallMultiple(m: int, d: int)
    requires m > 0 && -m < m * d < m
    ensures d == 0
  {
    if d >= 1 {
      Distribute(m, 1, d - 1);
      assert false;
    } else if d <= -1 {
      Distribute(m, -1, d + 1);
      assert false;
    }
  }

  /** Quotient and remainder are unique. */
  lemma RemainderIs(x: int, m: int, t: int, r: int)
    requires 0 <= r < m && x == m * t + r
    ensures x % m == r
  {
    assert m * (x / m - t) == m * (x / m) - m * t;
    SmallMultiple(m, x / m - t);
  }

  lemma SplitModulus(c: nat, k: nat)
    requires k > 0
    ensures c % Pow256(k) == 256 * ((c / 256) % Pow256(k - 1)) + c % 256
  {
    var p := Pow256(k - 1);
    var t, u := (c / 256) / p, (c / 256) % p;
    assert c / 256 == p * t + u;
    assert c == (256 * p) * t + (256 * u + c % 256);
    RemainderIs(c, 256 * p, t, 256 * u + c % 256);
  }

  lemma {:induction false} LowBytesTellModulo(c: nat, d: nat, k: nat)
    ensures LowBytes(c, k) == LowBytes(d, k) <==> c % Pow256(k) == d % Pow256(k)
    decreases k
  {
    if k > 0 {
      SplitModulus(c, k);
      SplitModulus(d, k);
      LowBytesTellModulo(c / 256, d / 256, k - 1);
      var x, y := LowBytes(c, k), LowBytes(d, k);
      assert x[..k - 1] == LowBytes(c / 256, k - 1) && x[k - 1] == c % 256;
      assert y[..k - 1] == LowBytes(d / 256, k - 1) && y[k - 1] == d % 256;
    }
  }

  lemma Pow256Of7()
    ensures Pow256(COUNTER_LEN) == NONCE_SPACE
  {
    assert Pow256(1) == 256 && Pow256(2) == 0x1_0000 && Pow256(3) == 0x100_0000;
    assert Pow256(4) == 0x1_0000_0000 && Pow256(5) == 0x100_0000_0000 && Pow256(6) == 0x1_0000_0000_0000;
  }

  lemma NonceParts(p: Bytes, c: nat, l: bool, p': Bytes, c': nat, l': bool)
    requires |p| == |p'| == PREFIX_LEN
    ensures Nonce(p, c, l) == Nonce(p', c', l') <==>
            p == p' && LowBytes(c, COUNTER_LEN) == LowBytes(c', COUNTER_LEN) && l == l'
  {
    var n, n' := Nonce(p, c, l), Nonce(p', c', l');
    var d, d' := LowBytes(c, COUNTER_LEN), LowBytes(c', COUNTER_LEN);
    assert n[..4] == p && n[4..11] == d && n[11] == if l then 1 else 0;
    assert n'[..4] == p' && n'[4..11] == d' && n'[11] == if l' then 1 else 0;
  }

  /** Two nonces agree exactly when prefix, flag, and counter modulo 2^56 agree. */
  lemma NonceEqualIff(p: Bytes, c: nat, l: bool, p': Bytes, c': nat, l': bool)
    requires |p| == |p'| == PREFIX_LEN
    ensures Nonce(p, c, l) == Nonce(p', c', l') <==> p == p' && l == l' && c % NONCE_SPACE == c' % NONCE_SPACE
  {
    NonceParts(p, c, l, p', c', l');
    LowBytesTellModulo(c, c', COUNTER_LEN);
    Pow256Of7();
  }

  lemma SmallNonces(p: Bytes, c: nat, l: bool, p': Bytes, c': nat, l': bool)
    requires |p| == |p'| == PREFIX_LEN && c < NONCE_SPACE && c' < NONCE_SPACE
    requires Nonce(p, c, l) == Nonce(p', c', l')
    ensures p == p' && c == c' && l == l'
  {
    NonceEqualIff(p, c, l, p', c', l');
    SmallModulo(c, NONCE_SPACE);
    SmallModulo(c', NONCE_SPACE);
  }

  lemma SmallModulo(c: nat, m: nat)
    requires c < m
    ensures c % m == c
  {
  }

  /** The chunks of one stream never share a nonce while there are at most 2^56 of them, and not beyond. */
  lemma NoncesOfOneStream(prefix: Bytes, count: nat)
    requires |prefix| == PREFIX_LEN
    ensures count <= NONCE_SPACE <==>
            forall i, j, l, l' | 0 <= i < j < count :: Nonce(prefix, i, l) != Nonce(prefix, j, l')
  {
    forall i, j, l, l' | 0 <= i < j < count && count <= NONCE_SPACE
      ensures Nonce(prefix, i, l) != Nonce(prefix, j, l')
    {
      if Nonce(prefix, i, l) == Nonce(prefix, j, l') {
        SmallNonces(prefix, i, l, prefix, j, l');
        assert false;
      }
    }
    if count > NONCE_SPACE {
      NonceEqualIff(prefix, 0, false, prefix, NONCE_SPACE, false);
      assert Nonce(prefix, 0, false) == Nonce(prefix, NONCE_SPACE, false);
    }
  }

  // ---------------------------------------------------------------- what a stream is

  /** One use of Encrypt: its keys, its random draws, and the source it was given. */
  datatype Session = Session(kek: Bytes, wrapNonce: Bytes, dek: Bytes, prefix: Bytes, plain: Bytes, fails: bool) {
    ghost predicate Valid() {
      && |kek| == KEK_LEN && |wrapNonce| == NONCE_LEN && |dek| == DEK_LEN && |prefix| == PREFIX_LEN
      && Sealings() < NONCE_SPACE
    }

    /** How many chunks the loop seals: all of them, or the full ones read before the source failed. */
    function Sealings(): nat {
      if fails then |plain| / CHUNK else ChunkCount(plain)
    }

    function IsLast(i: nat): bool {
      !fails && i == ChunkCount(plain) - 1
    }

    function Record(i: nat): Sealed
      requires i < Sealings()
    {
      Sealed(dek, Nonce(prefix, i, IsLast(i)), ChunkAt(plain, i))
    }

    /** Whether e is one of the seals this session makes: of its data key, or of a chunk. */
    ghost predicate Seals(e: Sealed) {
      e == Sealed(kek, wrapNonce, dek) || exists i :: 0 <= i < Sealings() && e == Record(i)
    }
  }

  /** An empty plaintext is one empty chunk; an exact multiple ends in a full one. */
  function ChunkCount(plain: Bytes): (n: nat)
    ensures n >= 1
  {
    if plain == [] then 1 else (|plain| + CHUNK - 1) / CHUNK
  }

  function ChunkAt(plain: Bytes, i: nat): Bytes
    requires i * CHUNK <= |plain|
  {
    plain[i * CHUNK..Min((i + 1) * CHUNK, |plain|)]
  }

  function Header(a: Aead, s: Session): Bytes {
    MAGIC + [VERSION] + s.wrapNonce + a.seal(s.kek, s.wrapNonce, s.dek) + s.prefix
  }

  /** The sealed chunks from the i-th on. */
  function SealFrom(a: Aead, s: Session, i: nat): Bytes
    decreases s.Sealings() - i
  {
    if i >= s.Sealings() then []
    else a.seal(s.dek, s.Record(i).nonce, s.Record(i).plain) + SealFrom(a, s, i + 1)
  }

  /** The stream of a session: what a finished Encrypt has written. */
  function Stream(a: Aead, s: Session): Bytes {
    Header(a, s) + SealFrom(a, s, 0)
  }

  /** The seals of the first n chunks. */
  function FirstSeals(s: Session, n: nat): seq<Sealed>
    requires n <= s.Sealings()
  {
    seq(n, i requires 0 <= i < n => s.Record(i))
  }

  lemma FirstSealsSnoc(s: Session, n: nat)
    requires n < s.Sealings()
    ensures FirstSeals(s, n + 1) == FirstSeals(s, n) + [s.Record(n)]
  {
  }

  /** A use of Encrypt whose writer gave out once n chunks were sealed: to the cipher, one whose source failed there. */
  function Halted(s: Session, n: nat): Session
    requires n <= s.Sealings()
  {
    if n == s.Sealings() then s else s.(plain := s.plain[..Min(n * CHUNK, |s.plain|)], fails := true)
  }

  lemma SealingsFit(s: Session, n: nat)
    requires n < s.Sealings()
    ensures n * CHUNK <= |s.plain|
  {
    if s.fails {
      MulAtMost(n, |s.plain| / CHUNK, CHUNK);
    } else {
      MulAtMost(n, ChunkCount(s.plain) - 1, CHUNK);
    }
  }

  lemma WholeQuotient(n: nat, size: nat)
    requires size > 0
    ensures n * size / size == n
  {
    var q := n * size / size;
    if q < n {
      MulAtMost(q + 1, n, size);
    } else if q > n {
      MulAtMost(n + 1, q, size);
    }
  }

  /** It sealed just those. */
  lemma HaltedSeals(s: Session, n: nat)
    requires n <= s.Sealings()
    ensures Halted(s, n).Sealings() == n && FirstSeals(Halted(s, n), n) == FirstSeals(s, n)
  {
    if n < s.Sealings() {
      var h := Halted(s, n);
      SealingsFit(s, n);
      WholeQuotient(n, CHUNK);
      forall i | 0 <= i < n
        ensures h.Record(i) == s.Record(i)
      {
        MulAtMost(i + 1, n, CHUNK);
        var to := (i + 1) * CHUNK;
        assert ChunkAt(h.plain, i) == s.plain[i * CHUNK..to] == ChunkAt(s.plain, i);
      }
    }
  }

  /** What was sealed is exactly what this session seals. */
  ghost predicate SealedBy(made: seq<Sealed>, s: Session) {
    forall e :: e in made <==> s.Seals(e)
  }

  lemma MadeByHalted(s: Session, n: nat)
    requires n <= s.Sealings()
    ensures SealedBy([Sealed(s.kek, s.wrapNonce, s.dek)] + FirstSeals(s, n), Halted(s, n))
  {
    HaltedSeals(s, n);
    var h, made := Halted(s, n), [Sealed(s.kek, s.wrapNonce, s.dek)] + FirstSeals(s, n);
    forall e
      ensures e in made <==> h.Seals(e)
    {
      if e in FirstSeals(s, n) {
        var i :| 0 <= i < n && FirstSeals(s, n)[i] == e;
        assert h.Record(i) == FirstSeals(h, n)[i];
      }
      if h.Seals(e) && e != made[0] {
        var i :| 0 <= i < h.Sealings() && e == h.Record(i);
        assert FirstSeals(h, n)[i] == e;
      }
    }
  }

  // ---------------------------------------------------------------- reading and writing

  datatype ReadStatus = Full | Eof | UnexpectedEof | ReadError

  /** What a buffered reader gives io.ReadFull: its data, then an end or a failure for good. */
  class Source {
    const data: Bytes
    const fails: bool
    var pos: nat

    ghost predicate Valid()
      reads this
    {
      pos <= |data|
    }

    function Rest(): Bytes
      reads this
      requires Valid()
    {
      data[pos..]
    }

    constructor (data: Bytes, fails: bool)
      ensures Valid() && this.data == data && this.fails == fails && pos == 0
    {
      this.data, this.fails, pos := data, fails, 0;
    }

    /** io.ReadFull with a buffer of n bytes. */
    method ReadFull(n: nat) returns (got: Bytes, status: ReadStatus)
      requires Valid() && n > 0
      modifies this
      ensures Valid()
      ensures got == old(Rest())[..Min(n, |old(Rest())|)] && Rest() == old(Rest())[|got|..]
      ensures status == if |old(Rest())| >= n then Full else if fails then ReadError
                        else if |old(Rest())| == 0 then Eof else UnexpectedEof
    {
      var k := Min(n, |data| - pos);
      got := data[pos..pos + k];
      status := if k == n then Full else if fails then ReadError else if k == 0 then Eof else UnexpectedEof;
      pos := pos + k;
    }

    /** Whether a Peek of one byte answers io.EOF. */
    predicate PeekIsEof()
      reads this
      requires Valid()
    {
      pos == |data| && !fails
    }
  }

  /** A writer that takes `room` bytes and then fails, keeping the part that fitted. */
  class Sink {
    const room: nat
    var out: Bytes

    ghost predicate Valid()
      reads this
    {
      |out| <= room
    }

    constructor (room: nat)
      ensures Valid() && out == [] && this.room == room
    {
      this.room, out := room, [];
    }

    method Write(p: Bytes) returns (ok: bool)
      requires Valid()
      modifies this
      ensures Valid()
      ensures ok <==> |old(out)| + |p| <= room
      ensures out == if ok then old(out) + p else (old(out) + p)[..room]
    {
      ok := |out| + |p| <= room;
      out := if ok then out + p else (out + p)[..room];
    }
  }

  datatype CryptError = BadKeyLength | ReadFailed | ShortHeader | NotEncrypted | BadVersion | WrongKeyOrHeader
    | BadData | WriteFailed

  /** What a call leaves behind: the bytes it wrote and how it ended. */
  datatype Outcome = Outcome(written: Bytes, error: Option<CryptError>)

  /** What a writer holding `before`, with room for `room` bytes in all, makes of an outcome. */
  function Through(before: Bytes, o: Outcome, room: nat): Outcome {
    var target := before + o.written;
    if |target| <= room then Outcome(target, o.error) else Outcome(target[..room], Some(WriteFailed))
  }

  // ---------------------------------------------------------------- Encrypt

  function EncryptOutcome(a: Aead, s: Session): Outcome {
    if |s.kek| != KEK_LEN then Outcome([], Some(BadKeyLength))
    else Outcome(Stream(a, s), if s.fails then Some(ReadFailed) else None)
  }

  /** A write that does not fit leaves the whole output cut at the writer's room. */
  lemma CutShort(out: Bytes, piece: Bytes, rest: Bytes, room: nat)
    requires |out| <= room < |out + piece|
    ensures |out + (piece + rest)| > room && (out + piece)[..room] == (out + (piece + rest))[..room]
  {
  }

  /** What one read of the loop gives, against the session it builds. */
  lemma ReadIsRecord(s: Session, i: nat)
    requires i * CHUNK <= |s.plain|
    requires s.fails || i < s.Sealings()
    ensures var rest := s.plain[i * CHUNK..];
            && (s.fails && |rest| < CHUNK <==> i >= s.Sealings())
            && (i < s.Sealings() ==>
                  && s.Record(i).plain == rest[..Min(CHUNK, |rest|)]
                  && (s.IsLast(i) <==> !s.fails && |rest| <= CHUNK))
  {
  }

  /** Encrypt, with the random draws as parameters. */
  method Encrypt(a: Aead, dst: Sink, src: Source, kek: Bytes, dek: Bytes, wrapNonce: Bytes, prefix: Bytes)
    returns (err: Option<CryptError>, ghost made: seq<Sealed>, ghost count: nat)
    requires dst.Valid() && src.Valid() && src.pos == 0
    requires |prefix| == PREFIX_LEN
    modifies dst, src
    ensures dst.Valid()
    ensures Outcome(dst.out, err) ==
            Through(old(dst.out), EncryptOutcome(a, Session(kek, wrapNonce, dek, prefix, src.data, src.fails)),
              dst.room)
    // what was sealed on the way: all the session seals, or less only where the writer gave out
    ensures |kek| != KEK_LEN ==> made == []
    ensures |kek| == KEK_LEN ==>
            var s := Session(kek, wrapNonce, dek, prefix, src.data, src.fails);
            && count <= s.Sealings() && SealedBy(made, Halted(s, count))
            && (err != Some(WriteFailed) ==> Halted(s, count) == s)
  {
    ghost var s := Session(kek, wrapNonce, dek, prefix, src.data, src.fails);
    made, count := [], 0;
    if |kek| != KEK_LEN {
      return Some(BadKeyLength), made, count;
    }
    var hdr := MAGIC + [VERSION] + wrapNonce + a.seal(kek, wrapNonce, dek) + prefix;
    ghost var rest := SealFrom(a, s, 0);
    Associates(dst.out, hdr, rest);
    made := [Sealed(kek, wrapNonce, dek)];
    var ok := dst.Write(hdr);
    if !ok {
      CutShort(old(dst.out), hdr, rest, dst.room);
      MadeByHalted(s, 0);
      assert made + FirstSeals(s, 0) == made;
      return Some(WriteFailed), made, 0;
    }
    ghost var chunks;
    err, chunks := EncryptChunks(a, dst, src, s, dek, prefix);
    made, count := made + chunks, |chunks|;
    MadeByHalted(s, count);
  }

  /** The chunk loop of Encrypt. */
  method EncryptChunks(a: Aead, dst: Sink, src: Source, ghost s: Session, dek: Bytes, prefix: Bytes)
    returns (err: Option<CryptError>, ghost made: seq<Sealed>)
    requires dst.Valid() && src.Valid() && src.pos == 0
    requires src.data == s.plain && src.fails == s.fails
    requires s.dek == dek && s.prefix == prefix && |prefix| == PREFIX_LEN
    modifies dst, src
    ensures dst.Valid()
    ensures Outcome(dst.out, err) ==
            Through(old(dst.out), Outcome(SealFrom(a, s, 0), if s.fails then Some(ReadFailed) else None), dst.room)
    ensures |made| <= s.Sealings() && made == FirstSeals(s, |made|)
    ensures err != Some(WriteFailed) ==> |made| == s.Sealings()
  {
    ghost var target := dst.out + SealFrom(a, s, 0);
    var counter := 0;
    made := [];
    while true
      invariant dst.Valid() && src.Valid()
      invariant src.pos == counter * CHUNK
      invariant s.fails || counter < s.Sealings()
      invariant counter <= s.Sealings() && made == FirstSeals(s, counter)
      invariant target == dst.out + SealFrom(a, s, counter)
      decreases |src.data| + 1 - src.pos
    {
      ReadIsRecord(s, counter);
      var got, status := src.ReadFull(CHUNK);
      if status == ReadError {
        assert SealFrom(a, s, counter) == [];
        return Some(ReadFailed), made;
      }
      var last := status == Eof || status == UnexpectedEof;
      if !last && src.PeekIsEof() {
        last := true;
      }
      assert got == s.Record(counter).plain && last == s.IsLast(counter);
      var nonce := ChunkNonce(prefix, counter, last);
      var chunk := a.seal(dek, nonce[..], got);
      assert Sealed(dek, nonce[..], got) == s.Record(counter);
      FirstSealsSnoc(s, counter);
      made := made + [Sealed(dek, nonce[..], got)];
      ghost var rest := SealFrom(a, s, counter + 1);
      ghost var before := dst.out;
      Associates(before, chunk, rest);
      var ok := dst.Write(chunk);
      if !ok {
        CutShort(before, chunk, rest, dst.room);
        return Some(WriteFailed), made;
      }
      if last {
        assert rest == [];
        return None, made;
      }
      counter := counter + 1;
    }
  }

  // ---------------------------------------------------------------- Decrypt

  /** The chunk loop of Decrypt from counter i on, over what is left of the stream. */
  function OpenChunks(a: Aead, dek: Bytes, prefix: Bytes, rest: Bytes, fails: bool, i: nat): Outcome
    decreases |rest|
  {
    var size := CHUNK + TAG;
    if |rest| < size && fails then Outcome([], Some(ReadFailed))
    else
      var last := !fails && |rest| <= size;
      var n := Min(size, |rest|);
      match a.open(dek, Nonce(prefix, i, last), rest[..n])
      case None => Outcome([], Some(BadData))
      case Some(plain) =>
        if last then Outcome(plain, None)
        else
          var o := OpenChunks(a, dek, prefix, rest[n..], fails, i + 1);
          Outcome(plain + o.written, o.error)
  }

  function DecryptOutcome(a: Aead, kek: Bytes, stream: Bytes, fails: bool): Outcome {
    if |kek| != KEK_LEN then Outcome([], Some(BadKeyLength))
    else if |stream| < HEADER_LEN then Outcome([], Some(ShortHeader))
    else if stream[..4] != MAGIC then Outcome([], Some(NotEncrypted))
    else if stream[4] != VERSION then Outcome([], Some(BadVersion))
    else
      match a.open(kek, stream[5..17], stream[17..65])
      case None => Outcome([], Some(WrongKeyOrHeader))
      case Some(dek) =>
        if |dek| !in {16, 24, 32} then Outcome([], Some(BadKeyLength))
        else OpenChunks(a, dek, stream[65..69], stream[69..], fails, 0)
  }

  method Decrypt(a: Aead, dst: Sink, src: Source, kek: Bytes) returns (err: Option<CryptError>)
    requires dst.Valid() && src.Valid() && src.pos == 0
    modifies dst, src
    ensures dst.Valid()
    ensures Outcome(dst.out, err) == Through(old(dst.out), DecryptOutcome(a, kek, src.data, src.fails), dst.room)
  {
    if |kek| != KEK_LEN {
      return Some(BadKeyLength);
    }
    var hdr, status := src.ReadFull(HEADER_LEN);
    if status != Full {
      return Some(ShortHeader);
    }
    assert hdr == src.data[..HEADER_LEN];
    assert hdr[..4] == src.data[..4];
    if hdr[..4] != MAGIC {
      return Some(NotEncrypted);
    }
    if hdr[4] != VERSION {
      return Some(BadVersion);
    }
    assert hdr[5..17] == src.data[5..17] && hdr[17..65] == src.data[17..65] && hdr[65..] == src.data[65..69];
    match a.open(kek, hdr[5..17], hdr[17..65])
    case None =>
      return Some(WrongKeyOrHeader);
    case Some(dek) =>
      if |dek| !in {16, 24, 32} {
        return Some(BadKeyLength);
      }
      err := DecryptChunks(a, dst, src, dek, hdr[65..]);
  }

  method DecryptChunks(a: Aead, dst: Sink, src: Source, dek: Bytes, prefix: Bytes) returns (err: Option<CryptError>)
    requires dst.Valid() && src.Valid() && |prefix| == PREFIX_LEN
    modifies dst, src
    ensures dst.Valid()
    ensures Outcome(dst.out, err) ==
            Through(old(dst.out), OpenChunks(a, dek, prefix, old(src.Rest()), src.fails, 0), dst.room)
  {
    ghost var all := OpenChunks(a, dek, prefix, src.Rest(), src.fails, 0);
    ghost var target := dst.out + all.written;
    var counter := 0;
    while true
      invariant dst.Valid() && src.Valid()
      invariant var tail := OpenChunks(a, dek, prefix, src.Rest(), src.fails, counter);
                target == dst.out + tail.written && all.error == tail.error
      decreases |src.Rest()|
    {
      ghost var tail := OpenChunks(a, dek, prefix, src.Rest(), src.fails, counter);
      var got, status := src.ReadFull(CHUNK + TAG);
      if status == ReadError {
        return Some(ReadFailed);
      }
      var last := status == Eof || status == UnexpectedEof;
      if !last && src.PeekIsEof() {
        last := true;
      }
      var nonce := ChunkNonce(prefix, counter, last);
      match a.open(dek, nonce[..], got)
      case None =>
        return Some(BadData);
      case Some(plain) =>
        ghost var rest := if last then [] else OpenChunks(a, dek, prefix, src.Rest(), src.fails, counter + 1).written;
        assert tail.written == plain + rest;
        ghost var before := dst.out;
        Associates(before, plain, rest);
        var ok := dst.Write(plain);
        if !ok {
          CutShort(before, plain, rest, dst.room);
          return Some(WriteFailed);
        }
        if last {
          return None;
        }
        counter := counter + 1;
    }
  }

  // ---------------------------------------------------------------- authenticity and round trip

  ghost predicate Logged(sessions: set<Session>, e: Sealed) {
    exists s :: s in sessions && s.Seals(e)
  }

  /** The ideal cipher: everything these sessions sealed opens, and nothing else opens. */
  ghost predicate Ideal(a: Aead, sessions: set<Session>) {
    && (forall e {:trigger Logged(sessions, e)} :: Logged(sessions, e) ==>
          && |a.seal(e.key, e.nonce, e.plain)| == |e.plain| + TAG
          && a.open(e.key, e.nonce, a.seal(e.key, e.nonce, e.plain)) == Some(e.plain))
    && (forall k, n, c :: a.open(k, n, c).Some? ==>
          var p := a.open(k, n, c).value;
          Logged(sessions, Sealed(k, n, p)) && c == a.seal(k, n, p))
  }

  function TagSeal(p: Bytes): Bytes {
    p + seq(TAG, _ => 0)
  }

  ghost function TableOpen(sessions: set<Session>, k: Bytes, n: Bytes, c: Bytes): Option<Bytes> {
    if exists p :: c == TagSeal(p) && Logged(sessions, Sealed(k, n, p))
    then Some(c[..|c| - TAG]) else None
  }

  lemma TagSealInverse(p: Bytes)
    ensures |TagSeal(p)| == |p| + TAG && TagSeal(p)[..|p|] == p
  {
  }

  /** There is such a cipher for any set of sessions, so what is proved from one is not empty. */
  lemma IdealCipherExists(sessions: set<Session>) returns (a: Aead)
    ensures Ideal(a, sessions)
  {
    a := Aead((k, n, p) => TagSeal(p), (k, n, c) => TableOpen(sessions, k, n, c));
    forall e | Logged(sessions, e)
      ensures |a.seal(e.key, e.nonce, e.plain)| == |e.plain| + TAG
      ensures a.open(e.key, e.nonce, a.seal(e.key, e.nonce, e.plain)) == Some(e.plain)
    {
      TagSealInverse(e.plain);
      assert e == Sealed(e.key, e.nonce, e.plain);
    }
    forall k, n, c | a.open(k, n, c).Some?
      ensures Logged(sessions, Sealed(k, n, a.open(k, n, c).value)) && c == a.seal(k, n, a.open(k, n, c).value)
    {
      var p :| c == TagSeal(p) && Logged(sessions, Sealed(k, n, p));
      TagSealInverse(p);
    }
  }

  /**
   Everything ever sealed came out of these sessions, each with a fresh data key. Of a use of Encrypt whose
   writer gave out it is the halted session, as Encrypt says of what it sealed.
   */
  ghost predicate Honest(a: Aead, sessions: set<Session>) {
    && (forall s <- sessions :: s.Valid())
    && Ideal(a, sessions)
    && (forall s, t | s in sessions && t in sessions :: s.dek == t.dek ==> s == t)
    && (forall s, t | s in sessions && t in sessions :: s.dek != t.kek)
  }

  /** Honest use is possible: for any sessions with keys as Encrypt draws them there is such a cipher. */
  lemma HonestUseExists(sessions: set<Session>) returns (a: Aead)
    requires forall s <- sessions :: s.Valid()
    requires forall s, t | s in sessions && t in sessions :: (s.dek == t.dek ==> s == t) && s.dek != t.kek
    ensures Honest(a, sessions)
  {
    a := IdealCipherExists(sessions);
  }

  /** One session of this plaintext, and a cipher it uses honestly. */
  lemma HonestSession(plain: Bytes, fails: bool) returns (a: Aead, s: Session)
    requires (|plain| + CHUNK - 1) / CHUNK < NONCE_SPACE
    ensures s.plain == plain && s.fails == fails && Honest(a, {s})
  {
    s := Session(seq(KEK_LEN, _ => 0), seq(NONCE_LEN, _ => 0), seq(DEK_LEN, _ => 1), seq(PREFIX_LEN, _ => 0), plain,
                 fails);
    assert s.dek[0] != s.kek[0];
    QuotientUp(|plain|, CHUNK);
    a := HonestUseExists({s});
  }

  lemma QuotientUp(n: nat, size: nat)
    requires size > 0
    ensures n / size <= (n + size - 1) / size
  {
    if (n + size - 1) / size < n / size {
      MulAtMost((n + size - 1) / size + 1, n / size, size);
    }
  }

  /** What the cipher gives under one session's data key: its own chunks, at their own counters. */
  ghost predicate KeyHolds(a: Aead, s: Session) {
    && (forall i {:trigger s.Record(i)} | 0 <= i < s.Sealings() :: ChunkOpens(a, s, i))
    && (forall p, i, last, c {:trigger a.open(s.dek, Nonce(p, i, last), c)} |
          |p| == PREFIX_LEN && 0 <= i <= s.Sealings() && a.open(s.dek, Nonce(p, i, last), c).Some? ::
          i < s.Sealings() && p == s.prefix && last == s.IsLast(i) && c == SealedChunk(a, s, i))
  }

  function SealedChunk(a: Aead, s: Session, i: nat): Bytes
    requires i < s.Sealings()
  {
    a.seal(s.dek, s.Record(i).nonce, s.Record(i).plain)
  }

  ghost predicate ChunkOpens(a: Aead, s: Session, i: nat)
    requires i < s.Sealings()
  {
    && |SealedChunk(a, s, i)| == |s.Record(i).plain| + TAG
    && a.open(s.dek, s.Record(i).nonce, SealedChunk(a, s, i)) == Some(s.Record(i).plain)
  }

  lemma OpenedWasLogged(a: Aead, sessions: set<Session>, k: Bytes, n: Bytes, c: Bytes)
    requires Ideal(a, sessions) && a.open(k, n, c).Some?
    ensures Logged(sessions, Sealed(k, n, a.open(k, n, c).value)) && c == a.seal(k, n, a.open(k, n, c).value)
  {
  }

  lemma LoggedOpens(a: Aead, sessions: set<Session>, s: Session, e: Sealed)
    requires Ideal(a, sessions) && s in sessions && s.Seals(e)
    ensures |a.seal(e.key, e.nonce, e.plain)| == |e.plain| + TAG
    ensures a.open(e.key, e.nonce, a.seal(e.key, e.nonce, e.plain)) == Some(e.plain)
  {
    assert Logged(sessions, e);
  }

  /** A seal under a session's data key is one of that session's chunks. */
  lemma LoggedUnderDek(sessions: set<Session>, s: Session, n: Bytes, p: Bytes) returns (i: nat)
    requires s in sessions && Logged(sessions, Sealed(s.dek, n, p))
    requires forall t <- sessions :: t.dek == s.dek ==> t == s
    requires forall t <- sessions :: s.dek != t.kek
    ensures i < s.Sealings() && s.Record(i) == Sealed(s.dek, n, p)
  {
    var e := Sealed(s.dek, n, p);
    var t :| t in sessions && t.Seals(e);
    i :| 0 <= i < t.Sealings() && e == t.Record(i);
    assert t == s;
  }

  lemma DekOpensChunk(a: Aead, sessions: set<Session>, s: Session, p: Bytes, i: nat, last: bool, c: Bytes)
    requires Honest(a, sessions) && s in sessions
    requires |p| == PREFIX_LEN && i <= s.Sealings() && a.open(s.dek, Nonce(p, i, last), c).Some?
    ensures i < s.Sealings() && p == s.prefix && last == s.IsLast(i) && c == SealedChunk(a, s, i)
  {
    var n := Nonce(p, i, last);
    OpenedWasLogged(a, sessions, s.dek, n, c);
    var j := LoggedUnderDek(sessions, s, n, a.open(s.dek, n, c).value);
    assert s.Valid();
    SmallNonces(p, i, last, s.prefix, j, s.IsLast(j));
  }

  lemma KeyOfSession(a: Aead, sessions: set<Session>, s: Session)
    requires Honest(a, sessions) && s in sessions
    ensures KeyHolds(a, s)
  {
    forall i | 0 <= i < s.Sealings() ensures ChunkOpens(a, s, i) {
      assert s.Seals(s.Record(i));
      LoggedOpens(a, sessions, s, s.Record(i));
    }
    forall p, i, last, c |
      |p| == PREFIX_LEN && 0 <= i <= s.Sealings() && a.open(s.dek, Nonce(p, i, last), c).Some?
      ensures i < s.Sealings() && p == s.prefix && last == s.IsLast(i) && c == SealedChunk(a, s, i)
    {
      DekOpensChunk(a, sessions, s, p, i, last, c);
    }
  }

  lemma {:induction false} ChunksRoundTrip(a: Aead, s: Session, i: nat)
    requires KeyHolds(a, s) && !s.fails && i < s.Sealings()
    ensures |SealFrom(a, s, i)| >= TAG
    ensures OpenChunks(a, s.dek, s.prefix, SealFrom(a, s, i), false, i) == Outcome(s.plain[i * CHUNK..], None)
    decreases s.Sealings() - i
  {
    var c := SealedChunk(a, s, i);
    var rest := SealFrom(a, s, i + 1);
    assert ChunkOpens(a, s, i) by { var r := s.Record(i); }
    assert SealFrom(a, s, i) == c + rest;
    if s.IsLast(i) {
      OpensLast(a, s, i, c);
      assert c + rest == c;
    } else {
      ChunksRoundTrip(a, s, i + 1);
      OpensNext(a, s, i, c, rest);
      RestOfPlain(s, i);
    }
  }

  lemma OpensLast(a: Aead, s: Session, i: nat, c: Bytes)
    requires i < s.Sealings() && s.IsLast(i) && c == SealedChunk(a, s, i) && ChunkOpens(a, s, i)
    ensures OpenChunks(a, s.dek, s.prefix, c, false, i) == Outcome(s.plain[i * CHUNK..], None)
  {
    LastRecord(s, i);
    assert |c| <= CHUNK + TAG && c[..|c|] == c;
  }

  /** The last chunk is what is left of the plaintext. */
  lemma LastRecord(s: Session, i: nat)
    requires i < s.Sealings() && s.IsLast(i)
    ensures i * CHUNK <= |s.plain| && s.Record(i).plain == s.plain[i * CHUNK..] && |s.Record(i).plain| <= CHUNK
  {
    ReadIsRecord(s, i);
    var rest := s.plain[i * CHUNK..];
    assert rest[..|rest|] == rest;
  }

  lemma OpensNext(a: Aead, s: Session, i: nat, c: Bytes, rest: Bytes)
    requires i < s.Sealings() && !s.fails && !s.IsLast(i) && c == SealedChunk(a, s, i) && ChunkOpens(a, s, i)
    requires |rest| >= TAG
    ensures var o := OpenChunks(a, s.dek, s.prefix, rest, false, i + 1);
            OpenChunks(a, s.dek, s.prefix, c + rest, false, i) == Outcome(s.Record(i).plain + o.written, o.error)
  {
    ReadIsRecord(s, i);
    SplitAt(c, rest);
  }

  lemma SplitAt(x: Bytes, y: Bytes)
    ensures (x + y)[..|x|] == x && (x + y)[|x|..] == y
  {
  }

  lemma RestOfPlain(s: Session, i: nat)
    requires i < s.Sealings() && !s.IsLast(i)
    ensures (i + 1) * CHUNK <= |s.plain|
    ensures s.plain[i * CHUNK..] == s.Record(i).plain + s.plain[(i + 1) * CHUNK..]
  {
    NotLast(s, i);
    CutAt(s.plain, i * CHUNK, (i + 1) * CHUNK);
  }

  lemma NotLast(s: Session, i: nat)
    requires i < s.Sealings() && !s.IsLast(i)
    ensures i * CHUNK <= (i + 1) * CHUNK <= |s.plain|
  {
    RoomForOne(|s.plain|, CHUNK, i);
  }

  lemma CutAt(x: Bytes, from: nat, to: nat)
    requires from <= to <= |x|
    ensures x[from..] == x[from..to] + x[to..]
  {
  }

  lemma RoomForOne(n: nat, size: nat, i: nat)
    requires size > 0 && (i < n / size || i + 1 < (n + size - 1) / size)
    ensures i * size <= (i + 1) * size <= n
  {
    if i < n / size {
      MulAtMost(i + 1, n / size, size);
    } else {
      MulAtMost(i + 2, (n + size - 1) / size, size);
    }
  }

  lemma MulAtMost(x: nat, y: nat, size: nat)
    requires x <= y
    ensures x * size <= y * size
  {
  }

  lemma HeaderParts(a: Aead, s: Session, tail: Bytes)
    requires s.Valid() && |a.seal(s.kek, s.wrapNonce, s.dek)| == DEK_LEN + TAG
    ensures var all := Header(a, s) + tail;
            && |Header(a, s)| == HEADER_LEN && all[..HEADER_LEN] == Header(a, s)
            && all[..4] == MAGIC && all[4] == VERSION && all[5..17] == s.wrapNonce
            && all[17..65] == a.seal(s.kek, s.wrapNonce, s.dek) && all[65..69] == s.prefix && all[69..] == tail
  {
  }

  /** Decrypt undoes Encrypt, for every plaintext. */
  lemma RoundTrip(a: Aead, sessions: set<Session>, s: Session)
    requires Honest(a, sessions) && s in sessions && !s.fails
    ensures EncryptOutcome(a, s) == Outcome(Stream(a, s), None)
    ensures DecryptOutcome(a, s.kek, Stream(a, s), false) == Outcome(s.plain, None)
  {
    LoggedOpens(a, sessions, s, Sealed(s.kek, s.wrapNonce, s.dek));
    KeyOfSession(a, sessions, s);
    HeaderParts(a, s, SealFrom(a, s, 0));
    ChunksRoundTrip(a, s, 0);
    assert s.plain[0 * CHUNK..] == s.plain;
  }

  /** How the output of the chunk loop relates to the session whose key it opens under. */
  ghost predicate FromSession(a: Aead, s: Session, prefix: Bytes, rest: Bytes, fails: bool, i: nat, o: Outcome) {
    && i * CHUNK <= |s.plain|
    && o.written <= s.plain[i * CHUNK..]
    && (o.error.Some? ==> |o.written| % CHUNK == 0)
    && (o.error.None? ==>
          && prefix == s.prefix && !s.fails && !fails
          && rest == SealFrom(a, s, i) && o.written == s.plain[i * CHUNK..])
  }

  lemma FromSessionLast(a: Aead, s: Session, prefix: Bytes, rest: Bytes, i: nat)
    requires i < s.Sealings() && s.IsLast(i) && prefix == s.prefix && rest == SealedChunk(a, s, i)
    ensures FromSession(a, s, prefix, rest, false, i, Outcome(s.Record(i).plain, None))
  {
    LastRecord(s, i);
    assert SealFrom(a, s, i + 1) == [];
  }

  lemma FromSessionStep(a: Aead, s: Session, prefix: Bytes, c: Bytes, rest: Bytes, fails: bool, i: nat, o: Outcome)
    requires i < s.Sealings() && !s.IsLast(i) && c == SealedChunk(a, s, i)
    requires FromSession(a, s, prefix, rest, fails, i + 1, o)
    ensures FromSession(a, s, prefix, c + rest, fails, i, Outcome(s.Record(i).plain + o.written, o.error))
  {
    RestOfPlain(s, i);
    var plain := s.Record(i).plain;
    PrefixUnder(plain, o.written, s.plain[(i + 1) * CHUNK..]);
    FullRecord(s, i);
    OneChunkMore(plain, o.written);
    assert SealFrom(a, s, i) == c + SealFrom(a, s, i + 1);
  }

  /** Every chunk before the last is full. */
  lemma FullRecord(s: Session, i: nat)
    requires i < s.Sealings() && !s.IsLast(i)
    ensures i * CHUNK <= |s.plain| && |s.Record(i).plain| == CHUNK
  {
    RestOfPlain(s, i);
  }

  lemma OneChunkMore(x: Bytes, y: Bytes)
    requires |x| == CHUNK
    ensures |y| % CHUNK == 0 ==> |x + y| % CHUNK == 0
  {
    assert (CHUNK + |y|) % CHUNK == |y| % CHUNK;
  }

  lemma PrefixUnder(x: Bytes, y: Bytes, z: Bytes)
    ensures y <= z ==> x + y <= x + z
  {
  }

  lemma {:induction false} ChunksAuthentic(a: Aead, s: Session, prefix: Bytes, rest: Bytes, fails: bool, i: nat)
    requires KeyHolds(a, s) && |prefix| == PREFIX_LEN
    requires if s.fails then i <= s.Sealings() else i < s.Sealings()
    ensures FromSession(a, s, prefix, rest, fails, i, OpenChunks(a, s.dek, prefix, rest, fails, i))
    decreases |rest|
  {
    var size := CHUNK + TAG;
    var last := !fails && |rest| <= size;
    var n := Min(size, |rest|);
    var c := rest[..n];
    if (|rest| < size && fails) || a.open(s.dek, Nonce(prefix, i, last), c).None? {
      NothingWritten(a, s, prefix, rest, fails, i, OpenChunks(a, s.dek, prefix, rest, fails, i));
    } else {
      assert c == SealedChunk(a, s, i) && last == s.IsLast(i) && prefix == s.prefix;
      assert ChunkOpens(a, s, i) by { var r := s.Record(i); }
      if last {
        assert rest == c;
        FromSessionLast(a, s, prefix, rest, i);
      } else {
        ChunksAuthentic(a, s, prefix, rest[n..], fails, i + 1);
        assert rest == c + rest[n..];
        FromSessionStep(a, s, prefix, c, rest[n..], fails, i, OpenChunks(a, s.dek, prefix, rest[n..], fails, i + 1));
      }
    }
  }

  lemma NothingWritten(a: Aead, s: Session, prefix: Bytes, rest: Bytes, fails: bool, i: nat, o: Outcome)
    requires if s.fails then i <= s.Sealings() else i < s.Sealings()
    requires o.written == [] && o.error.Some?
    ensures FromSession(a, s, prefix, rest, fails, i, o)
  {
  }

  /** The session a wrapped data key belongs to, if it opens at all. */
  lemma HeaderOpens(a: Aead, sessions: set<Session>, kek: Bytes, n: Bytes, c: Bytes) returns (s: Session)
    requires Honest(a, sessions) && a.open(kek, n, c).Some? && (exists t <- sessions :: t.kek == kek)
    ensures s in sessions && s.kek == kek && s.wrapNonce == n && a.open(kek, n, c) == Some(s.dek)
    ensures c == a.seal(kek, n, s.dek)
  {
    OpenedWasLogged(a, sessions, kek, n, c);
    var e := Sealed(kek, n, a.open(kek, n, c).value);
    s :| s in sessions && s.Seals(e);
    var t :| t in sessions && t.kek == kek;
    assert s.dek != t.kek;
  }

  /**
   Decrypt under a key honest sessions use: it succeeds only on a stream Encrypt finished, and then
   gives that plaintext; and what it wrote before failing is whole chunks from the front of one.
   */
  lemma DecryptAuthentic(a: Aead, sessions: set<Session>, kek: Bytes, stream: Bytes, fails: bool)
    requires Honest(a, sessions) && (exists t <- sessions :: t.kek == kek)
    ensures var o := DecryptOutcome(a, kek, stream, fails);
            && (o.error.None? ==>
                  !fails
                  && exists s <- sessions ::
                       s.kek == kek && !s.fails && stream == Stream(a, s) && o.written == s.plain)
            && (o.error.Some? && o.written != [] ==>
                  |o.written| % CHUNK == 0 && exists s <- sessions :: s.kek == kek && o.written <= s.plain)
  {
    var o := DecryptOutcome(a, kek, stream, fails);
    if |kek| == KEK_LEN && |stream| >= HEADER_LEN && stream[..4] == MAGIC && stream[4] == VERSION
       && a.open(kek, stream[5..17], stream[17..65]).Some? {
      var s := HeaderOpens(a, sessions, kek, stream[5..17], stream[17..65]);
      assert s.Valid();
      KeyOfSession(a, sessions, s);
      ChunksAuthentic(a, s, stream[65..69], stream[69..], fails, 0);
      assert FromSession(a, s, stream[65..69], stream[69..], fails, 0, o);
      if o.error.None? {
        WholeStream(stream, a, s);
        assert o.written == s.plain;
      }
    }
  }

  lemma WholeStream(stream: Bytes, a: Aead, s: Session)
    requires |stream| >= HEADER_LEN && stream[..4] == MAGIC && stream[4] == VERSION && stream[5..17] == s.wrapNonce
    requires stream[17..65] == a.seal(s.kek, s.wrapNonce, s.dek) && stream[65..69] == s.prefix
    requires stream[69..] == SealFrom(a, s, 0)
    ensures stream == Stream(a, s)
  {
    assert stream == stream[..4] + [stream[4]] + stream[5..17] + stream[17..65] + stream[65..69] + stream[69..];
  }

  lemma SameHeader(a: Aead, s: Session, t: Session)
    requires s.Valid() && t.Valid() && Header(a, s) == Header(a, t)
    requires |a.seal(s.kek, s.wrapNonce, s.dek)| == |a.seal(t.kek, t.wrapNonce, t.dek)| == DEK_LEN + TAG
    ensures s.wrapNonce == t.wrapNonce && a.seal(s.kek, s.wrapNonce, s.dek) == a.seal(t.kek, t.wrapNonce, t.dek)
  {
    HeaderParts(a, s, []);
    HeaderParts(a, t, []);
    assert Header(a, s) + [] == Header(a, t) + [];
  }

  /** Anything but a finished stream itself fails under its header: every cut, extension, swap or drop of chunks. */
  lemma TamperedStreamFails(a: Aead, sessions: set<Session>, s: Session, stream: Bytes, fails: bool)
    requires Honest(a, sessions) && s in sessions
    requires stream != Stream(a, s) || s.fails || fails
    requires |stream| < HEADER_LEN || stream[..HEADER_LEN] == Header(a, s)
    ensures DecryptOutcome(a, s.kek, stream, fails).error.Some?
  {
    var o := DecryptOutcome(a, s.kek, stream, fails);
    if o.error.None? {
      DecryptAuthentic(a, sessions, s.kek, stream, fails);
      var t :| t in sessions && t.kek == s.kek && !t.fails && stream == Stream(a, t) && o.written == t.plain;
      LoggedOpens(a, sessions, s, Sealed(s.kek, s.wrapNonce, s.dek));
      LoggedOpens(a, sessions, t, Sealed(t.kek, t.wrapNonce, t.dek));
      HeaderParts(a, t, SealFrom(a, t, 0));
      SameHeader(a, s, t);
      assert false;
    }
  }
}
