/**
 The proxy's re-framing: what came framed as a single aws-chunked chunk goes on in chunks of a bounded size,
 under a content length announced before any of it is read. The framing is that of section 7.1 of
 RFC 9112: a hex length and a CRLF, that many bytes and a CRLF, and a chunk of length zero at the end.
 */
module Rechunk {
  import opened Base
  import opened Streams

  const CR: byte := 13
  const LF: byte := 10
  const CRLF: Bytes := [CR, LF]

  // ---------------------------------------------------------------- hex

  function HexDigit(d: int): (b: byte)
    requires 0 <= d < 16
    ensures b != CR && DigitOf(b) == Some(d)
  {
    if d < 10 then 48 + d else 87 + d
  }

  function DigitOf(b: byte): Option<nat> {
    if 48 <= b <= 57 then Some(b - 48)
    else if 97 <= b <= 102 then Some(b - 87)
    else if 65 <= b <= 70 then Some(b - 55)
    else None
  }

  /** strconv.FormatInt in base 16. */
  function Hex(n: nat): (s: Bytes)
    ensures s != [] && forall k :: 0 <= k < |s| ==> s[k] != CR
  {
    if n < 16 then [HexDigit(n)] else Hex(n / 16) + [HexDigit(n % 16)]
  }

  function Digits(s: Bytes): Option<nat>
    decreases |s|
  {
    if s == [] then Some(0)
    else
      var rest, d := Digits(s[..|s| - 1]), DigitOf(s[|s| - 1]);
      if rest.Some? && d.Some? then Some(rest.value * 16 + d.value) else None
  }

  lemma {:induction false} HexReadsBack(n: nat)
    ensures Digits(Hex(n)) == Some(n)
    decreases n
  {
    var s := Hex(n);
    if n < 16 {
      assert s[..0] == [];
    } else {
      HexReadsBack(n / 16);
      assert s[..|s| - 1] == Hex(n / 16);
    }
  }

  const INT64_MAX := 0x7FFF_FFFF_FFFF_FFFF

  /** strconv.ParseInt in base 16: a sign is taken, an empty number and one past 64 bits are not. */
  function ParseInt(s: Bytes): Option<int> {
    if s == [] then None
    else
      var signed := s[0] == 43 || s[0] == 45;
      var digits := if signed then s[1..] else s;
      var n := Digits(digits);
      if digits == [] || n.None? then None
      else
        var v: int := if s[0] == 45 then 0 - n.value else n.value;
        if -INT64_MAX - 1 <= v <= INT64_MAX then Some(v) else None
  }

  predicate CrlfAt(s: Bytes, i: nat) {
    i + 2 <= |s| && s[i] == CR && s[i + 1] == LF
  }

  /** The first CRLF, or the length of s where there is none. */
  function IndexCrlf(s: Bytes): (i: nat)
    ensures i <= |s|
    ensures i < |s| ==> CrlfAt(s, i)
    decreases |s|
  {
    if |s| < 2 then |s| else if CrlfAt(s, 0) then 0 else IndexCrlf(s[1..]) + 1
  }

  lemma {:induction false} CrlfAfter(head: Bytes, rest: Bytes)
    requires forall k :: 0 <= k < |head| ==> head[k] != CR
    ensures IndexCrlf(head + CRLF + rest) == |head|
    decreases |head|
  {
    if head != [] {
      assert (head + CRLF + rest)[1..] == head[1..] + CRLF + rest;
      CrlfAfter(head[1..], rest);
    }
  }

  // ---------------------------------------------------------------- the framing, read

  /** The lengths of the chunks before the last, their bytes, and what follows the last one's line. */
  datatype Decoded = Decoded(sizes: seq<nat>, data: Bytes, rest: Bytes)

  /** A chunk at the front: the last, of length zero, or one with bytes; and what follows it. */
  datatype Front = Broken | Last(rest: Bytes) | More(data: Bytes, rest: Bytes)

  function FrontOf(s: Bytes): (f: Front)
    ensures f.More? ==> f.data != [] && |f.rest| < |s|
  {
    var i := IndexCrlf(s);
    if i == |s| || i == 0 || Digits(s[..i]).None? then Broken
    else FrontAfter(Digits(s[..i]).value, s[i + 2..])
  }

  /** The chunk of n bytes these begin with. */
  function FrontAfter(n: nat, after: Bytes): (f: Front)
    ensures f.More? ==> f.data != [] && |f.rest| < |after|
  {
    if n == 0 then Last(after)
    else if CrlfAt(after, n) then More(after[..n], after[n + 2..])
    else Broken
  }

  function Prepend(sizes: seq<nat>, data: Bytes, d: Option<Decoded>): Option<Decoded> {
    if d.None? then None else Some(Decoded(sizes + d.value.sizes, data + d.value.data, d.value.rest))
  }

  function Decode(s: Bytes): Option<Decoded>
    decreases |s|
  {
    var front := FrontOf(s);
    match front
    case Broken => None
    case Last(rest) => Some(Decoded([], [], rest))
    case More(data, rest) => Prepend([|data|], data, Decode(rest))
  }

  lemma PrependNothing(d: Option<Decoded>)
    ensures Prepend([], [], d) == d
  {
    if d.Some? {
      assert [] + d.value.sizes == d.value.sizes && [] + d.value.data == d.value.data;
    }
  }

  function Chunk(data: Bytes): Bytes {
    Hex(|data|) + CRLF + data + CRLF
  }

  /** A chunk written is a chunk read. */
  lemma ChunkReadsBack(data: Bytes, rest: Bytes)
    requires data != []
    ensures FrontOf(Chunk(data) + rest) == More(data, rest)
  {
    var head, after := Hex(|data|), data + CRLF + rest;
    assert Chunk(data) + rest == head + CRLF + after;
    CrlfAfter(head, after);
    HexReadsBack(|data|);
    var s := head + CRLF + after;
    assert s[..|head|] == head && s[|head| + 2..] == after;
    assert after[..|data|] == data && after[|data| + 2..] == rest;
  }

  // ---------------------------------------------------------------- the framing, written

  /** The chunk sizes of a body this long. */
  function Cuts(size: nat, chunk: nat): (cuts: seq<nat>)
    requires chunk > 0
    ensures forall c <- cuts :: 0 < c <= chunk
    decreases size
  {
    if size == 0 then [] else [Min(size, chunk)] + Cuts(size - Min(size, chunk), chunk)
  }

  /** Every chunk is full but the last, which has what is left. */
  lemma {:induction false} CutAt(size: nat, chunk: nat, i: nat)
    requires chunk > 0 && i < |Cuts(size, chunk)|
    ensures Cuts(size, chunk)[i] == if i + 1 < |Cuts(size, chunk)| then chunk else size - i * chunk
    decreases size
  {
    var left := size - Min(size, chunk);
    if i > 0 {
      CutAt(left, chunk, i - 1);
      assert (i - 1) * chunk == i * chunk - chunk;
    }
  }

  function Framed(data: Bytes, chunk: nat): Bytes
    requires chunk > 0
    decreases |data|
  {
    if data == [] then []
    else
      var c := Min(|data|, chunk);
      Chunk(data[..c]) + Framed(data[c..], chunk)
  }

  function Framing(size: nat, chunk: nat): nat
    requires chunk > 0
    decreases size
  {
    if size == 0 then 0 else |Hex(Min(size, chunk))| + 4 + Framing(size - Min(size, chunk), chunk)
  }

  /** The framing's length is the data's and what chunkFraming counts. */
  lemma {:induction false} FramedLength(data: Bytes, chunk: nat)
    requires chunk > 0
    ensures |Framed(data, chunk)| == |data| + Framing(|data|, chunk)
    decreases |data|
  {
    if data != [] {
      FramedLength(data[Min(|data|, chunk)..], chunk);
    }
  }

  /** Whatever follows it, the framing reads back to the data, in chunks of at most the limit. */
  lemma {:induction false} FramedReadsBack(data: Bytes, chunk: nat, rest: Bytes)
    requires chunk > 0
    ensures Decode(Framed(data, chunk) + rest) == Prepend(Cuts(|data|, chunk), data, Decode(rest))
    decreases |data|
  {
    if data == [] {
      assert Framed(data, chunk) + rest == rest;
      PrependNothing(Decode(rest));
    } else {
      var c := Min(|data|, chunk);
      FramedReadsBack(data[c..], chunk, rest);
      OneMoreChunk(data, chunk, rest);
    }
  }

  /** The first chunk and the rest of the framing. */
  lemma FramedStep(data: Bytes, chunk: nat)
    requires chunk > 0 && data != []
    ensures var c := Min(|data|, chunk);
            && |data[..c]| == c && data[..c] != [] && data == data[..c] + data[c..]
            && Framed(data, chunk) == Chunk(data[..c]) + Framed(data[c..], chunk)
            && Cuts(|data|, chunk) == [c] + Cuts(|data[c..]|, chunk)
  {
  }

  lemma OneMoreChunk(data: Bytes, chunk: nat, rest: Bytes)
    requires chunk > 0 && data != []
    requires var tail := data[Min(|data|, chunk)..];
             Decode(Framed(tail, chunk) + rest) == Prepend(Cuts(|tail|, chunk), tail, Decode(rest))
    ensures Decode(Framed(data, chunk) + rest) == Prepend(Cuts(|data|, chunk), data, Decode(rest))
  {
    var c := Min(|data|, chunk);
    var head, tail := data[..c], data[c..];
    FramedStep(data, chunk);
    JoinChunk(head, Framed(tail, chunk), rest, Cuts(|tail|, chunk), tail);
  }

  lemma JoinChunk(head: Bytes, framed: Bytes, rest: Bytes, sizes: seq<nat>, tail: Bytes)
    requires head != [] && Decode(framed + rest) == Prepend(sizes, tail, Decode(rest))
    ensures Decode(Chunk(head) + framed + rest) == Prepend([|head|] + sizes, head + tail, Decode(rest))
  {
    ChunkReadsBack(head, framed + rest);
    Associates(Chunk(head), framed, rest);
    PrependTwice(|head|, sizes, head, tail, Decode(rest));
  }

  lemma PrependTwice(c: nat, sizes: seq<nat>, a: Bytes, b: Bytes, d: Option<Decoded>)
    ensures Prepend([c], a, Prepend(sizes, b, d)) == Prepend([c] + sizes, a + b, d)
  {
    if d.Some? {
      assert [c] + (sizes + d.value.sizes) == [c] + sizes + d.value.sizes;
      assert a + (b + d.value.data) == a + b + d.value.data;
    }
  }

  method ChunkFraming(size: nat, chunk: nat) returns (n: nat)
    requires chunk > 0
    ensures n == Framing(size, chunk)
  {
    n := 0;
    var left: int := size;
    while left > 0
      invariant n + Framing(Max(left, 0), chunk) == Framing(size, chunk)
      decreases left
    {
      n := n + |Hex(Min(left, chunk))| + 4;
      left := left - chunk;
    }
  }

  /** What was written so far, and the framing of what is left of the data, make up the framing of the data. */
  ghost predicate Written(out: Bytes, r: Bytes, at: nat, size: nat, chunk: nat)
    requires chunk > 0
  {
    at <= size <= |r| ==> Framed(r[..size], chunk) == out + Framed(r[at..size], chunk)
  }

  lemma ThreeWrites(out: Bytes, data: Bytes)
    ensures out + Hex(|data|) + CRLF + data + CRLF == out + Chunk(data)
  {
    var line := Hex(|data|);
    Associates(out, line, CRLF);
    Associates(out, line + CRLF, data);
    Associates(out, line + CRLF + data, CRLF);
  }

  lemma WrittenNothing(r: Bytes, size: nat, chunk: nat)
    requires chunk > 0
    ensures Written([], r, 0, size, chunk)
  {
    if |r| >= size {
      assert r[0..size] == r[..size];
      assert [] + Framed(r[..size], chunk) == Framed(r[..size], chunk);
    }
  }

  lemma WrittenAll(out: Bytes, r: Bytes, size: nat, chunk: nat)
    requires chunk > 0 && size <= |r| && Written(out, r, size, size, chunk)
    ensures Framed(r[..size], chunk) == out
  {
    assert r[size..size] == [] && out + [] == out;
  }

  lemma SliceAt(r: Bytes, at: nat, next: nat, size: nat)
    requires at <= next <= size <= |r|
    ensures r[at..size][..next - at] == r[at..next] && r[at..size][next - at..] == r[next..size]
  {
  }

  lemma FramedSlice(r: Bytes, at: nat, size: nat, chunk: nat)
    requires chunk > 0 && at < size <= |r|
    ensures var next := at + Min(size - at, chunk);
            Framed(r[at..size], chunk) == Chunk(r[at..next]) + Framed(r[next..size], chunk)
  {
    var left, next := r[at..size], at + Min(size - at, chunk);
    SliceAt(r, at, next, size);
    assert |left| == size - at;
    FramedStep(left, chunk);
  }

  lemma WroteOneMore(out: Bytes, r: Bytes, at: nat, size: nat, chunk: nat)
    requires chunk > 0 && at < size && Written(out, r, at, size, chunk) && at + Min(size - at, chunk) <= |r|
    ensures var c := Min(size - at, chunk);
            Written(out + Chunk(r[at..at + c]), r, at + c, size, chunk)
  {
    if |r| >= size {
      var c := Min(size - at, chunk);
      FramedSlice(r, at, size, chunk);
      Associates(out, Chunk(r[at..at + c]), Framed(r[at + c..size], chunk));
    }
  }

  /** One chunk: its line, the next c bytes of the body, as many as there are, and its end. */
  method WriteChunk(before: Bytes, r: Bytes, at: nat, c: nat) returns (out: Bytes, ok: bool)
    requires at <= |r|
    ensures ok <==> at + c <= |r|
    ensures ok ==> out == before + Chunk(r[at..at + c])
  {
    out := before + Hex(c) + CRLF;
    if |r| - at < c {
      return out + r[at..], false;
    }
    var data := r[at..at + c];
    ThreeWrites(before, data);
    return out + data + CRLF, true;
  }

  /** The next chunk of so many bytes at most. */
  method WriteNext(before: Bytes, r: Bytes, at: nat, size: nat, chunk: nat) returns (out: Bytes, next: nat, ok: bool)
    requires chunk > 0 && at < size && at <= |r| && Written(before, r, at, size, chunk)
    ensures at < next <= size && (ok <==> next <= |r|)
    ensures ok ==> Written(out, r, next, size, chunk)
  {
    var c := Min(size - at, chunk);
    out, ok := WriteChunk(before, r, at, c);
    if ok {
      WroteOneMore(before, r, at, size, chunk);
    }
    next := at + c;
  }

  method WriteChunks(r: Bytes, size: nat, chunk: nat) returns (out: Bytes, ok: bool)
    requires chunk > 0
    ensures ok <==> CrlfAt(r, size)
    ensures ok ==> out == Framed(r[..size], chunk) + r[size + 2..]
  {
    out := [];
    var at := 0;
    WrittenNothing(r, size, chunk);
    while at < size
      invariant at <= size && at <= |r|
      invariant Written(out, r, at, size, chunk)
    {
      out, at, ok := WriteNext(out, r, at, size, chunk);
      if !ok {
        return;
      }
    }
    out, ok := EndChunks(out, r, size, chunk);
  }

  /** The chunk's own end, and everything behind it as it came. */
  method EndChunks(before: Bytes, r: Bytes, size: nat, ghost chunk: nat) returns (out: Bytes, ok: bool)
    requires chunk > 0 && Written(before, r, size, size, chunk)
    ensures ok <==> CrlfAt(r, size)
    ensures ok ==> out == Framed(r[..size], chunk) + r[size + 2..]
  {
    if !CrlfAt(r, size) {
      return before, false;
    }
    WrittenAll(before, r, size, chunk);
    return before + r[size + 2..], true;
  }

  // ---------------------------------------------------------------- the decision

  const PEEKED := 20

  /** The line of the one chunk, when the body begins with one of the whole object's size. */
  function HeadLine(body: Bytes, size: int): Option<nat> {
    var head := body[..Min(PEEKED, |body|)];
    var i := IndexCrlf(head);
    if i == |head| || i == 0 || ParseInt(head[..i]) != Some(size) then None else Some(i)
  }

  /**
   `eligible` stands for the settings, the operation and the header that let a body be re-framed. What
   goes on is out, under the content length given, and signed again when it was re-framed.
   */
  method Rechunk(eligible: bool, limit: int, size: int, contentLength: int, body: Bytes)
    returns (out: Bytes, length: int, again: bool, ok: bool)
    ensures again <==> eligible && 0 < limit < size && HeadLine(body, size).Some?
    ensures !again ==> out == body && length == contentLength && ok
    // the length announced is the length sent
    ensures again && ok && contentLength == |body| ==> |out| == length
    // and what is sent means what came, in chunks within the limit
    ensures again && FirstIs(body, size) ==>
              ok && Decode(out) == Some(Decode(body).value.(sizes := Cuts(size, limit) + Decode(body).value.sizes[1..]))
  {
    if !eligible || limit <= 0 || size <= limit || HeadLine(body, size).None? {
      return body, contentLength, false, true;
    }
    var i := HeadLine(body, size).value;
    var framing := ChunkFraming(size, limit);
    length := contentLength - i - 4 + framing;
    var rest := body[i + 2..];
    out, ok := WriteChunks(rest, size, limit);
    again := true;
    if ok {
      FramedLength(rest[..size], limit);
    }
    if FirstIs(body, size) {
      SameMeaning(body, i, size, limit);
    }
  }

  /** The body is in chunks, and the first has this size. */
  ghost predicate FirstIs(body: Bytes, size: int) {
    var d := Decode(body);
    d.Some? && d.value.sizes != [] && d.value.sizes[0] == size
  }

  /** Cut anew, the chunk's data still reads as it did. */
  lemma SameMeaning(body: Bytes, i: nat, size: nat, limit: nat)
    requires HeadLine(body, size) == Some(i) && 0 < limit < size && FirstIs(body, size)
    ensures var d, rest := Decode(body).value, body[i + 2..];
            && CrlfAt(rest, size)
            && Decode(Framed(rest[..size], limit) + rest[size + 2..]) ==
                 Some(d.(sizes := Cuts(size, limit) + d.sizes[1..]))
  {
    PeekSeesTheLine(body, i);
    var after := body[i + 2..];
    FirstChunk(body, i, after, size);
    FramedReadsBack(after[..size], limit, after[size + 2..]);
    CutAnew(size, Cuts(size, limit), after[..size], Decode(after[size + 2..]));
  }

  /** The same data under other chunk sizes. */
  lemma CutAnew(size: nat, cuts: seq<nat>, data: Bytes, more: Option<Decoded>)
    requires Prepend([size], data, more).Some?
    ensures var d := Prepend([size], data, more).value;
            Prepend(cuts, data, more) == Some(d.(sizes := cuts + d.sizes[1..]))
  {
    assert ([size] + more.value.sizes)[1..] == more.value.sizes;
  }

  /**
   A body that decodes with a first chunk of this size has that chunk at its front, and its end where
   writeChunks looks.
   */
  lemma FirstChunk(body: Bytes, i: nat, after: Bytes, size: nat)
    requires FirstIs(body, size) && size > 0 && i == IndexCrlf(body) < |body| && after == body[i + 2..]
    ensures CrlfAt(after, size) && Decode(body) == Prepend([size], after[..size], Decode(after[size + 2..]))
  {
    FirstIsMore(body, size);
    FirstLies(body, i, after, size);
  }

  lemma FirstLies(body: Bytes, i: nat, after: Bytes, size: nat)
    requires FrontOf(body).More? && |FrontOf(body).data| == size
    requires i == IndexCrlf(body) < |body| && after == body[i + 2..]
    ensures CrlfAt(after, size) && FrontOf(body) == More(after[..size], after[size + 2..])
  {
    var n := LineBefore(body, i);
    MoreIs(n, after);
  }

  /** Its front is a chunk with bytes, as many as its line says. */
  lemma FirstIsMore(body: Bytes, size: nat)
    requires FirstIs(body, size)
    ensures FrontOf(body).More? && |FrontOf(body).data| == size
    ensures Decode(body) == Prepend([size], FrontOf(body).data, Decode(FrontOf(body).rest))
  {
    var front := FrontOf(body);
    if front.More? {
      FirstSize(|front.data|, front.data, Decode(front.rest));
    }
  }

  lemma LineBefore(body: Bytes, i: nat) returns (n: nat)
    requires i == IndexCrlf(body) < |body| && FrontOf(body).More?
    ensures FrontOf(body) == FrontAfter(n, body[i + 2..])
  {
    n := Digits(body[..i]).value;
  }

  lemma MoreIs(n: nat, after: Bytes)
    requires FrontAfter(n, after).More?
    ensures CrlfAt(after, n) && FrontAfter(n, after) == More(after[..n], after[n + 2..]) && |after[..n]| == n
  {
  }

  lemma FirstSize(n: nat, data: Bytes, more: Option<Decoded>)
    requires Prepend([n], data, more).Some?
    ensures Prepend([n], data, more).value.sizes[0] == n
  {
  }

  lemma PeekSeesTheLine(body: Bytes, i: nat)
    requires i < Min(PEEKED, |body|) && i == IndexCrlf(body[..Min(PEEKED, |body|)])
    ensures IndexCrlf(body) == i
  {
    var k := Min(PEEKED, |body|);
    PrefixIndex(body[..k], body[k..]);
    assert body[..k] + body[k..] == body;
  }

  lemma {:induction false} PrefixIndex(a: Bytes, b: Bytes)
    requires IndexCrlf(a) < |a|
    ensures IndexCrlf(a + b) == IndexCrlf(a)
    decreases |a|
  {
    if !CrlfAt(a, 0) {
      assert (a + b)[1..] == a[1..] + b;
      PrefixIndex(a[1..], b);
    }
  }

  // ---------------------------------------------------------------- the letters

  /** A digit is written as one of 0 to 9 and a to f, and read in either case. */
  lemma DigitMeans(d: nat, b: byte)
    requires d < 16
    ensures HexDigit(d) == "0123456789abcdef"[d] as int
    ensures DigitOf(b) == Some(d) <==> b == "0123456789abcdef"[d] as int || b == "0123456789ABCDEF"[d] as int
    ensures DigitOf(b).Some? ==> DigitOf(b).value < 16
  {
  }

  ghost predicate AllDigits(s: Bytes) {
    forall k :: 0 <= k < |s| ==> DigitOf(s[k]).Some?
  }

  lemma {:induction false} DigitsOnly(s: Bytes)
    ensures Digits(s).Some? <==> AllDigits(s)
    decreases |s|
  {
    if s != [] {
      DigitsOnly(s[..|s| - 1]);
    }
  }

  /** The number read: a plus or a minus, or neither, and then the digits of the number; */
  lemma ParseIntReads(n: nat)
    requires n <= INT64_MAX
    ensures ParseInt(Hex(n)) == Some(n) && ParseInt(['+' as int] + Hex(n)) == Some(n)
    ensures ParseInt(['-' as int] + Hex(n)).Some? && n + ParseInt(['-' as int] + Hex(n)).value == 0
  {
    HexReadsBack(n);
    FirstIsDigit(n);
    assert (['+' as int] + Hex(n))[1..] == Hex(n) && (['-' as int] + Hex(n))[1..] == Hex(n);
  }

  /** and nothing else, nor a number of more than 64 bits. */
  lemma ParseIntRefuses(s: Bytes)
    requires ParseInt(s).Some?
    ensures s != [] && -0x8000_0000_0000_0000 <= ParseInt(s).value <= 0x7FFF_FFFF_FFFF_FFFF
    ensures var digits := if s[0] == '+' as int || s[0] == '-' as int then s[1..] else s;
            digits != [] && AllDigits(digits)
  {
    DigitsOnly(s);
    DigitsOnly(s[1..]);
  }

  lemma FirstIsDigit(n: nat)
    ensures Hex(n)[0] != '+' as int && Hex(n)[0] != '-' as int
  {
    HexReadsBack(n);
    DigitsOnly(Hex(n));
    assert DigitOf(Hex(n)[0]).Some?;
  }

  lemma {:induction false} IndexIsFirst(s: Bytes, i: nat)
    ensures IndexCrlf(s) == i < |s| <==> CrlfAt(s, i) && forall k: nat | k < i :: !CrlfAt(s, k)
    decreases |s|
  {
    if |s| >= 2 && !CrlfAt(s, 0) {
      forall k: nat ensures CrlfAt(s[1..], k) <==> CrlfAt(s, k + 1) {
      }
      if i > 0 {
        IndexIsFirst(s[1..], i - 1);
      }
      Shifted(s, i);
    }
  }

  lemma Shifted(s: Bytes, i: nat)
    requires |s| >= 1 && !CrlfAt(s, 0)
    ensures (forall k: nat | k < i :: !CrlfAt(s, k)) <==> (i == 0 || forall k: nat | k < i - 1 :: !CrlfAt(s[1..], k))
  {
    forall k: nat ensures CrlfAt(s[1..], k) <==> CrlfAt(s, k + 1) {
    }
    if i > 0 && forall k: nat | k < i - 1 :: !CrlfAt(s[1..], k) {
      forall k: nat | k < i ensures !CrlfAt(s, k) {
        assert k > 0 ==> !CrlfAt(s[1..], k - 1);
      }
    }
  }

  /** The line a body must begin with: it ends with the first CRLF, inside the first 20 bytes, and gives the size. */
  lemma HeadLineMeans(body: Bytes, size: int, i: nat)
    ensures HeadLine(body, size) == Some(i) <==>
            && 0 < i <= 18 && CrlfAt(body, i) && (forall k: nat | k < i :: !CrlfAt(body, k))
            && ParseInt(body[..i]) == Some(size)
  {
    var head := body[..Min(PEEKED, |body|)];
    IndexIsFirst(head, i);
    forall k: nat | k <= 18 ensures CrlfAt(head, k) <==> CrlfAt(body, k) {
    }
    if i < |head| {
      assert head[..i] == body[..i];
    }
  }

  function Ascii(s: string): Bytes
    requires forall k :: 0 <= k < |s| ==> s[k] as int < 128
  {
    seq(|s|, i requires 0 <= i < |s| => s[i] as byte)
  }

  /** Three bytes in chunks of two at most, as they go over the wire. */
  lemma FramingOfThree()
    ensures Framed(Ascii("abc"), 2) == Ascii("2\r\nab\r\n1\r\nc\r\n")
  {
    var data, wire := Ascii("abc"), Ascii("2\r\nab\r\n1\r\nc\r\n");
    var rest := data[2..];
    assert rest[1..] == [];
    assert Framed(rest, 2) == Chunk(rest[..1]) + Framed(rest[1..], 2);
    assert Framed(data, 2) == Chunk(data[..2]) + Framed(rest, 2);
    assert Hex(2) == ['2' as int] && Hex(1) == ['1' as int];
    assert Chunk(data[..2]) == wire[..7];
    assert Chunk(rest[..1]) == wire[7..];
  }
}
