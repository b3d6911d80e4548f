/**
 Readers of every behaviour: a script of pieces, some of them empty, then an end or a failure that may
 come with the last piece or after it. Every sequence of answers a reader can give is such a script.
 */
module Streams {
  import opened Base

  type Bytes = seq<byte>

  /** The error half of a read. Eof answers errors.Is(err, io.EOF); wrapped, it is not io.EOF itself. */
  datatype Err = NoErr | Eof(wrapped: bool) | Failure(code: int) | TooLong | TooShort | NoProgress | MovedOutside

  function Flatten(pieces: seq<Bytes>): Bytes
    decreases |pieces|
  {
    if pieces == [] then [] else pieces[0] + Flatten(pieces[1..])
  }

  /** How many reads of nothing stand between the last byte and the end. */
  function Trailing(pieces: seq<Bytes>): (n: nat)
    ensures n <= |pieces|
    decreases |pieces|
  {
    if pieces == [] then 0
    else if Flatten(pieces) == [] then |pieces|
    else Trailing(pieces[1..])
  }

  /** They are the last pieces, all empty, and the one before them is not. */
  lemma {:induction false} TrailingMeans(pieces: seq<Bytes>)
    ensures var n := Trailing(pieces);
            && (forall i :: |pieces| - n <= i < |pieces| ==> pieces[i] == [])
            && (n < |pieces| ==> pieces[|pieces| - n - 1] != [])
    decreases |pieces|
  {
    if pieces == [] {
    } else if Flatten(pieces) == [] {
      FlattenEmpty(pieces);
    } else {
      TrailingMeans(pieces[1..]);
      if Trailing(pieces) == |pieces| - 1 {
        FlattenOfEmpty(pieces[1..]);
      }
    }
  }

  lemma {:induction false} FlattenEmpty(pieces: seq<Bytes>)
    requires Flatten(pieces) == []
    ensures forall i :: 0 <= i < |pieces| ==> pieces[i] == []
    decreases |pieces|
  {
    if pieces != [] {
      FlattenEmpty(pieces[1..]);
    }
  }

  lemma {:induction false} FlattenOfEmpty(pieces: seq<Bytes>)
    requires forall i :: 0 <= i < |pieces| ==> pieces[i] == []
    ensures Flatten(pieces) == []
    decreases |pieces|
  {
    if pieces != [] {
      FlattenOfEmpty(pieces[1..]);
    }
  }

  datatype Script = Script(pieces: seq<Bytes>, ending: Err, eager: bool) {
    ghost predicate Valid() {
      ending.Eof? || ending.Failure?
    }

    function Data(): Bytes {
      Flatten(pieces)
    }

    function Size(): nat {
      |pieces| + |Flatten(pieces)|
    }
  }

  /** One read with a buffer of max bytes: what it gives, and the script left. */
  function ReadOne(s: Script, max: nat): (Bytes, Err, Script)
    requires max > 0
  {
    if s.pieces == [] then ([], s.ending, s)
    else
      var p := s.pieces[0];
      if |p| > max then (p[..max], NoErr, s.(pieces := [p[max..]] + s.pieces[1..]))
      else
        var rest := s.(pieces := s.pieces[1..]);
        (p, if rest.pieces == [] && s.eager then s.ending else NoErr, rest)
  }

  /** What any read does: it moves bytes from the front, ends only at the end, and gets nearer to it. */
  lemma ReadOneMeans(s: Script, max: nat)
    requires s.Valid() && max > 0
    ensures var (got, err, rest) := ReadOne(s, max);
            && |got| <= max && got + rest.Data() == s.Data()
            && rest.ending == s.ending && rest.eager == s.eager
            && (err != NoErr ==> err == s.ending && rest.pieces == [])
            && (err == NoErr ==> rest.Size() < s.Size())
            && (s.pieces == [] ==> got == [] && err == s.ending)
            && (rest.Data() != [] ==> Trailing(rest.pieces) == Trailing(s.pieces))
            && (got != [] && rest.Data() == [] ==> |rest.pieces| == Trailing(s.pieces))
  {
    if s.pieces != [] {
      var p, tail := s.pieces[0], s.pieces[1..];
      if |p| > max {
        var left := [p[max..]] + tail;
        assert left[1..] == tail;
        assert p == p[..max] + p[max..];
        assert p[..max] + (p[max..] + Flatten(tail)) == p + Flatten(tail);
      } else {
        assert Flatten(s.pieces) == p + Flatten(tail);
        assert Flatten(s.pieces) == [] ==> Flatten(tail) == [];
        assert Flatten(tail) == [] ==> Trailing(tail) == |tail|;
      }
    }
  }

  /** The stream holds exactly `need` more bytes and then ends. */
  predicate Ends(s: Script, need: int) {
    |s.Data()| == need && s.ending.Eof?
  }

  /** A read that leaves some of the need changes nothing about it, unless it ended: then the stream was not exact. */
  lemma EndsAfterRead(s: Script, max: nat, need: int)
    requires s.Valid() && max > 0
    ensures var (got, err, rest) := ReadOne(s, max);
            && (err == NoErr ==> (Ends(rest, need - |got|) <==> Ends(s, need)))
            && (err != NoErr ==> (Ends(s, need) <==> |got| == need && err.Eof?))
  {
    ReadOneMeans(s, max);
  }

  class Reader {
    var script: Script

    ghost predicate Valid()
      reads this
    {
      script.Valid()
    }

    constructor (script: Script)
      requires script.Valid()
      ensures Valid() && this.script == script
    {
      this.script := script;
    }

    method Read(max: nat) returns (got: Bytes, err: Err)
      requires Valid() && max > 0
      modifies this
      ensures Valid() && (got, err, script) == ReadOne(old(script), max)
    {
      ReadOneMeans(script, max);
      var (g, e, rest) := ReadOne(script, max);
      got, err, script := g, e, rest;
    }
  }
}
