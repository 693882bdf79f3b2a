/** Bounded buffers for command output (internal/commandbuffer/buffer.go): one keeps the first
    bytes written to it and the other the last, and both remember whether there was more. The
    whole stream is kept as a ghost, so that what a buffer holds can be said in terms of it. */
module CommandBuffer {
  type Byte = int

  /** What is kept of everything written: the first bytes, or the last. */
  function Kept(tail: bool, limit: nat, stream: seq<Byte>): seq<Byte> {
    if |stream| <= limit then stream
    else if tail then stream[|stream| - limit..]
    else stream[..limit]
  }

  /** As much as fits is kept, and it is the end of the stream, or its beginning. */
  lemma KeptIs(tail: bool, limit: nat, stream: seq<Byte>)
    ensures var kept := Kept(tail, limit, stream);
            |kept| == (if |stream| <= limit then |stream| else limit) &&
            forall i | 0 <= i < |kept| :: kept[i] == stream[if tail then |stream| - |kept| + i else i]
  {}

  lemma TailInPieces(limit: nat, before: seq<Byte>, chunk: seq<Byte>)
    requires |before| > limit
    ensures Kept(true, limit, before[|before| - limit..] + chunk) == (before + chunk)[|before + chunk| - limit..]
  {
    var kept, stream := before[|before| - limit..] + chunk, before + chunk;
    var from := |kept| - limit;
    assert kept[from..] == stream[|stream| - limit..];
    if from == 0 {
      assert kept[0..] == kept;
    }
  }

  lemma HeadInPieces(limit: nat, before: seq<Byte>, chunk: seq<Byte>)
    requires |before| > limit
    ensures Kept(false, limit, before[..limit] + chunk) == (before + chunk)[..limit]
  {
    var kept := before[..limit] + chunk;
    assert kept[..limit] == (before + chunk)[..limit];
    if |chunk| == 0 {
      assert kept[..limit] == kept;
    }
  }

  /** Keeping as it comes in is keeping at the end. */
  lemma KeptInPieces(tail: bool, limit: nat, before: seq<Byte>, chunk: seq<Byte>)
    ensures Kept(tail, limit, Kept(tail, limit, before) + chunk) == Kept(tail, limit, before + chunk)
  {
    if |before| > limit {
      if tail {
        TailInPieces(limit, before, chunk);
      } else {
        HeadInPieces(limit, before, chunk);
      }
    }
  }

  class Buffer {
    var body: seq<Byte>
    var limit: nat
    var tail: bool
    var exceeded: bool

    /** Everything ever written. */
    ghost var stream: seq<Byte>

    ghost predicate Valid()
      reads this
    {
      body == Kept(tail, limit, stream) && (exceeded <==> |stream| > limit)
    }

    constructor Head(max: int)
      ensures Valid() && !tail && limit == (if max < 0 then 0 else max) && stream == []
    {
      body, exceeded, stream := [], false, [];
      limit, tail := if max < 0 then 0 else max, false;
    }

    constructor Tail(max: int)
      ensures Valid() && tail && limit == (if max < 0 then 0 else max) && stream == []
    {
      body, exceeded, stream := [], false, [];
      limit, tail := if max < 0 then 0 else max, true;
    }

    method Write(chunk: seq<Byte>) returns (written: nat)
      requires Valid()
      modifies this
      ensures Valid() && limit == old(limit) && tail == old(tail)
      ensures stream == old(stream) + chunk && written == |chunk|
    {
      KeptInPieces(tail, limit, stream, chunk);
      written := |chunk|;
      if tail {
        WriteTail(chunk);
      } else {
        WriteHead(chunk);
      }
      stream := stream + chunk;
    }

    method WriteHead(chunk: seq<Byte>)
      requires Valid() && !tail
      modifies this`body, this`exceeded
      ensures body == Kept(false, limit, old(body) + chunk)
      ensures exceeded <==> |stream + chunk| > limit
    {
      var remaining := limit - |body|;
      if remaining <= 0 {
        assert (body + chunk)[..limit] == body;
        if |chunk| > 0 {
          exceeded := true;
        } else {
          assert body + chunk == body;
        }
        return;
      }
      if |chunk| <= remaining {
        body := body + chunk;
        return;
      }
      assert (body + chunk)[..limit] == body + chunk[..remaining];
      body := body + chunk[..remaining];
      exceeded := true;
    }

    method WriteTail(chunk: seq<Byte>)
      requires Valid() && tail
      modifies this`body, this`exceeded
      ensures body == Kept(true, limit, old(body) + chunk)
      ensures exceeded <==> |stream + chunk| > limit
    {
      ghost var all := body + chunk;
      if |chunk| == 0 {
        assert all == body;
        return;
      }
      if limit == 0 {
        exceeded := true;
        return;
      }
      if |chunk| >= limit {
        exceeded := exceeded || |body| > 0 || |chunk| > limit;
        assert all[|all| - limit..] == chunk[|chunk| - limit..];
        body := chunk[|chunk| - limit..];
        return;
      }
      var overflow := |body| + |chunk| - limit;
      if overflow > 0 {
        body := body[overflow..] + body[|body| - overflow..];
        body := body[..|body| - overflow];
        exceeded := true;
      }
      assert body + chunk == if overflow > 0 then all[overflow..] else all;
      body := body + chunk;
    }

    method Bytes() returns (copy: seq<Byte>)
      requires Valid()
      ensures copy == Kept(tail, limit, stream)
    {
      return body;
    }

    method Exceeded() returns (over: bool)
      requires Valid()
      ensures over <==> |stream| > limit
    {
      return exceeded;
    }
  }
}
