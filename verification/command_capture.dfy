/** Bounded capture of a child's output stream (src/command.rs). */
module StreamCapture {
  import opened Common

  newtype byte = x: int | 0 <= x < 256

  const BUFFER := 8192
  const EVIDENCE := 4096

  datatype Captured = Captured(bytes: seq<byte>, suffix: seq<byte>, total: nat, truncated: bool)

  function Tail(data: seq<byte>): seq<byte> {
    data[|data| - Min(EVIDENCE, |data|)..]
  }

  /** The whole stream at once: its first `limit` bytes, its last 4096, and its saturated length. */
  function OneShot(data: seq<byte>, limit: nat): Captured {
    var total := Min(U64_MAX, |data|);
    Captured(data[..Min(limit, |data|)], Tail(data), total, total > limit)
  }

  function Concat(chunks: seq<seq<byte>>): seq<byte> {
    if chunks == [] then [] else chunks[0] + Concat(chunks[1..])
  }

  /** A pipe that delivers its bytes in chunks of its own choosing, then ends or fails. */
  class Stream {
    var chunks: seq<seq<byte>>
    const fails: bool

    ghost predicate Valid()
      reads this
    {
      forall i :: 0 <= i < |chunks| ==> 0 < |chunks[i]| <= BUFFER
    }

    constructor (chunks: seq<seq<byte>>, fails: bool)
      requires forall i :: 0 <= i < |chunks| ==> 0 < |chunks[i]| <= BUFFER
      ensures Valid() && this.chunks == chunks && this.fails == fails
    {
      this.chunks, this.fails := chunks, fails;
    }

    /** Zero at the end of the stream, none on an error. */
    method Read(buffer: array<byte>) returns (count: Option<nat>)
      requires Valid() && buffer.Length == BUFFER
      modifies this, buffer
      ensures Valid()
      ensures old(chunks) == [] ==> chunks == [] && count == (if fails then None else Some(0))
      ensures old(chunks) != [] ==>
        && chunks == old(chunks)[1..]
        && count == Some(|old(chunks)[0]|)
        && buffer[..|old(chunks)[0]|] == old(chunks)[0]
    {
      if chunks == [] {
        return if fails then None else Some(0);
      }
      var chunk := chunks[0];
      for i := 0 to |chunk|
        invariant chunks == old(chunks)
        invariant buffer[..i] == chunk[..i]
      {
        buffer[i] := chunk[i];
      }
      assert chunk[..|chunk|] == chunk;
      chunks := chunks[1..];
      return Some(|chunk|);
    }
  }

  lemma TailOfMore(data: seq<byte>, chunk: seq<byte>)
    ensures Tail(data + chunk) ==
      if |chunk| >= EVIDENCE then chunk[|chunk| - EVIDENCE..] else Tail(Tail(data) + chunk)
  {
  }

  lemma PrefixOfMore(data: seq<byte>, chunk: seq<byte>, limit: nat)
    ensures
      var kept := data[..Min(limit, |data|)];
      (data + chunk)[..Min(limit, |data| + |chunk|)] == kept + chunk[..Min(limit - |kept|, |chunk|)]
  {
  }

  /** The windows after the bytes seen so far. */
  ghost predicate Windows(seen: seq<byte>, limit: nat, captured: seq<byte>, suffix: seq<byte>, total: nat) {
    captured == seen[..Min(limit, |seen|)] && suffix == Tail(seen) && total == Min(U64_MAX, |seen|)
  }

  method Absorb(buffer: array<byte>, count: nat, limit: nat, captured0: seq<byte>, suffix0: seq<byte>, total0: nat, ghost seen: seq<byte>)
    returns (captured: seq<byte>, suffix: seq<byte>, total: nat)
    requires count <= buffer.Length && Windows(seen, limit, captured0, suffix0, total0)
    ensures Windows(seen + buffer[..count], limit, captured, suffix, total)
  {
    PrefixOfMore(seen, buffer[..count], limit);
    TailOfMore(seen, buffer[..count]);
    total := Min(U64_MAX, total0 + count);
    var retained := Min(limit - |captured0|, count);
    assert buffer[..retained] == buffer[..count][..retained];
    captured := captured0 + buffer[..retained];
    if count >= EVIDENCE {
      suffix := buffer[count - EVIDENCE..count];
      assert suffix == buffer[..count][count - EVIDENCE..];
    } else {
      suffix := suffix0 + buffer[..count];
      if |suffix| > EVIDENCE {
        suffix := suffix[|suffix| - EVIDENCE..];
      }
    }
  }

  /** Keeps two windows while it reads; the result is that of the whole stream at once. */
  method Capture(stream: Stream, limit: nat) returns (r: Option<Captured>)
    requires stream.Valid()
    modifies stream
    ensures r == if stream.fails then None else Some(OneShot(Concat(old(stream.chunks)), limit))
  {
    var captured, suffix: seq<byte>, total: nat := [], [], 0;
    var buffer := new byte[BUFFER];
    ghost var seen: seq<byte> := [];
    while true
      invariant stream.Valid() && fresh(buffer) && buffer.Length == BUFFER
      invariant seen + Concat(stream.chunks) == Concat(old(stream.chunks))
      invariant Windows(seen, limit, captured, suffix, total)
      decreases |stream.chunks|
    {
      ghost var before := stream.chunks;
      var read := stream.Read(buffer);
      if read.None? {
        return None;
      }
      if read.value == 0 {
        break;
      }
      captured, suffix, total := Absorb(buffer, read.value, limit, captured, suffix, total, seen);
      ConcatNext(seen, before);
      seen := seen + before[0];
    }
    assert seen == Concat(old(stream.chunks));
    return Some(Captured(captured, suffix, total, total > limit));
  }

  lemma ConcatNext(seen: seq<byte>, chunks: seq<seq<byte>>)
    requires chunks != []
    ensures (seen + chunks[0]) + Concat(chunks[1..]) == seen + Concat(chunks)
  {
  }

  /** The flag is exact unless the counter saturates at a limit it cannot exceed. */
  lemma TruncatedIsExact(data: seq<byte>, limit: nat)
    requires limit <= U64_MAX
    ensures (OneShot(data, limit).truncated <==> |data| > limit) <==> (limit < U64_MAX || |data| <= U64_MAX)
  {
  }

  /** When nothing is truncated the windows hold everything; otherwise they miss only the middle. */
  lemma WindowsLoseOnlyTheMiddle(data: seq<byte>, limit: nat)
    ensures
      var c := OneShot(data, limit);
      && (|data| <= limit ==> c.bytes == data)
      && (|data| <= |c.bytes| + |c.suffix| ==> data == c.bytes + c.suffix[|c.bytes| + |c.suffix| - |data|..])
      && (|data| >= |c.bytes| + |c.suffix| ==>
            data == c.bytes + data[|c.bytes|..|data| - |c.suffix|] + c.suffix)
  {
  }
}
