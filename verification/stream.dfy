/** Bytes and the chunking that `pullHandler` applies to the payload file. */
module Stream {

  newtype byte = x: int | 0 <= x < 256

  /** The size of `pullHandler`'s read buffer: 8 KiB. */
  const BufferSize := 8 * 1024

  /**
   * The chunks `pullHandler` writes for the bytes left in the file: full
   * buffers while a full buffer was read, then one short (possibly empty) read.
   */
  function Chunks(s: seq<byte>): (cs: seq<seq<byte>>)
    ensures |cs| >= 1
    decreases |s|
  {
    if |s| < BufferSize then [s] else [s[..BufferSize]] + Chunks(s[BufferSize..])
  }

  /** The bytes a sequence of writes puts on the wire. */
  function Flatten(cs: seq<seq<byte>>): seq<byte>
  {
    if cs == [] then [] else cs[0] + Flatten(cs[1..])
  }

  /** The chunks deliver exactly the remaining bytes, in order. */
  lemma {:induction false} FlattenChunks(s: seq<byte>)
    ensures Flatten(Chunks(s)) == s
    decreases |s|
  {
    if |s| >= BufferSize {
      var cs := Chunks(s);
      assert cs[0] == s[..BufferSize];
      assert cs[1..] == Chunks(s[BufferSize..]);
      FlattenChunks(s[BufferSize..]);
      assert s == s[..BufferSize] + s[BufferSize..];
    }
  }

  /**
   * Every chunk but the last is a full buffer, and the last holds the remainder
   * modulo the buffer size: it is empty exactly when that remainder is zero.
   */
  lemma {:induction false} ChunkShape(s: seq<byte>)
    ensures |Chunks(s)| == |s| / BufferSize + 1
    ensures forall i :: 0 <= i < |Chunks(s)| - 1 ==> |Chunks(s)[i]| == BufferSize
    ensures |Chunks(s)[|Chunks(s)| - 1]| == |s| % BufferSize
    decreases |s|
  {
    if |s| >= BufferSize {
      var rest := s[BufferSize..];
      ChunkShape(rest);
      var cs := Chunks(s);
      assert cs == [s[..BufferSize]] + Chunks(rest);
      DivModStep(|rest|);
      forall i | 0 <= i < |cs| - 1 ensures |cs[i]| == BufferSize {
        if i > 0 {
          assert cs[i] == Chunks(rest)[i - 1];
        }
      }
    }
  }

  /** No chunk is larger than the buffer. */
  lemma ChunkBound(s: seq<byte>)
    ensures forall i :: 0 <= i < |Chunks(s)| ==> |Chunks(s)[i]| <= BufferSize
  {
    ChunkShape(s);
  }

  lemma DivModStep(n: nat)
    ensures (n + BufferSize) / BufferSize == n / BufferSize + 1
    ensures (n + BufferSize) % BufferSize == n % BufferSize
  {
  }

  /** One read of `k` bytes takes the first chunk off: a full one, after which chunking goes on, or the last one. */
  lemma ChunksOfRead(s: seq<byte>, k: nat)
    requires k == if |s| < BufferSize then |s| else BufferSize
    ensures k == BufferSize ==> Chunks(s) == [s[..k]] + Chunks(s[k..])
    ensures k < BufferSize ==> Chunks(s) == [s[..k]]
  {
    if k < BufferSize {
      assert s[..k] == s;
    }
  }

  /**
   * A read of `k` bytes from what is left extends the chunks written so far:
   * after a full read chunking continues on the rest, after a short one it is complete.
   */
  lemma ReadStep(s: seq<byte>, written: seq<seq<byte>>, left: seq<byte>, k: nat)
    requires written + Chunks(left) == Chunks(s)
    requires k == if |left| < BufferSize then |left| else BufferSize
    ensures k == BufferSize ==> written + [left[..k]] + Chunks(left[k..]) == Chunks(s)
    ensures k < BufferSize ==> written + [left[..k]] == Chunks(s)
  {
    ChunksOfRead(left, k);
    if k == BufferSize {
      assert written + [left[..k]] + Chunks(left[k..]) == written + ([left[..k]] + Chunks(left[k..]));
    }
  }
}
