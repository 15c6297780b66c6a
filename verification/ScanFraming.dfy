/**
 The byte stream sent to the malware scanner: a command, then every chunk behind its length as four
 bytes, big endian, then the length zero. The reader is the receiving side of that format.
 */
module ScanFraming {
  import opened Int32

  const COMMAND: seq<Byte> :=
    [122, 73, 78, 83, 84, 82, 69, 65, 77, 0]

  const LENGTH_LIMIT: nat := 0x1_0000_0000

  type Chunk = seq<Byte>

  // ---------- the sender ----------

  function LengthBytes(n: nat): (r: seq<Byte>)
    requires n < LENGTH_LIMIT
    ensures |r| == 4
  {
    [n / 0x100_0000, n / 0x1_0000 % 0x100, n / 0x100 % 0x100, n % 0x100]
  }

  predicate Writable(chunks: seq<Chunk>) {
    forall i :: 0 <= i < |chunks| ==> |chunks[i]| < LENGTH_LIMIT
  }

  function Frames(chunks: seq<Chunk>): seq<Byte>
    requires Writable(chunks)
  {
    if chunks == [] then []
    else LengthBytes(|chunks[0]|) + chunks[0] + Frames(chunks[1..])
  }

  /** Everything after the command. */
  function Stream(chunks: seq<Chunk>): seq<Byte>
    requires Writable(chunks)
  {
    Frames(chunks) + LengthBytes(0)
  }

  lemma {:induction false} FramesAppend(chunks: seq<Chunk>, chunk: Chunk)
    requires Writable(chunks) && |chunk| < LENGTH_LIMIT
    ensures Writable(chunks + [chunk])
    ensures Frames(chunks + [chunk]) == Frames(chunks) + LengthBytes(|chunk|) + chunk
  {
    if chunks == [] {
      assert chunks + [chunk] == [chunk];
    } else {
      FramesAppend(chunks[1..], chunk);
      assert (chunks + [chunk])[1..] == chunks[1..] + [chunk];
    }
  }

  /** The connection to the scanner; `sent` is what has been written to it so far. */
  class Socket {
    var sent: seq<Byte>

    constructor ()
      ensures sent == []
    {
      sent := [];
    }

    method Write(bytes: seq<Byte>)
      modifies this
      ensures sent == old(sent) + bytes
    {
      sent := sent + bytes;
    }

    /** The length does not fit its four bytes from 2^32 on: the buffer write throws and nothing is sent. */
    method WriteScanChunk(chunk: Chunk) returns (ok: bool)
      modifies this
      ensures ok == (|chunk| < LENGTH_LIMIT)
      ensures sent == if ok then old(sent) + LengthBytes(|chunk|) + chunk else old(sent)
    {
      if |chunk| >= LENGTH_LIMIT {
        return false;
      }
      Write(LengthBytes(|chunk|));
      Write(chunk);
      return true;
    }

    method ScanReadableStream(chunks: seq<Chunk>) returns (ok: bool)
      modifies this
      ensures ok == Writable(chunks)
      ensures ok ==> sent == old(sent) + COMMAND + Stream(chunks)
    {
      Write(COMMAND);
      for i := 0 to |chunks|
        invariant Writable(chunks[..i])
        invariant sent == old(sent) + COMMAND + Frames(chunks[..i])
      {
        FramesStep(chunks, i);
        ok := WriteScanChunk(chunks[i]);
        if !ok {
          return false;
        }
        assert chunks[..i + 1] == chunks[..i] + [chunks[i]];
      }
      assert chunks[..|chunks|] == chunks;
      Write(LengthBytes(0));
      return true;
    }
  }

  lemma FramesStep(chunks: seq<Chunk>, i: nat)
    requires i < |chunks| && Writable(chunks[..i])
    ensures |chunks[i]| < LENGTH_LIMIT ==>
      Writable(chunks[..i + 1])
      && Frames(chunks[..i + 1]) == Frames(chunks[..i]) + LengthBytes(|chunks[i]|) + chunks[i]
  {
    if |chunks[i]| < LENGTH_LIMIT {
      FramesAppend(chunks[..i], chunks[i]);
      assert chunks[..i + 1] == chunks[..i] + [chunks[i]];
    }
  }

  // ---------- the receiver ----------

  datatype Received = Content(bytes: seq<Byte>, rest: seq<Byte>) | Truncated

  function LengthAt(s: seq<Byte>): nat
    requires |s| >= 4
  {
    s[0] as nat * 0x100_0000 + s[1] as nat * 0x1_0000 + s[2] as nat * 0x100 + s[3] as nat
  }

  /** Length-prefixed blocks up to the first length zero; `rest` is what was not consumed. */
  function Receive(s: seq<Byte>): Received
    decreases |s|
  {
    if |s| < 4 then Truncated
    else if LengthAt(s) == 0 then Content([], s[4..])
    else if |s| - 4 < LengthAt(s) then Truncated
    else
      InFront(s[4..4 + LengthAt(s)], Receive(s[4 + LengthAt(s)..]))
  }

  function InFront(block: seq<Byte>, later: Received): Received {
    match later
    case Truncated => Truncated
    case Content(bytes, rest) => Content(block + bytes, rest)
  }

  function Concat(chunks: seq<Chunk>): seq<Byte> {
    if chunks == [] then [] else chunks[0] + Concat(chunks[1..])
  }

  /** The chunks before the first empty one. */
  function UpToEmpty(chunks: seq<Chunk>): (n: nat)
    ensures n <= |chunks|
    ensures n < |chunks| ==> chunks[n] == []
    ensures forall i :: 0 <= i < n ==> chunks[i] != []
  {
    if chunks == [] || chunks[0] == [] then 0 else 1 + UpToEmpty(chunks[1..])
  }

  lemma ReceiveFrame(chunk: Chunk, tail: seq<Byte>)
    requires |chunk| < LENGTH_LIMIT
    ensures Receive(LengthBytes(|chunk|) + chunk + tail)
      == if chunk == [] then Content([], tail) else InFront(chunk, Receive(tail))
  {
    var s := LengthBytes(|chunk|) + chunk + tail;
    LengthBack(|chunk|, chunk + tail);
    assert s == LengthBytes(|chunk|) + (chunk + tail);
    assert s[4..4 + |chunk|] == chunk && s[4 + |chunk|..] == tail;
  }

  lemma LengthBack(n: nat, tail: seq<Byte>)
    requires n < LENGTH_LIMIT
    ensures LengthAt(LengthBytes(n) + tail) == n
  {
    var a, b := n / 0x100, n / 0x1_0000;
    assert b == a / 0x100 && n / 0x100_0000 == b / 0x100;
    assert n == a * 0x100 + n % 0x100 && a == b * 0x100 + a % 0x100;
    assert b == n / 0x100_0000 * 0x100 + b % 0x100;
  }

  lemma ReceiveFirst(chunks: seq<Chunk>)
    requires Writable(chunks) && chunks != []
    ensures Receive(Stream(chunks))
      == if chunks[0] == [] then Content([], Stream(chunks[1..]))
         else InFront(chunks[0], Receive(Stream(chunks[1..])))
  {
    ReceiveFrame(chunks[0], Stream(chunks[1..]));
    assert Stream(chunks) == LengthBytes(|chunks[0]|) + chunks[0] + Stream(chunks[1..]);
  }

  lemma ReceiveEnd()
    ensures Receive(Stream([])) == Content([], [])
  {
    LengthBack(0, []);
    assert LengthBytes(0) + [] == LengthBytes(0) == Stream([]);
  }

  /** What the receiver makes of a stream: the chunks before the first empty one, and what it leaves. */
  function Expected(chunks: seq<Chunk>): Received
    requires Writable(chunks)
  {
    var n := UpToEmpty(chunks);
    Content(Concat(chunks[..n]), if n == |chunks| then [] else Stream(chunks[n + 1..]))
  }

  lemma ExpectedFirst(chunks: seq<Chunk>)
    requires Writable(chunks) && chunks != [] && chunks[0] != []
    ensures Expected(chunks) == InFront(chunks[0], Expected(chunks[1..]))
  {
    var n := UpToEmpty(chunks);
    assert chunks[..n][1..] == chunks[1..][..n - 1];
    assert n < |chunks| ==> chunks[1..][n..] == chunks[n + 1..];
  }

  /** The receiver gets the chunks before the first empty one; it leaves the frames after that one. */
  lemma {:induction false} ReceiveStream(chunks: seq<Chunk>)
    requires Writable(chunks)
    ensures Receive(Stream(chunks)) == Expected(chunks)
  {
    if chunks == [] {
      ReceiveEnd();
    } else {
      ReceiveFirst(chunks);
      if chunks[0] != [] {
        ReceiveStream(chunks[1..]);
        ExpectedFirst(chunks);
      }
    }
  }

  /**
   Every byte is consumed, and the content is exactly what was read from the download, for precisely
   the streams without an empty chunk: an empty chunk is sent as the terminator itself.
   */
  lemma RecoversExactly(chunks: seq<Chunk>)
    requires Writable(chunks)
    ensures Receive(Stream(chunks)) == Content(Concat(chunks), [])
      <==> forall i :: 0 <= i < |chunks| ==> chunks[i] != []
  {
    ReceiveStream(chunks);
    var n := UpToEmpty(chunks);
    if n == |chunks| {
      assert chunks[..n] == chunks;
    } else {
      assert |Stream(chunks[n + 1..])| >= 4;
    }
  }

  /** Nothing a scanner should have seen is hidden exactly when no byte follows an empty chunk. */
  lemma SeesEverything(chunks: seq<Chunk>)
    requires Writable(chunks)
    ensures Receive(Stream(chunks)).Content?
    ensures Receive(Stream(chunks)).bytes == Concat(chunks)
      <==> Concat(chunks[UpToEmpty(chunks)..]) == []
  {
    ReceiveStream(chunks);
    var n := UpToEmpty(chunks);
    ConcatSplit(chunks, n);
    if Concat(chunks[n..]) == [] {
      assert Concat(chunks[..n]) + [] == Concat(chunks[..n]);
    } else {
      assert |Concat(chunks)| > |Concat(chunks[..n])|;
    }
  }

  lemma {:induction false} ConcatSplit(chunks: seq<Chunk>, n: nat)
    requires n <= |chunks|
    ensures Concat(chunks) == Concat(chunks[..n]) + Concat(chunks[n..])
  {
    if n == 0 {
      assert chunks[..0] == [] && chunks[0..] == chunks;
    } else {
      ConcatSplit(chunks[1..], n - 1);
      assert chunks[..n][1..] == chunks[1..][..n - 1];
      assert chunks[1..][n - 1..] == chunks[n..];
    }
  }
}
