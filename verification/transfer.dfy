/**
 * What the copy loop of FileProducer.process writes, as a function of the
 * read results the body stream produces and the buffer size: the
 * specification the imperative loop is proved against, and its properties.
 */
module Transfer {
  import opened Streams

  /** The bytes of a sequence of writes, in order. */
  function Flatten(chunks: seq<Bytes>): Bytes
  {
    if chunks == [] then [] else chunks[0] + Flatten(chunks[1..])
  }

  lemma {:induction false} FlattenAppend(a: seq<Bytes>, b: seq<Bytes>)
    ensures Flatten(a + b) == Flatten(a) + Flatten(b)
  {
    if a == [] {
      assert a + b == b;
    } else {
      assert (a + b)[1..] == a[1..] + b;
      FlattenAppend(a[1..], b);
    }
  }

  /** The writes the loop issues (each a FileChannel.write) and whether it ended on a read error. */
  datatype Copy = Copy(writes: seq<Bytes>, readFailed: bool)

  /** A read that fills the whole buffer: the loop writes it and reads again. */
  predicate IsFull(r: ReadResult, size: nat)
  {
    r.Chunk? && |r.data| > 0 && |r.data| >= size
  }

  /**
   * The copy loop as written: a read returning at most 0 stops it, a read
   * returning fewer bytes than the buffer holds is written and stops it, a
   * full read is written and the loop goes on; an IOException ends it.
   */
  function CopyLoop(script: seq<ReadResult>, size: nat): (c: Copy)
    ensures |c.writes| <= |script|
  {
    if script == [] then Copy([], false)
    else match script[0]
      case EndOfStream => Copy([], false)
      case ReadError => Copy([], true)
      case Chunk(data) =>
        if |data| == 0 then Copy([], false)
        else if |data| < size then Copy([data], false)
        else
          var rest := CopyLoop(script[1..], size);
          Copy([data] + rest.writes, rest.readFailed)
  }

  /** A read that fills the buffer is written, and the loop carries on with the reads after it. */
  lemma CopyLoopFullRead(script: seq<ReadResult>, size: nat)
    requires script != [] && IsFull(script[0], size)
    ensures CopyLoop(script, size).writes == [script[0].data] + CopyLoop(script[1..], size).writes
    ensures CopyLoop(script, size).readFailed == CopyLoop(script[1..], size).readFailed
  {
  }

  /**
   * A read that does not fill the buffer (or a stream that has run out)
   * ends the loop: its bytes, if any, are the last write, and the loop
   * fails exactly when it is an error.
   */
  lemma CopyLoopLastRead(script: seq<ReadResult>, size: nat)
    requires script == [] || !IsFull(script[0], size)
    ensures CopyLoop(script, size).writes ==
      if script != [] && script[0].Chunk? && |script[0].data| > 0 then [script[0].data] else []
    ensures CopyLoop(script, size).readFailed == (script != [] && script[0].ReadError?)
  {
  }

  /** InputStream.read(buffer) never returns more bytes than the buffer holds. */
  predicate ChunksFit(script: seq<ReadResult>, size: nat)
  {
    forall i :: 0 <= i < |script| && script[i].Chunk? ==> |script[i].data| <= size
  }

  /** No write is empty or exceeds the buffer, and every write but the last fills it. */
  lemma {:induction false} CopyLoopWritesBounded(script: seq<ReadResult>, size: nat)
    requires ChunksFit(script, size)
    ensures forall i :: 0 <= i < |CopyLoop(script, size).writes| ==> 0 < |CopyLoop(script, size).writes[i]| <= size
    ensures forall i :: 0 <= i < |CopyLoop(script, size).writes| - 1 ==> |CopyLoop(script, size).writes[i]| == size
  {
    if script != [] && IsFull(script[0], size) {
      assert ChunksFit(script[1..], size) by {
        forall i | 0 <= i < |script[1..]| && script[1..][i].Chunk?
          ensures |script[1..][i].data| <= size
        {
          assert script[1..][i] == script[i + 1];
        }
      }
      CopyLoopWritesBounded(script[1..], size);
      var w := CopyLoop(script, size).writes;
      var rest := CopyLoop(script[1..], size).writes;
      assert w == [script[0].data] + rest;
      assert |script[0].data| == size;
      forall i | 0 <= i < |w| ensures 0 < |w[i]| <= size {
        if i > 0 { assert w[i] == rest[i - 1]; } else { assert w[0] == script[0].data; }
      }
      forall i | 0 <= i < |w| - 1 ensures |w[i]| == size {
        if i > 0 { assert w[i] == rest[i - 1]; } else { assert w[0] == script[0].data; }
      }
    }
  }

  /** The index of the first read that does not fill the buffer (|script| when there is none). */
  function FirstNonFull(script: seq<ReadResult>, size: nat): (k: nat)
    ensures k <= |script|
    ensures forall j :: 0 <= j < k ==> IsFull(script[j], size)
    ensures k < |script| ==> !IsFull(script[k], size)
  {
    if script == [] || !IsFull(script[0], size) then 0
    else 1 + FirstNonFull(script[1..], size)
  }

  /** The bytes each read delivers (none for an end or an error). */
  function Payloads(script: seq<ReadResult>): (p: seq<Bytes>)
    ensures |p| == |script|
    ensures forall i :: 0 <= i < |script| && script[i].Chunk? ==> p[i] == script[i].data
  {
    if script == [] then []
    else [if script[0].Chunk? then script[0].data else []] + Payloads(script[1..])
  }

  /**
   * The loop writes exactly the full reads before the first non-full one,
   * then that read's bytes if it returned any; it fails exactly when that
   * read is an error.
   */
  lemma {:induction false} CopyLoopStopsAtFirstNonFull(script: seq<ReadResult>, size: nat)
    ensures var k := FirstNonFull(script, size);
      CopyLoop(script, size).writes ==
        Payloads(script[..k]) +
        (if k < |script| && script[k].Chunk? && |script[k].data| > 0 then [script[k].data] else []) &&
      CopyLoop(script, size).readFailed == (k < |script| && script[k].ReadError?)
  {
    if script != [] && IsFull(script[0], size) {
      var rest := script[1..];
      CopyLoopStopsAtFirstNonFull(rest, size);
      var k := FirstNonFull(script, size);
      assert k == FirstNonFull(rest, size) + 1;
      assert k < |script| ==> script[k] == rest[k - 1];
      assert script[..k] == [script[0]] + rest[..k - 1];
      assert Payloads(script[..k]) == [script[0].data] + Payloads(rest[..k - 1]);
      assert CopyLoop(script, size).writes == [script[0].data] + CopyLoop(rest, size).writes;
    } else if script != [] {
      assert script[..0] == [];
    }
  }

  /** Whatever the stream would deliver after a read that does not fill the buffer is never copied. */
  lemma {:induction false} CopyLoopIgnoresRest(script: seq<ReadResult>, more: seq<ReadResult>, size: nat)
    requires FirstNonFull(script, size) < |script|
    ensures CopyLoop(script + more, size) == CopyLoop(script, size)
  {
    assert (script + more)[0] == script[0];
    if IsFull(script[0], size) {
      assert (script + more)[1..] == script[1..] + more;
      CopyLoopIgnoresRest(script[1..], more, size);
    }
  }

  /**
   * The script of a stream that delivers `chunks` one per read and then
   * reports its end.
   */
  function Stream(chunks: seq<Bytes>): (script: seq<ReadResult>)
    ensures |script| == |chunks| + 1
  {
    if chunks == [] then [EndOfStream] else [Chunk(chunks[0])] + Stream(chunks[1..])
  }

  /** Each read of a stream returns at least one and at most `size` bytes. */
  predicate ValidChunks(chunks: seq<Bytes>, size: nat)
  {
    forall i :: 0 <= i < |chunks| ==> 0 < |chunks[i]| <= size
  }

  /** All reads but the last fill the buffer. */
  predicate FullBeforeLast(chunks: seq<Bytes>, size: nat)
  {
    forall i :: 0 <= i < |chunks| - 1 ==> |chunks[i]| == size
  }

  /** On a stream whose reads fill the buffer until the last, the loop writes every chunk in order. */
  lemma {:induction false} CopyLoopCopiesFullReads(chunks: seq<Bytes>, size: nat)
    requires ValidChunks(chunks, size) && FullBeforeLast(chunks, size)
    ensures CopyLoop(Stream(chunks), size) == Copy(chunks, false)
  {
    if chunks != [] {
      var rest := chunks[1..];
      assert Stream(chunks)[1..] == Stream(rest);
      assert ValidChunks(rest, size) by {
        forall i | 0 <= i < |rest| ensures 0 < |rest[i]| <= size { assert rest[i] == chunks[i + 1]; }
      }
      assert FullBeforeLast(rest, size) by {
        forall i | 0 <= i < |rest| - 1 ensures |rest[i]| == size { assert rest[i] == chunks[i + 1]; }
      }
      CopyLoopCopiesFullReads(rest, size);
      if |chunks[0]| < size {
        assert |chunks| == 1;
        assert chunks == [chunks[0]];
      } else {
        assert [chunks[0]] + rest == chunks;
      }
    }
  }

  /** How a stream that fills every read it can hands `payload` over: full chunks, then the remainder. */
  function Split(payload: Bytes, size: nat): (chunks: seq<Bytes>)
    requires size > 0
    decreases |payload|
  {
    if |payload| == 0 then []
    else if |payload| <= size then [payload]
    else [payload[..size]] + Split(payload[size..], size)
  }

  lemma {:induction false} SplitProperties(payload: Bytes, size: nat)
    requires size > 0
    ensures var chunks := Split(payload, size);
      Flatten(chunks) == payload &&
      ValidChunks(chunks, size) && FullBeforeLast(chunks, size)
    decreases |payload|
  {
    if |payload| == 0 {
    } else if |payload| <= size {
      assert Flatten([payload]) == payload + Flatten([]);
    } else {
      var rest := Split(payload[size..], size);
      SplitProperties(payload[size..], size);
      var chunks := [payload[..size]] + rest;
      assert chunks[1..] == rest;
      assert payload[..size] + payload[size..] == payload;
      assert ValidChunks(chunks, size) by {
        forall i | 0 <= i < |chunks| ensures 0 < |chunks[i]| <= size {
          if i > 0 { assert chunks[i] == rest[i - 1]; }
        }
      }
      assert FullBeforeLast(chunks, size) by {
        forall i | 0 <= i < |chunks| - 1 ensures |chunks[i]| == size {
          if i > 0 { assert chunks[i] == rest[i - 1]; }
        }
      }
    }
  }

  /** x positive multiples of y are at least y. */
  lemma {:induction false} MulAtLeast(x: nat, y: nat)
    requires x > 0
    ensures x * y >= y
  {
    if x > 1 {
      MulAtLeast(x - 1, y);
      assert x * y == (x - 1) * y + y;
    }
  }

  /** A payload of k full buffers and r < size more bytes splits into k full chunks and, when r > 0, an r-byte chunk. */
  lemma {:induction false} SplitShape(payload: Bytes, size: nat, k: nat, r: nat)
    requires size > 0 && r < size && |payload| == k * size + r
    ensures var chunks := Split(payload, size);
      |chunks| == k + (if r == 0 then 0 else 1) &&
      (forall i :: 0 <= i < k ==> |chunks[i]| == size) &&
      (r > 0 ==> |chunks[k]| == r)
    decreases k
  {
    var chunks := Split(payload, size);
    if k == 0 {
      assert |payload| == r;
    } else {
      assert k * size == (k - 1) * size + size;
      if |payload| <= size {
        if k > 1 { MulAtLeast(k - 1, size); }
        assert k == 1 && r == 0;
      } else {
        if k == 1 { assert r > 0; }
        var tail := payload[size..];
        SplitShape(tail, size, k - 1, r);
        var rest := Split(tail, size);
        assert chunks == [payload[..size]] + rest;
        forall i | 0 <= i < k ensures |chunks[i]| == size {
          if i > 0 { assert chunks[i] == rest[i - 1]; }
        }
        if r > 0 { assert chunks[k] == rest[k - 1]; }
      }
    }
  }

  /**
   * Round trip: a payload of k full buffers and r < size further bytes,
   * handed over by a stream that fills every read it can, is written as
   * exactly k full writes plus one r-byte write when r > 0, and the bytes
   * written are the payload.
   */
  lemma CopyLoopRoundTrip(payload: Bytes, size: nat, k: nat, r: nat)
    requires size > 0 && r < size && |payload| == k * size + r
    ensures var c := CopyLoop(Stream(Split(payload, size)), size);
      !c.readFailed &&
      Flatten(c.writes) == payload &&
      |c.writes| == k + (if r == 0 then 0 else 1) &&
      (forall i :: 0 <= i < k ==> |c.writes[i]| == size) &&
      (r > 0 ==> |c.writes[k]| == r)
  {
    var chunks := Split(payload, size);
    SplitProperties(payload, size);
    SplitShape(payload, size, k, r);
    CopyLoopCopiesFullReads(chunks, size);
  }

  /**
   * A transfer that allows for `InputStream.read` returning fewer bytes
   * than the buffer holds before the end of the stream: keep reading until
   * the stream reports its end, writing exactly the bytes of every read,
   * short or full.
   */
  function CopyUntilEnd(script: seq<ReadResult>): (c: Copy)
    ensures |c.writes| <= |script|
  {
    if script == [] then Copy([], false)
    else match script[0]
      case EndOfStream => Copy([], false)
      case ReadError => Copy([], true)
      case Chunk(data) =>
        if |data| == 0 then Copy([], false)
        else
          var rest := CopyUntilEnd(script[1..]);
          Copy([data] + rest.writes, rest.readFailed)
  }

  /**
   * Whatever sizes the reads of a stream return, the transfer that reads
   * until the end writes every chunk, each at most the buffer size, so the
   * destination receives the whole payload.
   */
  lemma {:induction false} CopyUntilEndCopiesEverything(chunks: seq<Bytes>, size: nat)
    requires ValidChunks(chunks, size)
    ensures CopyUntilEnd(Stream(chunks)) == Copy(chunks, false)
  {
    if chunks != [] {
      var rest := chunks[1..];
      assert Stream(chunks)[1..] == Stream(rest);
      assert ValidChunks(rest, size) by {
        forall i | 0 <= i < |rest| ensures 0 < |rest[i]| <= size { assert rest[i] == chunks[i + 1]; }
      }
      CopyUntilEndCopiesEverything(rest, size);
      assert [chunks[0]] + rest == chunks;
    }
  }

  /**
   * A stream that legitimately returns a short read before its end (here one
   * byte, then another, with a two-byte buffer) loses everything after the
   * short read under the loop as written.
   */
  lemma CopyLoopLosesDataAfterShortRead()
    ensures var chunks := [[1 as bv8], [2 as bv8]];
      ValidChunks(chunks, 2) &&
      Flatten(CopyLoop(Stream(chunks), 2).writes) == [1] &&
      Flatten(chunks) == [1, 2]
  {
    var chunks := [[1 as bv8], [2 as bv8]];
    var second := chunks[1..];
    assert second == [[2 as bv8]] && second[1..] == [];
    assert Stream(second) == [Chunk([2])] + [EndOfStream];
    var script := Stream(chunks);
    assert script == [Chunk([1])] + Stream(second);
    assert script[0] == Chunk([1]);
    assert CopyLoop(script, 2) == Copy([[1]], false);
    assert Flatten([[1 as bv8]]) == [1] + Flatten([]);
    assert Flatten(second) == [2] + Flatten([]);
    assert Flatten(chunks) == [1] + Flatten(second);
  }
}
