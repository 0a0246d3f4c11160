/** Values that travel over the data channel between the sending and the
    receiving page: control messages in text frames, file bytes in binary
    frames, and the chunks a file is cut into. */
module Frames {

  newtype byte = x: int | 0 <= x < 256

  type Bytes = seq<byte>

  datatype Option<T> = None | Some(value: T)

  /** The JSON object carried by a text frame. `ChunkReceived` keeps its
      numeric payload fields by name, because the two pages disagree on the
      name of the byte count. */
  datatype Control =
    | FileStart(fileId: string)
    | FileEnd(fileId: string)
    | ChunkReceived(fileId: string, counts: map<string, nat>)
    | Unrecognised(kind: string)

  /** A message on the data channel: a string or an ArrayBuffer. */
  datatype Frame = Text(msg: Control) | Binary(data: Bytes)

  /** One result of the file chunker: the bytes read and whether the file is exhausted. */
  datatype Chunk = Chunk(data: Bytes, done: bool)

  /** What the chunker promises: a finite run of chunks whose last one, and
      only that one, is flagged `done`. */
  predicate WellFormedChunks(cs: seq<Chunk>) {
    && |cs| > 0
    && cs[|cs| - 1].done
    && forall i :: 0 <= i < |cs| - 1 ==> !cs[i].done
  }

  /** The numeric field `k` of a payload; `None` stands for JavaScript's `undefined`. */
  function Lookup(m: map<string, nat>, k: string): (r: Option<nat>)
    ensures r.Some? <==> k in m
    ensures r.Some? ==> r.value == m[k]
  {
    if k in m then Some(m[k]) else None
  }

  /** The bytes of a list of buffers laid end to end (what `new Blob(parts)` holds). */
  function Flatten(parts: seq<Bytes>): Bytes {
    if parts == [] then [] else parts[0] + Flatten(parts[1..])
  }

  /** The sum of the lengths of a list of buffers. */
  function TotalLength(parts: seq<Bytes>): nat {
    if parts == [] then 0 else |parts[0]| + TotalLength(parts[1..])
  }

  lemma {:induction false} FlattenAppend(a: seq<Bytes>, b: seq<Bytes>)
    ensures Flatten(a + b) == Flatten(a) + Flatten(b)
    ensures TotalLength(a + b) == TotalLength(a) + TotalLength(b)
  {
    if a == [] {
      assert a + b == b;
    } else {
      assert (a + b)[1..] == a[1..] + b;
      FlattenAppend(a[1..], b);
    }
  }

  lemma {:induction false} FlattenLength(parts: seq<Bytes>)
    ensures |Flatten(parts)| == TotalLength(parts)
  {
    if parts != [] {
      FlattenLength(parts[1..]);
    }
  }

  /** The binary frames that carry a run of chunks, one per chunk, in order. */
  function ChunkFrames(cs: seq<Chunk>): (fs: seq<Frame>)
    ensures |fs| == |cs|
    ensures forall i :: 0 <= i < |cs| ==> fs[i] == Binary(cs[i].data)
  {
    if cs == [] then [] else [Binary(cs[0].data)] + ChunkFrames(cs[1..])
  }

  /** The byte buffers of a run of chunks, in order. */
  function ChunkData(cs: seq<Chunk>): (ds: seq<Bytes>)
    ensures |ds| == |cs|
    ensures forall i :: 0 <= i < |cs| ==> ds[i] == cs[i].data
  {
    if cs == [] then [] else [cs[0].data] + ChunkData(cs[1..])
  }

  /** The payloads of the binary frames of a frame sequence, in arrival order. */
  function BinaryPayloads(fs: seq<Frame>): seq<Bytes> {
    if fs == [] then []
    else (if fs[0].Binary? then [fs[0].data] else []) + BinaryPayloads(fs[1..])
  }

  lemma {:induction false} BinaryPayloadsAppend(a: seq<Frame>, b: seq<Frame>)
    ensures BinaryPayloads(a + b) == BinaryPayloads(a) + BinaryPayloads(b)
  {
    if a == [] {
      assert a + b == b;
    } else {
      assert (a + b)[1..] == a[1..] + b;
      BinaryPayloadsAppend(a[1..], b);
    }
  }

  lemma {:induction false} BinaryPayloadsOfChunks(cs: seq<Chunk>)
    ensures BinaryPayloads(ChunkFrames(cs)) == ChunkData(cs)
  {
    if cs != [] {
      assert ChunkFrames(cs)[1..] == ChunkFrames(cs[1..]);
      BinaryPayloadsOfChunks(cs[1..]);
    }
  }
}
