/** The receiving page: the frame-driven state machine over `curFileId`,
    `recvBuffer`, `recvSizes` and `recvFiles`, the `chunkReceived` reply sent
    for every binary frame, and the download assembled on `fileEnd`. */
module RecvPage {
  import opened Frames

  /** What a finished download holds: the blob's bytes and its `type`
      (`None` when no listed file matched, so `file?.type` was undefined). */
  datatype Download = Download(payload: Bytes, mime: Option<string>)

  /** An entry of `recvFiles`: a descriptor announced by the relay, plus the
      download once its `fileEnd` arrived. */
  datatype RecvFile = RecvFile(uid: string, name: string, size: nat, mime: string, downloadUrl: Option<Download>)

  /** The field the receiver writes into a `chunkReceived` payload. */
  const RecvSizeField: string := "recvSize"

  /** The page's module-level and React state, updated synchronously. */
  datatype RecvState = RecvState(
    curFileId: string,
    recvBuffer: seq<Bytes>,
    recvSizes: map<string, nat>,
    recvFiles: seq<RecvFile>,
    /** The frames handed to `peer.send`, in order. */
    replies: seq<Frame>)

  /** `recvSizes[id] || 0`. */
  function SizeOf(sizes: map<string, nat>, id: string): nat {
    if id in sizes then sizes[id] else 0
  }

  /** `recvFiles?.find(f => f.uid === fileId)?.type`: the mime of the first
      entry with that uid. */
  function FindMime(files: seq<RecvFile>, id: string): (r: Option<string>)
    ensures r.None? <==> forall i :: 0 <= i < |files| ==> files[i].uid != id
    ensures r.Some? ==> exists i :: 0 <= i < |files| && files[i].uid == id && r.value == files[i].mime
                                    && (forall j :: 0 <= j < i ==> files[j].uid != id)
  {
    if files == [] then None
    else if files[0].uid == id then Some(files[0].mime)
    else
      var r := FindMime(files[1..], id);
      assert forall i :: 1 <= i < |files| ==> files[i] == files[1..][i - 1];
      r
  }

  /** `recvFiles.map(item => { if (item.uid === fileId) item.downloadUrl = url; return item })`. */
  function MarkDownload(files: seq<RecvFile>, id: string, d: Download): (r: seq<RecvFile>)
    ensures |r| == |files|
    ensures forall i :: 0 <= i < |files| ==>
      r[i] == if files[i].uid == id then files[i].(downloadUrl := Some(d)) else files[i]
  {
    if files == [] then []
    else
      [if files[0].uid == id then files[0].(downloadUrl := Some(d)) else files[0]]
      + MarkDownload(files[1..], id, d)
  }

  /** The reply to a binary frame: the current file and its new total. */
  function Reply(id: string, total: nat): Frame {
    Text(ChunkReceived(id, map[RecvSizeField := total]))
  }

  /** `onRecvPeerData(data)` with `handlePeerMsg` inlined. */
  function Step(st: RecvState, f: Frame): (r: RecvState)
    // text frames never touch the buffer, the sizes or the replies
    ensures f.Text? ==> r.recvBuffer == st.recvBuffer && r.recvSizes == st.recvSizes && r.replies == st.replies
    // `fileStart` changes nothing but `curFileId`
    ensures f.Text? && f.msg.FileStart? ==> r == st.(curFileId := f.msg.fileId)
    // `fileEnd` marks exactly the entries with its uid, with every byte buffered so far
    ensures f.Text? && f.msg.FileEnd? ==>
      && r.curFileId == st.curFileId
      && |r.recvFiles| == |st.recvFiles|
      && forall i :: 0 <= i < |st.recvFiles| ==>
           if st.recvFiles[i].uid == f.msg.fileId
           then r.recvFiles[i] == st.recvFiles[i].(downloadUrl := Some(Download(Flatten(st.recvBuffer), FindMime(st.recvFiles, f.msg.fileId))))
           else r.recvFiles[i] == st.recvFiles[i]
    // any other control message is ignored
    ensures f.Text? && !f.msg.FileStart? && !f.msg.FileEnd? ==> r == st
    // a binary frame is appended, counted against the current file, and answered once
    ensures f.Binary? ==>
      && r.curFileId == st.curFileId && r.recvFiles == st.recvFiles
      && r.recvBuffer == st.recvBuffer + [f.data]
      && SizeOf(r.recvSizes, st.curFileId) == SizeOf(st.recvSizes, st.curFileId) + |f.data|
      && r.recvSizes.Keys == st.recvSizes.Keys + {st.curFileId}
      && (forall k :: k != st.curFileId ==> SizeOf(r.recvSizes, k) == SizeOf(st.recvSizes, k))
      && r.replies == st.replies + [Reply(st.curFileId, SizeOf(r.recvSizes, st.curFileId))]
  {
    match f
    case Text(msg) =>
      if msg.FileStart? then st.(curFileId := msg.fileId)
      else if msg.FileEnd? then
        var d := Download(Flatten(st.recvBuffer), FindMime(st.recvFiles, msg.fileId));
        st.(recvFiles := MarkDownload(st.recvFiles, msg.fileId, d))
      else st
    case Binary(data) =>
      var total := SizeOf(st.recvSizes, st.curFileId) + |data|;
      st.(recvBuffer := st.recvBuffer + [data],
          recvSizes := st.recvSizes[st.curFileId := total],
          replies := st.replies + [Reply(st.curFileId, total)])
  }

  /** The state after a run of frames, in arrival order. */
  function Receive(st: RecvState, fs: seq<Frame>): (r: RecvState)
    // replies are only ever added
    ensures |st.replies| <= |r.replies| && r.replies[..|st.replies|] == st.replies
    decreases |fs|
  {
    if fs == [] then st else Receive(Step(st, fs[0]), fs[1..])
  }

  lemma {:induction false} ReceiveAppend(st: RecvState, a: seq<Frame>, b: seq<Frame>)
    ensures Receive(st, a + b) == Receive(Receive(st, a), b)
    decreases |a|
  {
    if a == [] {
      assert a + b == b;
    } else {
      assert (a + b)[1..] == a[1..] + b;
      ReceiveAppend(Step(st, a[0]), a[1..], b);
    }
  }

  /** The buffer only grows, by the binary payloads in arrival order: it is
      never cleared. */
  lemma {:induction false} ReceiveBuffer(st: RecvState, fs: seq<Frame>)
    ensures Receive(st, fs).recvBuffer == st.recvBuffer + BinaryPayloads(fs)
    decreases |fs|
  {
    if fs != [] {
      ReceiveBuffer(Step(st, fs[0]), fs[1..]);
    }
  }

  /** Exactly one reply per binary frame; earlier replies stay; every reply
      is a `chunkReceived` frame whose only count is `recvSize`. */
  lemma {:induction false} ReceiveReplies(st: RecvState, fs: seq<Frame>)
    ensures var r := Receive(st, fs);
      && |r.replies| == |st.replies| + |BinaryPayloads(fs)|
      && forall k :: |st.replies| <= k < |r.replies| ==>
           r.replies[k].Text? && r.replies[k].msg.ChunkReceived? && r.replies[k].msg.counts.Keys == {RecvSizeField}
    decreases |fs|
  {
    if fs != [] {
      var s1 := Step(st, fs[0]);
      ReceiveReplies(s1, fs[1..]);
    }
  }

  /** While the chunks of one file arrive, every byte is counted against
      the current file, and nothing else moves but the buffer and replies. */
  lemma {:induction false} ReceiveChunks(st: RecvState, cs: seq<Chunk>)
    ensures var r := Receive(st, ChunkFrames(cs));
      && r.curFileId == st.curFileId && r.recvFiles == st.recvFiles
      && SizeOf(r.recvSizes, st.curFileId) == SizeOf(st.recvSizes, st.curFileId) + TotalLength(ChunkData(cs))
      && (forall k :: k != st.curFileId ==> SizeOf(r.recvSizes, k) == SizeOf(st.recvSizes, k))
    decreases |cs|
  {
    if cs != [] {
      var fs := ChunkFrames(cs);
      assert fs[0] == Binary(cs[0].data) && fs[1..] == ChunkFrames(cs[1..]);
      assert ChunkData(cs)[1..] == ChunkData(cs[1..]);
      ReceiveChunks(Step(st, fs[0]), cs[1..]);
    }
  }

  /** One file framed whole: `curFileId` is its uid, its chunks are appended
      and counted under its uid, and its entries get a download holding the
      whole buffer, old bytes included, typed by its first entry. */
  lemma ReceiveFile(st: RecvState, uid: string, cs: seq<Chunk>)
    ensures var r := Receive(st, [Text(FileStart(uid))] + ChunkFrames(cs) + [Text(FileEnd(uid))]);
      && r.curFileId == uid
      && r.recvBuffer == st.recvBuffer + ChunkData(cs)
      && SizeOf(r.recvSizes, uid) == SizeOf(st.recvSizes, uid) + TotalLength(ChunkData(cs))
      && (forall k :: k != uid ==> SizeOf(r.recvSizes, k) == SizeOf(st.recvSizes, k))
      && r.recvFiles == MarkDownload(st.recvFiles, uid, Download(Flatten(st.recvBuffer + ChunkData(cs)), FindMime(st.recvFiles, uid)))
      && |r.replies| == |st.replies| + |cs|
  {
    var s1 := Step(st, Text(FileStart(uid)));
    assert Receive(st, [Text(FileStart(uid))]) == s1;
    var s2 := Receive(s1, ChunkFrames(cs));
    ReceiveAppend(st, [Text(FileStart(uid))], ChunkFrames(cs));
    ReceiveAppend(st, [Text(FileStart(uid))] + ChunkFrames(cs), [Text(FileEnd(uid))]);
    assert Receive(s2, [Text(FileEnd(uid))]) == Step(s2, Text(FileEnd(uid)));
    ReceiveChunks(s1, cs);
    ReceiveBuffer(s1, ChunkFrames(cs));
    BinaryPayloadsOfChunks(cs);
    ReceiveReplies(s1, ChunkFrames(cs));
  }

  /** The page's state, with the handlers as methods. */
  class Receiver {
    var targetClientId: Option<string>
    var curFileId: string
    var recvBuffer: seq<Bytes>
    var recvSizes: map<string, nat>
    var recvFiles: seq<RecvFile>
    var replies: seq<Frame>

    function State(): RecvState
      reads this
    {
      RecvState(curFileId, recvBuffer, recvSizes, recvFiles, replies)
    }

    constructor ()
      ensures targetClientId.None?
      ensures State() == RecvState("", [], map[], [], [])
    {
      targetClientId := None;
      curFileId := "";
      recvBuffer := [];
      recvSizes := map[];
      recvFiles := [];
      replies := [];
    }

    /** `handleS2CPrepareRecv({clientId, files})`: the sender to connect to
        and the files it announced. */
    method HandleS2cPrepareRecv(clientId: string, files: seq<RecvFile>)
      modifies this
      ensures targetClientId == Some(clientId)
      ensures State() == old(State()).(recvFiles := files)
    {
      targetClientId := Some(clientId);
      recvFiles := files;
    }

    /** `handlePeerMsg(msg)`. */
    method HandlePeerMsg(msg: Control)
      modifies this
      ensures State() == Step(old(State()), Text(msg))
      ensures targetClientId == old(targetClientId)
    {
      if msg.FileStart? {
        curFileId := msg.fileId;
      } else if msg.FileEnd? {
        var fileId := msg.fileId;
        var mime := FindMime(recvFiles, fileId);
        var blob := Download(Flatten(recvBuffer), mime);
        recvFiles := MarkDownload(recvFiles, fileId, blob);
      }
    }

    /** `onRecvPeerData(data)`. */
    method OnRecvPeerData(f: Frame)
      modifies this
      ensures State() == Step(old(State()), f)
      ensures targetClientId == old(targetClientId)
    {
      if f.Text? {
        HandlePeerMsg(f.msg);
      } else {
        recvBuffer := recvBuffer + [f.data];
        var curRecvSize := SizeOf(recvSizes, curFileId);
        var totalRecvSize := curRecvSize + |f.data|;
        recvSizes := recvSizes[curFileId := totalRecvSize];
        replies := replies + [Reply(curFileId, totalRecvSize)];
      }
    }
  }
}
