/** The sending page: the descriptors announced to the relay, the
    `channelOpen` handler that frames every selected file on the data
    channel, and the progress bookkeeping driven by the receiver's
    `chunkReceived` frames.

    `peer.send` is modelled by its outcome alone: `accepts(k)` tells whether
    the k-th call (counting from 0 over the page's life) is resolved. */
module SendPage {
  import opened Frames

  /** A selected File with the uid the page gave it. */
  datatype UidFile = UidFile(uid: string, name: string, size: nat, mime: string)

  /** The `{uid, name, size, type}` record sent with `prepareSend`. */
  datatype Descriptor = Descriptor(uid: string, name: string, size: nat, mime: string)

  /** The field the sender reads from a `chunkReceived` payload. */
  const RecvBytesField: string := "recvBytes"

  /** `selectedFiles.map(f => ({uid, name, size, type}))`. */
  function Descriptors(files: seq<UidFile>): (ds: seq<Descriptor>)
    ensures |ds| == |files|
    ensures forall i :: 0 <= i < |files| ==>
      && ds[i].uid == files[i].uid && ds[i].name == files[i].name
      && ds[i].size == files[i].size && ds[i].mime == files[i].mime
  {
    if files == [] then []
    else [Descriptor(files[0].uid, files[0].name, files[0].size, files[0].mime)] + Descriptors(files[1..])
  }

  /** `fileStart`, one binary frame per chunk, `fileEnd`: one file sent whole. */
  function Framed(uid: string, cs: seq<Chunk>): seq<Frame> {
    [Text(FileStart(uid))] + ChunkFrames(cs) + [Text(FileEnd(uid))]
  }

  /** Every file sent whole, one after another. */
  function AllFramed(files: seq<UidFile>, chunkers: seq<seq<Chunk>>): seq<Frame>
    requires |chunkers| == |files|
  {
    if files == [] then [] else Framed(files[0].uid, chunkers[0]) + AllFramed(files[1..], chunkers[1..])
  }

  /** The uids of the files, in order. */
  function Uids(files: seq<UidFile>): (us: seq<string>)
    ensures |us| == |files|
    ensures forall i :: 0 <= i < |files| ==> us[i] == files[i].uid
  {
    if files == [] then [] else [files[0].uid] + Uids(files[1..])
  }

  /** One chunker per file, each keeping the chunker's contract. */
  predicate ChunkersFit(files: seq<UidFile>, chunkers: seq<seq<Chunk>>) {
    |chunkers| == |files| && forall i :: 0 <= i < |chunkers| ==> WellFormedChunks(chunkers[i])
  }

  // ---------------------------------------------------------------------
  // The `channelOpen` handler, as a function of the send outcomes
  // ---------------------------------------------------------------------

  /** Where the `while (!done)` loop over one file's chunks stops. */
  datatype ChunkRun = ChunkRun(handed: seq<Frame>, sends: nat, done: bool)

  /** The loop as written, from the chunk at index `j` on: `done` takes the
      pulled chunk's flag BEFORE the chunk is sent, and a rejected send
      breaks out of the loop. */
  function ChunkLoop(cs: seq<Chunk>, j: nat, accepts: nat -> bool, n: nat): ChunkRun
    requires WellFormedChunks(cs) && j < |cs|
    decreases |cs| - j
  {
    if !accepts(n) then ChunkRun([], n + 1, cs[j].done)
    else if cs[j].done then ChunkRun([Binary(cs[j].data)], n + 1, true)
    else
      var rest := ChunkLoop(cs, j + 1, accepts, n + 1);
      ChunkRun([Binary(cs[j].data)] + rest.handed, rest.sends, rest.done)
  }

  /** How the handler leaves one file: `fileEnd` sent; `fileEnd` skipped
      after a failed chunk (the `for` loop goes on to the next file); or a
      rejected `fileStart`/`fileEnd` send, which escapes the async handler
      and ends it. */
  datatype FileStatus = Ended | EndSkipped | Threw

  datatype FileRun = FileRun(handed: seq<Frame>, sends: nat, started: bool, status: FileStatus)

  /** One iteration of the `for` loop, as written. */
  function SendFile(f: UidFile, cs: seq<Chunk>, accepts: nat -> bool, n: nat): FileRun
    requires WellFormedChunks(cs)
  {
    if !accepts(n) then FileRun([], n + 1, false, Threw)
    else
      var loop := ChunkLoop(cs, 0, accepts, n + 1);
      var head := [Text(FileStart(f.uid))] + loop.handed;
      if !loop.done then FileRun(head, loop.sends, true, EndSkipped)
      else if accepts(loop.sends) then FileRun(head + [Text(FileEnd(f.uid))], loop.sends + 1, true, Ended)
      else FileRun(head, loop.sends + 1, true, Threw)
  }

  /** The handler from the file at index `i` on: what was handed to the
      channel, how many sends were made, the files whose `fileStart` went
      out, and whether it threw. */
  datatype Run = Run(handed: seq<Frame>, sends: nat, started: seq<string>, aborted: bool)

  function SendFiles(files: seq<UidFile>, chunkers: seq<seq<Chunk>>, accepts: nat -> bool, i: nat, n: nat): Run
    requires ChunkersFit(files, chunkers) && i <= |files|
    decreases |files| - i
  {
    if i == |files| then Run([], n, [], false)
    else
      var r := SendFile(files[i], chunkers[i], accepts, n);
      var started := if r.started then [files[i].uid] else [];
      if r.status == Threw then Run(r.handed, r.sends, started, true)
      else
        var rest := SendFiles(files, chunkers, accepts, i + 1, r.sends);
        Run(r.handed + rest.handed, rest.sends, started + rest.started, rest.aborted)
  }

  // ---------------------------------------------------------------------
  // Properties of the handler
  // ---------------------------------------------------------------------

  /** The chunk loop hands over the file's chunk frames from index `j` on, in
      chunker order, possibly stopping early. */
  lemma {:induction false} ChunkLoopPrefix(cs: seq<Chunk>, j: nat, accepts: nat -> bool, n: nat)
    requires WellFormedChunks(cs) && j < |cs|
    ensures var r := ChunkLoop(cs, j, accepts, n);
      && |r.handed| <= |cs| - j
      && forall k :: 0 <= k < |r.handed| ==> r.handed[k] == Binary(cs[j + k].data)
    decreases |cs| - j
  {
    if accepts(n) && !cs[j].done {
      ChunkLoopPrefix(cs, j + 1, accepts, n + 1);
    }
  }

  /** Every frame the chunk loop hands over went out on an accepted send, and
      the loop stops early only on a rejected one. */
  lemma {:induction false} ChunkLoopSends(cs: seq<Chunk>, j: nat, accepts: nat -> bool, n: nat)
    requires WellFormedChunks(cs) && j < |cs|
    ensures var r := ChunkLoop(cs, j, accepts, n);
      && (forall k :: n <= k < n + |r.handed| ==> accepts(k))
      && (|r.handed| < |cs| - j ==> !accepts(n + |r.handed|) && r.sends == n + |r.handed| + 1)
      && (|r.handed| >= |cs| - j ==> r.sends == n + |cs| - j)
    decreases |cs| - j
  {
    if accepts(n) && !cs[j].done {
      ChunkLoopSends(cs, j + 1, accepts, n + 1);
    }
  }

  /** The loop reports `done` exactly when the final chunk was pulled,
      whether or not that chunk's send succeeded. */
  lemma {:induction false} ChunkLoopDone(cs: seq<Chunk>, j: nat, accepts: nat -> bool, n: nat)
    requires WellFormedChunks(cs) && j < |cs|
    ensures ChunkLoop(cs, j, accepts, n).done <==> |ChunkLoop(cs, j, accepts, n).handed| >= |cs| - j - 1
    decreases |cs| - j
  {
    if accepts(n) && !cs[j].done {
      ChunkLoopDone(cs, j + 1, accepts, n + 1);
    }
  }

  /** As written, one file's frames are: nothing when `fileStart` is
      rejected; otherwise `fileStart` followed by a prefix of the chunk
      frames, and `fileEnd` only when the final chunk was pulled, in which
      case every chunk but possibly the final one was delivered. */
  lemma SendFileFraming(f: UidFile, cs: seq<Chunk>, accepts: nat -> bool, n: nat)
    requires WellFormedChunks(cs)
    ensures var r := SendFile(f, cs, accepts, n);
      && (!r.started <==> !accepts(n))
      && (!r.started ==> r.handed == [] && r.status == Threw && r.sends == n + 1)
      && (r.status != Ended ==> r.handed <= Framed(f.uid, cs) && |r.handed| < |Framed(f.uid, cs)|)
      && (r.status == Ended ==>
            && |cs| + 1 <= |r.handed| <= |cs| + 2
            && r.handed[|r.handed| - 1] == Text(FileEnd(f.uid))
            && r.handed[..|r.handed| - 1] <= Framed(f.uid, cs))
  {
    if accepts(n) {
      ChunkLoopPrefix(cs, 0, accepts, n + 1);
      ChunkLoopDone(cs, 0, accepts, n + 1);
      var loop := ChunkLoop(cs, 0, accepts, n + 1);
      var head := [Text(FileStart(f.uid))] + loop.handed;
      assert head <= Framed(f.uid, cs) by {
        forall k | 0 <= k < |head| ensures head[k] == Framed(f.uid, cs)[k] {
          if k > 0 {
            assert head[k] == loop.handed[k - 1];
          }
        }
      }
      var r := SendFile(f, cs, accepts, n);
      if r.status == Ended {
        assert r.handed[..|r.handed| - 1] == head;
      }
    }
  }

  /** When every send is accepted, a file goes out whole. */
  lemma SendFileAllAccepted(f: UidFile, cs: seq<Chunk>, accepts: nat -> bool, n: nat)
    requires WellFormedChunks(cs)
    requires forall k :: n <= k ==> accepts(k)
    ensures SendFile(f, cs, accepts, n) == FileRun(Framed(f.uid, cs), n + |cs| + 2, true, Ended)
  {
    ChunkLoopPrefix(cs, 0, accepts, n + 1);
    ChunkLoopSends(cs, 0, accepts, n + 1);
    ChunkLoopDone(cs, 0, accepts, n + 1);
    var loop := ChunkLoop(cs, 0, accepts, n + 1);
    assert |loop.handed| == |cs|;
    assert loop.handed == ChunkFrames(cs);
  }

  /** When every send is accepted, the files go out whole, strictly one
      after another in selection order, and every file is started. */
  lemma {:induction false} SendFilesAllAccepted(files: seq<UidFile>, chunkers: seq<seq<Chunk>>, accepts: nat -> bool, i: nat, n: nat)
    requires ChunkersFit(files, chunkers) && i <= |files|
    requires forall k :: n <= k ==> accepts(k)
    ensures var r := SendFiles(files, chunkers, accepts, i, n);
      r.handed == AllFramed(files[i..], chunkers[i..]) && !r.aborted && r.started == Uids(files[i..])
    decreases |files| - i
  {
    if i < |files| {
      SendFileAllAccepted(files[i], chunkers[i], accepts, n);
      SendFilesAllAccepted(files, chunkers, accepts, i + 1, n + |chunkers[i]| + 2);
      assert files[i..][0] == files[i] && chunkers[i..][0] == chunkers[i];
      assert files[i..][1..] == files[i + 1..] && chunkers[i..][1..] == chunkers[i + 1..];
    }
  }

  /** Files are started in selection order: the started ones are a prefix of
      the remaining selection, and all of them are started unless the
      handler threw. */
  lemma {:induction false} SendFilesStartsInOrder(files: seq<UidFile>, chunkers: seq<seq<Chunk>>, accepts: nat -> bool, i: nat, n: nat)
    requires ChunkersFit(files, chunkers) && i <= |files|
    ensures var r := SendFiles(files, chunkers, accepts, i, n);
      && r.started <= Uids(files[i..])
      && (!r.aborted ==> r.started == Uids(files[i..]))
      && (r.handed == [] <==> r.started == [])
    decreases |files| - i
  {
    if i < |files| {
      var r0 := SendFile(files[i], chunkers[i], accepts, n);
      SendFileFraming(files[i], chunkers[i], accepts, n);
      assert files[i..][0] == files[i] && files[i..][1..] == files[i + 1..];
      assert Uids(files[i..]) == [files[i].uid] + Uids(files[i + 1..]);
      if r0.status != Threw {
        SendFilesStartsInOrder(files, chunkers, accepts, i + 1, r0.sends);
      } else if r0.started {
        assert r0.handed != [];
      }
    }
  }

  // ---------------------------------------------------------------------
  // The final-chunk defect and the loop as evidently intended
  // ---------------------------------------------------------------------

  /** As written, a rejected send of the final chunk still leads to
      `fileEnd`: the file is announced finished without its last bytes. */
  lemma FinalChunkLostButFileEnded()
    ensures var f := UidFile("a", "a.bin", 1, "");
      var cs := [Chunk([7], true)];
      var accepts := (k: nat) => k != 1;
      var r := SendFile(f, cs, accepts, 0);
      && r.status == Ended
      && r.handed == [Text(FileStart("a")), Text(FileEnd("a"))]
      && !(r.handed <= Framed("a", cs))
  {
    var cs := [Chunk([7], true)];
    assert Framed("a", cs)[1] == Binary([7]);
  }

  /** The loop with `done` taken from a chunk only once its send succeeded. */
  function ChunkLoopIntended(cs: seq<Chunk>, j: nat, accepts: nat -> bool, n: nat): ChunkRun
    requires WellFormedChunks(cs) && j < |cs|
    decreases |cs| - j
  {
    if !accepts(n) then ChunkRun([], n + 1, false)
    else if cs[j].done then ChunkRun([Binary(cs[j].data)], n + 1, true)
    else
      var rest := ChunkLoopIntended(cs, j + 1, accepts, n + 1);
      ChunkRun([Binary(cs[j].data)] + rest.handed, rest.sends, rest.done)
  }

  /** One file as evidently intended. */
  function SendFileIntended(f: UidFile, cs: seq<Chunk>, accepts: nat -> bool, n: nat): FileRun
    requires WellFormedChunks(cs)
  {
    if !accepts(n) then FileRun([], n + 1, false, Threw)
    else
      var loop := ChunkLoopIntended(cs, 0, accepts, n + 1);
      var head := [Text(FileStart(f.uid))] + loop.handed;
      if !loop.done then FileRun(head, loop.sends, true, EndSkipped)
      else if accepts(loop.sends) then FileRun(head + [Text(FileEnd(f.uid))], loop.sends + 1, true, Ended)
      else FileRun(head, loop.sends + 1, true, Threw)
  }

  lemma {:induction false} ChunkLoopIntendedDone(cs: seq<Chunk>, j: nat, accepts: nat -> bool, n: nat)
    requires WellFormedChunks(cs) && j < |cs|
    ensures var r := ChunkLoopIntended(cs, j, accepts, n);
      && |r.handed| <= |cs| - j
      && (forall k :: 0 <= k < |r.handed| ==> r.handed[k] == Binary(cs[j + k].data))
      && (r.done <==> |r.handed| == |cs| - j)
    decreases |cs| - j
  {
    if accepts(n) && !cs[j].done {
      ChunkLoopIntendedDone(cs, j + 1, accepts, n + 1);
    }
  }

  /** As intended, the frames of a file are always a prefix of the whole
      framing, and `fileEnd` is sent exactly when every chunk was delivered
      and the end frame itself was accepted. */
  lemma SendFileIntendedFraming(f: UidFile, cs: seq<Chunk>, accepts: nat -> bool, n: nat)
    requires WellFormedChunks(cs)
    ensures var r := SendFileIntended(f, cs, accepts, n);
      && r.handed <= Framed(f.uid, cs)
      && (r.status == Ended <==> r.handed == Framed(f.uid, cs))
  {
    if accepts(n) {
      ChunkLoopIntendedDone(cs, 0, accepts, n + 1);
      var loop := ChunkLoopIntended(cs, 0, accepts, n + 1);
      var head := [Text(FileStart(f.uid))] + loop.handed;
      assert head <= Framed(f.uid, cs) by {
        forall k | 0 <= k < |head| ensures head[k] == Framed(f.uid, cs)[k] {
          if k > 0 {
            assert head[k] == loop.handed[k - 1];
          }
        }
      }
      if loop.done {
        assert loop.handed == ChunkFrames(cs);
      }
    }
  }

  /** The defect only shows on a failed send: with every send accepted the
      two loops agree. */
  lemma {:induction false} IntendedAgreesWhenAllAccepted(cs: seq<Chunk>, j: nat, accepts: nat -> bool, n: nat)
    requires WellFormedChunks(cs) && j < |cs|
    requires forall k :: n <= k ==> accepts(k)
    ensures ChunkLoopIntended(cs, j, accepts, n) == ChunkLoop(cs, j, accepts, n)
    decreases |cs| - j
  {
    if !cs[j].done {
      IntendedAgreesWhenAllAccepted(cs, j + 1, accepts, n + 1);
    }
  }

  // ---------------------------------------------------------------------
  // Sender-side progress
  // ---------------------------------------------------------------------

  /** The module-level `sendSizes` and `lastPeerRecvBytes`; `None` stands
      for `undefined`. */
  datatype SendProgress = SendProgress(sendSizes: map<string, Option<nat>>, lastPeerRecvBytes: Option<nat>)

  /** `onRecvPeerData(data)`: a text `chunkReceived` frame records the
      payload's `recvBytes` for its file and as the last count; every other
      frame is ignored. */
  function Acknowledge(p: SendProgress, f: Frame): SendProgress {
    if f.Text? && f.msg.ChunkReceived? then
      var v := Lookup(f.msg.counts, RecvBytesField);
      SendProgress(p.sendSizes[f.msg.fileId := v], v)
    else p
  }

  function AcknowledgeAll(p: SendProgress, fs: seq<Frame>): SendProgress
    decreases |fs|
  {
    if fs == [] then p else AcknowledgeAll(Acknowledge(p, fs[0]), fs[1..])
  }

  /** A `chunkReceived` frame sets the file's entry and the last count to the
      reported `recvBytes`, leaving every other file's entry alone. */
  lemma AcknowledgeRecords(p: SendProgress, id: string, counts: map<string, nat>)
    ensures var q := Acknowledge(p, Text(ChunkReceived(id, counts)));
      && q.sendSizes.Keys == p.sendSizes.Keys + {id}
      && q.sendSizes[id] == q.lastPeerRecvBytes
      && q.lastPeerRecvBytes == Lookup(counts, RecvBytesField)
      && (q.lastPeerRecvBytes.Some? <==> RecvBytesField in counts)
      && (forall other :: other in p.sendSizes && other != id ==> q.sendSizes[other] == p.sendSizes[other])
  {
  }

  /** Binary frames and other control messages leave the progress alone. */
  lemma AcknowledgeIgnores(p: SendProgress, f: Frame)
    requires !(f.Text? && f.msg.ChunkReceived?)
    ensures Acknowledge(p, f) == p
  {
  }

  // ---------------------------------------------------------------------
  // The page's module-level state and the handler as a method
  // ---------------------------------------------------------------------

  /** The `curFileId` state after `setCurFileId` was called for each of `us`
      in turn, starting from `before`. */
  function Latest(us: seq<string>, before: Option<string>): Option<string> {
    if us == [] then before else Some(us[|us| - 1])
  }

  lemma LatestAppend(a: seq<string>, b: seq<string>, before: Option<string>)
    ensures Latest(a + b, before) == Latest(b, Latest(a, before))
  {
    if b != [] {
      assert (a + b)[|a + b| - 1] == b[|b| - 1];
    }
  }

  /** Everything the page keeps between events: the progress, the
      `curFileId` state, the frames `peer.send` accepted so far and how many
      times it was called. */
  datatype SenderState = SenderState(
    sendSizes: map<string, Option<nat>>,
    lastPeerRecvBytes: Option<nat>,
    curFileId: Option<string>,
    wire: seq<Frame>,
    sends: nat)

  /** The state after one iteration of the `for` loop: `setCurFileId` and
      `lastPeerRecvBytes = 0` happen once `fileStart` was accepted. */
  function AfterFile(f: UidFile, cs: seq<Chunk>, accepts: nat -> bool, st: SenderState): SenderState
    requires WellFormedChunks(cs)
  {
    var r := SendFile(f, cs, accepts, st.sends);
    st.(wire := st.wire + r.handed, sends := r.sends,
        curFileId := if r.started then Some(f.uid) else st.curFileId,
        lastPeerRecvBytes := if r.started then Some(0) else st.lastPeerRecvBytes)
  }

  /** The state the handler leaves, from the file at index `i` on, and
      whether it threw. */
  datatype Outcome = Outcome(state: SenderState, aborted: bool)

  function ChannelOpenFrom(files: seq<UidFile>, chunkers: seq<seq<Chunk>>, accepts: nat -> bool, i: nat, st: SenderState): Outcome
    requires ChunkersFit(files, chunkers) && i <= |files|
    decreases |files| - i
  {
    if i == |files| then Outcome(st, false)
    else
      var next := AfterFile(files[i], chunkers[i], accepts, st);
      if SendFile(files[i], chunkers[i], accepts, st.sends).status == Threw then Outcome(next, true)
      else ChannelOpenFrom(files, chunkers, accepts, i + 1, next)
  }

  /** The handler's effect on the page state is the run of `SendFiles`: the
      accepted frames are appended to the wire, `curFileId` names the last
      file started, the count is reset once a file was started, and the
      per-file progress is left alone. */
  lemma {:induction false} ChannelOpenFromRun(files: seq<UidFile>, chunkers: seq<seq<Chunk>>, accepts: nat -> bool, i: nat, st: SenderState)
    requires ChunkersFit(files, chunkers) && i <= |files|
    ensures var o := ChannelOpenFrom(files, chunkers, accepts, i, st);
      var r := SendFiles(files, chunkers, accepts, i, st.sends);
      && o.state.wire == st.wire + r.handed
      && o.state.sends == r.sends
      && o.aborted == r.aborted
      && o.state.curFileId == Latest(r.started, st.curFileId)
      && o.state.lastPeerRecvBytes == (if r.started == [] then st.lastPeerRecvBytes else Some(0))
      && o.state.sendSizes == st.sendSizes
    decreases |files| - i
  {
    if i < |files| {
      var r := SendFile(files[i], chunkers[i], accepts, st.sends);
      var next := AfterFile(files[i], chunkers[i], accepts, st);
      if r.status != Threw {
        ChannelOpenFromRun(files, chunkers, accepts, i + 1, next);
        var rest := SendFiles(files, chunkers, accepts, i + 1, r.sends);
        var mine := if r.started then [files[i].uid] else [];
        LatestAppend(mine, rest.started, st.curFileId);
        assert st.wire + r.handed + rest.handed == st.wire + (r.handed + rest.handed);
      }
    }
  }

  class Sender {
    var sendSizes: map<string, Option<nat>>
    var lastPeerRecvBytes: Option<nat>
    /** The `curFileId` React state. */
    var curFileId: Option<string>
    /** The frames `peer.send` accepted, in order. */
    var wire: seq<Frame>
    /** How many times `peer.send` was called. */
    var sends: nat

    function State(): SenderState
      reads this
    {
      SenderState(sendSizes, lastPeerRecvBytes, curFileId, wire, sends)
    }

    function Progress(): SendProgress
      reads this
    {
      SendProgress(sendSizes, lastPeerRecvBytes)
    }

    constructor ()
      ensures State() == SenderState(map[], Some(0), None, [], 0)
    {
      sendSizes := map[];
      lastPeerRecvBytes := Some(0);
      curFileId := None;
      wire := [];
      sends := 0;
    }

    /** `handlePeerMsg(msg)`. */
    method HandlePeerMsg(msg: Control)
      modifies this
      ensures Progress() == Acknowledge(old(Progress()), Text(msg))
      ensures curFileId == old(curFileId) && wire == old(wire) && sends == old(sends)
    {
      if msg.ChunkReceived? {
        var recvBytes := Lookup(msg.counts, RecvBytesField);
        sendSizes := sendSizes[msg.fileId := recvBytes];
        lastPeerRecvBytes := recvBytes;
      }
    }

    /** `onRecvPeerData(data)`: only text frames are looked at. */
    method OnRecvPeerData(f: Frame)
      modifies this
      ensures Progress() == Acknowledge(old(Progress()), f)
      ensures curFileId == old(curFileId) && wire == old(wire) && sends == old(sends)
    {
      if f.Text? {
        HandlePeerMsg(f.msg);
      }
    }

    /** The `while (!done)` loop over one file's chunks. */
    method SendChunks(cs: seq<Chunk>, accepts: nat -> bool) returns (done: bool)
      requires WellFormedChunks(cs)
      modifies this`wire, this`sends
      ensures var r := ChunkLoop(cs, 0, accepts, old(sends));
        wire == old(wire) + r.handed && sends == r.sends && done == r.done
    {
      done := false;
      ghost var loop := ChunkLoop(cs, 0, accepts, sends);
      var j := 0;
      while !done
        invariant 0 <= j <= |cs|
        invariant !done ==> j < |cs|
        invariant !done ==> var rest := ChunkLoop(cs, j, accepts, sends);
          wire + rest.handed == old(wire) + loop.handed && rest.sends == loop.sends && rest.done == loop.done
        invariant done ==> wire == old(wire) + loop.handed && sends == loop.sends && loop.done
        decreases |cs| - j
      {
        var c := cs[j];
        j := j + 1;
        done := c.done;
        var ok := accepts(sends);
        sends := sends + 1;
        if !ok {
          // the page alerts the error and leaves the loop
          break;
        }
        wire := wire + [Binary(c.data)];
      }
    }

    /** The body of the `for` loop for one file. */
    method SendOneFile(f: UidFile, cs: seq<Chunk>, accepts: nat -> bool) returns (status: FileStatus)
      requires WellFormedChunks(cs)
      modifies this
      ensures State() == AfterFile(f, cs, accepts, old(State()))
      ensures status == SendFile(f, cs, accepts, old(sends)).status
    {
      var ok := accepts(sends);
      sends := sends + 1;
      if !ok {
        return Threw;
      }
      wire := wire + [Text(FileStart(f.uid))];
      curFileId := Some(f.uid);
      lastPeerRecvBytes := Some(0);
      var done := SendChunks(cs, accepts);
      if done {
        ok := accepts(sends);
        sends := sends + 1;
        if !ok {
          return Threw;
        }
        wire := wire + [Text(FileEnd(f.uid))];
        status := Ended;
      } else {
        status := EndSkipped;
      }
    }

    /** The `channelOpen` handler: every selected file in order, with the
        send outcomes given by `accepts`. Returns whether it threw. */
    method ChannelOpen(files: seq<UidFile>, chunkers: seq<seq<Chunk>>, accepts: nat -> bool) returns (aborted: bool)
      requires ChunkersFit(files, chunkers)
      modifies this
      ensures Outcome(State(), aborted) == ChannelOpenFrom(files, chunkers, accepts, 0, old(State()))
    {
      aborted := false;
      var i := 0;
      while i < |files|
        invariant 0 <= i <= |files|
        invariant ChannelOpenFrom(files, chunkers, accepts, i, State()) == ChannelOpenFrom(files, chunkers, accepts, 0, old(State()))
      {
        var status := SendOneFile(files[i], chunkers[i], accepts);
        if status == Threw {
          aborted := true;
          return;
        }
        i := i + 1;
      }
    }
  }
}
