/** The two pages together: what the receiving page ends up with when it is
    fed the frames the sending page's `channelOpen` handler put on the data
    channel, and what the sending page learns from the replies. */
module Transfer {
  import opened Frames
  import SendPage
  import RecvPage

  /** The `files` of `s2c_prepare_recv`: the descriptors of `prepareSend`,
      passed through by the relay, with no download yet. */
  function Listing(ds: seq<SendPage.Descriptor>): (r: seq<RecvPage.RecvFile>)
    ensures |r| == |ds|
    ensures forall i :: 0 <= i < |ds| ==> r[i] == RecvPage.RecvFile(ds[i].uid, ds[i].name, ds[i].size, ds[i].mime, None)
  {
    if ds == [] then []
    else [RecvPage.RecvFile(ds[0].uid, ds[0].name, ds[0].size, ds[0].mime, None)] + Listing(ds[1..])
  }

  /** The chunk buffers of several files, file after file. */
  function AllData(chunkers: seq<seq<Chunk>>): seq<Bytes> {
    if chunkers == [] then [] else ChunkData(chunkers[0]) + AllData(chunkers[1..])
  }

  predicate DistinctUids(files: seq<SendPage.UidFile>) {
    forall i, j :: 0 <= i < j < |files| ==> files[i].uid != files[j].uid
  }

  /** The receiver's list matches the selection entry by entry in uid and mime. */
  predicate Matches(rs: seq<RecvPage.RecvFile>, files: seq<SendPage.UidFile>) {
    |rs| == |files| && forall j :: 0 <= j < |files| ==> rs[j].uid == files[j].uid && rs[j].mime == files[j].mime
  }

  /** With distinct uids, the file at index `k` is the first match of its
      uid, so `find` picks its own mime. */
  lemma FindsOwnMime(rs: seq<RecvPage.RecvFile>, files: seq<SendPage.UidFile>, k: nat)
    requires Matches(rs, files) && DistinctUids(files) && k < |files|
    ensures RecvPage.FindMime(rs, files[k].uid) == Some(files[k].mime)
  {
    assert rs[k].uid == files[k].uid;
  }

  lemma {:induction false} AllDataStep(chunkers: seq<seq<Chunk>>, k: nat, j: nat)
    requires k <= j < |chunkers|
    ensures AllData(chunkers[k..j + 1]) == ChunkData(chunkers[k]) + AllData(chunkers[k + 1..j + 1])
  {
    assert chunkers[k..j + 1][0] == chunkers[k];
    assert chunkers[k..j + 1][1..] == chunkers[k + 1..j + 1];
  }

  /** The listed file at index `k` received whole: its entry, and only it,
      gets a download of the whole buffer typed by its own mime. */
  lemma ReceiveListed(files: seq<SendPage.UidFile>, k: nat, cs: seq<Chunk>, st: RecvPage.RecvState)
    requires DistinctUids(files) && k < |files| && Matches(st.recvFiles, files)
    ensures var s1 := RecvPage.Receive(st, SendPage.Framed(files[k].uid, cs));
      && Matches(s1.recvFiles, files)
      && s1.recvBuffer == st.recvBuffer + ChunkData(cs)
      && (forall j :: 0 <= j < |files| && j != k ==> s1.recvFiles[j] == st.recvFiles[j])
      && s1.recvFiles[k].downloadUrl == Some(RecvPage.Download(Flatten(st.recvBuffer + ChunkData(cs)), Some(files[k].mime)))
  {
    RecvPage.ReceiveFile(st, files[k].uid, cs);
    FindsOwnMime(st.recvFiles, files, k);
  }

  lemma AllFramedStep(files: seq<SendPage.UidFile>, chunkers: seq<seq<Chunk>>, k: nat)
    requires |chunkers| == |files| && k < |files|
    ensures SendPage.AllFramed(files[k..], chunkers[k..])
      == SendPage.Framed(files[k].uid, chunkers[k]) + SendPage.AllFramed(files[k + 1..], chunkers[k + 1..])
  {
    assert files[k..][0] == files[k] && chunkers[k..][0] == chunkers[k];
    assert files[k..][1..] == files[k + 1..] && chunkers[k..][1..] == chunkers[k + 1..];
  }

  /** Every entry from index `k` on holds a download of `base` followed by
      the chunks of the files from `k` up to and including its own, typed by
      its own mime. */
  predicate DownloadsFrom(rs: seq<RecvPage.RecvFile>, base: seq<Bytes>, files: seq<SendPage.UidFile>, chunkers: seq<seq<Chunk>>, k: nat)
    requires |rs| == |files| == |chunkers| && k <= |files|
  {
    forall j :: k <= j < |files| ==>
      rs[j].downloadUrl == Some(RecvPage.Download(Flatten(base + AllData(chunkers[k..j + 1])), Some(files[j].mime)))
  }

  /** One file received, then the rest: the downloads of the rest are shifted
      by that file's chunks. */
  lemma DownloadsShift(files: seq<SendPage.UidFile>, chunkers: seq<seq<Chunk>>, k: nat,
                       st: RecvPage.RecvState, s1: RecvPage.RecvState, r: RecvPage.RecvState)
    requires |chunkers| == |files| && k < |files|
    requires Matches(st.recvFiles, files) && Matches(s1.recvFiles, files) && Matches(r.recvFiles, files)
    requires s1.recvBuffer == st.recvBuffer + ChunkData(chunkers[k])
    requires forall j :: 0 <= j < |files| && j != k ==> s1.recvFiles[j] == st.recvFiles[j]
    requires s1.recvFiles[k].downloadUrl == Some(RecvPage.Download(Flatten(st.recvBuffer + ChunkData(chunkers[k])), Some(files[k].mime)))
    requires forall j :: 0 <= j < k + 1 ==> r.recvFiles[j] == s1.recvFiles[j]
    requires DownloadsFrom(r.recvFiles, s1.recvBuffer, files, chunkers, k + 1)
    ensures forall j :: 0 <= j < k ==> r.recvFiles[j] == st.recvFiles[j]
    ensures DownloadsFrom(r.recvFiles, st.recvBuffer, files, chunkers, k)
  {
    forall j | k <= j < |files|
      ensures r.recvFiles[j].downloadUrl == Some(RecvPage.Download(Flatten(st.recvBuffer + AllData(chunkers[k..j + 1])), Some(files[j].mime)))
    {
      AllDataStep(chunkers, k, j);
      if j == k {
        assert chunkers[k + 1..j + 1] == [];
        assert st.recvBuffer + AllData(chunkers[k..j + 1]) == st.recvBuffer + ChunkData(chunkers[k]);
      } else {
        assert s1.recvBuffer + AllData(chunkers[k + 1..j + 1]) == st.recvBuffer + AllData(chunkers[k..j + 1]);
      }
    }
  }

  /** Receiving the files from index `k` on, framed whole: the entries before
      `k` are untouched, and entry `j` from `k` on gets a download holding
      every byte received since this point up to and including file `j`. */
  lemma {:induction false} ReceiveFrom(files: seq<SendPage.UidFile>, chunkers: seq<seq<Chunk>>, k: nat, st: RecvPage.RecvState)
    requires |chunkers| == |files| && DistinctUids(files) && k <= |files|
    requires Matches(st.recvFiles, files)
    ensures var r := RecvPage.Receive(st, SendPage.AllFramed(files[k..], chunkers[k..]));
      && Matches(r.recvFiles, files)
      && (forall j :: 0 <= j < k ==> r.recvFiles[j] == st.recvFiles[j])
      && DownloadsFrom(r.recvFiles, st.recvBuffer, files, chunkers, k)
    decreases |files| - k
  {
    if k < |files| {
      var frame := SendPage.Framed(files[k].uid, chunkers[k]);
      var tail := SendPage.AllFramed(files[k + 1..], chunkers[k + 1..]);
      AllFramedStep(files, chunkers, k);
      RecvPage.ReceiveAppend(st, frame, tail);
      ReceiveListed(files, k, chunkers[k], st);
      var s1 := RecvPage.Receive(st, frame);
      ReceiveFrom(files, chunkers, k + 1, s1);
      DownloadsShift(files, chunkers, k, st, s1, RecvPage.Receive(s1, tail));
    }
  }

  /** A whole session as received: each listed file gets a download typed by
      its own mime, holding the bytes of every file up to and including it,
      because the buffer is never cleared. */
  lemma ReceiveSession(files: seq<SendPage.UidFile>, chunkers: seq<seq<Chunk>>, st: RecvPage.RecvState)
    requires SendPage.ChunkersFit(files, chunkers) && DistinctUids(files)
    requires st.recvFiles == Listing(SendPage.Descriptors(files)) && st.recvBuffer == []
    ensures var r := RecvPage.Receive(st, SendPage.AllFramed(files, chunkers));
      && |r.recvFiles| == |files|
      && forall i :: 0 <= i < |files| ==>
           r.recvFiles[i].downloadUrl == Some(RecvPage.Download(Flatten(AllData(chunkers[..i + 1])), Some(files[i].mime)))
  {
    assert Matches(st.recvFiles, files);
    ReceiveFrom(files, chunkers, 0, st);
    assert files[0..] == files && chunkers[0..] == chunkers;
    var r := RecvPage.Receive(st, SendPage.AllFramed(files, chunkers));
    forall i | 0 <= i < |files|
      ensures r.recvFiles[i].downloadUrl == Some(RecvPage.Download(Flatten(AllData(chunkers[..i + 1])), Some(files[i].mime)))
    {
      assert chunkers[0..i + 1] == chunkers[..i + 1];
      assert [] + AllData(chunkers[..i + 1]) == AllData(chunkers[..i + 1]);
    }
  }

  /** Every download starts with the bytes of the files before it, so a
      download is exactly its own file's bytes if and only if every earlier
      file was empty (always so for the first). */
  lemma StaleBuffer(chunkers: seq<seq<Chunk>>, i: nat)
    requires i < |chunkers|
    ensures Flatten(AllData(chunkers[..i + 1])) == Flatten(AllData(chunkers[..i])) + Flatten(ChunkData(chunkers[i]))
    ensures Flatten(AllData(chunkers[..i + 1])) == Flatten(ChunkData(chunkers[i])) <==> Flatten(AllData(chunkers[..i])) == []
    ensures i == 0 ==> Flatten(AllData(chunkers[..i + 1])) == Flatten(ChunkData(chunkers[0]))
  {
    AllDataAppend(chunkers[..i], [chunkers[i]]);
    assert chunkers[..i + 1] == chunkers[..i] + [chunkers[i]];
    assert [chunkers[i]][1..] == [];
    assert AllData([chunkers[i]]) == ChunkData(chunkers[i]) + AllData([]);
    assert AllData([chunkers[i]]) == ChunkData(chunkers[i]);
    FlattenAppend(AllData(chunkers[..i]), ChunkData(chunkers[i]));
    var before := Flatten(AllData(chunkers[..i]));
    var own := Flatten(ChunkData(chunkers[i]));
    if before + own == own {
      assert |before| == 0;
    }
    if i == 0 {
      assert chunkers[..i] == [];
    }
  }

  lemma {:induction false} AllDataAppend(a: seq<seq<Chunk>>, b: seq<seq<Chunk>>)
    ensures AllData(a + b) == AllData(a) + AllData(b)
  {
    if a == [] {
      assert a + b == b;
    } else {
      assert (a + b)[1..] == a[1..] + b;
      AllDataAppend(a[1..], b);
    }
  }

  /** When every send is accepted, the receiver fed the sender's frames
      finds each selected file downloadable under its own mime, the first one
      holding exactly its own bytes. */
  lemma EndToEnd(files: seq<SendPage.UidFile>, chunkers: seq<seq<Chunk>>, accepts: nat -> bool,
                 snd: SendPage.SenderState, rcv: RecvPage.RecvState)
    requires SendPage.ChunkersFit(files, chunkers) && DistinctUids(files)
    requires forall k :: snd.sends <= k ==> accepts(k)
    requires snd.wire == []
    requires rcv.recvFiles == Listing(SendPage.Descriptors(files)) && rcv.recvBuffer == []
    ensures var o := SendPage.ChannelOpenFrom(files, chunkers, accepts, 0, snd);
      var r := RecvPage.Receive(rcv, o.state.wire);
      && !o.aborted
      && |r.recvFiles| == |files|
      && (forall i :: 0 <= i < |files| ==> r.recvFiles[i].downloadUrl.Some? && r.recvFiles[i].downloadUrl.value.mime == Some(files[i].mime))
      && (|files| > 0 ==> r.recvFiles[0].downloadUrl.value.payload == Flatten(ChunkData(chunkers[0])))
  {
    var o := SendPage.ChannelOpenFrom(files, chunkers, accepts, 0, snd);
    SendPage.ChannelOpenFromRun(files, chunkers, accepts, 0, snd);
    SendPage.SendFilesAllAccepted(files, chunkers, accepts, 0, snd.sends);
    assert files[0..] == files && chunkers[0..] == chunkers;
    assert o.state.wire == SendPage.AllFramed(files, chunkers);
    ReceiveSession(files, chunkers, rcv);
    if |files| > 0 {
      StaleBuffer(chunkers, 0);
    }
  }

  /** Every reply the receiver sends: a `chunkReceived` whose only count is `recvSize`. */
  predicate SizeReplies(rs: seq<Frame>) {
    forall k :: 0 <= k < |rs| ==> rs[k].Text? && rs[k].msg.ChunkReceived? && rs[k].msg.counts.Keys == {RecvPage.RecvSizeField}
  }

  /** The sender reads `recvBytes` from replies that only carry `recvSize`:
      every file it hears about is recorded as undefined, the last count
      becomes undefined, and no number ever reaches its progress. */
  lemma {:induction false} AcknowledgeSizeReplies(p: SendPage.SendProgress, rs: seq<Frame>)
    requires SizeReplies(rs)
    ensures var q := SendPage.AcknowledgeAll(p, rs);
      && (rs == [] ==> q == p)
      && (rs != [] ==> q.lastPeerRecvBytes.None?)
      && q.sendSizes.Keys == p.sendSizes.Keys + (set k | 0 <= k < |rs| :: rs[k].msg.fileId)
      && forall id :: id in q.sendSizes ==> q.sendSizes[id].None? || (id in p.sendSizes && q.sendSizes[id] == p.sendSizes[id])
    decreases |rs|
  {
    if rs != [] {
      assert RecvPage.RecvSizeField != SendPage.RecvBytesField by {
        assert RecvPage.RecvSizeField[5] != SendPage.RecvBytesField[5];
      }
      var p1 := SendPage.Acknowledge(p, rs[0]);
      assert SendPage.RecvBytesField !in rs[0].msg.counts;
      assert p1.lastPeerRecvBytes.None?;
      assert SizeReplies(rs[1..]) by {
        forall k | 0 <= k < |rs[1..]| ensures rs[1..][k] == rs[k + 1] { }
      }
      AcknowledgeSizeReplies(p1, rs[1..]);
      assert (set k | 0 <= k < |rs| :: rs[k].msg.fileId) == {rs[0].msg.fileId} + (set k | 0 <= k < |rs[1..]| :: rs[1..][k].msg.fileId) by {
        forall k | 0 <= k < |rs|
          ensures rs[k].msg.fileId in {rs[0].msg.fileId} + (set k | 0 <= k < |rs[1..]| :: rs[1..][k].msg.fileId)
        {
          if k > 0 {
            assert rs[1..][k - 1] == rs[k];
          }
        }
      }
    }
  }

  /** Whatever frames the receiver handles, acknowledging the replies it
      sent leaves the sender without a single byte count. */
  lemma RepliesCarryNoCount(p: SendPage.SendProgress, st: RecvPage.RecvState, fs: seq<Frame>)
    ensures var r := RecvPage.Receive(st, fs);
      var q := SendPage.AcknowledgeAll(p, r.replies[|st.replies|..]);
      && (BinaryPayloads(fs) != [] ==> q.lastPeerRecvBytes.None?)
      && forall id :: id in q.sendSizes ==> q.sendSizes[id].None? || (id in p.sendSizes && q.sendSizes[id] == p.sendSizes[id])
  {
    RecvPage.ReceiveReplies(st, fs);
    var r := RecvPage.Receive(st, fs);
    var rs := r.replies[|st.replies|..];
    assert SizeReplies(rs) by {
      forall k | 0 <= k < |rs| ensures rs[k] == r.replies[|st.replies| + k] { }
    }
    AcknowledgeSizeReplies(p, rs);
  }
}
