/** The connection object: one WebRTC peer connection, its ordered data
    channel, the single-waiter flow control on `send`, and the lifecycle
    events it emits. The browser's RTCPeerConnection and RTCDataChannel are
    abstract records; the event emitter is a log of emitted events. */
module PeerChannel {
  import opened Frames
  import Socket

  /** `dc.bufferedAmountLowThreshold`: the channel fires `bufferedamountlow`
      when its buffered amount falls to this. */
  const BufferedAmountLowThreshold: nat := 256 * 1024
  /** At or above this many buffered bytes, `send` parks its data. */
  const BufWaitingThreshold: nat := 1024 * 1024

  /** The signaling message type the connection object listens to. */
  const SignalType: string := "s2c_signal"

  /** RTCDataChannelState, section 6.2 of W3C WebRTC 1.0. */
  datatype ReadyState = Connecting | Open | Closing | Closed

  /** RTCPeerConnectionState, section 4.3.3 of W3C WebRTC 1.0. */
  datatype ConnectionState = New | Connecting | Connected | Disconnected | Failed | Closed

  datatype SdpType = Offer | Pranswer | Answer | Rollback

  /** A session description (RTCSessionDescriptionInit). */
  datatype Description = Description(kind: SdpType, sdp: string)

  /** A network-path candidate, kept opaque. */
  type Candidate = string

  /** Payload of an inbound `s2c_signal` message. */
  datatype SignalPayload = SignalPayload(sourceClientId: string, sdp: Option<Description>, ice: Option<Candidate>)

  /** Payload of an outbound `c2s_signal` message sent over the relay. */
  datatype OutSignal =
    | SdpSignal(clientId: Option<string>, description: Description)
    | IceSignal(clientId: Option<string>, candidate: Candidate)

  /** The browser calls the connection object makes on its RTCPeerConnection. */
  datatype PcAction =
    | SetRemoteDescription(remote: Description)
    | CreateAnswer
    | CreateOffer
    | SetLocalDescription(local: Description)
    | AddIceCandidate(candidate: Candidate)
    | CreateDataChannel(channelName: string, ordered: bool)

  /** An RTCPeerConnection: its state, the calls made on it, and whether it
      hands incoming data channels to the connection object. */
  datatype PeerConnection = PeerConnection(
    connectionState: ConnectionState,
    actions: seq<PcAction>,
    forwardsDataChannel: bool)

  datatype BinaryType = BlobType | ArrayBufferType

  /** An RTCDataChannel: its state, its outbound buffer, the frames handed
      to it, whether `close()` was called, and whether the connection
      object's handlers (open, close, error, bufferedamountlow; message) are
      attached. */
  datatype DataChannel = DataChannel(
    name: string,
    ordered: bool,
    readyState: ReadyState,
    bufferedAmount: nat,
    lowThreshold: nat,
    binaryType: BinaryType,
    sent: seq<Frame>,
    closed: bool,
    handlersAttached: bool,
    receiving: bool)

  /** The events the connection object emits. */
  datatype PeerEvent =
    | ConnectingEvent
    | ConnectedEvent
    | ConnectFailedEvent
    | DisconnectedEvent
    | ChannelOpenEvent
    | DataEvent(frame: Frame)

  /** Why `send` rejected: the channel was missing or not open. */
  datatype SendError = ChannelNotOpen(state: Option<ReadyState>)

  /** How the promise returned by `send` stands when `send` returns. */
  datatype SendOutcome = Resolved | Waiting | Rejected(error: SendError)

  /** The lifecycle event, if any, for a reported connection state (the
      disconnect branch also has side effects, see OnConnectionStateChange). */
  function EventFor(s: ConnectionState): (e: Option<PeerEvent>)
    ensures e == Some(DisconnectedEvent) <==> s == ConnectionState.Disconnected
    ensures e == Some(ConnectedEvent) <==> s == ConnectionState.Connected
    ensures e == Some(ConnectingEvent) <==> s == ConnectionState.Connecting
    ensures e == Some(ConnectFailedEvent) <==> s == ConnectionState.Failed
    ensures e.None? <==> s in {ConnectionState.New, ConnectionState.Closed}
  {
    match s
    case Disconnected => Some(DisconnectedEvent)
    case Connected => Some(ConnectedEvent)
    case Connecting => Some(ConnectingEvent)
    case Failed => Some(ConnectFailedEvent)
    case _ => None
  }

  /** `dc.close()`: the channel moves to `closing` unless already closed. */
  function CloseChannel(d: DataChannel): (r: DataChannel)
    ensures r.closed && r.readyState != ReadyState.Open
    ensures r.sent == d.sent
  {
    d.(closed := true,
       readyState := if d.readyState == ReadyState.Closed then ReadyState.Closed else ReadyState.Closing)
  }

  /** The channel the caller creates with `createDataChannel('file-transfer', { ordered: true })`. */
  function NewDataChannel(): (d: DataChannel)
    ensures d.ordered && d.sent == [] && !d.closed && d.readyState == ReadyState.Connecting
  {
    DataChannel("file-transfer", true, ReadyState.Connecting, 0, 0, BlobType, [], false, false, false)
  }

  /** The calls `onS2cSignal` makes on the connection for one payload: a
      description is applied (and an offer answered); a candidate is added
      only when no description came with it. */
  function SignalActions(payload: SignalPayload): (r: seq<PcAction>)
    ensures payload.sdp.Some? ==> |r| >= 1 && r[0] == SetRemoteDescription(payload.sdp.value)
    ensures (CreateAnswer in r) <==> payload.sdp.Some? && payload.sdp.value.kind == Offer
    ensures forall d :: SetRemoteDescription(d) in r <==> payload.sdp == Some(d)
    ensures forall c :: AddIceCandidate(c) in r <==> payload.sdp.None? && payload.ice == Some(c)
    ensures forall a :: a in r ==> a.SetRemoteDescription? || a.CreateAnswer? || a.AddIceCandidate?
    ensures |r| == if payload.sdp.Some? then (if payload.sdp.value.kind == Offer then 2 else 1)
                   else if payload.ice.Some? then 1 else 0
  {
    if payload.sdp.Some? then
      [SetRemoteDescription(payload.sdp.value)] + (if payload.sdp.value.kind == Offer then [CreateAnswer] else [])
    else if payload.ice.Some? then [AddIceCandidate(payload.ice.value)]
    else []
  }

  // ---------------------------------------------------------------------
  // Flow control: the channel and the single parked send
  // ---------------------------------------------------------------------

  /** The part of the connection object that flow control works on. */
  datatype Flow = Flow(dc: Option<DataChannel>, waiting: Option<Frame>)

  predicate IsOpen(dc: Option<DataChannel>) {
    dc.Some? && dc.value.readyState == ReadyState.Open
  }

  /** Appends a frame to the channel's outbound log, if there is a channel. */
  function Hand(dc: Option<DataChannel>, data: Frame): Option<DataChannel> {
    if dc.Some? then Some(dc.value.(sent := dc.value.sent + [data])) else None
  }

  datatype SendStep = SendStep(flow: Flow, outcome: SendOutcome)

  /** `send(data)`: rejected unless the channel is open, handed over at once
      below the waiting threshold, parked otherwise (replacing any parked
      send, whose promise then never settles). */
  function SendFlow(fl: Flow, data: Frame): (r: SendStep)
    ensures !IsOpen(fl.dc) ==>
      r == SendStep(fl, Rejected(ChannelNotOpen(if fl.dc.Some? then Some(fl.dc.value.readyState) else None)))
    ensures IsOpen(fl.dc) && fl.dc.value.bufferedAmount < BufWaitingThreshold ==>
      r.outcome == Resolved && r.flow.waiting == fl.waiting
      && r.flow.dc.Some? && r.flow.dc.value.sent == fl.dc.value.sent + [data]
      && r.flow.dc.value == fl.dc.value.(sent := r.flow.dc.value.sent)
    ensures IsOpen(fl.dc) && fl.dc.value.bufferedAmount >= BufWaitingThreshold ==>
      r == SendStep(Flow(fl.dc, Some(data)), Waiting)
  {
    if !IsOpen(fl.dc) then
      SendStep(fl, Rejected(ChannelNotOpen(if fl.dc.Some? then Some(fl.dc.value.readyState) else None)))
    else if fl.dc.value.bufferedAmount >= BufWaitingThreshold then SendStep(Flow(fl.dc, Some(data)), Waiting)
    else SendStep(Flow(Hand(fl.dc, data), fl.waiting), Resolved)
  }

  datatype Release = Release(flow: Flow, released: Option<Frame>)

  /** `onBufferedAmountLow()`: a parked send calls `this.dc?.send(data)`.
      On an open channel the data is handed over, the promise resolves and
      the waiter is cleared. With no channel the optional call does nothing,
      the promise still resolves and the waiter is cleared. On a channel that
      is not open, `send` throws (section 6.2 of W3C WebRTC 1.0) out of the
      callback before the waiter is cleared: nothing is sent, nothing
      settles, and the waiter stays. `released` is the data of the send
      whose promise resolved. */
  function ReleaseFlow(fl: Flow): (r: Release)
    ensures fl.waiting.None? ==> r == Release(fl, None)
    ensures fl.waiting.Some? && IsOpen(fl.dc) ==>
      && r.released == fl.waiting && r.flow.waiting.None?
      && r.flow.dc.Some? && r.flow.dc.value == fl.dc.value.(sent := fl.dc.value.sent + [fl.waiting.value])
    ensures fl.waiting.Some? && fl.dc.None? ==> r == Release(Flow(None, None), fl.waiting)
    ensures fl.waiting.Some? && fl.dc.Some? && !IsOpen(fl.dc) ==> r == Release(fl, None)
  {
    if fl.waiting.None? then Release(fl, None)
    else if fl.dc.None? then Release(Flow(None, None), fl.waiting)
    else if IsOpen(fl.dc) then Release(Flow(Hand(fl.dc, fl.waiting.value), None), fl.waiting)
    else Release(fl, None)
  }

  /** The `disconnected` branch: the channel is closed and the parked send is
      rejected (returned here) and cleared. */
  function DisconnectFlow(fl: Flow): (r: Release)
    ensures r.released == fl.waiting && r.flow.waiting.None?
    ensures !IsOpen(r.flow.dc) && (r.flow.dc.Some? <==> fl.dc.Some?)
    ensures fl.dc.Some? ==> r.flow.dc == Some(CloseChannel(fl.dc.value))
    ensures fl.dc.Some? ==> r.flow.dc.value.closed && r.flow.dc.value.sent == fl.dc.value.sent
  {
    Release(Flow(if fl.dc.Some? then Some(CloseChannel(fl.dc.value)) else None, None), fl.waiting)
  }

  /** A flow-control event, as they may arrive in any order: a `send` call;
      the browser's `bufferedamountlow` event; the `disconnected` state; or
      the transport changing the channel's buffered amount (it grows as data
      is queued and shrinks as data leaves). */
  datatype FlowOp = SendOp(data: Frame) | LowOp | DisconnectOp | BufferOp(amount: nat)

  /** The channel's buffered amount set by the transport. */
  function Buffered(fl: Flow, amount: nat): Flow {
    if fl.dc.Some? then Flow(Some(fl.dc.value.(bufferedAmount := amount)), fl.waiting) else fl
  }

  /** The browser fires `bufferedamountlow` once the buffered amount has
      fallen to the low threshold, so the handler runs on a drained buffer. */
  function Drained(fl: Flow): (r: Flow)
    ensures r.dc.Some? ==> r.dc.value.bufferedAmount <= BufferedAmountLowThreshold
    ensures r.waiting == fl.waiting && (r.dc.Some? <==> fl.dc.Some?)
    ensures fl.dc.Some? ==> r.dc.value == fl.dc.value.(bufferedAmount := r.dc.value.bufferedAmount)
  {
    if fl.dc.Some? && fl.dc.value.bufferedAmount > BufferedAmountLowThreshold
    then Buffered(fl, BufferedAmountLowThreshold) else fl
  }

  function FlowStep(fl: Flow, op: FlowOp): Flow {
    match op
    case SendOp(d) => SendFlow(fl, d).flow
    case LowOp => ReleaseFlow(Drained(fl)).flow
    case DisconnectOp => DisconnectFlow(fl).flow
    case BufferOp(n) => Buffered(fl, n)
  }

  function RunFlow(fl: Flow, ops: seq<FlowOp>): Flow
    decreases |ops|
  {
    if ops == [] then fl else RunFlow(FlowStep(fl, ops[0]), ops[1..])
  }

  /** The data of the `send` calls among `ops`, in order. */
  function SentData(ops: seq<FlowOp>): seq<Frame> {
    if ops == [] then [] else (if ops[0].SendOp? then [ops[0].data] else []) + SentData(ops[1..])
  }

  /** Whatever the order of events: the channel's log only grows; every
      frame it gains is the data of a `send` call or of the send parked at
      the start; it gains at most one frame per call (plus the parked one);
      and at most one send is ever parked. */
  lemma {:induction false} RunFlowDelivers(fl: Flow, ops: seq<FlowOp>)
    requires fl.dc.Some?
    ensures var r := RunFlow(fl, ops);
      && r.dc.Some?
      && |fl.dc.value.sent| <= |r.dc.value.sent|
      && r.dc.value.sent[..|fl.dc.value.sent|] == fl.dc.value.sent
      && |r.dc.value.sent| - |fl.dc.value.sent| <= |SentData(ops)| + (if fl.waiting.Some? then 1 else 0)
      && (forall k :: |fl.dc.value.sent| <= k < |r.dc.value.sent| ==>
            r.dc.value.sent[k] in SentData(ops) || Some(r.dc.value.sent[k]) == fl.waiting)
      && (r.waiting.Some? ==> r.waiting.value in SentData(ops) || r.waiting == fl.waiting)
    decreases |ops|
  {
    if ops != [] {
      var next := FlowStep(fl, ops[0]);
      RunFlowDelivers(next, ops[1..]);
      var r := RunFlow(fl, ops);
      var base := fl.dc.value.sent;
      var mid := next.dc.value.sent;
      assert SentData(ops) == (if ops[0].SendOp? then [ops[0].data] else []) + SentData(ops[1..]);
      assert |base| <= |mid| && mid[..|base|] == base;
      assert r.dc.value.sent[..|base|] == mid[..|base|];
      forall k | |base| <= k < |r.dc.value.sent|
        ensures r.dc.value.sent[k] in SentData(ops) || Some(r.dc.value.sent[k]) == fl.waiting
      {
        if k >= |mid| {
          assert r.dc.value.sent[k] in SentData(ops[1..]) || Some(r.dc.value.sent[k]) == next.waiting;
        } else {
          assert r.dc.value.sent[k] == mid[k];
        }
      }
    }
  }

  /** Two sends parked in a row, then the buffer drains: only the second
      one's data reaches the channel; the first is dropped unsettled. */
  lemma SecondWaiterWins(fl: Flow, first: Frame, second: Frame)
    requires IsOpen(fl.dc) && fl.dc.value.bufferedAmount >= BufWaitingThreshold
    ensures var r := RunFlow(fl, [SendOp(first), SendOp(second), LowOp]);
      r.waiting.None? && r.dc.Some? && r.dc.value.sent == fl.dc.value.sent + [second]
  {
    var f1 := FlowStep(fl, SendOp(first));
    var f2 := FlowStep(f1, SendOp(second));
    assert RunFlow(fl, [SendOp(first), SendOp(second), LowOp]) == RunFlow(f1, [SendOp(second), LowOp]) by {
      assert [SendOp(first), SendOp(second), LowOp][1..] == [SendOp(second), LowOp];
    }
    assert RunFlow(f1, [SendOp(second), LowOp]) == RunFlow(f2, [LowOp]) by {
      assert [SendOp(second), LowOp][1..] == [LowOp];
    }
  }

  /** Once the buffer has drained, a send on an open channel is handed over
      at once, after the parked send if there was one: the next send after
      `bufferedamountlow` never parks. */
  lemma DrainThenSendDelivers(fl: Flow, data: Frame)
    requires IsOpen(fl.dc)
    ensures var r := RunFlow(fl, [LowOp, SendOp(data)]);
      && r.waiting.None? && r.dc.Some?
      && r.dc.value.sent == fl.dc.value.sent + (if fl.waiting.Some? then [fl.waiting.value] else []) + [data]
  {
    var d := Drained(fl);
    assert IsOpen(d.dc) && d.dc.value.bufferedAmount < BufWaitingThreshold;
    var f1 := FlowStep(fl, LowOp);
    assert IsOpen(f1.dc) && f1.dc.value.bufferedAmount < BufWaitingThreshold && f1.waiting.None?;
    assert f1.dc.value.sent == fl.dc.value.sent + (if fl.waiting.Some? then [fl.waiting.value] else []);
    assert RunFlow(fl, [LowOp, SendOp(data)]) == RunFlow(f1, [SendOp(data)]) by {
      assert [LowOp, SendOp(data)][1..] == [SendOp(data)];
    }
    assert RunFlow(f1, [SendOp(data)]) == FlowStep(f1, SendOp(data)) by {
      assert [SendOp(data)][1..] == [];
    }
  }

  /** Once disconnected, a parked send is never delivered: draining the
      buffer afterwards hands nothing over, and later sends are rejected. */
  lemma DisconnectedNeverDelivers(fl: Flow, later: Frame)
    requires fl.dc.Some?
    ensures var d := DisconnectFlow(fl).flow;
      && ReleaseFlow(d).flow == d && ReleaseFlow(d).released.None?
      && SendFlow(d, later).outcome.Rejected? && SendFlow(d, later).flow == d
  {
  }

  class Peer {
    var targetId: Option<string>
    var pc: Option<PeerConnection>
    var dc: Option<DataChannel>
    /** The data held by the single parked `send`, standing for its callback. */
    var waitingCallback: Option<Frame>
    /** `null` until a connection is created, then whether this side called. */
    var isCaller: Option<bool>
    /** Every event emitted, in order. */
    var emitted: seq<PeerEvent>
    /** Names of the events listeners are attached to, in order of `on`. */
    var listeners: seq<string>
    /** `c2s_signal` messages sent over the relay, in order. */
    var signals: seq<OutSignal>

    /** The constructor also registers the connection object's signal
        handler, identified by `self`, on the bus. */
    constructor (bus: Socket.MessageBus, self: Socket.HandlerId)
      modifies bus
      ensures targetId.None? && pc.None? && dc.None? && waitingCallback.None? && isCaller.None?
      ensures emitted == [] && listeners == [] && signals == []
      ensures bus.handlers == Socket.Registered(old(bus.handlers), SignalType, self)
    {
      targetId := None;
      pc := None;
      dc := None;
      waitingCallback := None;
      isCaller := None;
      emitted := [];
      listeners := [];
      signals := [];
      bus.Register(SignalType, self);
    }

    /** EventEmitter's `on(name, listener)`. */
    method On(name: string)
      modifies this
      ensures listeners == old(listeners) + [name]
      ensures targetId == old(targetId) && pc == old(pc) && dc == old(dc)
      ensures waitingCallback == old(waitingCallback) && isCaller == old(isCaller)
      ensures emitted == old(emitted) && signals == old(signals)
    {
      listeners := listeners + [name];
    }

    /** `onS2cSignal(payload)`. The asynchronous `then` that answers an
        offer is taken as immediate. */
    method OnS2cSignal(payload: SignalPayload)
      modifies this
      ensures targetId == if old(isCaller) == Some(true) then old(targetId) else Some(payload.sourceClientId)
      ensures old(pc).Some? ==> isCaller == old(isCaller) && dc == old(dc)
      ensures old(pc).None? ==> isCaller == Some(false) && dc == old(dc)
      ensures pc.Some?
      ensures var base := if old(pc).Some? then old(pc).value else PeerConnection(ConnectionState.New, [], true);
        pc == Some(base.(actions := base.actions + SignalActions(payload)))
      ensures waitingCallback == old(waitingCallback) && emitted == old(emitted)
      ensures listeners == old(listeners) && signals == old(signals)
    {
      if isCaller != Some(true) {
        targetId := Some(payload.sourceClientId);
      }
      if pc.None? {
        CreateRtcConnection(false);
      }
      var p := pc.value;
      if payload.sdp.Some? {
        p := p.(actions := p.actions + [SetRemoteDescription(payload.sdp.value)]);
        if payload.sdp.value.kind == Offer {
          // makeAnswer(): the resulting description arrives later through OnDescription
          p := p.(actions := p.actions + [CreateAnswer]);
        }
      } else if payload.ice.Some? {
        p := p.(actions := p.actions + [AddIceCandidate(payload.ice.value)]);
      }
      pc := Some(p);
      assert p.actions == old(if pc.Some? then pc.value else PeerConnection(ConnectionState.New, [], true)).actions + SignalActions(payload);
    }

    /** `onDescription(d)`: the offer or answer the browser produced is set
        as local description and sent to the remote side (the promise chain
        is taken as immediate and successful). */
    method OnDescription(d: Description)
      modifies this
      ensures old(pc).None? ==> pc == old(pc) && signals == old(signals)
      ensures old(pc).Some? ==>
        && pc == Some(old(pc).value.(actions := old(pc).value.actions + [SetLocalDescription(d)]))
        && signals == old(signals) + [SdpSignal(targetId, d)]
      ensures targetId == old(targetId) && dc == old(dc) && isCaller == old(isCaller)
      ensures waitingCallback == old(waitingCallback) && emitted == old(emitted) && listeners == old(listeners)
    {
      if pc.Some? {
        var p := pc.value;
        pc := Some(p.(actions := p.actions + [SetLocalDescription(d)]));
        signals := signals + [SdpSignal(targetId, d)];
      }
    }

    /** `onConnectionStateChange()`: reads the connection's current state.
        Returns the data of the parked send whose promise it rejected with
        the "peer disconnected" error, if any. */
    method OnConnectionStateChange() returns (rejected: Option<Frame>)
      modifies this
      ensures old(pc).None? ==>
        rejected.None? && dc == old(dc) && waitingCallback == old(waitingCallback) && emitted == old(emitted)
      ensures old(pc).Some? && old(pc).value.connectionState == ConnectionState.Disconnected ==>
        && Release(Flow(dc, waitingCallback), rejected) == DisconnectFlow(Flow(old(dc), old(waitingCallback)))
        && emitted == old(emitted) + [DisconnectedEvent]
      ensures old(pc).Some? && old(pc).value.connectionState != ConnectionState.Disconnected ==>
        && rejected.None? && dc == old(dc) && waitingCallback == old(waitingCallback)
        && emitted == old(emitted) + (var e := EventFor(old(pc).value.connectionState); if e.Some? then [e.value] else [])
      ensures targetId == old(targetId) && pc == old(pc) && isCaller == old(isCaller)
      ensures listeners == old(listeners) && signals == old(signals)
    {
      rejected := None;
      if pc.None? {
        return;
      }
      var state := pc.value.connectionState;
      if state == ConnectionState.Disconnected {
        if dc.Some? {
          dc := Some(CloseChannel(dc.value));
        }
        if waitingCallback.Some? {
          rejected := waitingCallback;
          waitingCallback := None;
        }
        emitted := emitted + [DisconnectedEvent];
      } else if state == ConnectionState.Connected {
        emitted := emitted + [ConnectedEvent];
      } else if state == ConnectionState.Connecting {
        emitted := emitted + [ConnectingEvent];
      } else if state == ConnectionState.Failed {
        emitted := emitted + [ConnectFailedEvent];
      }
    }

    /** `onRTCMessage(e)`: a message from the remote side is re-emitted as `data`. */
    method OnRtcMessage(f: Frame)
      modifies this
      ensures emitted == old(emitted) + [DataEvent(f)]
      ensures targetId == old(targetId) && pc == old(pc) && dc == old(dc)
      ensures waitingCallback == old(waitingCallback) && isCaller == old(isCaller)
      ensures listeners == old(listeners) && signals == old(signals)
    {
      emitted := emitted + [DataEvent(f)];
    }

    /** `createRTCConnection(isCaller)`: a fresh connection replaces any
        previous one (which is not closed); the caller creates the ordered
        data channel and starts an offer, the callee waits for the remote
        side's channel. */
    method CreateRtcConnection(caller: bool)
      modifies this
      ensures isCaller == Some(caller)
      ensures caller ==>
        && pc == Some(PeerConnection(ConnectionState.New, [CreateDataChannel("file-transfer", true), CreateOffer], false))
        && dc == Some(SetUp(NewDataChannel()))
      ensures !caller ==> pc == Some(PeerConnection(ConnectionState.New, [], true)) && dc == old(dc)
      ensures targetId == old(targetId) && waitingCallback == old(waitingCallback)
      ensures emitted == old(emitted) && listeners == old(listeners) && signals == old(signals)
    {
      var p := PeerConnection(ConnectionState.New, [], false);
      isCaller := Some(caller);
      if caller {
        var d := NewDataChannel();
        p := p.(actions := p.actions + [CreateDataChannel(d.name, d.ordered)]);
        pc := Some(p);
        SetupDataChannel(d);
        // makeOffer(): the resulting description arrives later through OnDescription
        p := pc.value;
        pc := Some(p.(actions := p.actions + [CreateOffer]));
        assert pc.value.actions == [CreateDataChannel("file-transfer", true), CreateOffer];
      } else {
        pc := Some(p.(forwardsDataChannel := true));
      }
    }

    /** `setupDataChannel(dc)`, also the body of the callee's `ondatachannel`. */
    method SetupDataChannel(d: DataChannel)
      modifies this
      ensures dc == Some(SetUp(d))
      ensures targetId == old(targetId) && pc == old(pc) && waitingCallback == old(waitingCallback)
      ensures isCaller == old(isCaller) && emitted == old(emitted)
      ensures listeners == old(listeners) && signals == old(signals)
    {
      dc := Some(SetUp(d));
    }

    /** A channel after `setupDataChannel`. */
    static function SetUp(d: DataChannel): (r: DataChannel)
      ensures r.lowThreshold == BufferedAmountLowThreshold && r.binaryType == ArrayBufferType && r.handlersAttached
      ensures r.sent == d.sent && r.readyState == d.readyState && r.bufferedAmount == d.bufferedAmount
    {
      d.(lowThreshold := BufferedAmountLowThreshold, binaryType := ArrayBufferType, handlersAttached := true)
    }

    /** `connectPeer(targetId)`: this side becomes the caller. */
    method ConnectPeer(t: string)
      modifies this
      ensures targetId == Some(t) && isCaller == Some(true)
      ensures pc == Some(PeerConnection(ConnectionState.New, [CreateDataChannel("file-transfer", true), CreateOffer], false))
      ensures dc == Some(SetUp(NewDataChannel()))
      ensures waitingCallback == old(waitingCallback)
      ensures emitted == old(emitted) && listeners == old(listeners) && signals == old(signals)
    {
      targetId := Some(t);
      CreateRtcConnection(true);
    }

    /** `destroy()`: closes and drops the connection and the channel, forgets
        the target and the parked send (without settling it) and removes all
        listeners. `isCaller` is kept, and the bus handler stays registered. */
    method Destroy()
      modifies this
      ensures targetId.None? && waitingCallback.None? && pc.None? && dc.None?
      ensures listeners == []
      ensures isCaller == old(isCaller) && emitted == old(emitted) && signals == old(signals)
    {
      targetId := None;
      waitingCallback := None;
      if pc.Some? {
        pc := None;
      }
      if dc.Some? {
        // `dc.close()` on a channel no longer reachable from the object
        dc := None;
      }
      listeners := [];
    }

    /** `onIceCandidate(e)`: a local candidate is relayed to the target; the
        end-of-candidates event (no candidate) is ignored. */
    method OnIceCandidate(candidate: Option<Candidate>)
      modifies this
      ensures candidate.None? ==> signals == old(signals)
      ensures candidate.Some? ==> signals == old(signals) + [IceSignal(targetId, candidate.value)]
      ensures targetId == old(targetId) && pc == old(pc) && dc == old(dc)
      ensures waitingCallback == old(waitingCallback) && isCaller == old(isCaller)
      ensures emitted == old(emitted) && listeners == old(listeners)
    {
      if candidate.None? {
        return;
      }
      signals := signals + [IceSignal(targetId, candidate.value)];
    }

    /** The channel's `open` event: the browser first moves the channel to
        `open` (section 6.2 of W3C WebRTC 1.0), then `onChannelOpen()` runs,
        which emits `channelOpen` and starts receiving messages. `this.dc!`
        demands a channel, and the browser never announces `open` on a
        channel that is closing or closed. */
    method OnChannelOpen()
      requires dc.Some? && !dc.value.closed
      requires dc.value.readyState !in {ReadyState.Closing, ReadyState.Closed}
      modifies this
      ensures emitted == old(emitted) + [ChannelOpenEvent]
      ensures dc == Some(old(dc).value.(readyState := ReadyState.Open, receiving := true))
      ensures targetId == old(targetId) && pc == old(pc) && waitingCallback == old(waitingCallback)
      ensures isCaller == old(isCaller) && listeners == old(listeners) && signals == old(signals)
    {
      emitted := emitted + [ChannelOpenEvent];
      dc := Some(dc.value.(readyState := ReadyState.Open, receiving := true));
    }

    /** `onBufferedAmountLow()`: a parked send hands its data to the channel
        and resolves; if the channel is not open, `dc.send` throws out of the
        callback and the waiter stays. Returns the data of the resolved send. */
    method OnBufferedAmountLow() returns (released: Option<Frame>)
      modifies this
      ensures Release(Flow(dc, waitingCallback), released) == ReleaseFlow(Flow(old(dc), old(waitingCallback)))
      ensures targetId == old(targetId) && pc == old(pc) && isCaller == old(isCaller)
      ensures emitted == old(emitted) && listeners == old(listeners) && signals == old(signals)
    {
      released := None;
      if waitingCallback.Some? {
        var data := waitingCallback.value;
        if dc.None? {
          // `this.dc?.send(data)` does nothing, and the promise resolves
          released := waitingCallback;
          waitingCallback := None;
        } else if dc.value.readyState == ReadyState.Open {
          dc := Some(dc.value.(sent := dc.value.sent + [data]));
          released := waitingCallback;
          waitingCallback := None;
        }
        // otherwise `dc.send` throws before `this.waitingCallback = null`
      }
    }

    /** `send(data)`: rejects unless the channel is open; hands the data over
        at once below the waiting threshold; otherwise parks it as the one
        waiting callback, replacing any earlier one. */
    method Send(data: Frame) returns (outcome: SendOutcome)
      modifies this
      ensures SendStep(Flow(dc, waitingCallback), outcome) == SendFlow(Flow(old(dc), old(waitingCallback)), data)
      ensures targetId == old(targetId) && pc == old(pc) && isCaller == old(isCaller)
      ensures emitted == old(emitted) && listeners == old(listeners) && signals == old(signals)
    {
      if dc.Some? && dc.value.readyState == ReadyState.Open {
        if dc.value.bufferedAmount >= BufWaitingThreshold {
          waitingCallback := Some(data);
          outcome := Waiting;
        } else {
          dc := Some(dc.value.(sent := dc.value.sent + [data]));
          outcome := Resolved;
        }
      } else {
        outcome := Rejected(ChannelNotOpen(if dc.Some? then Some(dc.value.readyState) else None));
      }
    }
  }

  /** The caller's path to a first transfer: connect, the channel opens, and
      a send on the empty buffer is handed over at once. */
  method ConnectOpenSend(bus: Socket.MessageBus, self: Socket.HandlerId, t: string, f: Frame)
    returns (p: Peer, outcome: SendOutcome)
    modifies bus
    ensures outcome == Resolved
    ensures p.targetId == Some(t) && p.isCaller == Some(true) && p.waitingCallback.None?
    ensures p.dc.Some? && p.dc.value.readyState == ReadyState.Open && p.dc.value.sent == [f]
    ensures p.emitted == [ChannelOpenEvent]
  {
    p := new Peer(bus, self);
    p.ConnectPeer(t);
    p.OnChannelOpen();
    outcome := p.Send(f);
  }

  /** A client of the connection object: once the transport reports
      `disconnected`, a parked send is rejected, never delivered, and the
      closed channel refuses every later send. */
  method DisconnectWhileWaiting(p: Peer, first: Frame, second: Frame)
    requires p.pc.Some? && p.pc.value.connectionState == ConnectionState.Disconnected
    requires p.dc.Some? && p.dc.value.readyState == ReadyState.Open && p.dc.value.bufferedAmount >= BufWaitingThreshold
    modifies p
    ensures p.dc.Some? && p.dc.value.sent == old(p.dc.value.sent)
    ensures p.waitingCallback.None?
  {
    var o1 := p.Send(first);
    assert o1 == Waiting && p.waitingCallback == Some(first);
    var rejected := p.OnConnectionStateChange();
    assert rejected == Some(first);
    var o2 := p.Send(second);
    assert o2.Rejected?;
    var released := p.OnBufferedAmountLow();
    assert released.None?;
  }
}
