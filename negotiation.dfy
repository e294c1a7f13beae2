/**
 * The client-side session negotiator (hooks/useWebRTC.ts).
 *
 * The hook keeps the local and remote media streams, the connection state,
 * the screen-share flag, a reference to the peer connection and one to the
 * signalling WebSocket. Its handlers dispatch inbound signalling messages by
 * type, send outbound ones only while the socket is open, flip the `enabled`
 * flag of a local track, swap the video sender's track between the camera
 * and the screen, and tear everything down in `endCall`.
 *
 * The browser objects are records: a peer connection is its descriptions,
 * its candidate pool, the track each sender currently sends, its connection
 * state and whether it was closed; a WebSocket is its ready state and the
 * messages written to it. A media track is a value (id, kind, source); its
 * two mutable flags live in the session as the set of tracks whose `enabled`
 * flag is false and the set of tracks on which `stop()` was called.
 */
module Negotiation {
  import opened Wrappers

  datatype Kind = Audio | Video

  /** What produced a track: `getUserMedia` (camera and microphone) or `getDisplayMedia` (the screen). */
  datatype Source = Camera | Screen

  datatype Track = Track(id: nat, kind: Kind, source: Source)

  datatype MediaStream = MediaStream(id: nat, tracks: seq<Track>)

  /** `RTCPeerConnectionState`. */
  datatype PcState = New | Connecting | Connected | Disconnected | Failed | Closed

  datatype SdpType = OfferSdp | AnswerSdp

  datatype Description = Description(kind: SdpType, sdp: string)

  /** The signalling messages, tagged by their `type` field; any other tag is `Unrecognized`. */
  datatype Signal =
    | Offer(sdp: string)
    | Answer(sdp: string)
    | IceCandidate(candidate: string)
    | Unrecognized(tag: string)

  /** `WebSocket.readyState`. */
  datatype ReadyState = SocketConnecting | SocketOpen | SocketClosing | SocketClosed

  datatype Socket = Socket(readyState: ReadyState, sent: seq<Signal>)

  datatype PeerConnection = PeerConnection(
    localDescription: Option<Description>,
    remoteDescription: Option<Description>,
    candidates: seq<string>,
    senders: seq<Track>,
    state: PcState,
    closed: bool)

  /** Everything the hook's handlers read or change. */
  datatype Session = Session(
    localStream: Option<MediaStream>,
    remoteStream: Option<MediaStream>,
    isConnected: bool,
    connectionState: PcState,
    isScreenSharing: bool,
    pc: Option<PeerConnection>,
    ws: Option<Socket>,
    disabled: set<Track>,
    stopped: set<Track>)

  /** The hook's state on first render. */
  const Initial: Session := Session(None, None, false, New, false, None, None, {}, {})

  predicate SocketIsOpen(s: Session)
  {
    s.ws.Some? && s.ws.value.readyState == SocketOpen
  }

  /** Every message written to the signalling socket so far. */
  function SentLog(s: Session): seq<Signal>
  {
    if s.ws.Some? then s.ws.value.sent else []
  }

  function LocalTracks(s: Session): seq<Track>
  {
    if s.localStream.Some? then s.localStream.value.tracks else []
  }

  /**
   * What holds in every state the hook reaches: it reports "connected" only
   * in the connected state, and it shares the screen only while it has a
   * peer connection and a local stream.
   */
  ghost predicate Coherent(s: Session)
  {
    && (s.isConnected ==> s.connectionState == Connected)
    && (s.isScreenSharing ==> s.pc.Some? && s.localStream.Some?)
  }

  /** The index of the first track of kind `k` (`getAudioTracks()[0]`, `getVideoTracks()[0]`, `find`). */
  function FirstOfKind(tracks: seq<Track>, k: Kind): (r: Option<nat>)
    ensures r.Some? ==> r.value < |tracks| && tracks[r.value].kind == k
    ensures r.Some? ==> forall j :: 0 <= j < r.value ==> tracks[j].kind != k
    ensures r.None? ==> forall j :: 0 <= j < |tracks| ==> tracks[j].kind != k
    decreases |tracks|
  {
    if |tracks| == 0 then None
    else if tracks[0].kind == k then Some(0)
    else match FirstOfKind(tracks[1..], k)
      case None => None
      case Some(i) => Some(i + 1)
  }

  /** The first track of kind `k` is determined by the two facts FirstOfKind promises. */
  lemma FirstOfKindUnique(tracks: seq<Track>, k: Kind, i: nat)
    requires i < |tracks| && tracks[i].kind == k
    requires forall j :: 0 <= j < i ==> tracks[j].kind != k
    ensures FirstOfKind(tracks, k) == Some(i)
  {
  }

  /** Replacing the first track of a kind by another of the same kind keeps it first. */
  lemma FirstOfKindReplace(tracks: seq<Track>, k: Kind, i: nat, t: Track)
    requires FirstOfKind(tracks, k) == Some(i)
    requires t.kind == k
    ensures FirstOfKind(tracks[i := t], k) == Some(i)
  {
    FirstOfKindUnique(tracks[i := t], k, i);
  }

  /**
   * `replaceTrack` on the first video sender: `after` is `before` with that
   * sender now sending `t`; every other sender, both descriptions, the
   * candidates, the state and the closed flag are kept. Without a video
   * sender nothing changes.
   */
  ghost predicate ReplacesVideoSender(before: PeerConnection, after: PeerConnection, t: Track)
  {
    && after.(senders := before.senders) == before
    && |after.senders| == |before.senders|
    && forall j :: 0 <= j < |before.senders| ==>
         after.senders[j] == if FirstOfKind(before.senders, Video) == Some(j) then t else before.senders[j]
  }

  /** The socket ref and its ready state are as they were; only its log may have grown. */
  predicate KeepsSocket(s: Session, s': Session)
  {
    && s'.ws.Some? == s.ws.Some?
    && (s.ws.Some? ==> s'.ws.value.readyState == s.ws.value.readyState)
  }

  /** The track the peer connection's first video sender currently sends. */
  function VideoSenderTrack(s: Session): Option<Track>
  {
    if s.pc.Some? then
      match FirstOfKind(s.pc.value.senders, Video)
      case None => None
      case Some(i) => Some(s.pc.value.senders[i])
    else None
  }

  /** The local stream's first video track, the camera. */
  function CameraTrack(s: Session): Option<Track>
  {
    match FirstOfKind(LocalTracks(s), Video)
    case None => None
    case Some(i) => Some(LocalTracks(s)[i])
  }

  // ---------------------------------------------------------------------------
  // The handlers, as functions of the session
  // ---------------------------------------------------------------------------

  /** `sendSignalingMessage`: written to the socket when it is open, silently dropped otherwise. */
  function Send(s: Session, m: Signal): (s': Session)
    ensures SentLog(s') == if SocketIsOpen(s) then SentLog(s) + [m] else SentLog(s)
    ensures !SocketIsOpen(s) ==> s' == s
    ensures s'.(ws := s.ws) == s
    ensures SocketIsOpen(s') == SocketIsOpen(s)
    ensures Coherent(s) ==> Coherent(s')
  {
    if SocketIsOpen(s) then s.(ws := Some(s.ws.value.(sent := s.ws.value.sent + [m]))) else s
  }

  /**
   * `handleSignalingMessage`. Without a peer connection nothing happens. An
   * offer becomes the remote description and the created answer the local
   * one, and the answer is sent; an answer only becomes the remote
   * description; a candidate only joins the pool; any other type is ignored.
   * Only an offer sends anything.
   */
  function HandleSignal(s: Session, msg: Signal, answerSdp: string): (s': Session)
    ensures s.pc.None? || msg.Unrecognized? ==> s' == s
    ensures SentLog(s') == if s.pc.Some? && msg.Offer? && SocketIsOpen(s) then SentLog(s) + [Answer(answerSdp)] else SentLog(s)
    ensures s'.(pc := s.pc, ws := s.ws) == s
    ensures SocketIsOpen(s') == SocketIsOpen(s) && KeepsSocket(s, s')
    ensures s.pc.Some? && msg.Offer? ==>
      s'.pc == Some(s.pc.value.(remoteDescription := Some(Description(OfferSdp, msg.sdp)),
                                localDescription := Some(Description(AnswerSdp, answerSdp))))
    ensures s.pc.Some? && msg.Answer? ==>
      s'.pc == Some(s.pc.value.(remoteDescription := Some(Description(AnswerSdp, msg.sdp)))) && s'.ws == s.ws
    ensures s.pc.Some? && msg.IceCandidate? ==>
      s'.pc == Some(s.pc.value.(candidates := s.pc.value.candidates + [msg.candidate])) && s'.ws == s.ws
    ensures Coherent(s) ==> Coherent(s')
  {
    if s.pc.None? then s
    else
      var pc := s.pc.value;
      match msg
      case Offer(sdp) =>
        var pc' := pc.(remoteDescription := Some(Description(OfferSdp, sdp)));
        var pc'' := pc'.(localDescription := Some(Description(AnswerSdp, answerSdp)));
        Send(s.(pc := Some(pc'')), Answer(answerSdp))
      case Answer(sdp) =>
        s.(pc := Some(pc.(remoteDescription := Some(Description(AnswerSdp, sdp)))))
      case IceCandidate(c) =>
        s.(pc := Some(pc.(candidates := pc.candidates + [c])))
      case Unrecognized(_) =>
        s
  }

  /** `initializeSignaling`: a new socket to the room, still connecting, with nothing sent. */
  function SignalingStarted(s: Session): (s': Session)
    ensures s'.ws == Some(Socket(SocketConnecting, [])) && !SocketIsOpen(s')
    ensures s'.(ws := s.ws) == s
    ensures Coherent(s) ==> Coherent(s')
  {
    s.(ws := Some(Socket(SocketConnecting, [])))
  }

  /** The socket's `open` event. */
  function SocketOpened(s: Session): (s': Session)
    ensures s.ws.Some? && s.ws.value.readyState == SocketConnecting ==> SocketIsOpen(s')
    ensures !(s.ws.Some? && s.ws.value.readyState == SocketConnecting) ==> s' == s
    ensures SentLog(s') == SentLog(s) && s'.(ws := s.ws) == s
    ensures Coherent(s) ==> Coherent(s')
  {
    if s.ws.Some? && s.ws.value.readyState == SocketConnecting
    then s.(ws := Some(s.ws.value.(readyState := SocketOpen)))
    else s
  }

  /** The socket's `close` event, whichever side closed it. */
  function SocketDropped(s: Session): (s': Session)
    ensures !SocketIsOpen(s') && SentLog(s') == SentLog(s) && s'.(ws := s.ws) == s
    ensures s.ws.Some? ==> s'.ws == Some(s.ws.value.(readyState := SocketClosed))
    ensures Coherent(s) ==> Coherent(s')
  {
    if s.ws.Some? then s.(ws := Some(s.ws.value.(readyState := SocketClosed))) else s
  }

  /** `ws.close()`: an open or connecting socket starts closing; a closing or closed one is left alone. */
  function CloseSocket(w: Socket): (w': Socket)
    ensures w'.readyState != SocketOpen && w'.sent == w.sent
    ensures w'.readyState in {SocketClosing, SocketClosed}
    ensures w.readyState in {SocketClosing, SocketClosed} ==> w' == w
  {
    match w.readyState
    case SocketConnecting | SocketOpen => w.(readyState := SocketClosing)
    case SocketClosing | SocketClosed => w
  }

  /**
   * `initializePeerConnection`: a fresh peer connection, with no descriptions
   * and no candidates, in state `new`, with one sender per local track.
   */
  function InitPeerConnection(s: Session): (s': Session)
    ensures s'.pc.Some? && s'.pc.value.localDescription.None? && s'.pc.value.remoteDescription.None?
    ensures s'.pc.value.candidates == [] && s'.pc.value.state == New && !s'.pc.value.closed
    ensures s'.pc.value.senders == LocalTracks(s)
    ensures s'.(pc := s.pc) == s
    ensures Coherent(s) ==> Coherent(s')
  {
    s.(pc := Some(PeerConnection(None, None, [], LocalTracks(s), New, false)))
  }

  /** The peer connection's `track` event: the remote stream arrives. */
  function OnTrack(s: Session, stream: MediaStream): (s': Session)
    ensures s'.remoteStream == Some(stream) && s'.(remoteStream := s.remoteStream) == s
    ensures Coherent(s) ==> Coherent(s')
  {
    s.(remoteStream := Some(stream))
  }

  /** The peer connection's `icecandidate` event; `None` is the end-of-candidates event, which sends nothing. */
  function OnIceCandidate(s: Session, candidate: Option<string>): (s': Session)
    ensures SentLog(s') == if candidate.Some? && SocketIsOpen(s) then SentLog(s) + [IceCandidate(candidate.value)] else SentLog(s)
    ensures s'.(ws := s.ws) == s
    ensures KeepsSocket(s, s')
    ensures Coherent(s) ==> Coherent(s')
  {
    if candidate.Some? then Send(s, IceCandidate(candidate.value)) else s
  }

  /**
   * The peer connection's `connectionstatechange` event after the browser
   * moved it to `state`: the hook copies the state and reports "connected"
   * exactly in the connected state.
   */
  function ConnectionStateChanged(s: Session, state: PcState): (s': Session)
    requires s.pc.Some?
    ensures s'.pc.Some? && s'.pc.value.state == state && s'.connectionState == state
    ensures s'.pc == Some(s.pc.value.(state := state))
    ensures s'.isConnected <==> state == Connected
    ensures s'.(pc := s.pc, connectionState := s.connectionState, isConnected := s.isConnected) == s
    ensures Coherent(s) ==> Coherent(s')
  {
    s.(pc := Some(s.pc.value.(state := state)), connectionState := state, isConnected := state == Connected)
  }

  /**
   * `createOffer`: with a peer connection, the created offer (`None` when the
   * browser failed to create or set it, an error the hook only logs) becomes
   * the local description and is sent.
   */
  function OfferMade(s: Session, offerSdp: Option<string>): (s': Session)
    ensures s.pc.None? || offerSdp.None? ==> s' == s
    ensures s.pc.Some? && offerSdp.Some? ==>
      && s'.pc == Some(s.pc.value.(localDescription := Some(Description(OfferSdp, offerSdp.value))))
      && SentLog(s') == (if SocketIsOpen(s) then SentLog(s) + [Offer(offerSdp.value)] else SentLog(s))
    ensures s'.(pc := s.pc, ws := s.ws) == s
    ensures KeepsSocket(s, s')
    ensures Coherent(s) ==> Coherent(s')
  {
    if s.pc.None? || offerSdp.None? then s
    else
      var pc := s.pc.value.(localDescription := Some(Description(OfferSdp, offerSdp.value)));
      Send(s.(pc := Some(pc)), Offer(offerSdp.value))
  }

  /** `startLocalMedia`: the stream `getUserMedia` produced, or nothing when it failed. */
  function LocalMediaStarted(s: Session, acquired: Option<MediaStream>): (s': Session)
    ensures acquired.Some? ==> s'.localStream == acquired
    ensures acquired.None? ==> s' == s
    ensures s'.(localStream := s.localStream) == s
    ensures Coherent(s) ==> Coherent(s')
  {
    if acquired.Some? then s.(localStream := acquired) else s
  }

  /**
   * The effect that runs when the local stream changes: with a local stream,
   * a peer connection is created and, for the initiator, an offer is made.
   */
  function LocalStreamEffect(s: Session, isInitiator: bool, offerSdp: Option<string>): (s': Session)
    ensures s.localStream.None? ==> s' == s
    ensures s.localStream.Some? ==>
      s'.pc == Some(PeerConnection(
        if isInitiator && offerSdp.Some? then Some(Description(OfferSdp, offerSdp.value)) else None,
        None, [], LocalTracks(s), New, false))
    ensures s.localStream.Some? && isInitiator && offerSdp.Some? ==>
      && s'.pc.value.localDescription == Some(Description(OfferSdp, offerSdp.value))
      && SentLog(s') == (if SocketIsOpen(s) then SentLog(s) + [Offer(offerSdp.value)] else SentLog(s))
    ensures !isInitiator || offerSdp.None? ==> SentLog(s') == SentLog(s)
    ensures s'.(pc := s.pc, ws := s.ws) == s
    ensures SocketIsOpen(s') == SocketIsOpen(s) && KeepsSocket(s, s')
    ensures Coherent(s) ==> Coherent(s')
  {
    if s.localStream.Some? then
      var s1 := InitPeerConnection(s);
      if isInitiator then OfferMade(s1, offerSdp) else s1
    else s
  }

  /**
   * `toggleAudio` / `toggleVideo`: the `enabled` flag of the local stream's
   * first track of kind `k` is negated; without a local stream or such a
   * track nothing happens. Nothing is sent.
   */
  function Toggle(s: Session, k: Kind): (s': Session)
    ensures forall t :: t in s'.disabled <==>
      (if s.localStream.Some? && FirstOfKind(LocalTracks(s), k).Some? && t == LocalTracks(s)[FirstOfKind(LocalTracks(s), k).value]
       then t !in s.disabled
       else t in s.disabled)
    ensures s'.(disabled := s.disabled) == s
    ensures Coherent(s) ==> Coherent(s')
  {
    if s.localStream.Some? then
      match FirstOfKind(s.localStream.value.tracks, k)
      case None => s
      case Some(i) =>
        var t := s.localStream.value.tracks[i];
        s.(disabled := if t in s.disabled then s.disabled - {t} else s.disabled + {t})
    else s
  }

  /** Toggling the same kind twice restores every flag. */
  lemma ToggleTwiceRestores(s: Session, k: Kind)
    ensures Toggle(Toggle(s, k), k) == s
  {
    var s2 := Toggle(Toggle(s, k), k);
    assert s2.disabled == s.disabled;
  }

  /**
   * `startScreenShare`, given the stream `getDisplayMedia` produced (`None`
   * when it failed, and nothing changes). With a peer connection and a local
   * stream, the first video sender switches to the screen's video track and
   * the hook reports screen sharing; otherwise nothing changes.
   */
  function ScreenShareStarted(s: Session, display: Option<MediaStream>): (s': Session)
    requires display.Some? ==> FirstOfKind(display.value.tracks, Video).Some?
    ensures display.None? || s.pc.None? || s.localStream.None? ==> s' == s
    ensures display.Some? && s.pc.Some? && s.localStream.Some? ==>
      && s'.isScreenSharing
      && (VideoSenderTrack(s).Some? ==>
            VideoSenderTrack(s') == Some(display.value.tracks[FirstOfKind(display.value.tracks, Video).value]))
      && (VideoSenderTrack(s).None? ==> s'.pc == s.pc)
      && s'.pc.Some?
      && ReplacesVideoSender(s.pc.value, s'.pc.value, display.value.tracks[FirstOfKind(display.value.tracks, Video).value])
    ensures s'.(pc := s.pc, isScreenSharing := s.isScreenSharing) == s
    ensures Coherent(s) ==> Coherent(s')
  {
    if display.Some? && s.pc.Some? && s.localStream.Some? then
      var screen := display.value.tracks[FirstOfKind(display.value.tracks, Video).value];
      var pc := s.pc.value;
      var sender := FirstOfKind(pc.senders, Video);
      if sender.Some? then
        FirstOfKindReplace(pc.senders, Video, sender.value, screen);
        s.(pc := Some(pc.(senders := pc.senders[sender.value := screen])), isScreenSharing := true)
      else
        s.(isScreenSharing := true)
    else s
  }

  /**
   * `stopScreenShare`: with a local stream and a peer connection, the first
   * video sender switches back to the camera track (when both exist) and the
   * hook stops reporting screen sharing; otherwise nothing changes.
   */
  function ScreenShareStopped(s: Session): (s': Session)
    ensures s.pc.None? || s.localStream.None? ==> s' == s
    ensures s.pc.Some? && s.localStream.Some? ==>
      && !s'.isScreenSharing
      && (VideoSenderTrack(s).Some? && CameraTrack(s).Some? ==> VideoSenderTrack(s') == CameraTrack(s))
      && (VideoSenderTrack(s).None? || CameraTrack(s).None? ==> s'.pc == s.pc)
      && s'.pc.Some?
      && (CameraTrack(s).Some? ==> ReplacesVideoSender(s.pc.value, s'.pc.value, CameraTrack(s).value))
    ensures s'.(pc := s.pc, isScreenSharing := s.isScreenSharing) == s
    ensures Coherent(s) ==> Coherent(s')
  {
    if s.localStream.Some? && s.pc.Some? then
      var pc := s.pc.value;
      var videoTrack := FirstOfKind(s.localStream.value.tracks, Video);
      var sender := FirstOfKind(pc.senders, Video);
      if sender.Some? && videoTrack.Some? then
        var camera := s.localStream.value.tracks[videoTrack.value];
        FirstOfKindReplace(pc.senders, Video, sender.value, camera);
        s.(pc := Some(pc.(senders := pc.senders[sender.value := camera])), isScreenSharing := false)
      else
        s.(isScreenSharing := false)
    else s
  }

  /**
   * `endCall`: every local track is stopped, the peer connection and the
   * socket are closed, both streams are dropped and the hook reports neither
   * a connection nor screen sharing. Nothing is sent and the reported
   * connection state is left as it was (closing fires no state event).
   */
  function CallEnded(s: Session): (s': Session)
    ensures s'.localStream.None? && s'.remoteStream.None? && !s'.isConnected && !s'.isScreenSharing
    ensures forall t :: t in s'.stopped <==> t in s.stopped || t in LocalTracks(s)
    ensures s.pc.Some? <==> s'.pc.Some?
    ensures s.pc.Some? ==> s'.pc.value.closed && s'.pc.value.state == Closed
    ensures (s.ws.Some? <==> s'.ws.Some?) && !SocketIsOpen(s') && SentLog(s') == SentLog(s)
    ensures s.ws.Some? ==> s'.ws == Some(CloseSocket(s.ws.value))
    ensures s.pc.Some? ==> s'.pc == Some(s.pc.value.(closed := true, state := Closed))
    ensures s'.connectionState == s.connectionState && s'.disabled == s.disabled
    ensures Coherent(s')
  {
    Session(
      None, None, false, s.connectionState, false,
      if s.pc.Some? then Some(s.pc.value.(closed := true, state := Closed)) else None,
      if s.ws.Some? then Some(CloseSocket(s.ws.value)) else None,
      s.disabled,
      s.stopped + (set t | t in LocalTracks(s)))
  }

  // ---------------------------------------------------------------------------
  // Properties over several handler runs
  // ---------------------------------------------------------------------------

  /** A second `endCall` changes nothing. */
  lemma EndCallIdempotent(s: Session)
    ensures CallEnded(CallEnded(s)) == CallEnded(s)
  {
    var once := CallEnded(s);
    assert once.stopped + (set t | t in LocalTracks(once)) == once.stopped;
    if once.ws.Some? {
      assert CloseSocket(once.ws.value) == once.ws.value;
    }
  }

  /**
   * The cleanup of the signalling effect, as written. The effect is keyed on
   * the room id, so on unmount it calls the `endCall` of the render that ran
   * it, whose `localStream` was the one of that render: `null` on the first
   * render. No track is stopped; the peer connection and the socket, reached
   * through refs, are closed.
   */
  function UnmountAsWritten(s: Session): (s': Session)
    ensures s'.stopped == s.stopped
    ensures s.pc.Some? ==> s'.pc.Some? && s'.pc.value.closed
    ensures !SocketIsOpen(s') && SentLog(s') == SentLog(s)
    ensures s.ws.Some? ==> s'.ws == Some(CloseSocket(s.ws.value))
  {
    CallEnded(s.(localStream := None))
  }

  /** Leaving the page as written leaves every camera and microphone track that was live still live. */
  lemma UnmountLeavesTracksLive(s: Session)
    ensures forall t :: t in LocalTracks(s) && t !in s.stopped ==> t !in UnmountAsWritten(s).stopped
  {
  }

  /**
   * A cleanup that reaches the current `endCall`, as evidently intended,
   * stops every local track besides closing the peer connection and the
   * socket.
   */
  lemma UnmountStopsTracks(s: Session)
    ensures forall t :: t in LocalTracks(s) ==> t in CallEnded(s).stopped
    ensures s.pc.Some? ==> CallEnded(s).pc.value.closed
    ensures !SocketIsOpen(CallEnded(s))
    ensures s.ws.Some? ==> CallEnded(s).ws == Some(CloseSocket(s.ws.value))
  {
  }

  /**
   * Once `endCall` has closed the socket, no later `open` event reopens it,
   * so nothing sent afterwards reaches the log, whether or not the `close`
   * event has arrived yet.
   */
  lemma NoSendAfterEndCall(s: Session, m: Signal, dropped: bool)
    ensures var e := CallEnded(s);
      var later := if dropped then SocketDropped(e) else e;
      && !SocketIsOpen(SocketOpened(later))
      && SentLog(Send(SocketOpened(later), m)) == SentLog(s)
  {
    var e := CallEnded(s);
    if e.ws.Some? {
      assert e.ws.value.readyState in {SocketClosing, SocketClosed};
    }
  }

  /** A fresh peer connection sends the camera track on its first video sender. */
  lemma InitSendsCamera(s: Session)
    ensures VideoSenderTrack(InitPeerConnection(s)) == CameraTrack(s)
  {
  }

  /**
   * Screen sharing that ends (by `stopScreenShare` or by the screen track
   * ending) puts the camera track back on the video sender, clears the flag
   * and leaves the connection state alone.
   */
  lemma ScreenShareEndRestoresCamera(s: Session, display: MediaStream)
    requires FirstOfKind(display.tracks, Video).Some?
    requires s.pc.Some? && s.localStream.Some?
    requires VideoSenderTrack(s).Some? && CameraTrack(s).Some?
    ensures var after := ScreenShareStopped(ScreenShareStarted(s, Some(display)));
      && VideoSenderTrack(after) == CameraTrack(s)
      && !after.isScreenSharing
      && after.connectionState == s.connectionState && after.isConnected == s.isConnected
  {
  }

  /**
   * When the video sender sends the camera and the screen is not shared,
   * sharing the screen and ending the share restores the session exactly.
   */
  lemma ScreenShareRoundTrip(s: Session, display: MediaStream)
    requires FirstOfKind(display.tracks, Video).Some?
    requires s.pc.Some? && s.localStream.Some? && !s.isScreenSharing
    requires VideoSenderTrack(s) == CameraTrack(s)
    ensures ScreenShareStopped(ScreenShareStarted(s, Some(display))) == s
  {
    var senders := s.pc.value.senders;
    match FirstOfKind(senders, Video)
    case None =>
    case Some(i) =>
      var screen := display.tracks[FirstOfKind(display.tracks, Video).value];
      var started := ScreenShareStarted(s, Some(display));
      assert started.pc.value.senders == senders[i := screen];
      FirstOfKindReplace(senders, Video, i, screen);
      var camera := senders[i];
      assert CameraTrack(s) == Some(camera);
      assert ScreenShareStopped(started).pc.value.senders == senders[i := screen][i := camera];
      assert senders[i := screen][i := camera] == senders;
  }

  /**
   * The offer/answer exchange between two sessions with peer connections and
   * open sockets: the initiator's offer is sent, the other side answers it,
   * and once the answer is handled each side holds its own description as
   * local and the other's as remote.
   */
  lemma OfferAnswerExchange(a: Session, b: Session, offerSdp: string, answerSdp: string)
    requires a.pc.Some? && b.pc.Some? && SocketIsOpen(a) && SocketIsOpen(b)
    ensures var a1 := OfferMade(a, Some(offerSdp));
      var b1 := HandleSignal(b, Offer(offerSdp), answerSdp);
      var a2 := HandleSignal(a1, Answer(answerSdp), answerSdp);
      && SentLog(a1) == SentLog(a) + [Offer(offerSdp)]
      && SentLog(b1) == SentLog(b) + [Answer(answerSdp)]
      && SentLog(a2) == SentLog(a1)
      && a2.pc.value.localDescription == Some(Description(OfferSdp, offerSdp))
      && a2.pc.value.remoteDescription == Some(Description(AnswerSdp, answerSdp))
      && b1.pc.value.localDescription == Some(Description(AnswerSdp, answerSdp))
      && b1.pc.value.remoteDescription == Some(Description(OfferSdp, offerSdp))
  {
  }

  // ---------------------------------------------------------------------------
  // Re-rendering and the initiator effect
  // ---------------------------------------------------------------------------

  /**
   * A render of the hook as written. The initiator effect lists
   * `initializePeerConnection` among its dependencies, and that callback
   * depends on `config`, an object literal rebuilt on every render, so the
   * effect runs again after every render that has a local stream: a fresh
   * peer connection replaces the current one each time.
   */
  function RenderAsWritten(s: Session, isInitiator: bool, offerSdp: Option<string>): (s': Session)
    ensures s.localStream.Some? ==>
      && s'.pc.Some? && s'.pc.value.state == New && s'.pc.value.remoteDescription.None?
      && s'.pc.value.candidates == [] && !s'.pc.value.closed
    ensures s.localStream.None? ==> s' == s
    ensures s'.(pc := s.pc, ws := s.ws) == s
  {
    LocalStreamEffect(s, isInitiator, offerSdp)
  }

  /**
   * The re-render that follows a connection-state event discards the
   * negotiated connection: the hook reports "connected" while its peer
   * connection is a fresh one, in state `new`, with no remote description.
   */
  lemma RerenderDiscardsConnection(s: Session, isInitiator: bool, offerSdp: Option<string>)
    requires s.pc.Some? && s.localStream.Some?
    ensures var after := RenderAsWritten(ConnectionStateChanged(s, Connected), isInitiator, offerSdp);
      && after.isConnected && after.connectionState == Connected
      && after.pc.value.state == New && after.pc.value.remoteDescription.None?
  {
  }

  /**
   * A render with the effect keyed on the local stream alone, as evidently
   * intended: the effect runs only when the local stream differs from the one
   * of the previous render.
   */
  function Render(s: Session, previous: Option<MediaStream>, isInitiator: bool, offerSdp: Option<string>): (s': Session)
    ensures s.localStream == previous ==> s' == s
    ensures s.localStream != previous && s.localStream.Some? ==> s'.pc.Some? && s'.pc.value.senders == LocalTracks(s)
    ensures Coherent(s) ==> Coherent(s')
  {
    if s.localStream != previous then LocalStreamEffect(s, isInitiator, offerSdp) else s
  }

  /**
   * With the effect keyed on the local stream, a connection-state event and
   * the re-render after it keep the peer connection, its descriptions and
   * the state it reached.
   */
  lemma RerenderKeepsConnection(s: Session, state: PcState, isInitiator: bool, offerSdp: Option<string>)
    requires s.pc.Some?
    ensures var event := ConnectionStateChanged(s, state);
      var after := Render(event, s.localStream, isInitiator, offerSdp);
      && after.pc.Some? && after.pc.value.state == state && after.connectionState == state
      && after.pc.value.localDescription == s.pc.value.localDescription
      && after.pc.value.remoteDescription == s.pc.value.remoteDescription
      && (after.isConnected <==> state == Connected)
  {
  }

  // ---------------------------------------------------------------------------
  // The hook
  // ---------------------------------------------------------------------------

  /** One instance of the hook: its state variables and refs, and its handlers. */
  class Negotiator {
    const isInitiator: bool
    var localStream: Option<MediaStream>
    var remoteStream: Option<MediaStream>
    var isConnected: bool
    var connectionState: PcState
    var isScreenSharing: bool
    /** `peerConnectionRef.current`. */
    var peerConnection: Option<PeerConnection>
    /** `wsRef.current`. */
    var socket: Option<Socket>
    /** Local tracks whose `enabled` flag is false. */
    var disabled: set<Track>
    /** Tracks on which `stop()` was called. */
    var stopped: set<Track>

    function Snapshot(): Session
      reads this
    {
      Session(localStream, remoteStream, isConnected, connectionState, isScreenSharing,
              peerConnection, socket, disabled, stopped)
    }

    ghost predicate Valid()
      reads this
    {
      Coherent(Snapshot())
    }

    constructor (isInitiator: bool)
      ensures Valid() && Snapshot() == Initial && this.isInitiator == isInitiator
    {
      this.isInitiator := isInitiator;
      localStream, remoteStream := None, None;
      isConnected, connectionState, isScreenSharing := false, New, false;
      peerConnection, socket := None, None;
      disabled, stopped := {}, {};
    }

    method SendSignalingMessage(m: Signal)
      requires Valid()
      modifies this
      ensures Valid() && Snapshot() == Send(old(Snapshot()), m)
    {
      if socket.Some? && socket.value.readyState == SocketOpen {
        socket := Some(socket.value.(sent := socket.value.sent + [m]));
      }
    }

    /** `handleSignalingMessage`; `answerSdp` is the answer the browser creates for an offer. */
    method HandleSignalingMessage(msg: Signal, answerSdp: string)
      requires Valid()
      modifies this
      ensures Valid() && Snapshot() == HandleSignal(old(Snapshot()), msg, answerSdp)
    {
      if peerConnection.None? {
        return;
      }
      match msg {
        case Offer(sdp) =>
          peerConnection := Some(peerConnection.value.(remoteDescription := Some(Description(OfferSdp, sdp))));
          peerConnection := Some(peerConnection.value.(localDescription := Some(Description(AnswerSdp, answerSdp))));
          SendSignalingMessage(Answer(answerSdp));
        case Answer(sdp) =>
          peerConnection := Some(peerConnection.value.(remoteDescription := Some(Description(AnswerSdp, sdp))));
        case IceCandidate(c) =>
          peerConnection := Some(peerConnection.value.(candidates := peerConnection.value.candidates + [c]));
        case Unrecognized(_) =>
      }
    }

    method InitializeSignaling()
      requires Valid()
      modifies this
      ensures Valid() && Snapshot() == SignalingStarted(old(Snapshot()))
    {
      socket := Some(Socket(SocketConnecting, []));
    }

    method OnSocketOpen()
      requires Valid()
      modifies this
      ensures Valid() && Snapshot() == SocketOpened(old(Snapshot()))
    {
      if socket.Some? && socket.value.readyState == SocketConnecting {
        socket := Some(socket.value.(readyState := SocketOpen));
      }
    }

    method OnSocketClose()
      requires Valid()
      modifies this
      ensures Valid() && Snapshot() == SocketDropped(old(Snapshot()))
    {
      if socket.Some? {
        socket := Some(socket.value.(readyState := SocketClosed));
      }
    }

    /** `initializePeerConnection`, with its loop adding every local track to the new connection. */
    method InitializePeerConnection()
      requires Valid()
      modifies this
      ensures Valid() && Snapshot() == InitPeerConnection(old(Snapshot()))
    {
      var senders: seq<Track> := [];
      if localStream.Some? {
        var tracks := localStream.value.tracks;
        for i := 0 to |tracks|
          invariant senders == tracks[..i]
        {
          senders := senders + [tracks[i]];
        }
        assert tracks[..|tracks|] == tracks;
      }
      peerConnection := Some(PeerConnection(None, None, [], senders, New, false));
    }

    method HandleTrack(stream: MediaStream)
      requires Valid()
      modifies this
      ensures Valid() && Snapshot() == OnTrack(old(Snapshot()), stream)
    {
      remoteStream := Some(stream);
    }

    method HandleIceCandidate(candidate: Option<string>)
      requires Valid()
      modifies this
      ensures Valid() && Snapshot() == OnIceCandidate(old(Snapshot()), candidate)
    {
      if candidate.Some? {
        SendSignalingMessage(IceCandidate(candidate.value));
      }
    }

    method HandleConnectionStateChange(state: PcState)
      requires Valid() && peerConnection.Some?
      modifies this
      ensures Valid() && Snapshot() == ConnectionStateChanged(old(Snapshot()), state)
    {
      peerConnection := Some(peerConnection.value.(state := state));
      connectionState := state;
      isConnected := state == Connected;
    }

    method CreateOffer(offerSdp: Option<string>)
      requires Valid()
      modifies this
      ensures Valid() && Snapshot() == OfferMade(old(Snapshot()), offerSdp)
    {
      if peerConnection.None? || offerSdp.None? {
        return;
      }
      peerConnection := Some(peerConnection.value.(localDescription := Some(Description(OfferSdp, offerSdp.value))));
      SendSignalingMessage(Offer(offerSdp.value));
    }

    /** `startLocalMedia`; reports whether `getUserMedia` succeeded (its error is rethrown otherwise). */
    method StartLocalMedia(acquired: Option<MediaStream>) returns (ok: bool)
      requires Valid()
      modifies this
      ensures Valid() && Snapshot() == LocalMediaStarted(old(Snapshot()), acquired)
      ensures ok <==> acquired.Some?
    {
      ok := acquired.Some?;
      if ok {
        localStream := acquired;
      }
    }

    /** The effect keyed on the local stream: set up the peer connection and, for the initiator, offer. */
    method OnLocalStreamChange(offerSdp: Option<string>)
      requires Valid()
      modifies this
      ensures Valid() && Snapshot() == LocalStreamEffect(old(Snapshot()), isInitiator, offerSdp)
    {
      if localStream.Some? {
        InitializePeerConnection();
        if isInitiator {
          CreateOffer(offerSdp);
        }
      }
    }

    method ToggleAudio()
      requires Valid()
      modifies this
      ensures Valid() && Snapshot() == Toggle(old(Snapshot()), Audio)
    {
      ToggleFirst(Audio);
    }

    method ToggleVideo()
      requires Valid()
      modifies this
      ensures Valid() && Snapshot() == Toggle(old(Snapshot()), Video)
    {
      ToggleFirst(Video);
    }

    method ToggleFirst(k: Kind)
      requires Valid()
      modifies this
      ensures Valid() && Snapshot() == Toggle(old(Snapshot()), k)
    {
      if localStream.Some? {
        var i := FirstOfKind(localStream.value.tracks, k);
        if i.Some? {
          var track := localStream.value.tracks[i.value];
          if track in disabled {
            disabled := disabled - {track};
          } else {
            disabled := disabled + {track};
          }
        }
      }
    }

    /** `startScreenShare`; reports whether `getDisplayMedia` succeeded. */
    method StartScreenShare(display: Option<MediaStream>) returns (ok: bool)
      requires Valid()
      requires display.Some? ==> FirstOfKind(display.value.tracks, Video).Some?
      modifies this
      ensures Valid() && Snapshot() == ScreenShareStarted(old(Snapshot()), display)
      ensures ok <==> display.Some?
    {
      ok := display.Some?;
      if !ok {
        return;
      }
      if peerConnection.Some? && localStream.Some? {
        var tracks := display.value.tracks;
        var videoTrack := tracks[FirstOfKind(tracks, Video).value];
        var sender := FirstOfKind(peerConnection.value.senders, Video);
        if sender.Some? {
          peerConnection := Some(peerConnection.value.(senders := peerConnection.value.senders[sender.value := videoTrack]));
        }
        isScreenSharing := true;
      }
    }

    method StopScreenShare()
      requires Valid()
      modifies this
      ensures Valid() && Snapshot() == ScreenShareStopped(old(Snapshot()))
    {
      if localStream.Some? && peerConnection.Some? {
        var videoTrack := FirstOfKind(localStream.value.tracks, Video);
        var sender := FirstOfKind(peerConnection.value.senders, Video);
        if sender.Some? && videoTrack.Some? {
          var camera := localStream.value.tracks[videoTrack.value];
          peerConnection := Some(peerConnection.value.(senders := peerConnection.value.senders[sender.value := camera]));
        }
        isScreenSharing := false;
      }
    }

    /** The screen track's `ended` event, whose handler is `stopScreenShare`. */
    method OnScreenTrackEnded()
      requires Valid()
      modifies this
      ensures Valid() && Snapshot() == ScreenShareStopped(old(Snapshot()))
    {
      StopScreenShare();
    }

    /** `endCall`, with its loop stopping every local track. */
    method EndCall()
      requires Valid()
      modifies this
      ensures Valid() && Snapshot() == CallEnded(old(Snapshot()))
    {
      if localStream.Some? {
        var tracks := localStream.value.tracks;
        var halted := stopped;
        for i := 0 to |tracks|
          invariant halted == stopped + (set t | t in tracks[..i])
        {
          assert tracks[..i + 1] == tracks[..i] + [tracks[i]];
          halted := halted + {tracks[i]};
        }
        assert tracks[..|tracks|] == tracks;
        stopped := halted;
      }
      if peerConnection.Some? {
        peerConnection := Some(peerConnection.value.(closed := true, state := Closed));
      }
      if socket.Some? {
        socket := Some(CloseSocket(socket.value));
      }
      localStream := None;
      remoteStream := None;
      isConnected := false;
      isScreenSharing := false;
    }
  }
}
