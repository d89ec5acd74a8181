/** The client session of video.js as a pure state machine: one transition
    function per handler, over a value that holds every module global the
    handlers change. The class VideoSession.Session carries out the same
    transitions in place; this module says what each of them computes. */
module Negotiation {
  import opened JsonValue
  import opened Protocol
  import opened Media
  import Status
  import Text

  /** `ws`: null, a socket whose readyState is OPEN, or one that is not
      (closing or closed). */
  datatype Socket = NoSocket | Open | NotOpen

  datatype SdpKind = Offer | Answer

  /** A local session description as createOffer or createAnswer makes it. */
  datatype SessionDescription = SessionDescription(kind: SdpKind, sdp: string)

  /** The part of an RTCPeerConnection the handlers read and write:
      localDescription, remoteDescription, the "description already sent"
      flag, and the candidates passed to addIceCandidate, in order. */
  datatype Peer = Peer(local: Option<SessionDescription>, remote: Option<Json>,
                       sentDescription: bool, applied: seq<Json>)

  datatype Sender = You | Stranger

  /** One line addMessage appends to the messages box. */
  datatype ChatLine = ChatLine(sender: Sender, text: string)

  /** RTCPeerConnection.iceConnectionState. */
  datatype IceState =
    IceNew | IceChecking | IceConnected | IceCompleted | IceFailed | IceDisconnected | IceClosed

  /** What initializeConnection learns from outside: whether the new socket
      opens, whether the RTCPeerConnection constructor succeeds, and the
      interest tags and Twitter handle the page supplies. */
  datatype Redial = Redial(socketOpens: bool, peerCreated: bool, interests: seq<string>, twitter: string)

  /** Outcomes of the calls a socket message can trigger: the SDP of
      createOffer and createAnswer, and a redial. */
  datatype External = External(offerSdp: string, answerSdp: string, redial: Redial)

  /** The module globals. `status` and `chat` are the messages box: a status
      update replaces its contents, a chat line is appended. `input` is the
      message box value, `tracks` the local stream (None while null), and
      `pendingDemo` the number of scheduled simulateConnection timers. */
  datatype State = State(
    ws: Socket,
    pc: Option<Peer>,
    isConnected: bool,
    isMuted: bool,
    isVideoOff: bool,
    tracks: Option<seq<Track>>,
    outbox: seq<Envelope>,
    status: string,
    chat: seq<ChatLine>,
    input: string,
    pendingDemo: nat)

  const Initial: State := State(NoSocket, None, false, false, false, None, [], "", [], "", 0)

  const LookingStatus: string := "Looking for someone to video chat with..."
  const FailedStatus: string := "Connection failed. Please try again."

  /** The peer connection initializePeerConnection creates: nothing set,
      nothing sent, nothing applied. */
  const FreshPeer: Peer := Peer(None, None, false, [])

  /** The JSON of a local description (null when none is set). */
  function DescriptionJson(d: Option<SessionDescription>): Json {
    match d
    case None => JNull
    case Some(SessionDescription(kind, sdp)) =>
      JObj([("type", JStr(if kind == Offer then "offer" else "answer")), ("sdp", JStr(sdp))])
  }

  /** The payload of the `match` request. */
  function MatchRequest(interests: seq<string>, twitter: string): Json {
    JObj([("data", JStr("video")),
          ("interests", JArr(StringItems(interests))),
          ("twitter", JStr(twitter))])
  }

  // ---- sendWebSocketMessage and updateStatus ----

  /** sendWebSocketMessage: the envelope goes out only through an open socket. */
  function Send(s: State, c: Channel, data: Json): State {
    if s.ws == Open then s.(outbox := s.outbox + [Envelope(Name(c), data)]) else s
  }

  /** updateStatus: the messages box holds the status line alone. */
  function UpdateStatus(s: State, msg: string): State {
    s.(status := msg, chat := [])
  }

  // ---- initializeConnection ----

  /** initializeConnection: show the searching status, replace the socket,
      replace the peer connection, then ask for a match (or, without a
      socket, schedule a demo match). A failing RTCPeerConnection constructor
      leaves the old peer connection and shows the failure status. */
  function InitializeConnection(s: State, r: Redial): State {
    var s1 := UpdateStatus(s, LookingStatus).(ws := if r.socketOpens then Open else NoSocket);
    if !r.peerCreated then
      UpdateStatus(s1, FailedStatus)
    else
      var s2 := s1.(pc := Some(FreshPeer));
      if s2.ws != NoSocket then Send(s2, Match, MatchRequest(r.interests, r.twitter))
      else s2.(pendingDemo := s2.pendingDemo + 1)
  }

  // ---- the socket handlers ----

  /** handlePeerConnected */
  function PeerConnected(s: State, data: Json): State {
    UpdateStatus(s, Status.StatusLine(data)).(isConnected := true)
  }

  /** handleBeginCall: createOffer and setLocalDescription. */
  function BeginCall(s: State, offerSdp: string): State {
    if s.pc.None? then s
    else s.(pc := Some(s.pc.value.(local := Some(SessionDescription(Offer, offerSdp)))))
  }

  /** handleDescription: setRemoteDescription, then createAnswer and
      setLocalDescription only when no local description is set yet. */
  function ReceiveDescription(s: State, data: Json, answerSdp: string): State {
    if s.pc.None? then s
    else
      var p := s.pc.value.(remote := Some(data));
      s.(pc := Some(if p.local.None? then p.(local := Some(SessionDescription(Answer, answerSdp))) else p))
  }

  /** handleIceCandidate: addIceCandidate at once, with no buffering. */
  function ReceiveCandidate(s: State, data: Json): State {
    if s.pc.None? then s
    else s.(pc := Some(s.pc.value.(applied := s.pc.value.applied + [data])))
  }

  /** handleMessage: a truthy payload becomes a stranger's chat line. */
  function ReceiveMessage(s: State, msg: Json): State {
    if Falsy(msg) then s else s.(chat := s.chat + [ChatLine(Stranger, JsText(msg))])
  }

  /** handleDisconnect: close and drop the peer connection, clear the
      connected flag, and start a new connection attempt. */
  function PeerDisconnected(s: State, r: Redial): State {
    InitializeConnection(s.(pc := None, isConnected := false), r)
  }

  /** The case of handleWebSocketMessage for channel c; handleTyping only
      changes the typing indicator, which is not part of the state. */
  function Handle(s: State, c: Channel, data: Json, x: External): State {
    match c
    case Connected => PeerConnected(s, data)
    case Begin => BeginCall(s, x.offerSdp)
    case Description => ReceiveDescription(s, data, x.answerSdp)
    case IceCandidate => ReceiveCandidate(s, data)
    case Message => ReceiveMessage(s, data)
    case Typing => s
    case Disconnect => PeerDisconnected(s, x.redial)
    case Match => s
    case PeopleOnline => s
  }

  /** handleWebSocketMessage: the case Route picks, or the default branch,
      which only logs. */
  function Dispatch(s: State, e: Envelope, x: External): State {
    match Route(e.channel)
    case None => s
    case Some(c) => Handle(s, c, e.data, x)
  }

  /** ws.onmessage: `parsed` is the outcome of JSON.parse, None when it throws. */
  function ReceiveSocketMessage(s: State, parsed: Option<Json>, x: External): State {
    if parsed.None? then s
    else
      match Decode(parsed.value)
      case None => s
      case Some(e) => Dispatch(s, e, x)
  }

  // ---- the peer connection handlers ----

  /** pc.onicecandidate: before the first candidate the local description is
      sent once; every candidate is forwarded; the end-of-candidates event
      (null) sends nothing. With no peer connection the handler throws. */
  function IceCandidateFound(s: State, candidate: Option<Json>): State {
    if candidate.None? || s.pc.None? then s
    else
      var p := s.pc.value;
      var s1 := if !p.sentDescription
                then Send(s.(pc := Some(p.(sentDescription := true))), Description, DescriptionJson(p.local))
                else s;
      Send(s1, IceCandidate, candidate.value)
  }

  /** pc.oniceconnectionstatechange: a lost connection starts a new
      connection attempt (without closing the old peer connection or
      clearing the connected flag). */
  function IceStateChanged(s: State, st: IceState, r: Redial): State {
    if s.pc.None? then s
    else if st == IceDisconnected || st == IceClosed then InitializeConnection(s, r)
    else s
  }

  // ---- the socket itself and timers ----

  /** The socket closes underneath the client (no handler runs). */
  function SocketClosed(s: State): State {
    if s.ws == Open then s.(ws := NotOpen) else s
  }

  /** The body of the keepalive interval. */
  function KeepaliveTick(s: State): State {
    if s.ws == Open then Send(s, PeopleOnline, JNull) else s
  }

  /** simulateConnection, run by a scheduled demo timer. */
  function DemoMatch(s: State): State
    requires s.pendingDemo > 0
  {
    UpdateStatus(s, Status.Base).(isConnected := true, pendingDemo := s.pendingDemo - 1)
  }

  // ---- controls called by the page ----

  /** videoStart: with camera and microphone granted, keep the stream and
      start connecting; when getUserMedia is refused nothing changes. */
  function VideoStart(s: State, media: Option<seq<Track>>, r: Redial): State {
    if media.None? then s else InitializeConnection(s.(tracks := media), r)
  }

  /** videoSkip: ask the server to disconnect, or without a socket schedule
      a demo match. */
  function Skip(s: State): State {
    if s.ws != NoSocket then Send(s, Disconnect, JNull)
    else s.(pendingDemo := s.pendingDemo + 1)
  }

  /** videoMuteToggle */
  function MuteToggle(s: State, muted: bool): State {
    s.(isMuted := muted,
       tracks := if s.tracks.Some? then Some(WithEnabled(s.tracks.value, Audio, !muted)) else None)
  }

  /** videoToggle */
  function VideoToggle(s: State, videoOff: bool): State {
    s.(isVideoOff := videoOff,
       tracks := if s.tracks.Some? then Some(WithEnabled(s.tracks.value, Video, !videoOff)) else None)
  }

  /** The user edits the message box. */
  function InputChanged(s: State, text: string): State {
    s.(input := text)
  }

  /** sendMessage of setupChat. */
  function SendMessage(s: State): State {
    var msg := Text.Trim(s.input);
    if msg == [] || !s.isConnected then s else Post(s, msg)
  }

  /** The part of sendMessage past its guard: show the message as "you",
      clear the box, send the escaped text, then end typing. */
  function Post(s: State, msg: string): State {
    var s1 := s.(chat := s.chat + [ChatLine(You, msg)], input := "");
    var s2 := if s1.ws != NoSocket then Send(s1, Message, JStr(Text.Escape(msg))) else s1;
    if s2.ws != NoSocket then Send(s2, Typing, JBool(false)) else s2
  }

  /** `typing false`: sent by Enter in the keydown listener and by the
      debounce timer the keyup listener restarts once the user stops typing. */
  function TypingIdle(s: State): State {
    if s.ws != NoSocket then Send(s, Typing, JBool(false)) else s
  }

  /** The keydown listener of the message box: Enter ends typing and sends,
      any other key announces typing. */
  function KeyDown(s: State, enter: bool): State {
    if enter then SendMessage(TypingIdle(s))
    else if s.ws != NoSocket then Send(s, Typing, JBool(true))
    else s
  }

  // ---- every event in one place ----

  datatype Event =
    | OnSocketMessage(parsed: Option<Json>, ext: External)
    | OnIceCandidate(candidate: Option<Json>)
    | OnIceStateChange(state: IceState, redial: Redial)
    | OnSocketClose
    | OnKeepalive
    | OnDemoTimer
    | OnVideoStart(media: Option<seq<Track>>, startRedial: Redial)
    | OnSkip
    | OnMuteToggle(muted: bool)
    | OnVideoToggle(videoOff: bool)
    | OnInput(text: string)
    | OnKeyDown(enter: bool)
    | OnSendClick
    | OnTypingTimer

  /** One event. A demo timer fires only when one is scheduled. */
  function Step(s: State, e: Event): State {
    match e
    case OnSocketMessage(parsed, x) => ReceiveSocketMessage(s, parsed, x)
    case OnIceCandidate(c) => IceCandidateFound(s, c)
    case OnIceStateChange(st, r) => IceStateChanged(s, st, r)
    case OnSocketClose => SocketClosed(s)
    case OnKeepalive => KeepaliveTick(s)
    case OnDemoTimer => if s.pendingDemo > 0 then DemoMatch(s) else s
    case OnVideoStart(m, r) => VideoStart(s, m, r)
    case OnSkip => Skip(s)
    case OnMuteToggle(m) => MuteToggle(s, m)
    case OnVideoToggle(v) => VideoToggle(s, v)
    case OnInput(t) => InputChanged(s, t)
    case OnKeyDown(enter) => KeyDown(s, enter)
    case OnSendClick => SendMessage(s)
    case OnTypingTimer => TypingIdle(s)
  }

  /** Events handled one after another, each one atomically. */
  function Run(s: State, events: seq<Event>): State
    decreases |events|
  {
    if events == [] then s else Run(Step(s, events[0]), events[1..])
  }
}
