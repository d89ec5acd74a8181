/** The client of video.js as it runs: the module globals become the fields
    of one Session object, the RTCPeerConnection the fields of a
    PeerConnection object, and each socket, peer-connection or page callback
    a method that changes them in place. Every method is proved to do what
    the matching transition of module Negotiation computes. */
module VideoSession {
  import opened JsonValue
  import opened Protocol
  import opened Media
  import opened Negotiation
  import Status
  import Text

  /** The state of an RTCPeerConnection the handlers read and write. */
  class PeerConnection {
    var localDescription: Option<SessionDescription>
    var remoteDescription: Option<Json>
    /** Set on creation and never read again. */
    var sentDescription: bool
    /** The flag the candidate handler tests and sets. On creation it is not
        set at all (undefined), which the handler reads as false. */
    var sentRemoteDescription: bool
    /** The candidates passed to addIceCandidate, in order. */
    var appliedCandidates: seq<Json>
    var closed: bool

    function View(): Peer
      reads this
    {
      Peer(localDescription, remoteDescription, sentRemoteDescription, appliedCandidates)
    }

    /** `new RTCPeerConnection(iceConfig)` followed by `pc.sentDescription = false`. */
    constructor ()
      ensures View() == FreshPeer && !closed && !sentDescription
    {
      localDescription := None;
      remoteDescription := None;
      sentDescription := false;
      sentRemoteDescription := false;
      appliedCandidates := [];
      closed := false;
    }

    /** pc.close() */
    method Close()
      modifies this
      ensures closed && View() == old(View())
    {
      closed := true;
    }
  }

  class Session {
    var ws: Socket
    var pc: PeerConnection?
    var localStream: array?<Track>
    var isConnected: bool
    var isMuted: bool
    var isVideoOff: bool
    /** Every envelope handed to ws.send, in order. */
    var outbox: seq<Envelope>
    var status: string
    var chat: seq<ChatLine>
    /** The value of the message input box. */
    var input: string
    /** simulateConnection timers scheduled and not yet run. */
    var pendingDemo: nat

    /** The state as a value. */
    function View(): State
      reads this, pc, localStream
    {
      State(ws, if pc == null then None else Some(pc.View()), isConnected, isMuted, isVideoOff,
            if localStream == null then None else Some(localStream[..]),
            outbox, status, chat, input, pendingDemo)
    }

    /** The globals as the script loads. */
    constructor ()
      ensures View() == Initial
    {
      ws := NoSocket;
      pc := null;
      localStream := null;
      isConnected, isMuted, isVideoOff := false, false, false;
      outbox, status, chat, input := [], "", [], "";
      pendingDemo := 0;
    }

    /** sendWebSocketMessage(channel, data = null) */
    method SendWebSocketMessage(c: Channel, data: Json)
      modifies this
      ensures View() == Send(old(View()), c, data)
      ensures pc == old(pc)
    {
      if ws == Open {
        outbox := outbox + [Envelope(Name(c), data)];
      }
    }

    /** updateStatus(message) */
    method UpdateStatus(msg: string)
      modifies this
      ensures View() == Negotiation.UpdateStatus(old(View()), msg)
    {
      status := msg;
      chat := [];
    }

    /** initializeConnection(), each awaited step taken atomically. */
    method InitializeConnection(r: Redial)
      modifies this
      ensures View() == Negotiation.InitializeConnection(old(View()), r)
      ensures r.peerCreated ==> fresh(pc)
    {
      UpdateStatus(LookingStatus);
      ws := if r.socketOpens then Open else NoSocket;
      if !r.peerCreated {
        UpdateStatus(FailedStatus);
        return;
      }
      pc := new PeerConnection();
      if ws != NoSocket {
        SendWebSocketMessage(Match, MatchRequest(r.interests, r.twitter));
      } else {
        pendingDemo := pendingDemo + 1;
      }
    }

    /** handlePeerConnected(data) */
    method HandlePeerConnected(data: Json)
      modifies this
      ensures View() == PeerConnected(old(View()), data)
    {
      UpdateStatus(Status.StatusLine(data));
      isConnected := true;
    }

    /** handleBeginCall() */
    method HandleBeginCall(offerSdp: string)
      modifies pc
      ensures View() == BeginCall(old(View()), offerSdp)
    {
      if pc == null {
        return;
      }
      pc.localDescription := Some(SessionDescription(Offer, offerSdp));
    }

    /** handleDescription(data) */
    method HandleDescription(data: Json, answerSdp: string)
      modifies pc
      ensures View() == ReceiveDescription(old(View()), data, answerSdp)
    {
      if pc == null {
        return;
      }
      pc.remoteDescription := Some(data);
      if pc.localDescription.None? {
        pc.localDescription := Some(SessionDescription(Answer, answerSdp));
      }
    }

    /** handleIceCandidate(data) */
    method HandleIceCandidate(data: Json)
      modifies pc
      ensures View() == ReceiveCandidate(old(View()), data)
    {
      if pc == null {
        return;
      }
      pc.appliedCandidates := pc.appliedCandidates + [data];
    }

    /** handleMessage(msg) */
    method HandleMessage(msg: Json)
      modifies this
      ensures View() == ReceiveMessage(old(View()), msg)
    {
      if Falsy(msg) {
        return;
      }
      chat := chat + [ChatLine(Stranger, JsText(msg))];
    }

    /** handleDisconnect() */
    method HandleDisconnect(r: Redial)
      modifies this, pc
      ensures View() == PeerDisconnected(old(View()), r)
      ensures old(pc) != null ==> old(pc).closed
    {
      if pc != null {
        pc.Close();
        pc := null;
      }
      isConnected := false;
      InitializeConnection(r);
    }

    /** handleWebSocketMessage(channel, data) */
    method HandleWebSocketMessage(channel: string, data: Json, x: External)
      modifies this, pc
      ensures View() == Dispatch(old(View()), Envelope(channel, data), x)
    {
      match Route(channel)
      case None =>
      case Some(c) => Handle(c, data, x);
    }

    /** The case of the switch for channel c. */
    method Handle(c: Channel, data: Json, x: External)
      modifies this, pc
      ensures View() == Negotiation.Handle(old(View()), c, data, x)
    {
      match c
      case Connected => HandlePeerConnected(data);
      case Begin => HandleBeginCall(x.offerSdp);
      case Description => HandleDescription(data, x.answerSdp);
      case IceCandidate => HandleIceCandidate(data);
      case Message => HandleMessage(data);
      case Typing => // handleTyping only shows or hides the typing indicator
      case Disconnect => HandleDisconnect(x.redial);
      case Match =>
      case PeopleOnline =>
    }

    /** ws.onmessage; `parsed` is None when JSON.parse throws. */
    method OnMessage(parsed: Option<Json>, x: External)
      modifies this, pc
      ensures View() == ReceiveSocketMessage(old(View()), parsed, x)
    {
      if parsed.None? {
        return;
      }
      match Decode(parsed.value)
      case None =>
      case Some(e) => HandleWebSocketMessage(e.channel, e.data, x);
    }

    /** pc.onicecandidate; `candidate` is None for the end-of-candidates event. */
    method OnIceCandidate(candidate: Option<Json>)
      modifies this, pc
      ensures View() == IceCandidateFound(old(View()), candidate)
    {
      if candidate.None? {
        return;
      }
      if pc == null {
        return; // reading the flag of a null pc throws before anything changes
      }
      if !pc.sentRemoteDescription {
        pc.sentRemoteDescription := true;
        SendWebSocketMessage(Description, DescriptionJson(pc.localDescription));
      }
      SendWebSocketMessage(IceCandidate, candidate.value);
    }

    /** pc.oniceconnectionstatechange, with the state of the current pc. */
    method OnIceConnectionStateChange(st: IceState, r: Redial)
      modifies this
      ensures View() == IceStateChanged(old(View()), st, r)
    {
      if pc == null {
        return;
      }
      if st == IceDisconnected || st == IceClosed {
        InitializeConnection(r);
      }
    }

    /** The socket's readyState leaves OPEN. */
    method SocketClosed()
      modifies this
      ensures View() == Negotiation.SocketClosed(old(View()))
    {
      if ws == Open {
        ws := NotOpen;
      }
    }

    /** The body of the keepalive interval. */
    method KeepaliveTick()
      modifies this
      ensures View() == Negotiation.KeepaliveTick(old(View()))
    {
      if ws == Open {
        SendWebSocketMessage(PeopleOnline, JNull);
      }
    }

    /** simulateConnection(), run by a scheduled timer. */
    method SimulateConnection()
      requires pendingDemo > 0
      modifies this
      ensures View() == DemoMatch(old(View()))
    {
      pendingDemo := pendingDemo - 1;
      UpdateStatus(Status.Base);
      isConnected := true;
    }

    /** window.videoStart; `media` is None when getUserMedia is refused. */
    method VideoStart(media: Option<seq<Track>>, r: Redial)
      modifies this
      ensures View() == Negotiation.VideoStart(old(View()), media, r)
    {
      if media.None? {
        return;
      }
      var tracks := media.value;
      localStream := new Track[|tracks|](i requires 0 <= i < |tracks| => tracks[i]);
      assert localStream[..] == tracks;
      InitializeConnection(r);
    }

    /** window.videoSkip */
    method VideoSkip()
      modifies this
      ensures View() == Skip(old(View()))
    {
      if ws != NoSocket {
        SendWebSocketMessage(Disconnect, JNull);
      } else {
        pendingDemo := pendingDemo + 1;
      }
    }

    /** window.videoMuteToggle */
    method VideoMuteToggle(muted: bool)
      modifies this, localStream
      ensures View() == MuteToggle(old(View()), muted)
    {
      isMuted := muted;
      if localStream != null {
        EnableTracks(localStream, Audio, !muted);
      }
    }

    /** window.videoToggle */
    method VideoToggle(videoOff: bool)
      modifies this, localStream
      ensures View() == Negotiation.VideoToggle(old(View()), videoOff)
    {
      isVideoOff := videoOff;
      if localStream != null {
        EnableTracks(localStream, Video, !videoOff);
      }
    }

    /** The user edits the message box. */
    method SetInput(text: string)
      modifies this
      ensures View() == InputChanged(old(View()), text)
    {
      input := text;
    }

    /** sendMessage() inside setupChat */
    method SendMessage()
      modifies this
      ensures View() == Negotiation.SendMessage(old(View()))
    {
      var msg := Text.Trim(input);
      if msg == [] || !isConnected {
        return;
      }
      Post(msg);
    }

    /** sendMessage past its guard. */
    method Post(msg: string)
      modifies this
      ensures View() == Negotiation.Post(old(View()), msg)
    {
      chat := chat + [ChatLine(You, msg)];
      input := "";
      if ws != NoSocket {
        SendWebSocketMessage(Message, JStr(Text.Escape(msg)));
      }
      if ws != NoSocket {
        SendWebSocketMessage(Typing, JBool(false));
      }
    }

    /** The keyup debounce timer firing. */
    method TypingTimeout()
      modifies this
      ensures View() == TypingIdle(old(View()))
    {
      if ws != NoSocket {
        SendWebSocketMessage(Typing, JBool(false));
      }
    }

    /** The keydown listener of the message box. */
    method KeyDown(enter: bool)
      modifies this
      ensures View() == Negotiation.KeyDown(old(View()), enter)
    {
      if enter {
        if ws != NoSocket {
          SendWebSocketMessage(Typing, JBool(false));
        }
        SendMessage();
        return;
      }
      if ws != NoSocket {
        SendWebSocketMessage(Typing, JBool(true));
      }
    }
  }
}
