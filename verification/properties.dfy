/** What the session handlers of video.js guarantee, stated over the pure
    state machine of module Negotiation. */
module SessionProperties {
  import opened JsonValue
  import opened Protocol
  import opened Media
  import opened Negotiation
  import Status
  import Text

  // ---- the peer connection's descriptions stay consistent ----

  /** A peer connection with a remote description also has a local one, and
      an answer is only ever made after a remote description was set. */
  predicate Consistent(s: State) {
    s.pc.Some? ==>
      (s.pc.value.remote.Some? ==> s.pc.value.local.Some?) &&
      (s.pc.value.local.Some? && s.pc.value.local.value.kind == Answer ==> s.pc.value.remote.Some?)
  }

  lemma InitialConsistent()
    ensures Consistent(Initial)
  {
  }

  lemma InitializeKeepsConsistent(s: State, r: Redial)
    requires Consistent(s)
    ensures Consistent(InitializeConnection(s, r))
  {
  }

  lemma HandleKeepsConsistent(s: State, c: Channel, data: Json, x: External)
    requires Consistent(s)
    ensures Consistent(Handle(s, c, data, x))
  {
    if c == Disconnect {
      InitializeKeepsConsistent(s.(pc := None, isConnected := false), x.redial);
    }
  }

  lemma SocketMessageKeepsConsistent(s: State, parsed: Option<Json>, x: External)
    requires Consistent(s)
    ensures Consistent(ReceiveSocketMessage(s, parsed, x))
  {
    if parsed.Some? && Decode(parsed.value).Some? {
      var env := Decode(parsed.value).value;
      if Route(env.channel).Some? {
        HandleKeepsConsistent(s, Route(env.channel).value, env.data, x);
      }
    }
  }

  /** Handlers that leave the peer connection alone keep consistency. */
  lemma SamePeerConsistent(s: State, t: State)
    requires Consistent(s) && t.pc == s.pc
    ensures Consistent(t)
  {
  }

  /** A candidate event only sets the "description sent" flag. */
  lemma CandidateKeepsConsistent(s: State, c: Option<Json>)
    requires Consistent(s)
    ensures Consistent(IceCandidateFound(s, c))
  {
  }

  lemma StepKeepsConsistent(s: State, e: Event)
    requires Consistent(s)
    ensures Consistent(Step(s, e))
  {
    match e
    case OnSocketMessage(parsed, x) =>
      SocketMessageKeepsConsistent(s, parsed, x);
    case OnIceStateChange(st, r) =>
      InitializeKeepsConsistent(s, r);
    case OnVideoStart(m, r) =>
      if m.Some? { InitializeKeepsConsistent(s.(tracks := m), r); }
    case OnKeyDown(enter) =>
      ChatSendsOnlyWhenOpen(s, enter);
      SamePeerConsistent(s, KeyDown(s, enter));
    case OnSendClick =>
      SendMessageSendsOnlyWhenOpen(s);
      SamePeerConsistent(s, SendMessage(s));
    case OnIceCandidate(c) =>
      CandidateKeepsConsistent(s, c);
    case OnSocketClose =>
      SamePeerConsistent(s, SocketClosed(s));
    case OnKeepalive =>
      SamePeerConsistent(s, KeepaliveTick(s));
    case OnDemoTimer =>
      if s.pendingDemo > 0 { SamePeerConsistent(s, DemoMatch(s)); }
    case OnSkip =>
      SamePeerConsistent(s, Skip(s));
    case OnMuteToggle(m) =>
      SamePeerConsistent(s, MuteToggle(s, m));
    case OnVideoToggle(v) =>
      SamePeerConsistent(s, VideoToggle(s, v));
    case OnInput(t) =>
      SamePeerConsistent(s, InputChanged(s, t));
    case OnTypingTimer =>
      SamePeerConsistent(s, TypingIdle(s));
  }

  /** Whatever events arrive, the descriptions stay consistent. */
  lemma {:induction false} RunKeepsConsistent(s: State, events: seq<Event>)
    requires Consistent(s)
    ensures Consistent(Run(s, events))
    decreases |events|
  {
    if events != [] {
      StepKeepsConsistent(s, events[0]);
      RunKeepsConsistent(Step(s, events[0]), events[1..]);
    }
  }

  // ---- the outbox ----

  /** A prefix relation on envelope sequences: `b` is `a` with envelopes appended. */
  predicate Extends(a: seq<Envelope>, b: seq<Envelope>) {
    |b| >= |a| && b[..|a|] == a
  }

  /** `t` keeps every envelope `s` had sent, and sent more only through an
      open socket. */
  predicate SendsOnlyAppend(s: State, t: State) {
    Extends(s.outbox, t.outbox) && (t.outbox != s.outbox ==> t.ws == Open)
  }

  lemma SameOutbox(s: State, t: State)
    requires t.outbox == s.outbox
    ensures SendsOnlyAppend(s, t)
  {
  }

  lemma SendSendsOnlyWhenOpen(s: State, c: Channel, data: Json)
    ensures SendsOnlyAppend(s, Send(s, c, data))
  {
  }

  lemma CandidateSendsOnlyWhenOpen(s: State, c: Option<Json>)
    ensures SendsOnlyAppend(s, IceCandidateFound(s, c))
  {
  }

  lemma InitializeSendsOnlyWhenOpen(s: State, r: Redial)
    ensures SendsOnlyAppend(s, InitializeConnection(s, r))
  {
  }

  lemma HandleSendsOnlyWhenOpen(s: State, c: Channel, data: Json, x: External)
    ensures SendsOnlyAppend(s, Handle(s, c, data, x))
  {
    if c == Disconnect {
      InitializeSendsOnlyWhenOpen(s.(pc := None, isConnected := false), x.redial);
    }
  }

  lemma SocketMessageSendsOnlyWhenOpen(s: State, parsed: Option<Json>, x: External)
    ensures SendsOnlyAppend(s, ReceiveSocketMessage(s, parsed, x))
  {
    if parsed.Some? && Decode(parsed.value).Some? {
      var env := Decode(parsed.value).value;
      if Route(env.channel).Some? {
        HandleSendsOnlyWhenOpen(s, Route(env.channel).value, env.data, x);
      }
    }
  }

  lemma SendMessageSendsOnlyWhenOpen(s: State)
    ensures SendMessage(s).pc == s.pc && SendsOnlyAppend(s, SendMessage(s))
  {
    ChatSendIgnored(s);
    ChatSend(s);
    PostSends(s, Text.Trim(s.input));
  }

  lemma ExtendsTransitive(a: seq<Envelope>, b: seq<Envelope>, c: seq<Envelope>)
    requires Extends(a, b) && Extends(b, c)
    ensures Extends(a, c)
  {
    assert c[..|b|][..|a|] == c[..|a|];
  }

  lemma ChatSendsOnlyWhenOpen(s: State, enter: bool)
    ensures KeyDown(s, enter).pc == s.pc && SendsOnlyAppend(s, KeyDown(s, enter))
  {
    if enter {
      var s1 := TypingIdle(s);
      TypingTimerSends(s);
      SendMessageSendsOnlyWhenOpen(s1);
      ExtendsTransitive(s.outbox, s1.outbox, SendMessage(s1).outbox);
    }
  }

  /** Envelopes are only ever appended, and only through an open socket. */
  lemma SendsOnlyWhenOpen(s: State, e: Event)
    ensures Extends(s.outbox, Step(s, e).outbox)
    ensures Step(s, e).outbox != s.outbox ==> Step(s, e).ws == Open
  {
    match e
    case OnSocketMessage(parsed, x) =>
      SocketMessageSendsOnlyWhenOpen(s, parsed, x);
    case OnIceStateChange(st, r) =>
      InitializeSendsOnlyWhenOpen(s, r);
    case OnVideoStart(m, r) =>
      if m.Some? { InitializeSendsOnlyWhenOpen(s.(tracks := m), r); }
    case OnKeyDown(enter) =>
      ChatSendsOnlyWhenOpen(s, enter);
    case OnSendClick =>
      SendMessageSendsOnlyWhenOpen(s);
    case OnTypingTimer =>
      TypingTimerSends(s);
    case OnIceCandidate(c) =>
      CandidateSendsOnlyWhenOpen(s, c);
    case OnSocketClose =>
      SameOutbox(s, SocketClosed(s));
    case OnKeepalive =>
      SendSendsOnlyWhenOpen(s, PeopleOnline, JNull);
    case OnDemoTimer =>
      if s.pendingDemo > 0 { SameOutbox(s, DemoMatch(s)); }
    case OnSkip =>
      SendSendsOnlyWhenOpen(s, Disconnect, JNull);
    case OnMuteToggle(m) =>
      SameOutbox(s, MuteToggle(s, m));
    case OnVideoToggle(v) =>
      SameOutbox(s, VideoToggle(s, v));
    case OnInput(t) =>
      SameOutbox(s, InputChanged(s, t));
  }

  /** Over any run, what was sent stays sent. */
  lemma {:induction false} RunOnlyAppends(s: State, events: seq<Event>)
    ensures Extends(s.outbox, Run(s, events).outbox)
    decreases |events|
  {
    if events != [] {
      var t := Step(s, events[0]);
      SendsOnlyWhenOpen(s, events[0]);
      RunOnlyAppends(t, events[1..]);
      assert Run(s, events).outbox[..|t.outbox|][..|s.outbox|] == Run(s, events).outbox[..|s.outbox|];
    }
  }

  // ---- local candidates and the description sent before them ----

  /** The `iceCandidate` envelopes for the non-null candidates, in order. */
  function Forwarded(events: seq<Event>): seq<Envelope>
    requires forall i :: 0 <= i < |events| ==> events[i].OnIceCandidate?
  {
    if events == [] then []
    else
      (if events[0].candidate.Some? then [Envelope("iceCandidate", events[0].candidate.value)] else [])
      + Forwarded(events[1..])
  }

  /** One candidate event through an open socket. */
  lemma OneCandidate(s: State, c: Option<Json>)
    requires s.ws == Open && s.pc.Some?
    ensures var t := IceCandidateFound(s, c);
      t.ws == Open && t.pc.Some? && t.pc.value.local == s.pc.value.local &&
      t.pc.value.sentDescription == (s.pc.value.sentDescription || c.Some?) &&
      t.outbox == s.outbox
        + (if s.pc.value.sentDescription || c.None? then []
           else [Envelope("description", DescriptionJson(s.pc.value.local))])
        + (if c.Some? then [Envelope("iceCandidate", c.value)] else [])
  {
  }

  /** With the socket open, a run of candidate events on one peer connection
      sends the local description exactly once, right before the first
      candidate (unless it was already sent), then forwards every non-null
      candidate in order; null candidates send nothing. */
  lemma {:induction false} CandidatesFollowDescription(s: State, events: seq<Event>)
    requires s.ws == Open && s.pc.Some?
    requires forall i :: 0 <= i < |events| ==> events[i].OnIceCandidate?
    ensures Run(s, events).outbox ==
      s.outbox
      + (if s.pc.value.sentDescription || Forwarded(events) == [] then []
         else [Envelope("description", DescriptionJson(s.pc.value.local))])
      + Forwarded(events)
    ensures Run(s, events).ws == Open && Run(s, events).pc.Some?
    ensures Run(s, events).pc.value.local == s.pc.value.local
    ensures Run(s, events).pc.value.sentDescription == (s.pc.value.sentDescription || Forwarded(events) != [])
    decreases |events|
  {
    if events != [] {
      var p := s.pc.value;
      var c := events[0].candidate;
      var t := Step(s, events[0]);
      var rest := events[1..];
      assert t == IceCandidateFound(s, c);
      OneCandidate(s, c);
      CandidatesFollowDescription(t, rest);
      assert Run(s, events) == Run(t, rest);
      var desc := Envelope("description", DescriptionJson(p.local));
      var head := if c.Some? then [Envelope("iceCandidate", c.value)] else [];
      assert Forwarded(events) == head + Forwarded(rest);
      if c.Some? {
        assert t.pc.value.sentDescription;
        assert Run(t, rest).outbox == t.outbox + Forwarded(rest);
      }
    }
  }

  /** When the socket is not open at the first candidate the flag is still
      set, so this peer connection never sends its description. */
  lemma DescriptionLostWithoutOpenSocket(s: State, c: Json)
    requires s.ws != Open && s.pc.Some?
    ensures IceCandidateFound(s, Some(c)).outbox == s.outbox
    ensures IceCandidateFound(s, Some(c)).pc.value.sentDescription
  {
  }

  // ---- the description over any run on one peer connection ----

  /** The events that start a new connection attempt and so may replace the
      peer connection: a `disconnect` message, a lost ICE connection, and
      videoStart with a stream. */
  predicate Redials(e: Event) {
    match e
    case OnSocketMessage(parsed, _) =>
      parsed.Some? && Decode(parsed.value).Some? && Route(Decode(parsed.value).value.channel) == Some(Disconnect)
    case OnIceStateChange(st, _) => st == IceDisconnected || st == IceClosed
    case OnVideoStart(media, _) => media.Some?
    case _ => false
  }

  predicate IsDescription(e: Envelope) {
    e.channel == "description"
  }

  predicate IsCandidate(e: Envelope) {
    e.channel == "iceCandidate"
  }

  /** None of the envelopes is a description or a candidate. */
  predicate Quiet(a: seq<Envelope>) {
    forall k :: 0 <= k < |a| ==> !IsDescription(a[k]) && !IsCandidate(a[k])
  }

  /** `t` keeps the socket and the peer connection of `s` with the same
      "description sent" flag, and appended neither a description nor a
      candidate. */
  predicate QuietStep(s: State, t: State) {
    s.pc.Some? && t.pc.Some? && t.pc.value.sentDescription == s.pc.value.sentDescription &&
    t.ws == s.ws && Extends(s.outbox, t.outbox) && Quiet(t.outbox[|s.outbox|..])
  }

  /** What one event may append while the peer connection stays: the flag
      never goes back; once set, no description goes out; while it stays
      unset, neither a description nor a candidate goes out; and when the
      event sets it, either the description goes out followed by a
      candidate, or nothing goes out and the socket is not open. `open`
      says whether the socket is open after the event. */
  predicate StepShape(d: seq<Envelope>, before: bool, after: bool, open: bool) {
    (before ==> after) &&
    (before ==> forall k :: 0 <= k < |d| ==> !IsDescription(d[k])) &&
    (!before && !after ==> Quiet(d)) &&
    (!before && after ==>
       (d == [] && !open) || (|d| == 2 && IsDescription(d[0]) && IsCandidate(d[1])))
  }

  /** What a run appends about the peer connection: no description when the
      flag was already set, nothing description- or candidate-related while
      it is still unset, at most one description, that one immediately
      followed by a candidate with no candidate before it, and, when the
      flag was unset at the start, a description right before the first
      candidate. */
  predicate DescriptionOrder(a: seq<Envelope>, before: bool, now: bool) {
    (before ==> forall k :: 0 <= k < |a| ==> !IsDescription(a[k])) &&
    (!now ==> Quiet(a)) &&
    (forall i, j :: 0 <= i < j < |a| ==> !(IsDescription(a[i]) && IsDescription(a[j]))) &&
    (forall k :: 0 <= k < |a| && IsDescription(a[k]) ==>
       k + 1 < |a| && IsCandidate(a[k + 1]) && forall i :: 0 <= i < k ==> !IsCandidate(a[i])) &&
    (!before ==> forall k :: 0 <= k < |a| && IsCandidate(a[k]) && (forall i :: 0 <= i < k ==> !IsCandidate(a[i])) ==>
       k > 0 && IsDescription(a[k - 1]))
  }

  lemma QuietTransitive(s: State, t: State, u: State)
    requires QuietStep(s, t) && QuietStep(t, u)
    ensures QuietStep(s, u)
  {
    ExtendsTransitive(s.outbox, t.outbox, u.outbox);
    assert u.outbox[|s.outbox|..] == t.outbox[|s.outbox|..] + u.outbox[|t.outbox|..];
  }

  lemma SendQuiet(s: State, c: Channel, data: Json)
    requires s.pc.Some? && c != Description && c != IceCandidate
    ensures QuietStep(s, Send(s, c, data))
  {
    if s.ws == Open {
      assert Send(s, c, data).outbox[|s.outbox|..] == [Envelope(Name(c), data)];
    }
  }

  lemma SendMessageQuiet(s: State)
    requires s.pc.Some?
    ensures QuietStep(s, SendMessage(s))
  {
    ChatSendIgnored(s);
    ChatSend(s);
    var t := SendMessage(s);
    if t != s {
      var m := Text.Trim(s.input);
      PostSends(s, m);
      if s.ws == Open {
        assert t.outbox[|s.outbox|..] == [Envelope("message", JStr(Text.Escape(m))), Envelope("typing", JBool(false))];
      }
    }
  }

  lemma KeyDownQuiet(s: State, enter: bool)
    requires s.pc.Some?
    ensures QuietStep(s, KeyDown(s, enter))
  {
    if enter {
      SendQuiet(s, Typing, JBool(false));
      SendMessageQuiet(TypingIdle(s));
      QuietTransitive(s, TypingIdle(s), KeyDown(s, true));
    } else {
      SendQuiet(s, Typing, JBool(true));
    }
  }

  /** Every case of the switch but `disconnect` keeps the peer connection and
      its flag, and sends nothing. */
  lemma HandleQuiet(s: State, c: Channel, data: Json, x: External)
    requires s.pc.Some? && c != Disconnect
    ensures var t := Handle(s, c, data, x);
      t.pc.Some? && t.pc.value.sentDescription == s.pc.value.sentDescription &&
      t.ws == s.ws && t.outbox == s.outbox
  {
  }

  lemma SocketMessageQuiet(s: State, parsed: Option<Json>, x: External)
    requires s.pc.Some? && !Redials(OnSocketMessage(parsed, x))
    ensures QuietStep(s, ReceiveSocketMessage(s, parsed, x))
  {
    if parsed.Some? && Decode(parsed.value).Some? {
      var env := Decode(parsed.value).value;
      if Route(env.channel).Some? {
        HandleQuiet(s, Route(env.channel).value, env.data, x);
      }
    }
  }

  /** A candidate event keeps the socket; once the flag is set it sends no
      description; otherwise it either sets the flag and sends the
      description followed by the candidate, or (socket not open) sets the
      flag and sends nothing. */
  lemma CandidateShape(s: State, c: Option<Json>)
    requires s.pc.Some?
    ensures var t := IceCandidateFound(s, c);
      t.pc.Some? && t.ws == s.ws && Extends(s.outbox, t.outbox) &&
      StepShape(t.outbox[|s.outbox|..], s.pc.value.sentDescription, t.pc.value.sentDescription, t.ws == Open)
  {
    var t := IceCandidateFound(s, c);
    if c.Some? && s.ws == Open {
      OneCandidate(s, c);
      if !s.pc.value.sentDescription {
        assert t.outbox[|s.outbox|..] ==
          [Envelope("description", DescriptionJson(s.pc.value.local)), Envelope("iceCandidate", c.value)];
      } else {
        assert t.outbox[|s.outbox|..] == [Envelope("iceCandidate", c.value)];
      }
    } else {
      assert t.outbox == s.outbox;
    }
  }

  /** Every event other than a candidate, a socket close or a new
      connection attempt keeps the socket, the peer connection and its flag,
      and sends neither a description nor a candidate. */
  lemma QuietEvent(s: State, e: Event)
    requires s.pc.Some? && !Redials(e) && !e.OnIceCandidate? && !e.OnSocketClose?
    ensures QuietStep(s, Step(s, e))
  {
    var t := Step(s, e);
    match e
    case OnSocketMessage(parsed, x) =>
      SocketMessageQuiet(s, parsed, x);
    case OnKeyDown(enter) =>
      KeyDownQuiet(s, enter);
    case OnSendClick =>
      SendMessageQuiet(s);
    case OnTypingTimer =>
      SendQuiet(s, Typing, JBool(false));
    case OnKeepalive =>
      SendQuiet(s, PeopleOnline, JNull);
    case OnSkip =>
      SendQuiet(s, Disconnect, JNull);
    case OnIceStateChange(st, r) =>
      assert t == s;
    case OnVideoStart(m, r) =>
      assert t == s;
    case OnDemoTimer =>
      assert t.outbox == s.outbox && t.pc == s.pc && t.ws == s.ws;
    case OnMuteToggle(m) =>
      assert t.outbox == s.outbox && t.pc == s.pc && t.ws == s.ws;
    case OnVideoToggle(v) =>
      assert t.outbox == s.outbox && t.pc == s.pc && t.ws == s.ws;
    case OnInput(text) =>
      assert t.outbox == s.outbox && t.pc == s.pc && t.ws == s.ws;
  }

  /** Every event that does not start a new connection attempt keeps the
      peer connection, never opens the socket, and appends only what
      StepShape allows. */
  lemma PeerStep(s: State, e: Event)
    requires s.pc.Some? && !Redials(e)
    ensures var t := Step(s, e);
      t.pc.Some? && (t.ws == Open ==> s.ws == Open) && Extends(s.outbox, t.outbox) &&
      StepShape(t.outbox[|s.outbox|..], s.pc.value.sentDescription, t.pc.value.sentDescription, t.ws == Open)
  {
    var t := Step(s, e);
    if e.OnIceCandidate? {
      CandidateShape(s, e.candidate);
    } else if e.OnSocketClose? {
      assert t.outbox == s.outbox && t.pc == s.pc && t.ws != Open;
    } else {
      QuietEvent(s, e);
    }
  }

  /** Without a new connection attempt a socket that is not open stays so,
      and nothing more is sent. */
  lemma {:induction false} ClosedRunSilent(s: State, events: seq<Event>)
    requires s.pc.Some? && s.ws != Open
    requires forall i :: 0 <= i < |events| ==> !Redials(events[i])
    ensures Run(s, events).outbox == s.outbox
    decreases |events|
  {
    if events != [] {
      var t := Step(s, events[0]);
      PeerStep(s, events[0]);
      SendsOnlyWhenOpen(s, events[0]);
      ClosedRunSilent(t, events[1..]);
      assert Run(s, events) == Run(t, events[1..]);
    }
  }

  /** Putting one step's envelopes in front of a run's keeps the order. */
  lemma OrderPrepend(d: seq<Envelope>, a: seq<Envelope>, f0: bool, f1: bool, f2: bool, open: bool)
    requires StepShape(d, f0, f1, open) && (f1 ==> f2) && DescriptionOrder(a, f1, f2)
    requires !open ==> a == []
    ensures DescriptionOrder(d + a, f0, f2)
  {
    var b := d + a;
    assert forall k :: 0 <= k < |a| ==> b[|d| + k] == a[k];
    assert forall k :: 0 <= k < |d| ==> b[k] == d[k];
    if !f0 && f1 && d == [] && !open {
      assert b == [];
    } else if !f0 && f1 {
      assert forall k :: 0 <= k < |a| ==> !IsDescription(a[k]);
      forall k | 0 < k < |b|
        ensures !IsDescription(b[k])
      {
        if k >= |d| { assert b[k] == a[k - |d|]; }
      }
    } else {
      assert forall k :: 0 <= k < |d| ==> !IsDescription(d[k]);
      forall k | 0 <= k < |b| && IsDescription(b[k])
        ensures k >= |d| && k + 1 < |b| && IsCandidate(b[k + 1]) && forall i :: 0 <= i < k ==> !IsCandidate(b[i])
      {
        assert k >= |d|;
        assert b[k] == a[k - |d|];
        assert !f1;
        assert Quiet(d);
      }
      if !f0 {
        assert Quiet(d);
        forall k | 0 <= k < |b| && IsCandidate(b[k]) && (forall i :: 0 <= i < k ==> !IsCandidate(b[i]))
          ensures k > 0 && IsDescription(b[k - 1])
        {
          var m := k - |d|;
          assert b[k] == a[m];
          assert forall i :: 0 <= i < m ==> b[|d| + i] == a[i];
          assert m > 0 && IsDescription(a[m - 1]);
          assert b[k - 1] == a[m - 1];
        }
      }
    }
  }

  /** Over any run that keeps the peer connection (no `disconnect` message,
      ICE loss or videoStart), the local description goes out at most once,
      never when it was already sent, and only immediately before a
      candidate with no candidate sent ahead of it; when it was not yet sent,
      no candidate goes out before it. Remote candidates, chat, typing and
      keepalives may arrive in between. */
  lemma {:induction false} DescriptionSentOnce(s: State, events: seq<Event>)
    requires s.pc.Some?
    requires forall i :: 0 <= i < |events| ==> !Redials(events[i])
    ensures var t := Run(s, events);
      t.pc.Some? && (s.pc.value.sentDescription ==> t.pc.value.sentDescription) &&
      Extends(s.outbox, t.outbox) &&
      DescriptionOrder(t.outbox[|s.outbox|..], s.pc.value.sentDescription, t.pc.value.sentDescription)
    decreases |events|
  {
    if events == [] {
      assert Run(s, events).outbox[|s.outbox|..] == [];
    } else {
      var t1 := Step(s, events[0]);
      PeerStep(s, events[0]);
      DescriptionSentOnce(t1, events[1..]);
      var t := Run(t1, events[1..]);
      assert Run(s, events) == t;
      if t1.ws != Open {
        ClosedRunSilent(t1, events[1..]);
      }
      ExtendsTransitive(s.outbox, t1.outbox, t.outbox);
      assert t.outbox[|s.outbox|..] == t1.outbox[|s.outbox|..] + t.outbox[|t1.outbox|..];
      OrderPrepend(t1.outbox[|s.outbox|..], t.outbox[|t1.outbox|..],
                   s.pc.value.sentDescription, t1.pc.value.sentDescription, t.pc.value.sentDescription,
                   t1.ws == Open);
    }
  }

  /** A candidate forwarded with no description ahead of it, on a peer
      connection that had not sent its description, breaks the order: neither
      one step nor a run may do that. */
  lemma CandidateFirstRejected(c: Json)
    ensures !StepShape([Envelope("iceCandidate", c)], false, true, true)
    ensures !DescriptionOrder([Envelope("iceCandidate", c)], false, true)
  {
    var a := [Envelope("iceCandidate", c)];
    assert IsCandidate(a[0]);
  }

  /** Once a candidate appears while the socket is not open, nothing more is
      sent for that peer connection, its description included, whatever
      follows short of a new connection attempt. */
  lemma DescriptionNeverSentAfterLoss(s: State, c: Json, events: seq<Event>)
    requires s.ws != Open && s.pc.Some?
    requires forall i :: 0 <= i < |events| ==> !Redials(events[i])
    ensures Run(s, [OnIceCandidate(Some(c))] + events).outbox == s.outbox
  {
    var s1 := Step(s, OnIceCandidate(Some(c)));
    DescriptionLostWithoutOpenSocket(s, c);
    assert ([OnIceCandidate(Some(c))] + events)[1..] == events;
    assert Run(s, [OnIceCandidate(Some(c))] + events) == Run(s1, events);
    ClosedRunSilent(s1, events);
  }

  // ---- inbound dispatch ----

  /** The parsed form of an envelope sent on channel c. */
  function Wire(c: Channel, data: Json): Option<Json> {
    Some(Encode(Envelope(Name(c), data)))
  }

  /** A well-formed message on a handled channel reaches that channel's case
      of the switch, `Handle`; the lemmas below say what each case does. */
  lemma WireReachesHandler(s: State, c: Channel, data: Json, x: External)
    requires Handled(c)
    ensures ReceiveSocketMessage(s, Wire(c, data), x) == Handle(s, c, data, x)
    ensures Route(Name(c)) == Some(c)
  {
    DecodeEncode(Envelope(Name(c), data));
    RouteExactlyOne(Name(c), c);
  }

  /** A message that does not parse, or whose channel no handler owns,
      changes nothing, the socket included. */
  lemma UnknownMessagesIgnored(s: State, name: string, data: Json, x: External)
    requires forall c :: Handled(c) ==> Name(c) != name
    ensures ReceiveSocketMessage(s, None, x) == s
    ensures ReceiveSocketMessage(s, Some(Encode(Envelope(name, data))), x) == s
  {
    DecodeEncode(Envelope(name, data));
  }

  /** The `begin`, `description` and `iceCandidate` cases send nothing and
      change nothing but the peer connection; without one they change nothing. */
  lemma NegotiationMessagesOnlyTouchPeer(s: State, c: Channel, data: Json, x: External)
    requires c == Begin || c == Description || c == IceCandidate
    ensures var t := Handle(s, c, data, x);
      t == s.(pc := t.pc) && (s.pc.None? ==> t == s)
  {
  }

  /** The offer/answer rules: `begin` sets an offer as local description;
      `description` always sets the remote description and makes an answer
      only when no local description exists; `iceCandidate` is applied at
      once, even before any remote description. */
  lemma OfferAnswerRules(s: State, data: Json, x: External)
    requires s.pc.Some?
    ensures var t := Handle(s, Begin, data, x);
      t.pc == Some(s.pc.value.(local := Some(SessionDescription(Offer, x.offerSdp))))
    ensures var t := Handle(s, Description, data, x);
      t.pc.Some? && t.pc.value.remote == Some(data) &&
      t.pc.value.local == (if s.pc.value.local.Some? then s.pc.value.local
                           else Some(SessionDescription(Answer, x.answerSdp))) &&
      t.pc.value.sentDescription == s.pc.value.sentDescription &&
      t.pc.value.applied == s.pc.value.applied
    ensures var t := Handle(s, IceCandidate, data, x);
      t.pc == Some(s.pc.value.(applied := s.pc.value.applied + [data]))
  {
  }

  /** The `connected` case shows the status line for the shared interests and marks
      the session connected; nothing is sent and the peer is untouched. */
  lemma ConnectedMessage(s: State, data: Json, x: External)
    ensures var t := Handle(s, Connected, data, x);
      t.isConnected && t.status == Status.StatusLine(data) && t.chat == [] &&
      t == s.(isConnected := true, status := t.status, chat := [])
  {
  }

  /** The `message` case adds the stranger's text to the chat, unless the payload is
      falsy; `typing` changes nothing that is modelled. */
  lemma ChatMessages(s: State, data: Json, x: External)
    ensures var t := Handle(s, Message, data, x);
      if Falsy(data) then t == s
      else t == s.(chat := s.chat + [ChatLine(Stranger, JsText(data))])
    ensures Handle(s, Typing, data, x) == s
  {
  }

  /** The `disconnect` case drops the peer connection and the connected flag and starts
      over: the old negotiation is gone (a new peer connection starts empty),
      the searching status shows, and a match request goes out through the
      new socket or a demo match is scheduled without one. */
  lemma DisconnectRedials(s: State, data: Json, x: External)
    ensures var t := Handle(s, Disconnect, data, x);
      var r := x.redial;
      !t.isConnected && t.chat == [] &&
      t.ws == (if r.socketOpens then Open else NoSocket) &&
      t.pc == (if r.peerCreated then Some(FreshPeer) else None) &&
      t.status == (if r.peerCreated then LookingStatus else FailedStatus) &&
      t.outbox == s.outbox + (if r.socketOpens && r.peerCreated
                              then [Envelope("match", MatchRequest(r.interests, r.twitter))] else []) &&
      t.pendingDemo == s.pendingDemo + (if !r.socketOpens && r.peerCreated then 1 else 0)
  {
  }

  /** A lost ICE connection redials like `disconnect`, but keeps the
      connected flag as it was (and the old peer connection when the
      constructor fails): the searching or failed status, a cleared chat, a
      new socket, and a match request through it or a demo match scheduled
      without one. Other connection states change nothing. */
  lemma IceLossRedials(s: State, st: IceState, r: Redial)
    requires s.pc.Some?
    ensures var t := IceStateChanged(s, st, r);
      if st == IceDisconnected || st == IceClosed then
        t == s.(ws := if r.socketOpens then Open else NoSocket,
                pc := if r.peerCreated then Some(FreshPeer) else s.pc,
                status := if r.peerCreated then LookingStatus else FailedStatus,
                chat := [],
                outbox := s.outbox + (if r.socketOpens && r.peerCreated
                                      then [Envelope("match", MatchRequest(r.interests, r.twitter))] else []),
                pendingDemo := s.pendingDemo + (if !r.socketOpens && r.peerCreated then 1 else 0))
      else t == s
  {
  }

  // ---- sending chat ----

  /** sendMessage with a blank input, or with no partner, changes nothing. */
  lemma ChatSendIgnored(s: State)
    ensures Text.AllSpace(s.input) || !s.isConnected ==> SendMessage(s) == s
  {
    Text.TrimEmptyIffBlank(s.input);
  }

  /** Past the guard of sendMessage: the text joins the chat as "you", the
      input is cleared, and through an open socket the escaped text goes out
      followed by `typing false`. */
  lemma PostSends(s: State, m: string)
    ensures Post(s, m) ==
      s.(chat := s.chat + [ChatLine(You, m)], input := "",
         outbox := s.outbox + (if s.ws == Open
                               then [Envelope("message", JStr(Text.Escape(m))), Envelope("typing", JBool(false))]
                               else []))
  {
    var s1 := s.(chat := s.chat + [ChatLine(You, m)], input := "");
    if s.ws == Open {
      var s2 := Send(s1, Message, JStr(Text.Escape(m)));
      assert s2.outbox == s.outbox + [Envelope("message", JStr(Text.Escape(m)))];
      assert Post(s, m).outbox == s2.outbox + [Envelope("typing", JBool(false))];
    }
  }

  /** sendMessage with text and a partner: the trimmed text is posted, and
      Unescape recovers it from its escaped form, so Escape loses nothing. */
  lemma ChatSend(s: State)
    ensures !Text.AllSpace(s.input) && s.isConnected ==>
      var m := Text.Trim(s.input);
      m != [] && SendMessage(s) == Post(s, m) && Text.Unescape(Text.Escape(m)) == m
  {
    Text.TrimEmptyIffBlank(s.input);
    Text.UnescapeEscape(Text.Trim(s.input));
  }

  /** Enter first ends typing, then sends; other keys announce typing. */
  lemma KeyDownSends(s: State)
    ensures s.ws == Open ==> KeyDown(s, false).outbox == s.outbox + [Envelope("typing", JBool(true))]
    ensures s.ws != Open ==> KeyDown(s, false) == s
    ensures s.ws == Open ==> Extends(s.outbox + [Envelope("typing", JBool(false))], KeyDown(s, true).outbox)
  {
    TypingTimerSends(s);
    SendMessageSendsOnlyWhenOpen(TypingIdle(s));
  }

  /** When the keyup debounce timer fires, `typing false` goes out through
      an open socket and nothing else changes. */
  lemma TypingTimerSends(s: State)
    ensures TypingIdle(s) ==
      s.(outbox := s.outbox + (if s.ws == Open then [Envelope("typing", JBool(false))] else []))
  {
  }

  /** The text travels already escaped and the receiving case adds it as
      plain text, so the stranger's chat shows the escaped form: a message
      holding '<' arrives changed. */
  lemma StrangerSeesEscapedText(s: State, m: string, x: External)
    requires m != []
    ensures Handle(s, Message, JStr(Text.Escape(m)), x) ==
      s.(chat := s.chat + [ChatLine(Stranger, Text.Escape(m))])
    ensures '<' in m ==> Text.Escape(m) != m
  {
    assert !Falsy(JStr(Text.Escape(m)));
    Text.EscapeChangesMarkup(m);
  }

  // ---- skip, demo mode and media toggles ----

  /** videoSkip through a live socket sends `disconnect` (only if open);
      without a socket a demo match is scheduled and, when it runs, the
      session counts as connected. */
  lemma SkipAndDemo(s: State)
    ensures s.ws == Open ==> Skip(s) == s.(outbox := s.outbox + [Envelope("disconnect", JNull)])
    ensures s.ws == NotOpen ==> Skip(s) == s
    ensures s.ws == NoSocket ==>
      Skip(s).pendingDemo == s.pendingDemo + 1 && Step(Skip(s), OnDemoTimer).isConnected &&
      Step(Skip(s), OnDemoTimer).status == Status.Base
  {
  }

  /** videoMuteToggle(m) sets isMuted and makes every audio track's enabled
      flag !m; video tracks keep theirs. videoToggle is the same for video. */
  lemma TogglesTouchOneKind(s: State, flag: bool)
    requires s.tracks.Some?
    ensures var t := MuteToggle(s, flag);
      t.isMuted == flag && t.tracks.Some? && |t.tracks.value| == |s.tracks.value| &&
      (forall i :: 0 <= i < |s.tracks.value| ==>
        t.tracks.value[i] == if s.tracks.value[i].kind == Audio then Track(Audio, !flag) else s.tracks.value[i])
    ensures var t := VideoToggle(s, flag);
      t.isVideoOff == flag && t.tracks.Some? && |t.tracks.value| == |s.tracks.value| &&
      (forall i :: 0 <= i < |s.tracks.value| ==>
        t.tracks.value[i] == if s.tracks.value[i].kind == Video then Track(Video, !flag) else s.tracks.value[i])
  {
  }
}
