/** The signaling wire format: envelopes `{channel, data}`, the channel names,
    and the switch that routes an inbound channel name to its handler
    (video.js lines 65-72 and 88-114). */
module Protocol {
  import opened JsonValue

  /** Every channel name the client sends or receives. */
  datatype Channel =
    | Match
    | Connected
    | Begin
    | Description
    | IceCandidate
    | Message
    | Typing
    | Disconnect
    | PeopleOnline

  /** The channel's name on the wire. */
  function Name(c: Channel): string {
    match c
    case Match => "match"
    case Connected => "connected"
    case Begin => "begin"
    case Description => "description"
    case IceCandidate => "iceCandidate"
    case Message => "message"
    case Typing => "typing"
    case Disconnect => "disconnect"
    case PeopleOnline => "peopleOnline"
  }

  /** The channels handleWebSocketMessage has a case for; `match` and
      `peopleOnline` only ever leave the client. */
  predicate Handled(c: Channel) {
    c != Match && c != PeopleOnline
  }

  /** The switch of handleWebSocketMessage: the handled channel whose name
      is exactly `name`, or None for the default branch. */
  function Route(name: string): (r: Option<Channel>)
    ensures r.Some? ==> Handled(r.value) && Name(r.value) == name
  {
    if name == "connected" then Some(Connected)
    else if name == "begin" then Some(Begin)
    else if name == "description" then Some(Description)
    else if name == "iceCandidate" then Some(IceCandidate)
    else if name == "message" then Some(Message)
    else if name == "typing" then Some(Typing)
    else if name == "disconnect" then Some(Disconnect)
    else None
  }

  /** Distinct channels have distinct names. */
  lemma NamesDistinct(c1: Channel, c2: Channel)
    ensures Name(c1) == Name(c2) ==> c1 == c2
  {
  }

  /** The switch sends each handled channel's name to that channel, and
      every other name to the default branch: exactly one handler per name. */
  lemma RouteExactlyOne(name: string, c: Channel)
    ensures Route(name) == Some(c) <==> Handled(c) && Name(c) == name
  {
    if Handled(c) && Name(c) == name {
      var r := Route(name);
      if r.Some? { NamesDistinct(r.value, c); }
    }
  }

  /** One signaling message. */
  datatype Envelope = Envelope(channel: string, data: Json)

  /** The object JSON.stringify({ channel, data }) serialises. */
  function Encode(e: Envelope): (r: Json)
    ensures r.JObj? && Lookup(r.fields, "channel") == Some(JStr(e.channel))
    ensures Lookup(r.fields, "data") == Some(e.data)
  {
    assert [("channel", JStr(e.channel)), ("data", e.data)][..1] == [("channel", JStr(e.channel))];
    JObj([("channel", JStr(e.channel)), ("data", e.data)])
  }

  /** `const { channel, data } = JSON.parse(...)` on a parsed value. None when
      destructuring throws (null) or when no switch case can match because the
      channel is missing or not a string. A missing data field reads as null. */
  function Decode(v: Json): (r: Option<Envelope>)
    ensures r.Some? <==>
      v.JObj? && Lookup(v.fields, "channel").Some? && Lookup(v.fields, "channel").value.JStr?
    ensures r.Some? ==>
      r.value.channel == Lookup(v.fields, "channel").value.s &&
      r.value.data == (if Lookup(v.fields, "data").Some? then Lookup(v.fields, "data").value else JNull)
  {
    match v
    case JObj(fields) =>
      (match Lookup(fields, "channel")
       case Some(JStr(name)) =>
         Some(Envelope(name, match Lookup(fields, "data") case Some(d) => d case None => JNull))
       case _ => None)
    case _ => None
  }

  /** Every envelope the client emits decodes back to itself. */
  lemma DecodeEncode(e: Envelope)
    ensures Decode(Encode(e)) == Some(e)
  {
  }
}
