# omegl video chat client, modelled in Dafny

This project models `public/js/video.js`, the browser side of the omegl video
chat. The client:

- holds one signaling WebSocket and one RTCPeerConnection;
- asks the server for a stranger to match with, passing the user's interest
  tags;
- negotiates a call over `{channel, data}` JSON envelopes;
- forwards local ICE candidates after sending the local description once;
- shows a status line and a text chat;
- lets the user mute, hide video, skip to the next stranger, or fall back to
  a demo mode when no socket is available.

The model has three layers.

- **Values** hold what the handlers compute on:
  - `JsonValue`: parsed JSON, JavaScript truthiness, and string conversion;
  - `Text`: `String.prototype.trim` and the `esc` HTML escape, with its
    decoding;
  - `Protocol`: channel names, the envelope codec, and the
    `handleWebSocketMessage` switch;
  - `Status`: the "You both like ..." status line;
  - `Media`: the local tracks and the loop that enables or disables every
    track of one kind, kept as an in-place loop over an array.
- **`Negotiation`** is the session as a pure state machine. It has one
  transition function per handler, over a `State` that holds every module
  global the handlers change. `Step` and `Run` fold any sequence of events.
  `SessionProperties` proves what holds over every run:
  - local and remote descriptions stay consistent;
  - envelopes are only appended, and only through an open socket;
  - as long as no new connection attempt replaces the peer connection,
    whatever else arrives in between, the local description is sent at most
    once, never after it was marked sent, and only immediately before a
    candidate; when it was not yet sent, no candidate goes out before it;
  - inbound messages reach exactly their handler.
- **`VideoSession`** is the client as it runs. The globals `ws`, `pc`,
  `localStream`, `isConnected`, `isMuted` and `isVideoOff` are fields of a
  `Session` object. The RTCPeerConnection is a `PeerConnection` object. Each
  callback is a method that updates those fields in place. Every method's
  `ensures` ties the new state, through `View()`, to the matching
  `Negotiation` transition of the old state. So everything proved in
  `SessionProperties` holds for the methods too.

Some behaviour depends on the outside world: whether a new socket opens,
whether the RTCPeerConnection constructor succeeds, the SDP that createOffer
and createAnswer return, the interest tags and Twitter handle the page
supplies, and whether getUserMedia grants a stream. Each of these enters as
a parameter (`Redial`, `External`, `media`). Sent envelopes are recorded in
`outbox`, in order.

Where the code differs from the usual WebRTC pattern, the model follows the
code:

- **Candidates are not buffered.** Received ICE candidates are applied at
  once (`OfferAnswerRules`), even before a remote description is set.
- **An ICE loss redials without cleanup.** A `disconnected` or `closed` ICE
  state redials without closing the old peer connection and without clearing
  `isConnected` (`IceLossRedials`). The `disconnect` message does both.
- **Two flag names.** The peer connection's "description sent" flag is
  initialised under one name (`sentDescription`) but tested and set under
  another (`sentRemoteDescription`). Because the tested flag starts
  undefined, a fresh peer connection counts as "not sent" either way.
  `PeerConnection` keeps both fields.
- **The description can be lost.** If the socket is not open when the first
  candidate appears, the flag is set anyway and the description is never
  sent (`DescriptionLostWithoutOpenSocket`).
- **Chat text is escaped twice.** It is escaped before sending, and the
  receiving side escapes it again when displaying. The stranger therefore
  sees the escaped form (`StrangerSeesEscapedText`). `Text.UnescapeEscape`
  shows that the escaped form loses nothing.

## Model

| member | source | states |
|---|---|---|
| JsonValue.Lookup | public/js/video.js:67 | a property read on a parsed object is None exactly when no field has the key, otherwise the value of the last field with that key |
| JsonValue.FalsyValues | public/js/video.js:299 | `!msg` holds for a string exactly when empty, for a number exactly when zero, for a boolean exactly when false, and never for an array or object, even an empty one |
| JsonValue.NatText | public/js/video.js:263 | the decimal text of a number is non-empty, all digits, reads back (left to right, base ten) as that number, and starts with '0' only for zero |
| JsonValue.IntText | public/js/video.js:263 | the text of an integer is a decimal numeral for it: its digits read back as the magnitude, preceded by '-' exactly for a negative number |
| JsonValue.Join | public/js/video.js:263 | joining no parts gives the empty text and joining one part gives that part |
| JsonValue.StringItems | public/js/video.js:184-188 | the interests array holds each tag, in order, as a JSON string |
| JsonValue.ElemTexts | public/js/video.js:263 | the join of interests converts each element on its own: null to the empty text, every other value to its String conversion, a string to itself |
| JsonValue.JsText | public/js/video.js:263 | String conversion: a number becomes a decimal numeral for it, a string stays itself, an empty array becomes empty text and a one-element array the join text of that element |
| Text.TrimStart | public/js/video.js:416 | removes exactly a leading run of white space, leaving a non-space first character |
| Text.TrimEnd | public/js/video.js:416 | removes exactly a trailing run of white space, leaving a non-space last character |
| Text.TrimStartRemovesSpace | public/js/video.js:416 | everything removed at the front is white space |
| Text.TrimEndRemovesSpace | public/js/video.js:416 | everything removed at the back is white space |
| Text.Trim | public/js/video.js:416 | the trimmed message is no longer than the input and begins and ends with a non-space character |
| Text.TrimIsSlice | public/js/video.js:416 | the trimmed message is a slice of the input with only white space before and after it |
| Text.TrimEmptyIffBlank | public/js/video.js:416-417 | the trimmed message is empty exactly when the input is all white space, so sendMessage ignores exactly blank input |
| Text.TrimIdempotent | public/js/video.js:416 | trimming an already trimmed message changes nothing |
| Text.Escape | public/js/video.js:4-9 | esc output is at least as long as its input and contains no '<', '>' or raw no-break space |
| Text.EscapeChangesMarkup | public/js/video.js:4-9 | text holding '<' or '>' never survives esc unchanged |
| Text.UnescapeAfterChar | public/js/video.js:4-9 | decoding the escape of one character followed by any text gives that character back first |
| Text.UnescapeEscape | public/js/video.js:4-9 | decoding the escaped text gives back the original text for every string |
| Protocol.Route | public/js/video.js:88-114 | a channel name the switch dispatches belongs to a handled channel with exactly that name |
| Protocol.NamesDistinct | public/js/video.js:88-114 | no two channels share a wire name |
| Protocol.RouteExactlyOne | public/js/video.js:88-114 | the switch sends a name to channel c if and only if c is handled and named so; all other names go to the default branch |
| Protocol.Encode | public/js/video.js:82-86 | the object sendWebSocketMessage serialises has a `channel` property holding the channel name and a `data` property holding the payload |
| Protocol.Decode | public/js/video.js:65-68 | None exactly when the value is not an object with a string `channel`: destructuring throws (null), or only the default branch of the switch can run; otherwise the channel and the `data` property, or null when it is absent |
| Protocol.DecodeEncode | public/js/video.js:65-68 | an envelope serialised as in sendWebSocketMessage destructures back to the same channel and data |
| Status.StatusLine | public/js/video.js:255-269 | the status begins with the base line, equals it exactly when the interest list is empty, and otherwise ends with '.' |
| Status.SharedSentence | public/js/video.js:259-267 | the interest sentence is empty exactly when there are no interests and otherwise ends with '.' |
| Status.StatusWithoutArray | public/js/video.js:256 | a `connected` payload that is not an array counts as no shared interests, so the status is the base line |
| Status.JoinThenAnd | public/js/video.js:261-263 | joining all but the last interest with ", " and adding " and " plus the last gives the English list wording |
| Status.StatusLineForTags | public/js/video.js:255-269 | for string tags the status is the base line alone, or the base line + " You both like " + the tags as an English list + "." |
| Status.SentenceForTags | public/js/video.js:259-267 | the interest sentence for string tags is " You both like " + their English list + "." |
| Status.SentenceForManyTags | public/js/video.js:261-263 | with two or more string tags the first ones are comma-joined and the last follows " and " |
| Status.SentenceUnfolds | public/js/video.js:260-263 | with two or more interests the sentence joins the first ones and appends " and " plus the last |
| Status.TextsOfTags | public/js/video.js:261-263 | the texts of all but the last string tag are those tags |
| Status.OneSharedInterest | public/js/video.js:264-265 | one shared tag "chess" gives "... You both like chess." |
| Status.ThreeTagsWording | public/js/video.js:262-263 | three tags a, b, c read "a, b and c" |
| Status.ThreeSharedInterests | public/js/video.js:262-263 | tags a, b, c give "... You both like a, b and c." |
| Media.WithEnabled | public/js/video.js:384-386 | every track of the kind carries the new enabled flag, every other track is unchanged, and the length is kept |
| Media.EnableTracks | public/js/video.js:384-386 | the in-place loop over the stream leaves the tracks equal to WithEnabled of the old tracks |
| Media.WithEnabledIdempotent | public/js/video.js:381-388 | toggling to the same value twice equals toggling once |
| Media.MuteAndVideoCommute | public/js/video.js:381-397 | muting and switching video off touch disjoint tracks, so their order does not matter |
| SessionProperties.InitialConsistent | public/js/video.js:17-22 | the state as the script loads has consistent descriptions |
| SessionProperties.InitializeKeepsConsistent | public/js/video.js:164-200 | initializeConnection keeps the descriptions consistent |
| SessionProperties.HandleKeepsConsistent | public/js/video.js:88-114 | every case of the switch keeps the descriptions consistent |
| SessionProperties.SocketMessageKeepsConsistent | public/js/video.js:65-72 | every inbound socket message, parsable or not, keeps the descriptions consistent |
| SessionProperties.CandidateKeepsConsistent | public/js/video.js:127-135 | a local candidate event keeps the descriptions consistent |
| SessionProperties.StepKeepsConsistent | public/js/video.js:284-291 | every event keeps a remote description paired with a local one, and an answer after a remote description |
| SessionProperties.RunKeepsConsistent | public/js/video.js:284-291 | over any sequence of events a set remote description implies a set local one, and a local answer implies a remote description |
| SessionProperties.SendSendsOnlyWhenOpen | public/js/video.js:82-86 | sendWebSocketMessage only appends, and only through an open socket |
| SessionProperties.CandidateSendsOnlyWhenOpen | public/js/video.js:127-135 | a local candidate event only appends, and only through an open socket |
| SessionProperties.InitializeSendsOnlyWhenOpen | public/js/video.js:182-188 | initializeConnection only appends to the outbox, and only through an open socket |
| SessionProperties.HandleSendsOnlyWhenOpen | public/js/video.js:88-114 | every case of the switch only appends, and only through an open socket |
| SessionProperties.SocketMessageSendsOnlyWhenOpen | public/js/video.js:65-72 | every inbound socket message only appends, and only through an open socket |
| SessionProperties.SendMessageSendsOnlyWhenOpen | public/js/video.js:413-429 | sendMessage keeps the peer connection, only appends, and only through an open socket |
| SessionProperties.ChatSendsOnlyWhenOpen | public/js/video.js:433-442 | a key press keeps the peer connection, only appends, and only through an open socket |
| SessionProperties.SendsOnlyWhenOpen | public/js/video.js:82-86 | every event leaves the earlier envelopes in place, and sends new ones only while the socket is open |
| SessionProperties.RunOnlyAppends | public/js/video.js:82-86 | over any run of events, everything already sent stays sent in the same order |
| SessionProperties.OneCandidate | public/js/video.js:127-135 | one candidate event sends the description first if not yet sent, then the candidate; a null candidate sends nothing |
| SessionProperties.CandidatesFollowDescription | public/js/video.js:127-135 | with an open socket, a run made only of local candidate events sends exactly the local description (unless already sent, and only if some candidate is non-null) followed by every non-null candidate in order; the general interleaved case is DescriptionSentOnce |
| SessionProperties.CandidateShape | public/js/video.js:127-135 | a candidate event keeps the socket and the peer connection; once the flag is set it sends no description; otherwise it sets the flag and either sends the description followed by the candidate, or, with the socket not open, sends nothing |
| SessionProperties.HandleQuiet | public/js/video.js:88-114 | every case of the switch but `disconnect` keeps the peer connection and its "description sent" flag and sends nothing |
| SessionProperties.QuietEvent | public/js/video.js:75-114 | every event other than a local candidate, a socket close or a new connection attempt keeps the socket, the peer connection and its "description sent" flag, and sends neither a description nor a candidate |
| SessionProperties.PeerStep | public/js/video.js:127-135 | every event other than a `disconnect` message, an ICE loss or videoStart keeps the peer connection, never opens the socket, never clears the flag, sends no description once it is set and nothing description- or candidate-related while it stays unset; setting it sends the description followed by a candidate, or nothing through a socket that is not open |
| SessionProperties.ClosedRunSilent | public/js/video.js:82-86 | without a new connection attempt a socket that is not open never opens again, so nothing more is sent |
| SessionProperties.DescriptionSentOnce | public/js/video.js:127-135 | over any run that keeps the peer connection, interleaved with remote candidates, chat, typing and keepalives: at most one description goes out, none if it was already marked sent, it comes immediately before a candidate, and when it was not yet marked sent the first candidate is immediately preceded by it |
| SessionProperties.CandidateFirstRejected | public/js/video.js:130-134 | a candidate forwarded with no description ahead of it, while the description is not yet marked sent, is ruled out both for one step and for a run |
| SessionProperties.DescriptionLostWithoutOpenSocket | public/js/video.js:130-133 | a candidate that appears while the socket is not open sends nothing but still sets the "description sent" flag |
| SessionProperties.DescriptionNeverSentAfterLoss | public/js/video.js:127-135 | after a candidate that appears while the socket is not open, nothing more is sent, the description included, whatever events follow short of a new connection attempt |
| SessionProperties.WireReachesHandler | public/js/video.js:65-114 | a serialised envelope on a handled channel reaches that channel's case of the switch |
| SessionProperties.UnknownMessagesIgnored | public/js/video.js:65-72 | an unparsable message, or one on a channel with no case, leaves the whole state unchanged |
| SessionProperties.NegotiationMessagesOnlyTouchPeer | public/js/video.js:278-296 | the begin, description and iceCandidate cases change only the peer connection, and nothing without one |
| SessionProperties.OfferAnswerRules | public/js/video.js:278-296 | begin sets an offer; description sets the remote description and answers only without a local description; a candidate is applied at once |
| SessionProperties.ConnectedMessage | public/js/video.js:255-276 | the connected case shows the interest status line, clears the chat, sets isConnected and changes nothing else |
| SessionProperties.ChatMessages | public/js/video.js:298-308 | a truthy message appends the stranger's text; a falsy one, and any typing message, change nothing |
| SessionProperties.DisconnectRedials | public/js/video.js:310-318 | disconnect drops the peer connection and the connected flag, shows the searching or failed status, and sends a match request or schedules a demo match |
| SessionProperties.IceLossRedials | public/js/video.js:137-142 | a disconnected or closed ICE state starts a new connection attempt: searching or failed status, cleared chat, new socket, a fresh peer connection when the constructor succeeds (else the old one), then a match request through an open socket or a demo match scheduled without one; isConnected and everything else kept; other states change nothing |
| SessionProperties.ChatSendIgnored | public/js/video.js:416-417 | with a blank input or no partner, sendMessage changes nothing |
| SessionProperties.PostSends | public/js/video.js:419-428 | past the guard the text joins the chat as "you", the input clears, and an open socket sends the escaped text then typing false, and nothing else changes |
| SessionProperties.ChatSend | public/js/video.js:413-429 | with text and a partner the trimmed, non-empty text is posted, and unescaping its escaped form gives it back |
| SessionProperties.KeyDownSends | public/js/video.js:433-442 | a non-Enter key sends typing true through an open socket; Enter sends typing false before anything sendMessage sends |
| SessionProperties.TypingTimerSends | public/js/video.js:444-449 | the keyup debounce timer sends typing false through an open socket and changes nothing else |
| SessionProperties.StrangerSeesEscapedText | public/js/video.js:298-301 | a chat message arrives as its escaped text, so a message with '<' is shown changed |
| SessionProperties.SkipAndDemo | public/js/video.js:399-408 | skip sends disconnect through an open socket, or without a socket schedules a demo match that leaves the session connected |
| SessionProperties.TogglesTouchOneKind | public/js/video.js:381-397 | the mute and video toggles set their flag and change exactly the tracks of their kind |
| VideoSession.PeerConnection.constructor | public/js/video.js:124-125 | a new peer connection has no descriptions, no applied candidates, and no description sent |
| VideoSession.PeerConnection.Close | public/js/video.js:313 | closing marks the connection closed and keeps its descriptions |
| VideoSession.Session.constructor | public/js/video.js:17-22 | the globals start null and false |
| VideoSession.Session.SendWebSocketMessage | public/js/video.js:82-86 | the envelope is appended to the outbox exactly when the socket is open |
| VideoSession.Session.UpdateStatus | public/js/video.js:321-326 | the messages box holds the new status alone |
| VideoSession.Session.InitializeConnection | public/js/video.js:164-200 | the new state is InitializeConnection of the old state, with a fresh peer connection when one is created |
| VideoSession.Session.HandlePeerConnected | public/js/video.js:255-276 | the new state is PeerConnected of the old state |
| VideoSession.Session.HandleBeginCall | public/js/video.js:278-282 | the new state is BeginCall of the old state |
| VideoSession.Session.HandleDescription | public/js/video.js:284-291 | the new state is ReceiveDescription of the old state |
| VideoSession.Session.HandleIceCandidate | public/js/video.js:293-296 | the new state is ReceiveCandidate of the old state |
| VideoSession.Session.HandleMessage | public/js/video.js:298-301 | the new state is ReceiveMessage of the old state |
| VideoSession.Session.HandleDisconnect | public/js/video.js:310-318 | the old peer connection is closed, and the new state is PeerDisconnected of the old state |
| VideoSession.Session.HandleWebSocketMessage | public/js/video.js:88-114 | the new state is Dispatch of the old state |
| VideoSession.Session.Handle | public/js/video.js:89-110 | the new state is Handle of the old state for the channel |
| VideoSession.Session.OnMessage | public/js/video.js:65-72 | the new state is ReceiveSocketMessage of the old state |
| VideoSession.Session.OnIceCandidate | public/js/video.js:127-135 | the new state is IceCandidateFound of the old state |
| VideoSession.Session.OnIceConnectionStateChange | public/js/video.js:137-142 | the new state is IceStateChanged of the old state |
| VideoSession.Session.SocketClosed | public/js/video.js:76 | an open socket is no longer open |
| VideoSession.Session.KeepaliveTick | public/js/video.js:75-79 | the new state is KeepaliveTick of the old state |
| VideoSession.Session.SimulateConnection | public/js/video.js:203-252 | the new state is DemoMatch of the old state |
| VideoSession.Session.VideoStart | public/js/video.js:345-379 | the new state is VideoStart of the old state |
| VideoSession.Session.VideoSkip | public/js/video.js:399-408 | the new state is Skip of the old state |
| VideoSession.Session.VideoMuteToggle | public/js/video.js:381-388 | the new state is MuteToggle of the old state |
| VideoSession.Session.VideoToggle | public/js/video.js:390-397 | the new state is VideoToggle of the old state |
| VideoSession.Session.SetInput | public/js/video.js:416 | the message box holds the new text |
| VideoSession.Session.SendMessage | public/js/video.js:413-429 | the new state is SendMessage of the old state |
| VideoSession.Session.Post | public/js/video.js:419-428 | the new state is Post of the old state and the message |
| VideoSession.Session.TypingTimeout | public/js/video.js:444-449 | the new state is TypingIdle of the old state |
| VideoSession.Session.KeyDown | public/js/video.js:433-442 | the new state is KeyDown of the old state |

## Left out

- WebSocket creation, `onopen` and `onerror`: whether a connection attempt yields an open socket is the `socketOpens` parameter. Sockets from earlier attempts are not modelled, and the source does not close them.
- Timers: the keepalive interval, the demo-mode `setTimeout` and the typing debounce are events that may arrive at any time. Their delays, `Math.random`, and the `clearInterval` calls that cancel a pending debounce are not modelled.
- Concurrency of `await`: each handler runs to completion atomically. Interleavings of an unfinished `initializeConnection` or `handleDescription` with other events are not modelled.
- `initializePeerConnection` after the constructor: adding local tracks, the remote MediaStream, `ontrack`, and the loader display touch only media and the DOM. The ICE server list is not modelled.
- A failure of `createOffer`, `createAnswer`, `setLocalDescription`, `setRemoteDescription` or `addIceCandidate` is not modelled. These calls always succeed, and their SDP is a parameter.
- DOM effects: the typing indicator, scrolling, button states, the Twitter handle displays and the demo canvas animation. The messages box is modelled as a status line plus chat lines, not as HTML.
- `JsonValue.JsText`: non-integer numbers, number exponent formatting, and objects that override `toString` are not modelled. JSON numbers are integers here.
- JsonValue.JsText: its contract covers numbers, strings, and empty and one-element arrays. The texts of null, booleans, objects and longer arrays are fixed by its definition but not restated in the contract.
- SessionProperties.DescriptionSentOnce: it speaks of the channels of the envelopes, not their payloads. What the description envelope carries (the local description at that moment) is stated by OneCandidate.
- Protocol.Decode: an absent `data` field (undefined) is treated as null. No handler behaves differently for the two.
- `desktop.js` and `main.js` call the `window.video*` functions. They are not part of this model beyond the parameters named above.
