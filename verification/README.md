# web-irc multiplexing transport, modelled in Dafny

This project models the client transport of web-irc, as specified in
`serverConnection.ts`. The transport carries many logical channels over one
SockJS-style WebSocket per server address.

- **Outbound frames.** Every frame is `escape.quote(message)`: the message is
  JSON-quoted, and then every code unit in a fixed set of UTF-16 ranges
  (`extraEscapable`) is rewritten as `\u` plus four lower-case hex digits.
  The result is wrapped in `[` … `]`.
- **Inbound frames.** The first unit of a frame selects its type: `o`, `a`,
  `m` or `c`. Each logical message is then routed by `dispatchMessage`:
  - `:<id>` acknowledges channel `id`;
  - `:<id> <data>` carries data for channel `id`;
  - anything else is connection-control text, where `SESSION <sid>` records a
    session id.
- **Connections.** There is one connection per lower-cased address. A
  connection has a `connected` flag, may hold a socket, runs the
  `CONTROL START` / `CONTROL SESSION <sid>` handshake on open, and resets its
  channels on close.
- **Channels.** Each channel has `isOpen`, a `remoteState` relay flag, a queue
  of control lines that waits for the server's acknowledgement, and an
  encoding. Channels live in one registry keyed by id alone.

The project also models `user.ts`: the `User` constructor's defaults, and
`toggleModes`, which walks a mode string such as `+iw-x` with an adding flag.

Strings are sequences of UTF-16 code units (`Utf16.Text`), so lone
surrogates, which the escaper exists to protect, can be represented. Every
handler is a pure step:
- Steps take a `World`, which holds the connection registry, the channel
  registry and the creation order. Creation order is the order in which
  channels' listeners run.
- Steps return the next world, the socket operations performed and the
  events emitted.
- A socket send carries the logical message. The bytes on the wire are
  `Multiplexer.Wire`, the quoted frame.
- `Multiplexer.Valid` is the registry invariant that every step preserves.

Modules, in dependency order:
- `Wrappers`: `Option`.
- `Utf16`: code units, `indexOf`, `split`, ASCII `toLowerCase`.
- `Numerals`: `toString(radix)`, `Hex4`.
- `Escape`: the quoting of `escape.quote`, and the reading side used for the
  round trip.
- `Framing`: `onmessage` frame types and `dispatchMessage` routing.
- `Channels`: one `ConnectionChannel`.
- `Multiplexer`: the registries and connection handlers.
- `Properties`: multi-step properties.
- `Users`: the `User` constructor and `toggleModes`.

Behaviours of the code that a reader of the protocol might not expect, all
modelled as the code has them:
- An open acknowledgement sets `remoteState` to 1 (serverConnection.ts:235).
  Relaying is not reserved for `control connected`.
- The handshake resumes the session id passed when the connection was
  created (serverConnection.ts:104-106). It does not use the one the server
  later announced with `SESSION`. `Properties.ServerSessionRecorded` states
  both halves.
- Outbound frames are `[...]` with no type letter (serverConnection.ts:38, 45).
- A `c` frame only closes the socket (serverConnection.ts:177-181). The
  channels are reset by the socket's close event, which is a separate step
  (`Multiplexer.HandleClose`).
- The `control connected` line is itself reported to the application as a
  line (serverConnection.ts:248-260).

## Model

| member | source | states |
|---|---|---|
| `Escape.ExtraEscapable` | serverConnection.ts:7 | The `extraEscapable` class, one disjunct per class item. Every C0 control and every surrogate half is in it. No unit from 0x20 to 0x2ff is in it. |
| `Escape.UnrolledEntry` | serverConnection.ts:12-26 | The lookup table has an entry exactly for the escapable units. Each entry is `\u` and four lower-case hex digits whose value is the unit, so no entry contains an escapable unit itself. |
| `Escape.UnicodeEscape` | serverConnection.ts:21 | The replacement for a unit is six units: a backslash, `u` and four lower-case hex digits whose value is the unit. None of the six is escapable. |
| `Numerals.ToBase` | serverConnection.ts:21 | `n.toString(base)` writes lower-case digits below the base. Its first digit is `0` exactly when n is zero, and then it is just `"0"`. |
| `Numerals.CanonicalUnique` | serverConnection.ts:21 | A numeral with digits below the base and no leading zero (unless it is `"0"`) whose value is n is exactly what `toString(base)` writes for n. |
| `Numerals.Decimal` | serverConnection.ts:67 | `'' + n` is a decimal numeral with no leading zero (unless it is `"0"`), and its value is n. |
| `Numerals.DecimalCanonical` | serverConnection.ts:67 | Every decimal numeral without a leading zero is `'' + n` of its own value, so an automatic id such as `12` is written exactly as that. |
| `Numerals.Hex4` | serverConnection.ts:21 | `('0000' + code.toString(16)).slice(-4)` is four lower-case hex digits whose value is the code. |
| `Numerals.ValueOfToBase` | serverConnection.ts:21 | The digits `toString(radix)` writes evaluate back to the number. |
| `Escape.ReplaceEscapable` | serverConnection.ts:45-47 | After the replacement no escapable unit is left. Text without escapable units is returned unchanged. The result is never shorter. |
| `Escape.ReplaceUnit` | serverConnection.ts:45-47 | An escapable unit becomes its `extraLookup` entry: `\u` and the four lower-case hex digits of its value. Any other unit stands for itself. The result has no escapable unit. |
| `Escape.ReplaceSingle` | serverConnection.ts:45-47 | Replacing a one-unit text gives that unit's replacement, so an escapable unit becomes its table entry. With `Escape.ReplaceConcat` this fixes the replacement of every text. |
| `Escape.ReplaceConcat` | serverConnection.ts:45-47 | The replacement works unit by unit, so replacing a concatenation is concatenating the replacements. |
| `Escape.JsonQuote` | serverConnection.ts:33 | `JSON.stringify` of a string begins and ends with a quote. |
| `Escape.StringifyRoundTrip` | serverConnection.ts:33 | `JSON.parse(JSON.stringify(s))` gives back s, and decoding the quoted body alone also gives s. |
| `Escape.JsonEscapeUnit` | serverConnection.ts:33 | `JSON.stringify` writes a unit as itself only when it is not a control unit, a quote or a backslash. Otherwise it writes a backslash escape with no escapable unit. |
| `Escape.Quote` | serverConnection.ts:32-48 | The frame is `[`, the JSON-quoted message with every escapable unit replaced, then `]`. When nothing is escapable it is the quoted text unchanged (the fast path). The frame contains no escapable unit. |
| `Escape.BodyRoundTrip` | serverConnection.ts:33-47 | Decoding the escaped body of a JSON string gives back the original units. |
| `Escape.QuoteRoundTrip` | serverConnection.ts:32-48 | A peer that parses the frame as a one-string JSON array recovers the message exactly, lone surrogates included. |
| `Escape.QuoteInjective` | serverConnection.ts:32-48 | Distinct messages give distinct frames. |
| `Utf16.IndexOf` | serverConnection.ts:123 | `indexOf(' ')` is absent exactly when there is no space. Otherwise it is the first position holding one. |
| `Utf16.Split` | serverConnection.ts:137 | `split(' ')` gives at least one part. No part holds the separator, and joining the parts with it gives back the text. |
| `Utf16.SplitJoin` | serverConnection.ts:137 | Splitting a join of separator-free parts gives back exactly those parts. |
| `Utf16.Lower` | serverConnection.ts:58 | `toLowerCase` keeps the length, lowers upper-case ASCII letters and keeps every other unit. |
| `Utf16.LowerIdempotent` | serverConnection.ts:58 | A lower-cased address is its own lower case, so it is a stable registry key. |
| `Framing.Payload` | serverConnection.ts:156-164 | A frame with nothing after its type letter has no payload. Otherwise the payload is `JSON.parse` of the rest, and None where the parse fails. |
| `Framing.DecodeFrame` | serverConnection.ts:144-183 | `o` means the handshake, whatever follows. Empty or unparseable content means nothing. `a` with an array delivers its elements in order, and `m` delivers its single payload. `c` requests a close exactly when its payload is an array of two. Any other type means nothing. |
| `Framing.Route` | serverConnection.ts:121-142 | A message is an acknowledgement exactly when it starts with `:` and has no space. It is control text exactly when it is empty or does not start with `:`. Control text is passed through whole. |
| `Framing.RouteParts` | serverConnection.ts:121-134 | An acknowledgement is `':' + id`. Channel data is `':' + id + ' ' + data`, split at the first space, so the id holds no space. |
| `Framing.RouteAddressed` | serverConnection.ts:132-134 | The outbound shape `':' + id + ' ' + data` with a space-free id routes back to channel `id` with exactly `data`, spaces in `data` included. |
| `Framing.RouteAnnounce` | serverConnection.ts:127-130 | `':' + id` with a space-free id routes back as the acknowledgement of `id`. |
| `Framing.SessionAfter` | serverConnection.ts:136-141 | The session id changes only when the first space-separated field is `SESSION`. It then becomes the second field, or undefined when there is none. |
| `Framing.SessionLine` | serverConnection.ts:137-140 | `SESSION <sid> ...` records `sid`, whatever follows. |
| `Framing.OtherControlText` | serverConnection.ts:137-141 | Control text with any other first word leaves the session untouched. |
| `Channels.Addressed` | serverConnection.ts:267 | `':' + id + ' ' + data`: a colon, the id, one space, then the data unchanged. |
| `Channels.Announce` | serverConnection.ts:304 | `':' + id`: a colon followed by the id. |
| `Channels.EncodingLine` | serverConnection.ts:312 | `'ENCODING ' + encoding`: the word `ENCODING`, one space, then the encoding unchanged. |
| `Channels.HostLine` | serverConnection.ts:296-299 | The `HOST` line is `HOST <host>:` followed by the port. The port is prefixed by `+` exactly when `tls` or `ssl` is set. |
| `Channels.Create` | serverConnection.ts:206-215 | A new channel starts closed, not relaying, with an empty buffer and encoding `utf8`. It announces its id only when the connection is connected. |
| `Channels.InitChannel` | serverConnection.ts:321-323 | `initChannel` sends the bare `:id`. |
| `Channels.SendControl` | serverConnection.ts:265-271 | On an open channel the line is sent at once and nothing else changes. Otherwise the line is appended to the buffer and nothing is sent. |
| `Channels.Flush` | serverConnection.ts:225-230 | Every buffered line is sent once, in order, addressed to the channel. |
| `Channels.WriteLine` | serverConnection.ts:273-277 | A line is sent exactly when the channel relays. The channel never changes. |
| `Channels.Close` | serverConnection.ts:302-306 | The bare `:id` is sent only when the channel relays. Local state is kept. |
| `Channels.SetEncoding` | serverConnection.ts:309-315 | The encoding always changes. `ENCODING <name>` is sent only on a connected connection. |
| `Channels.Connect` | serverConnection.ts:287-300 | The buffer is emptied first. The `HOST` line is then sent on an open channel, or is left as the only queued line otherwise. |
| `Channels.OnOpenAck` | serverConnection.ts:222-237 | The channel ends open and relaying, with an empty buffer. The buffered lines went out in FIFO order, then `ENCODING` if connected, and the channel reports `open`. |
| `Channels.OnConnectionClose` | serverConnection.ts:238-243 | The channel ends closed and not relaying, with its buffer and encoding untouched, and reports the close reason. |
| `Channels.OnMessage` | serverConnection.ts:244-262 | `control connected` starts relaying. `control closed` stops it and reports field 2 as the reason. Other text keeps the relay state. The data is reported as a line exactly when the channel relays afterwards. Nothing is sent. |
| `Multiplexer.Listeners` | serverConnection.ts:217-243 | A channel is among a connection's listeners exactly when it is registered and was created on that connection. There are never more listeners than registered channels, and none is listed twice. |
| `Multiplexer.ListenersInOrder` | serverConnection.ts:217-243 | The listeners appear in the order their channels were created, as the listeners of an event emitter run in registration order. They sit at strictly increasing positions of the creation order. |
| `Multiplexer.NewConnection` | serverConnection.ts:80-87 | A new connection has no socket, is not connected, counts channel ids from 1, has the empty string as `sessionId`, and keeps the creation session id for the handshake. On a lower-cased address it is well formed. |
| `Multiplexer.HandshakeLine` | serverConnection.ts:104-107 | The handshake is `:0 CONTROL SESSION <sid>` when a session id was given, and `:0 CONTROL START` when it is empty. |
| `Multiplexer.Reconnect` | serverConnection.ts:89-102 | An existing socket is closed before a new one is opened. `connected` and every channel are left alone. |
| `Multiplexer.EnsureConnection` | serverConnection.ts:60-62 | An existing connection is reused and nothing happens. A missing one is created with the given session id and opens its socket. No channel and no other connection changes, and validity is kept. |
| `Multiplexer.CreateChannelConstructor` | serverConnection.ts:57-74 | The address is lower-cased. Its first use creates and connects the connection with the given session id, and later uses reuse it untouched. An empty id takes the counter in decimal and advances it; a given id leaves it. |
| `Multiplexer.ConstructChannel` | serverConnection.ts:194-204 | The first construction registers the channel and announces it if connected. Later ones change nothing and re-announce only if the wrapper's connection is connected. |
| `Multiplexer.OpenFrames` | serverConnection.ts:103-107 | The handshake line goes first, then one `:id` per listening channel, in order. All of them go on this connection. |
| `Multiplexer.HandleOpen` | serverConnection.ts:103-110 | The connection becomes connected and sends the handshake for its creation session id, then every listening channel's announcement. Nothing else changes. |
| `Multiplexer.HandleClose` | serverConnection.ts:111-115 | The connection is disconnected and drops its socket. Every channel on it ends closed and not relaying, with its buffer and encoding untouched, and reports the reason. Other channels are untouched. |
| `Multiplexer.Deliver` | serverConnection.ts:128-134 | Only a channel listening to the connection reacts. It changes no other channel, and its notices are its own. |
| `Multiplexer.DeliverReacts` | serverConnection.ts:222-262 | A listening channel reacts as its `open.id` or `message.id` handler says, on its own connection. |
| `Multiplexer.Dispatch` | serverConnection.ts:116-143 | Control text changes only the connection's session id. An acknowledgement or data emits its event and goes to the channel of that id. The world stays valid. |
| `Multiplexer.DispatchEvents` | serverConnection.ts:116-117 | The connection reports the message first and only once. Every frame sent goes out on a live socket. |
| `Multiplexer.DispatchAll` | serverConnection.ts:167-173 | Dispatching the payloads of an `a` frame keeps the world valid and leaves other connections untouched. |
| `Multiplexer.DispatchAllOne` | serverConnection.ts:116-171 | A single string payload is exactly one `dispatchMessage` of it. Any other payload is reported as a `message`, then `dispatchMessage` throws, so nothing changes and nothing is sent. |
| `Multiplexer.DispatchAllConcat` | serverConnection.ts:116-171 | Payloads that are all strings are dispatched in array order. Each is dispatched against the state the previous ones left, and the socket operations and events come in that order. After a payload that is not a string, nothing later in the array is dispatched. |
| `Multiplexer.HandleFrame` | serverConnection.ts:144-183 | Each frame type runs its handler: the handshake, dispatch, the socket close, or nothing. |
| `Multiplexer.SendControl` | serverConnection.ts:265-271 | `sendControl` on the world: sent on the channel's connection when open, queued otherwise. |
| `Multiplexer.WriteLine` | serverConnection.ts:273-277 | `writeLine` on the world: one frame exactly when relaying, and the world is unchanged. |
| `Multiplexer.CloseChannel` | serverConnection.ts:302-306 | `close` on the world: `:id` only when relaying, and the world is unchanged. |
| `Multiplexer.SetEncoding` | serverConnection.ts:309-315 | `setEncoding` on the world: `ENCODING` is sent only when the channel's connection is connected. |
| `Multiplexer.InitChannel` | serverConnection.ts:321-323 | `initChannel` on the world: `:id` on the channel's own connection. |
| `Multiplexer.ConnectChannel` | serverConnection.ts:287-300 | A connection without a socket reconnects. The buffer is replaced by the `HOST` line, or the line is sent when the channel is open. |
| `Properties.PeerReadsAddressed` | serverConnection.ts:265-268 | What a channel sends reaches the peer intact. The frame parses back to the message, and the message splits back into the channel id and the data. |
| `Properties.DispatchReportsOnce` | serverConnection.ts:116-117 | One dispatched message is reported by the connection exactly once. |
| `Properties.DispatchAllOrder` | serverConnection.ts:116-171 | An `a` frame's string payloads are reported once each, in array order, up to the first payload that is not a string. |
| `Properties.DispatchIsolation` | serverConnection.ts:116-135 | A message changes no channel except the listening channel it names. |
| `Properties.AckFlushesBuffer` | serverConnection.ts:222-237 | The acknowledgement `:id` sends the buffered control lines in FIFO order, then `ENCODING` if connected. It leaves the channel open, relaying and with an empty buffer. |
| `Properties.BufferedControlOrder` | serverConnection.ts:265-271 | Lines sent before the channel opens send nothing. After the open handshake and the acknowledgement they reach the wire in order, followed by the encoding. |
| `Properties.ConnectedReaction` | serverConnection.ts:248-260 | A channel that reads `control connected` starts relaying and reports that line itself as a line. It sends nothing. |
| `Properties.ClosedReaction` | serverConnection.ts:252-256 | A channel that reads the bare `control closed` stops relaying and reports a close without a reason. It sends nothing and reports no line. |
| `Properties.RelayStarts` | serverConnection.ts:244-277 | After the connection dispatches `:id control connected`, a written line is exactly one frame addressed to the channel. The message is reported by the connection, then by the channel as data, then relayed as a line. |
| `Properties.RelayStops` | serverConnection.ts:244-277 | After the connection dispatches `:id control closed`, a written line sends nothing. The channel reports a close without a reason and relays no line. |
| `Properties.ClosedHasTwoFields` | serverConnection.ts:252-253 | The bare `control closed` has no field 2, so its reason is undefined. |
| `Properties.CloseStopsRelay` | serverConnection.ts:238-243 | After the socket closes, written lines and close requests send nothing, and control lines are queued again. |
| `Properties.ConnectAfterClose` | serverConnection.ts:287-300 | Connecting a channel after its socket closed opens a new socket and queues only the `HOST` line. |
| `Properties.ServerSessionRecorded` | serverConnection.ts:136-141 | The server's `SESSION <sid>` is recorded on the connection. A later handshake still resumes the creation session id. |
| `Properties.SingleInstance` | serverConnection.ts:196-204 | Constructing an id again returns the same channel with its first options and changes nothing. |
| `Properties.SharedConnection` | serverConnection.ts:57-62 | Two addresses equal up to case share one connection. The second constructor opens no socket and adds no connection. The handshake keeps the session id of whichever constructor created the connection. |
| `Properties.AutoIdsDistinct` | serverConnection.ts:64-68 | Two constructors on the same connection without a channel id get different ids. |
| `Properties.FirstAutoId` | serverConnection.ts:57-68 | On an address with no connection yet, the first automatic channel id is `1`. |
| `Users.NewUser` | user.ts:2-12 | Nick, username, gecos and host default to `''`. `away` is true only when given and true. The modes are exactly the given modes, or none. |
| `Users.ToggleModes` | user.ts:14-30 | Only the mode set changes, and it ends as the last-occurrence rule says. |
| `Users.LastOccurrenceRule` | user.ts:18-28 | A non-sign unit named in the string is present exactly when the sign in force at its last occurrence was `+`, or there was none. Every other mode keeps its membership. |
| `Users.SignsUntouched` | user.ts:19-25 | `+` and `-` are never added or removed. |
| `Users.OthersUntouched` | user.ts:27 | Modes the string does not name keep their membership. |
| `Users.UnsignedAdds` | user.ts:15-28 | A string without signs adds every unit it names. |
| `Users.ToggleIdempotent` | user.ts:14-30 | Applying a mode string twice is applying it once. |

## Left out

- WebSocket URL building with `Math.random` and `crypto.randomUUID` (serverConnection.ts:102). These are I/O and randomness; a socket is modelled as present or absent per connection.
- The lazy `extraLookup` cache (serverConnection.ts:41-42). It only affects speed; the lookup is the total function `Escape.UnrolledEntry`.
- `JSON.parse` is a parameter (`parse: Text -> Option<Json>`). It returns `None` where the source's parse throws or yields `undefined`, and only strings, arrays and "anything else" are told apart.
- `JSON.stringify` is written as the escaper of section 7 of RFC 8259, without the ES2019 rule that escapes lone surrogates as `\udxxx`. The frame is the same either way, because the second pass rewrites every surrogate into the identical lower-case `\udxxx`.
- `toLowerCase` is modelled for ASCII only. Other letters keep their case.
- The value carried by the `message` event for a payload that is not a string. The model records that the event happened (`UnreadableMessage`) but not the value. It does model the throw that follows, which abandons the rest of the array.
- The `setTimeout` callback of `writeLine` (serverConnection.ts:281-283). This is scheduling, not state.
- The `try`/`catch` around `ws.close()` (serverConnection.ts:92-97). Closing is modelled as an operation that cannot fail.
- The dead `state` field (serverConnection.ts:212, 239) and the no-op `disposeSocket`.
- The return value `true` of `setEncoding`.
- Sends on a connection without a socket throw in the source. Example: `initChannel` reached through a constructor of another address whose connection is connected while the channel's own has no socket. The model sends on the channel's own connection and does not model the throw.
- The application's own listeners on connection and channel events. Events are recorded in order; nothing reacts to them.
- Which socket a close event comes from. A close of a socket already replaced by `reconnect` would, in the source, clear the new socket. The model takes every close as the close of the current socket (`Multiplexer.HandleClose` requires one).
- Users.NewUser: attributes are text, an optional boolean and an optional list. JavaScript truthiness of other values, such as `away: 'yes'`, is not modelled.
- Users.ToggleModes: a `modestr` that is not a string (`for...in` over `undefined` does nothing) is not modelled.
