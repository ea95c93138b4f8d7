/**
 One `ConnectionChannel`: a logical stream multiplexed on a connection. Each
 operation is a pure step that returns the channel's new state, the logical
 messages it writes to the connection's socket (before quoting) and the
 notices it emits to the application.
 */
module Channels {
  import opened Wrappers
  import opened Utf16

  /** `remoteState`: 0 = not relaying, 1 = relaying. */
  type Relay = r: int | 0 <= r <= 1

  /** The `options` a channel is constructed with; only `host`, `port`, `tls` and `ssl` are read. */
  datatype ChannelOptions = ChannelOptions(host: Text, port: Text, tls: bool, ssl: bool)

  datatype Channel = Channel(
    id: Text,                  // the channel id, also its registry key
    addr: Text,                // the connection whose events it listens to
    options: ChannelOptions,
    isOpen: bool,              // the server has acknowledged the id
    remoteState: Relay,
    controlBuffer: seq<Text>,  // `sendControlBuffer`
    encoding: Text)

  /** What `channel.emit` reports: 'open', 'close' with a reason, 'line' with data. */
  datatype Notice = Opened | Closed(reason: Option<Text>) | Line(data: Text)

  datatype Reaction = Reaction(channel: Channel, out: seq<Text>, notices: seq<Notice>)

  const DEFAULT_ENCODING: Text := Lit("utf8")
  const CONTROL_PREFIX: Text := Lit("control ")
  const CONTROL_CONNECTED: Text := CONTROL_PREFIX + Lit("connected")
  const CONTROL_CLOSED: Text := CONTROL_PREFIX + Lit("closed")

  /** `':' + id + ' ' + data`: data for channel `id`. */
  function Addressed(id: Text, data: Text): (m: Text)
    ensures |m| == |id| + |data| + 2
    ensures m[0] == COLON && m[1..|id| + 1] == id && m[|id| + 1] == SPACE && m[|id| + 2..] == data
  {
    [COLON] + id + [SPACE] + data
  }

  /** `':' + id`: opens channel `id`, or asks the server to tear it down. */
  function Announce(id: Text): (m: Text)
    ensures |m| == |id| + 1 && m[0] == COLON && m[1..] == id
  {
    [COLON] + id
  }

  /** `'ENCODING ' + encoding`. */
  function EncodingLine(encoding: Text): (m: Text)
    ensures |m| == |encoding| + 9 && StartsWith(m, Lit("ENCODING ")) && m[9..] == encoding
  {
    Lit("ENCODING ") + encoding
  }

  /** `'HOST ' + host + ':' + (tls ? '+' : '') + port`. */
  function HostLine(o: ChannelOptions): (line: Text)
    ensures StartsWith(line, Lit("HOST ") + o.host + [COLON])
    ensures (o.tls || o.ssl) <==> line[|o.host| + 6..] == [PLUS] + o.port
    ensures !(o.tls || o.ssl) ==> line[|o.host| + 6..] == o.port
  {
    var secure := if o.tls || o.ssl then [PLUS] else [];
    var line := Lit("HOST ") + o.host + [COLON] + secure + o.port;
    assert line[|o.host| + 6..] == secure + o.port;
    line
  }

  /** `new ConnectionChannel(options)`: closed, not relaying, nothing buffered, `utf8`; announced only on a connected connection. */
  function Create(id: Text, addr: Text, options: ChannelOptions, connected: bool): (r: Reaction)
    ensures r.channel.id == id && r.channel.addr == addr && r.channel.options == options
    ensures !r.channel.isOpen && r.channel.remoteState == 0
    ensures r.channel.controlBuffer == [] && r.channel.encoding == DEFAULT_ENCODING
    ensures r.out == (if connected then [Announce(id)] else [])
    ensures r.notices == []
  {
    var ch := Channel(id, addr, options, false, 0, [], DEFAULT_ENCODING);
    Reaction(ch, if connected then InitChannel(ch) else [], [])
  }

  /** `sendControl`: sent at once on an open channel, otherwise queued at the back of the buffer. */
  function SendControl(ch: Channel, data: Text): (r: Reaction)
    ensures ch.isOpen ==> r.channel == ch && r.out == [Addressed(ch.id, data)]
    ensures !ch.isOpen ==> r.out == [] && r.channel == ch.(controlBuffer := ch.controlBuffer + [data])
    ensures r.notices == []
  {
    if ch.isOpen then Reaction(ch, [Addressed(ch.id, data)], [])
    else Reaction(ch.(controlBuffer := ch.controlBuffer + [data]), [], [])
  }

  /** `lines.forEach(sendControl)` on an open channel: every line goes out once, in order, and nothing is queued. */
  function Flush(ch: Channel, lines: seq<Text>): (r: Reaction)
    requires ch.isOpen
    ensures r.channel == ch
    ensures |r.out| == |lines|
    ensures forall i :: 0 <= i < |lines| ==> r.out[i] == Addressed(ch.id, lines[i])
    ensures r.notices == []
    decreases |lines|
  {
    if |lines| == 0 then Reaction(ch, [], [])
    else
      var first := SendControl(ch, lines[0]);
      var rest := Flush(first.channel, lines[1..]);
      Reaction(rest.channel, first.out + rest.out, [])
  }

  /** `writeLine`: one frame when relaying, nothing otherwise; the channel does not change. */
  function WriteLine(ch: Channel, data: Text): (out: seq<Text>)
    ensures ch.remoteState == 1 ==> out == [Addressed(ch.id, data)]
    ensures ch.remoteState == 0 ==> out == []
  {
    if ch.remoteState >= 1 then [Addressed(ch.id, data)] else []
  }

  /** `close`: asks the server to tear the channel down only when relaying; local state is kept. */
  function Close(ch: Channel): (out: seq<Text>)
    ensures ch.remoteState == 1 ==> out == [Announce(ch.id)]
    ensures ch.remoteState == 0 ==> out == []
  {
    if ch.remoteState >= 1 then [Announce(ch.id)] else []
  }

  /** `initChannel`: (re-)announces the id. */
  function InitChannel(ch: Channel): (out: seq<Text>)
    ensures |out| == 1 && out[0] == [COLON] + ch.id
  {
    [Announce(ch.id)]
  }

  /** `setEncoding`: the encoding always changes; the server hears of it only on a connected connection. */
  function SetEncoding(ch: Channel, encoding: Text, connected: bool): (r: Reaction)
    ensures r.channel == ch.(encoding := encoding)
    ensures connected ==> r.out == [Addressed(ch.id, EncodingLine(encoding))]
    ensures !connected ==> r.out == []
    ensures r.notices == []
  {
    Reaction(ch.(encoding := encoding),
             if connected then [Addressed(ch.id, EncodingLine(encoding))] else [], [])
  }

  /**
   `connect`: the buffer is emptied first, then the `HOST` line is sent if the
   channel is open and queued as the buffer's only line otherwise.
   */
  function Connect(ch: Channel): (r: Reaction)
    ensures ch.isOpen ==> r.channel == ch.(controlBuffer := []) && r.out == [Addressed(ch.id, HostLine(ch.options))]
    ensures !ch.isOpen ==> r.channel == ch.(controlBuffer := [HostLine(ch.options)]) && r.out == []
    ensures r.notices == []
  {
    SendControl(ch.(controlBuffer := []), HostLine(ch.options))
  }

  /**
   The handler of the connection's `'open.' + id` event: the channel opens,
   the buffered control lines go out once each in FIFO order, the current
   encoding is re-applied (sent only on a connected connection), the buffer is
   left empty and the channel relays.
   */
  function OnOpenAck(ch: Channel, connected: bool): (r: Reaction)
    ensures r.channel == ch.(isOpen := true, remoteState := 1, controlBuffer := [])
    ensures |r.out| == |ch.controlBuffer| + (if connected then 1 else 0)
    ensures forall i :: 0 <= i < |ch.controlBuffer| ==> r.out[i] == Addressed(ch.id, ch.controlBuffer[i])
    ensures connected ==> r.out[|ch.controlBuffer|] == Addressed(ch.id, EncodingLine(ch.encoding))
    ensures r.notices == [Opened]
  {
    var acked := ch.(isOpen := true);
    var flushed :=
      if |ch.controlBuffer| > 0 then
        var f := Flush(acked, ch.controlBuffer);
        Reaction(f.channel.(controlBuffer := []), f.out, [])
      else Reaction(acked, [], []);
    var encoded := SetEncoding(flushed.channel, flushed.channel.encoding, connected);
    Reaction(encoded.channel.(remoteState := 1), flushed.out + encoded.out, [Opened])
  }

  /** The handler of the connection's 'close' event: closed and not relaying; buffer and encoding untouched. */
  function OnConnectionClose(ch: Channel, reason: Text): (r: Reaction)
    ensures r.channel == ch.(isOpen := false, remoteState := 0)
    ensures r.out == [] && r.notices == [Closed(Some(reason))]
  {
    Reaction(ch.(isOpen := false, remoteState := 0), [], [Closed(Some(reason))])
  }

  lemma ControlWords()
    ensures StartsWith(CONTROL_CONNECTED, CONTROL_PREFIX)
    ensures StartsWith(CONTROL_CLOSED, CONTROL_PREFIX)
    ensures |CONTROL_PREFIX| == 8
    ensures CONTROL_CONNECTED[9] != CONTROL_CLOSED[9]
  {
    assert Lit("connected")[1] != Lit("closed")[1];
  }

  /**
   The handler of the connection's `'message.' + id` event: `control
   connected` starts relaying, `control closed` stops it and reports token 2
   as the reason, any other text keeps the relay state; the data is emitted
   as a line exactly when the channel relays afterwards.
   */
  function OnMessage(ch: Channel, data: Text): (r: Reaction)
    ensures r.out == []
    ensures r.channel == ch.(remoteState := r.channel.remoteState)
    ensures StartsWith(data, CONTROL_CONNECTED) ==> r.channel.remoteState == 1
    ensures StartsWith(data, CONTROL_CLOSED) ==> r.channel.remoteState == 0
    ensures !StartsWith(data, CONTROL_CONNECTED) && !StartsWith(data, CONTROL_CLOSED) ==>
              r.channel.remoteState == ch.remoteState
    ensures r.notices ==
              (if StartsWith(data, CONTROL_CLOSED) then [Closed(Field(data, SPACE, 2))] else [])
              + (if r.channel.remoteState == 1 then [Line(data)] else [])
  {
    ControlWords();
    var closing := StartsWith(data, CONTROL_CLOSED);
    var state: Relay :=
      if StartsWith(data, CONTROL_PREFIX) then
        (if closing then 0 else if StartsWith(data, CONTROL_CONNECTED) then 1 else ch.remoteState)
      else ch.remoteState;
    var closed := if StartsWith(data, CONTROL_PREFIX) && closing then [Closed(Field(data, SPACE, 2))] else [];
    Reaction(ch.(remoteState := state), [], closed + (if state == 1 then [Line(data)] else []))
  }
}
