/**
 The inbound side of the connection: how `ws.onmessage` classifies a raw
 frame by its first unit, and how `dispatchMessage` reads one logical
 message: `:<id>` acknowledges a channel, `:<id> <rest>` carries data for a
 channel, anything else is connection-control text that may name a session.
 */
module Framing {
  import opened Wrappers
  import opened Utf16

  /** What `JSON.parse` returned, as far as the transport inspects it. */
  datatype Json = JString(text: Text) | JArray(items: seq<Json>) | JOther

  const FRAME_OPEN: CodeUnit := 0x6F     // 'o'
  const FRAME_ARRAY: CodeUnit := 0x61    // 'a'
  const FRAME_MESSAGE: CodeUnit := 0x6D  // 'm'
  const FRAME_CLOSE: CodeUnit := 0x63    // 'c'

  /** What the socket handler does with one frame. */
  datatype FrameAction =
    | Handshake                      // run the open handshake
    | Deliver(payloads: seq<Json>)   // dispatch each payload, in order
    | CloseRequest                   // close the socket
    | Drop                           // nothing at all

  /** `JSON.parse(content)` when `content` is non-empty; None for empty or unparseable content. */
  function Payload(msg: Text, parse: Text -> Option<Json>): (r: Option<Json>)
    ensures |msg| <= 1 ==> r.None?
    ensures |msg| > 1 ==> r == parse(msg[1..])
  {
    if |msg| > 1 then parse(msg[1..]) else None
  }

  /** `ws.onmessage`: the first unit selects the frame type; `parse` stands for `JSON.parse`. */
  function DecodeFrame(msg: Text, parse: Text -> Option<Json>): (a: FrameAction)
    ensures a == Handshake <==> |msg| > 0 && msg[0] == FRAME_OPEN
    ensures Payload(msg, parse).None? && a != Handshake ==> a == Drop
    ensures a.Deliver? <==>
      && |msg| > 1 && Payload(msg, parse).Some?
      && (msg[0] == FRAME_MESSAGE || (msg[0] == FRAME_ARRAY && Payload(msg, parse).value.JArray?))
    ensures a.Deliver? && msg[0] == FRAME_ARRAY ==> Payload(msg, parse) == Some(JArray(a.payloads))
    ensures a.Deliver? && msg[0] == FRAME_MESSAGE ==> a.payloads == [Payload(msg, parse).value]
    ensures a == CloseRequest <==>
      && |msg| > 1 && msg[0] == FRAME_CLOSE && Payload(msg, parse).Some?
      && Payload(msg, parse).value.JArray? && |Payload(msg, parse).value.items| == 2
    ensures |msg| > 0 && msg[0] !in {FRAME_OPEN, FRAME_ARRAY, FRAME_MESSAGE, FRAME_CLOSE} ==> a == Drop
  {
    if |msg| > 0 && msg[0] == FRAME_OPEN then Handshake
    else
      match Payload(msg, parse)
      case None => Drop
      case Some(payload) =>
        if msg[0] == FRAME_ARRAY then
          (if payload.JArray? then Deliver(payload.items) else Drop)
        else if msg[0] == FRAME_MESSAGE then Deliver([payload])
        else if msg[0] == FRAME_CLOSE then
          (if payload.JArray? && |payload.items| == 2 then CloseRequest else Drop)
        else Drop
  }

  /** How `dispatchMessage` reads one logical message. */
  datatype Routed =
    | OpenAck(id: Text)                 // emitted as 'open.' + id
    | ToChannel(id: Text, data: Text)   // emitted as 'message.' + id with data
    | Core(text: Text)                  // session handling

  /**
   `dispatchMessage`: a message starting with `:` is split at its first space
   into a channel id and the data; with no space it acknowledges channel
   `substr(1)`; any other message is connection-control text.
   */
  function Route(d: Text): (r: Routed)
    ensures r.OpenAck? <==> |d| > 0 && d[0] == COLON && SPACE !in d
    ensures r.Core? <==> |d| == 0 || d[0] != COLON
    ensures r.Core? ==> r.text == d
  {
    if |d| > 0 && d[0] == COLON then
      match IndexOf(d, SPACE)
      case None => OpenAck(d[1..])
      case Some(p) => ToChannel(d[1..p], d[p + 1..])
    else Core(d)
  }

  /**
   What routing takes apart it puts back together: an acknowledgement is
   `':' + id`, channel data is `':' + id + ' ' + data` split at the first
   space, so the id holds none.
   */
  lemma RouteParts(d: Text)
    ensures Route(d).OpenAck? ==> d == [COLON] + Route(d).id
    ensures Route(d).ToChannel? ==> d == [COLON] + Route(d).id + [SPACE] + Route(d).data && SPACE !in Route(d).id
  {
    if |d| > 0 && d[0] == COLON {
      match IndexOf(d, SPACE)
      case None =>
      case Some(p) =>
        assert d[..p] == [COLON] + d[1..p];
        assert d == d[..p] + [SPACE] + d[p + 1..];
    }
  }

  /** The outbound shape `':' + id + ' ' + data` routes back to channel `id` with `data`, whatever `data` holds. */
  lemma RouteAddressed(id: Text, data: Text)
    requires SPACE !in id
    ensures Route([COLON] + id + [SPACE] + data) == ToChannel(id, data)
  {
    var d := [COLON] + id + [SPACE] + data;
    assert d == ([COLON] + id) + [SPACE] + data;
    IndexOfAfter([COLON] + id, SPACE, data);
    assert d[1..|id| + 1] == id;
    assert d[|id| + 2..] == data;
  }

  /** The outbound shape `':' + id` (open and close of a channel) routes back as an acknowledgement of `id`. */
  lemma RouteAnnounce(id: Text)
    requires SPACE !in id
    ensures Route([COLON] + id) == OpenAck(id)
  {
    assert SPACE !in [COLON] + id;
  }

  const SESSION: Text := Lit("SESSION")

  lemma SessionWord()
    ensures SESSION == [0x53, 0x45, 0x53, 0x53, 0x49, 0x4F, 0x4E]
  {
  }

  /**
   The session handling of `dispatchMessage` for control text: `sessionId`
   becomes the second space-separated token when the first is `SESSION`
   (None, JavaScript's `undefined`, when there is no second token), and is
   kept otherwise.
   */
  function SessionAfter(current: Option<Text>, text: Text): (r: Option<Text>)
    ensures Field(text, SPACE, 0) != Some(SESSION) ==> r == current
    ensures Field(text, SPACE, 0) == Some(SESSION) ==> r == Field(text, SPACE, 1)
  {
    var parts := Split(text, SPACE);
    if parts[0] == SESSION then (if |parts| > 1 then Some(parts[1]) else None) else current
  }

  lemma SessionParts(sid: Text, more: seq<Text>)
    requires SPACE !in sid
    requires forall k :: 0 <= k < |more| ==> SPACE !in more[k]
    ensures forall k :: 0 <= k < |[SESSION, sid] + more| ==> SPACE !in ([SESSION, sid] + more)[k]
  {
    assert SPACE !in SESSION by { SessionWord(); }
    CleanParts([SESSION, sid], more, SPACE);
  }

  /** The server's `SESSION <sid> ...` line records `sid`, whatever follows it. */
  lemma SessionLine(current: Option<Text>, sid: Text, more: seq<Text>)
    requires SPACE !in sid
    requires forall k :: 0 <= k < |more| ==> SPACE !in more[k]
    ensures SessionAfter(current, Join([SESSION, sid] + more, SPACE)) == Some(sid)
  {
    SessionParts(sid, more);
    FieldOfJoin([SESSION, sid] + more, SPACE, 0);
    FieldOfJoin([SESSION, sid] + more, SPACE, 1);
  }

  /** Control text whose first token is not `SESSION` leaves the session untouched. */
  lemma OtherControlText(current: Option<Text>, first: Text, more: seq<Text>)
    requires SPACE !in first && first != SESSION
    requires forall k :: 0 <= k < |more| ==> SPACE !in more[k]
    ensures SessionAfter(current, Join([first] + more, SPACE)) == current
  {
    CleanParts([first], more, SPACE);
    FieldOfJoin([first] + more, SPACE, 0);
  }
}
