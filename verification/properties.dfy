/**
 Properties of the multiplexer that span several steps: what reaches the
 wire and in which order, which channel a message can touch, when a channel
 relays, and how the registries share connections and channels.
 */
module Properties {
  import opened Wrappers
  import opened Utf16
  import opened Numerals
  import opened Escape
  import opened Framing
  import opened Channels
  import opened Multiplexer

  /** The control lines of channel `id`, addressed to it, in order. */
  function Addressing(id: Text, lines: seq<Text>): (msgs: seq<Text>)
    ensures |msgs| == |lines|
    ensures forall i :: 0 <= i < |lines| ==> msgs[i] == Addressed(id, lines[i])
  {
    seq(|lines|, i requires 0 <= i < |lines| => Addressed(id, lines[i]))
  }

  // ---------------------------------------------------------------------
  // The wire.

  /**
   What a channel sends reaches the peer intact: the frame on the wire
   parses back to the message, which splits back into the channel id and
   the data, whatever the data holds.
   */
  lemma PeerReadsAddressed(a: Text, id: Text, data: Text)
    requires SPACE !in id
    ensures ParseFrame(Wire(Send(a, Addressed(id, data)))) == Some(Addressed(id, data))
    ensures Route(Addressed(id, data)) == ToChannel(id, data)
  {
    QuoteRoundTrip(Addressed(id, data));
    RouteAddressed(id, data);
  }

  // ---------------------------------------------------------------------
  // Dispatching.

  /** The messages the connection reported, in order. */
  function Messages(evs: seq<Event>): seq<Text>
    decreases |evs|
  {
    if |evs| == 0 then []
    else (if evs[0].ConnectionMessage? then [evs[0].data] else []) + Messages(evs[1..])
  }

  /** The string payloads of an `a` frame that come before its first non-string payload, in order. */
  function Strings(payloads: seq<Json>): seq<Text>
    decreases |payloads|
  {
    if |payloads| == 0 || !payloads[0].JString? then []
    else [payloads[0].text] + Strings(payloads[1..])
  }

  lemma {:induction false} MessagesConcat(e: seq<Event>, f: seq<Event>)
    ensures Messages(e + f) == Messages(e) + Messages(f)
    decreases |e|
  {
    if |e| > 0 {
      var head := if e[0].ConnectionMessage? then [e[0].data] else [];
      assert (e + f)[0] == e[0];
      assert (e + f)[1..] == e[1..] + f;
      MessagesConcat(e[1..], f);
      assert Messages(e + f) == head + (Messages(e[1..]) + Messages(f));
      assert head + (Messages(e[1..]) + Messages(f)) == (head + Messages(e[1..])) + Messages(f);
    } else {
      assert e + f == f;
    }
  }

  lemma {:induction false} NoMessages(evs: seq<Event>)
    requires forall i :: 0 <= i < |evs| ==> !evs[i].ConnectionMessage?
    ensures Messages(evs) == []
    decreases |evs|
  {
    if |evs| > 0 {
      NoMessages(evs[1..]);
    }
  }

  /** Dispatching one message makes the connection report exactly that message. */
  lemma DispatchReportsOnce(w: World, a: Text, d: Text)
    requires Valid(w) && a in w.connections && w.connections[a].hasSocket
    ensures Messages(Dispatch(w, a, d).events) == [d]
  {
    var evs := Dispatch(w, a, d).events;
    DispatchEvents(w, a, d);
    assert evs == [evs[0]] + evs[1..];
    NoMessages(evs[1..]);
    MessagesConcat([evs[0]], evs[1..]);
  }

  /**
   An `a` frame makes the connection report each string payload once, in
   the order of the array, up to the first payload that is not a string.
   */
  lemma {:induction false} DispatchAllOrder(w: World, a: Text, payloads: seq<Json>)
    requires Valid(w) && a in w.connections && w.connections[a].hasSocket
    ensures Messages(DispatchAll(w, a, payloads).events) == Strings(payloads)
    decreases |payloads|
  {
    if |payloads| > 0 && payloads[0].JString? {
      var first := Dispatch(w, a, payloads[0].text);
      DispatchReportsOnce(w, a, payloads[0].text);
      DispatchAllOrder(first.world, a, payloads[1..]);
      MessagesConcat(first.events, DispatchAll(first.world, a, payloads[1..]).events);
    }
  }

  /**
   A message touches at most the channel it names: every other channel is
   left as it was, and a message for a channel that does not listen to the
   connection (or for no channel at all) changes no channel.
   */
  lemma DispatchIsolation(w: World, a: Text, d: Text, other: Text)
    requires Valid(w) && a in w.connections && w.connections[a].hasSocket && other in w.channels
    requires Route(d).Core? || other != Route(d).id || !Listens(w, a, other)
    ensures Dispatch(w, a, d).world.channels[other] == w.channels[other]
  {
  }

  /**
   The acknowledgement `:id` opens a channel listening to the connection:
   the buffered control lines go out first, in the order they were queued,
   then (on a connected connection) the encoding; the channel ends open,
   relaying and with an empty buffer, and reports that it opened.
   */
  lemma AckFlushesBuffer(w: World, a: Text, id: Text)
    requires Valid(w) && a in w.connections && w.connections[a].hasSocket
    requires Listens(w, a, id) && SPACE !in id
    ensures var ch := w.channels[id];
      var r := Dispatch(w, a, Announce(id));
      && r.ops == Sends(a, Addressing(id, ch.controlBuffer)
                          + (if w.connections[a].connected then [Addressed(id, EncodingLine(ch.encoding))] else []))
      && r.world.channels[id] == ch.(isOpen := true, remoteState := 1, controlBuffer := [])
      && r.events == [ConnectionMessage(a, Announce(id)), ChannelAck(a, id), ChannelNotice(id, Opened)]
  {
    var ch := w.channels[id];
    RouteAnnounce(id);
    DeliverReacts(w, a, id, true, []);
    var re := OnOpenAck(ch, w.connections[a].connected);
    assert re.out == Addressing(id, ch.controlBuffer)
                     + (if w.connections[a].connected then [Addressed(id, EncodingLine(ch.encoding))] else []);
  }

  /**
   Control lines sent before the channel is open are held back; once the
   socket opens and the server acknowledges the channel they reach the wire
   in the order they were sent, followed by the encoding.
   */
  lemma BufferedControlOrder(w: World, a: Text, id: Text, x: Text, y: Text)
    requires Valid(w) && a in w.connections && w.connections[a].hasSocket
    requires Listens(w, a, id) && SPACE !in id
    requires !w.channels[id].isOpen && w.channels[id].controlBuffer == []
    ensures var s1 := Multiplexer.SendControl(w, id, x);
      var s2 := Multiplexer.SendControl(s1.world, id, y);
      var s3 := HandleOpen(s2.world, a);
      var s4 := Dispatch(s3.world, a, Announce(id));
      && s1.ops == [] && s2.ops == []
      && s4.ops == Sends(a, [Addressed(id, x), Addressed(id, y), Addressed(id, EncodingLine(w.channels[id].encoding))])
  {
    var s2 := QueueTwo(w, id, x, y);
    var s3 := HandleOpen(s2.world, a);
    assert s3.world.channels[id] == w.channels[id].(controlBuffer := [x, y]);
    AckFlushesBuffer(s3.world, a, id);
    AddressingTwo(id, x, y, Addressed(id, EncodingLine(w.channels[id].encoding)));
  }

  lemma AddressingTwo(id: Text, x: Text, y: Text, last: Text)
    ensures Addressing(id, [x, y]) + [last] == [Addressed(id, x), Addressed(id, y), last]
  {
  }

  /** Two control lines on a closed channel are both queued, in order, and nothing is sent. */
  lemma QueueTwo(w: World, id: Text, x: Text, y: Text) returns (s2: Step)
    requires Valid(w) && id in w.channels
    requires !w.channels[id].isOpen && w.channels[id].controlBuffer == []
    ensures var s1 := Multiplexer.SendControl(w, id, x);
      && s1.ops == []
      && s2 == Multiplexer.SendControl(s1.world, id, y)
    ensures s2.ops == [] && Valid(s2.world)
    ensures s2.world == w.(channels := w.channels[id := w.channels[id].(controlBuffer := [x, y])])
  {
    var ch := w.channels[id];
    var s1 := Multiplexer.SendControl(w, id, x);
    assert s1.world.channels[id] == ch.(controlBuffer := [x]);
    s2 := Multiplexer.SendControl(s1.world, id, y);
    assert [x] + [y] == [x, y];
    assert s2.world.channels[id] == ch.(controlBuffer := [x, y]);
    assert s2.world.channels == w.channels[id := ch.(controlBuffer := [x, y])];
  }

  /** `control connected` makes any channel relay, and is itself reported as a line. */
  lemma ConnectedReaction(ch: Channel)
    ensures OnMessage(ch, CONTROL_CONNECTED) == Reaction(ch.(remoteState := 1), [], [Line(CONTROL_CONNECTED)])
  {
    ControlWords();
    assert StartsWith(CONTROL_CONNECTED, CONTROL_CONNECTED);
    assert !StartsWith(CONTROL_CONNECTED, CONTROL_CLOSED);
  }

  /** The bare `control closed` stops any channel relaying and reports a close without a reason. */
  lemma ClosedReaction(ch: Channel)
    ensures OnMessage(ch, CONTROL_CLOSED) == Reaction(ch.(remoteState := 0), [], [Closed(None)])
  {
    assert StartsWith(CONTROL_CLOSED, CONTROL_CLOSED);
    ClosedHasTwoFields();
  }

  /**
   `control connected` starts the relay: from then on a written line goes out
   as exactly one frame, and the control line itself is already relayed.
   */
  lemma RelayStarts(w: World, a: Text, id: Text, data: Text)
    requires Valid(w) && a in w.connections && w.connections[a].hasSocket
    requires Listens(w, a, id) && SPACE !in id
    ensures var s := Dispatch(w, a, Addressed(id, CONTROL_CONNECTED));
      && Multiplexer.WriteLine(s.world, id, data).ops == [Send(a, Addressed(id, data))]
      && s.events == [ConnectionMessage(a, Addressed(id, CONTROL_CONNECTED)),
                      ChannelData(a, id, CONTROL_CONNECTED),
                      ChannelNotice(id, Line(CONTROL_CONNECTED))]
  {
    RouteAddressed(id, CONTROL_CONNECTED);
    DeliverReacts(w, a, id, false, CONTROL_CONNECTED);
    ConnectedReaction(w.channels[id]);
  }

  /**
   `control closed` stops the relay: a written line goes nowhere, and the
   close is reported without a reason when the server gives none.
   */
  lemma RelayStops(w: World, a: Text, id: Text, data: Text)
    requires Valid(w) && a in w.connections && w.connections[a].hasSocket
    requires Listens(w, a, id) && SPACE !in id
    ensures var s := Dispatch(w, a, Addressed(id, CONTROL_CLOSED));
      && Multiplexer.WriteLine(s.world, id, data).ops == []
      && s.events == [ConnectionMessage(a, Addressed(id, CONTROL_CLOSED)),
                      ChannelData(a, id, CONTROL_CLOSED),
                      ChannelNotice(id, Closed(None))]
  {
    RouteAddressed(id, CONTROL_CLOSED);
    DeliverReacts(w, a, id, false, CONTROL_CLOSED);
    ClosedReaction(w.channels[id]);
  }

  /** `control closed` splits into exactly two fields, so its third is undefined. */
  lemma ClosedHasTwoFields()
    ensures Field(CONTROL_CLOSED, SPACE, 2) == None
  {
    var words := [Lit("control"), Lit("closed")];
    assert SPACE !in words[0] && SPACE !in words[1];
    assert Join(words, SPACE) == CONTROL_CLOSED;
    SplitJoin(words, SPACE);
  }

  // ---------------------------------------------------------------------
  // Closing.

  /**
   After the socket closes, no channel of the connection relays or is open:
   written lines and close requests go nowhere, and control lines are queued
   again until the next acknowledgement.
   */
  lemma CloseStopsRelay(w: World, a: Text, reason: Text, id: Text, data: Text)
    requires Valid(w) && a in w.connections && w.connections[a].hasSocket && Listens(w, a, id)
    ensures var s := HandleClose(w, a, reason);
      && Multiplexer.WriteLine(s.world, id, data).ops == []
      && CloseChannel(s.world, id).ops == []
      && Multiplexer.SendControl(s.world, id, data).ops == []
      && Multiplexer.SendControl(s.world, id, data).world.channels[id].controlBuffer
           == w.channels[id].controlBuffer + [data]
  {
  }

  /**
   A channel asked to connect after its socket closed reopens the socket and
   queues its `HOST` line (dropping whatever was queued) until it is
   acknowledged again.
   */
  lemma ConnectAfterClose(w: World, a: Text, reason: Text, id: Text)
    requires Valid(w) && a in w.connections && w.connections[a].hasSocket && Listens(w, a, id)
    ensures var s := HandleClose(w, a, reason);
      var c := ConnectChannel(s.world, id);
      && c.ops == [OpenSocket(a)]
      && c.world.channels[id].controlBuffer == [HostLine(w.channels[id].options)]
      && c.world.connections[a].hasSocket && !c.world.connections[a].connected
  {
  }

  // ---------------------------------------------------------------------
  // Sessions.

  /**
   The server's `SESSION <sid>` control line is recorded on the connection,
   but the handshake of a later open still resumes the session the
   connection was created with.
   */
  lemma ServerSessionRecorded(w: World, a: Text, sid: Text, more: seq<Text>)
    requires Valid(w) && a in w.connections && w.connections[a].hasSocket
    requires SPACE !in sid
    requires forall k :: 0 <= k < |more| ==> SPACE !in more[k]
    ensures var s := Dispatch(w, a, Join([SESSION, sid] + more, SPACE));
      && s.world.connections[a].sessionId == Some(sid)
      && HandleOpen(s.world, a).ops[0] == Send(a, HandshakeLine(w.connections[a].handshakeSession))
  {
    var parts := [SESSION, sid] + more;
    var d := Join(parts, SPACE);
    SessionWord();
    assert parts[1..] == [sid] + more;
    assert d == SESSION + [SPACE] + Join(parts[1..], SPACE);
    assert d[0] == 0x53;
    SessionLine(w.connections[a].sessionId, sid, more);
  }

  // ---------------------------------------------------------------------
  // Registries.

  /**
   A channel id is instantiated once: constructing it again returns the
   same channel, whatever the options, and changes nothing.
   */
  lemma SingleInstance(w: World, ctor: Constructor, first: ChannelOptions, second: ChannelOptions)
    requires Valid(w) && ctor.addr in w.connections && |ctor.id| > 0
    ensures var r1 := ConstructChannel(w, ctor, first);
      var r2 := ConstructChannel(r1.world, ctor, second);
      && r2.world == r1.world
      && r2.world.channels[ctor.id].options
           == (if ctor.id in w.channels then w.channels[ctor.id].options else first)
  {
  }

  /**
   Addresses that differ only in case share one connection: the second
   constructor opens no socket and keeps the session id given first.
   */
  lemma SharedConnection(w: World, addr1: Text, addr2: Text, session1: Text, session2: Text, id1: Text, id2: Text)
    requires Valid(w) && Lower(addr1) == Lower(addr2)
    ensures var c1 := CreateChannelConstructor(w, addr1, session1, id1);
      var c2 := CreateChannelConstructor(c1.step.world, addr2, session2, id2);
      && c2.ctor.addr == c1.ctor.addr
      && c2.step.ops == []
      && c2.step.world.connections.Keys == c1.step.world.connections.Keys
      && c2.step.world.connections[c2.ctor.addr].handshakeSession
           == (if Lower(addr1) in w.connections then w.connections[Lower(addr1)].handshakeSession else session1)
  {
    var c1 := CreateChannelConstructor(w, addr1, session1, id1);
    assert Lower(addr2) in c1.step.world.connections;
  }

  /**
   Automatic channel ids count up per connection: two constructors on the
   same address without an id get different ids.
   */
  lemma AutoIdsDistinct(w: World, addr1: Text, addr2: Text, session1: Text, session2: Text)
    requires Valid(w) && Lower(addr1) == Lower(addr2)
    ensures var c1 := CreateChannelConstructor(w, addr1, session1, []);
      CreateChannelConstructor(c1.step.world, addr2, session2, []).ctor.id != c1.ctor.id
  {
    var c1 := CreateChannelConstructor(w, addr1, session1, []);
    var n := c1.step.world.connections[c1.ctor.addr].nextChannelId;
    assert Lower(addr2) in c1.step.world.connections;
    var c2 := CreateChannelConstructor(c1.step.world, addr2, session2, []);
    assert c1.ctor.id == Decimal(n - 1) && c2.ctor.id == Decimal(n);
  }

  /** On a fresh address the first automatic channel id is `1`. */
  lemma FirstAutoId(w: World, addr: Text, session: Text)
    requires Valid(w) && Lower(addr) !in w.connections
    ensures CreateChannelConstructor(w, addr, session, []).ctor.id == Lit("1")
  {
    assert Decimal(1) == [DigitUnit(1)];
  }
}
