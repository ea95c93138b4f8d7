/**
 The multiplexer as a whole: the two registries (connections by lower-cased
 address, channels by id), the connection handlers (`connect`, the open
 handshake, `onclose`, `dispatchMessage`, `onmessage`) and the channel
 operations, each a pure step from a world to the next world, the socket
 operations it performs, and the events it emits.

 Event listeners run in registration order, so the world keeps the order in
 which channels were created; a channel listens to the connection it was
 created on.
 */
module Multiplexer {
  import opened Wrappers
  import opened Utf16
  import opened Numerals
  import Escape
  import opened Framing
  import opened Channels

  /** The id the connection handshake travels on. */
  const CONTROL_CHANNEL: Text := Lit("0")

  datatype Connection = Connection(
    address: Text,
    handshakeSession: Text,    // the sessionId given at creation; the handshake uses this one
    sessionId: Option<Text>,   // connection.sessionId; None is JavaScript's undefined
    nextChannelId: nat,
    connected: bool,
    hasSocket: bool)           // connection.ws is set

  /** What happens on a connection's socket. */
  datatype SocketOp =
    | OpenSocket(addr: Text)               // new WebSocket(...)
    | Send(addr: Text, message: Text)      // ws.send(escape.quote(message))
    | CloseSocket(addr: Text)              // ws.close()

  datatype Event =
    | ConnectionOpened(addr: Text)                    // 'open'
    | ConnectionClosed(addr: Text, reason: Text)      // 'close'
    | ConnectionMessage(addr: Text, data: Text)       // 'message'
    | ChannelAck(addr: Text, id: Text)                // 'open.' + id
    | ChannelData(addr: Text, id: Text, data: Text)   // 'message.' + id
    | ChannelNotice(id: Text, notice: Notice)         // emitted by channel id
    | UnreadableMessage(addr: Text)                   // 'message' with a payload that is not a string

  datatype World = World(connections: map<Text, Connection>, channels: map<Text, Channel>, order: seq<Text>)

  datatype Step = Step(world: World, ops: seq<SocketOp>, events: seq<Event>)

  /** The `ConnectionChannelWrapper` that `createChannelConstructor` returns. */
  datatype Constructor = Constructor(addr: Text, id: Text)

  datatype Created = Created(step: Step, ctor: Constructor)

  const EMPTY: World := World(map[], map[], [])

  ghost predicate ConnectionOk(a: Text, c: Connection) {
    && c.address == a
    && Lower(a) == a
    && c.nextChannelId >= 1
    && (c.connected ==> c.hasSocket)
  }

  ghost predicate ChannelOk(w: World, id: Text)
    requires id in w.channels
  {
    var ch := w.channels[id];
    && ch.id == id
    && |id| > 0
    && ch.addr in w.connections
    && ((ch.isOpen || ch.remoteState == 1) ==> w.connections[ch.addr].hasSocket)
  }

  /**
   Registry keys are lower-cased addresses and channel ids; a connection is
   only connected while it holds a socket, and a channel is only open or
   relaying while its connection holds one; every channel appears once in
   the listener order.
   */
  ghost predicate Valid(w: World) {
    && (forall a :: a in w.connections ==> ConnectionOk(a, w.connections[a]))
    && (forall id :: id in w.channels ==> ChannelOk(w, id))
    && (forall id :: id in w.order <==> id in w.channels)
    && Distinct(w.order)
  }

  lemma EmptyValid()
    ensures Valid(EMPTY)
  {
  }

  /** Replacing a connection's record keeps the world valid when the socket is not dropped. */
  lemma ConnectionUpdateValid(w: World, a: Text, c: Connection)
    requires Valid(w) && a in w.connections
    requires ConnectionOk(a, c)
    requires w.connections[a].hasSocket ==> c.hasSocket
    ensures Valid(w.(connections := w.connections[a := c]))
  {
    var w' := w.(connections := w.connections[a := c]);
    forall id | id in w'.channels
      ensures ChannelOk(w', id)
    {
      assert ChannelOk(w, id);
    }
  }

  /** Dropping a connection's socket keeps the world valid once its channels are closed and not relaying. */
  lemma ClosedWorldValid(w: World, a: Text, w': World)
    requires Valid(w) && a in w.connections
    requires w'.connections == w.connections[a := w.connections[a].(connected := false, hasSocket := false)]
    requires w'.order == w.order && w'.channels.Keys == w.channels.Keys
    requires forall id :: id in w.channels && w.channels[id].addr == a ==>
               w'.channels[id] == w.channels[id].(isOpen := false, remoteState := 0)
    requires forall id :: id in w.channels && w.channels[id].addr != a ==> w'.channels[id] == w.channels[id]
    ensures Valid(w')
  {
    forall id | id in w'.channels
      ensures ChannelOk(w', id)
    {
      assert ChannelOk(w, id);
    }
  }

  /** Every frame is sent on a connection that holds a socket. */
  ghost predicate LiveSends(w: World, ops: seq<SocketOp>) {
    forall i :: 0 <= i < |ops| && ops[i].Send? ==>
      ops[i].addr in w.connections && w.connections[ops[i].addr].hasSocket
  }

  /** `ws.send(escape.quote(line))` for each line, in order. */
  function Sends(a: Text, lines: seq<Text>): (ops: seq<SocketOp>)
    ensures |ops| == |lines|
    ensures forall i :: 0 <= i < |lines| ==> ops[i] == Send(a, lines[i])
  {
    seq(|lines|, i requires 0 <= i < |lines| => Send(a, lines[i]))
  }

  /** Sends on a connection that holds a socket are live. */
  lemma SendsLive(w: World, a: Text, lines: seq<Text>)
    requires a in w.connections && w.connections[a].hasSocket
    ensures LiveSends(w, Sends(a, lines))
  {
  }

  /** The bytes a send puts on the wire: the quoted frame of its message. */
  function Wire(op: SocketOp): Text
    requires op.Send?
  {
    Escape.Quote(op.message)
  }

  function Notify(id: Text, ns: seq<Notice>): (evs: seq<Event>)
    ensures |evs| == |ns|
    ensures forall i :: 0 <= i < |ns| ==> evs[i] == ChannelNotice(id, ns[i])
  {
    seq(|ns|, i requires 0 <= i < |ns| => ChannelNotice(id, ns[i]))
  }

  /** The ids in `order` whose channel listens to connection `a`, in order. */
  function Listeners(order: seq<Text>, channels: map<Text, Channel>, a: Text): (ids: seq<Text>)
    ensures forall id :: id in ids <==> id in order && id in channels && channels[id].addr == a
    ensures |ids| <= |order|
    ensures Distinct(order) ==> Distinct(ids)
    decreases |order|
  {
    if |order| == 0 then []
    else
      var rest := Listeners(order[1..], channels, a);
      assert Distinct(order) ==> order[0] !in order[1..];
      (if order[0] in channels && channels[order[0]].addr == a then [order[0]] else []) + rest
  }

  predicate Distinct(s: seq<Text>) {
    forall i, j :: 0 <= i < j < |s| ==> s[i] != s[j]
  }

  /** `ids` sits in `order` at the strictly increasing positions `idx`. */
  predicate SubsequenceAt(ids: seq<Text>, order: seq<Text>, idx: seq<int>) {
    && |idx| == |ids|
    && (forall k :: 0 <= k < |idx| ==> 0 <= idx[k] < |order| && order[idx[k]] == ids[k])
    && (forall k, l :: 0 <= k < l < |idx| ==> idx[k] < idx[l])
  }

  /** A subsequence of the tail, with or without the head in front, is a subsequence of the whole. */
  lemma ExtendSubsequence(order: seq<Text>, later: seq<Text>, rest: seq<int>, keep: bool) returns (idx: seq<int>)
    requires |order| > 0 && SubsequenceAt(later, order[1..], rest)
    ensures SubsequenceAt(if keep then [order[0]] + later else later, order, idx)
  {
    var shifted := seq(|rest|, k requires 0 <= k < |rest| => rest[k] + 1);
    forall k | 0 <= k < |shifted|
      ensures 1 <= shifted[k] < |order| && order[shifted[k]] == later[k]
    {
      assert order[rest[k] + 1] == order[1..][rest[k]];
    }
    if keep {
      var ids := [order[0]] + later;
      idx := [0] + shifted;
      forall k | 0 <= k < |idx|
        ensures 0 <= idx[k] < |order| && order[idx[k]] == ids[k]
      {
        if k > 0 {
          assert idx[k] == shifted[k - 1] && ids[k] == later[k - 1];
        }
      }
    } else {
      idx := shifted;
    }
  }

  /** The listeners keep the creation order: they form a subsequence of `order`. */
  lemma {:induction false} ListenersInOrder(order: seq<Text>, channels: map<Text, Channel>, a: Text)
    returns (idx: seq<int>)
    ensures SubsequenceAt(Listeners(order, channels, a), order, idx)
    decreases |order|
  {
    if |order| == 0 {
      idx := [];
    } else {
      var keep := order[0] in channels && channels[order[0]].addr == a;
      var later := Listeners(order[1..], channels, a);
      var rest := ListenersInOrder(order[1..], channels, a);
      idx := ExtendSubsequence(order, later, rest, keep);
      assert Listeners(order, channels, a) == if keep then [order[0]] + later else later;
    }
  }

  function ChannelsOn(w: World, a: Text): seq<Text> {
    Listeners(w.order, w.channels, a)
  }

  /** Channel `id` exists and listens to connection `a`. */
  predicate Listens(w: World, a: Text, id: Text) {
    id in w.channels && w.channels[id].addr == a
  }

  /** `':0 ' + connectStr`: resume the given session, or start a new one when it is empty. */
  function HandshakeLine(sessionId: Text): (line: Text)
    ensures |sessionId| > 0 ==> line == Lit(":0 CONTROL SESSION ") + sessionId
    ensures |sessionId| == 0 ==> line == Lit(":0 CONTROL START")
  {
    var connectStr := if |sessionId| > 0 then Lit("CONTROL SESSION ") + sessionId else Lit("CONTROL START");
    HandshakeWords();
    Addressed(CONTROL_CHANNEL, connectStr)
  }

  /** The control channel's address prefix followed by the two handshake commands. */
  lemma HandshakeWords()
    ensures Lit(":0 CONTROL SESSION ") == [COLON] + CONTROL_CHANNEL + [SPACE] + Lit("CONTROL SESSION ")
    ensures Lit(":0 CONTROL START") == [COLON] + CONTROL_CHANNEL + [SPACE] + Lit("CONTROL START")
  {
    var prefix := [COLON] + CONTROL_CHANNEL + [SPACE];
    assert Lit(":0 ") == prefix;
    assert ":0 " + "CONTROL SESSION " == ":0 CONTROL SESSION ";
    assert ":0 " + "CONTROL START" == ":0 CONTROL START";
    LitConcat(":0 ", "CONTROL SESSION ");
    LitConcat(":0 ", "CONTROL START");
  }

  /**
   `createNewConnection` before its first `connect()`: no socket, not
   connected, the counter at 1, `sessionId` the empty string, and the
   creation session kept for the handshake.
   */
  function NewConnection(a: Text, sessionId: Text): (c: Connection)
    ensures c.address == a && c.handshakeSession == sessionId
    ensures c.sessionId == Some([]) && c.nextChannelId == 1
    ensures !c.connected && !c.hasSocket
    ensures Lower(a) == a ==> ConnectionOk(a, c)
  {
    Connection(a, sessionId, Some([]), 1, false, false)
  }

  /**
   `connection.connect()` / `reconnect()`: an existing socket is closed and
   dropped before a new one is opened; `connected` is left as it was.
   */
  function Reconnect(w: World, a: Text): (r: Step)
    requires Valid(w) && a in w.connections
    ensures Valid(r.world)
    ensures r.ops == (if w.connections[a].hasSocket then [CloseSocket(a)] else []) + [OpenSocket(a)]
    ensures r.world.connections == w.connections[a := w.connections[a].(hasSocket := true)]
    ensures r.world.channels == w.channels && r.world.order == w.order
    ensures r.events == []
  {
    var conn := w.connections[a];
    var closing := if conn.hasSocket then [CloseSocket(a)] else [];
    Step(w.(connections := w.connections[a := conn.(hasSocket := true)]), closing + [OpenSocket(a)], [])
  }

  /**
   `if (!serverConnections[addr]) serverConnections[addr] = createNewConnection(addr, sessionId)`:
   a new connection is registered and connects at once; an existing one is
   left alone.
   */
  function EnsureConnection(w: World, a: Text, sessionId: Text): (s: Step)
    requires Valid(w) && Lower(a) == a
    ensures Valid(s.world) && a in s.world.connections
    ensures s.world.channels == w.channels && s.world.order == w.order && s.events == []
    ensures s.world.connections.Keys == w.connections.Keys + {a}
    ensures forall b :: b in w.connections && b != a ==> s.world.connections[b] == w.connections[b]
    ensures a in w.connections ==> s == Step(w, [], [])
    ensures a !in w.connections ==>
      s.ops == [OpenSocket(a)] && s.world.connections[a] == NewConnection(a, sessionId).(hasSocket := true)
  {
    if a in w.connections then Step(w, [], [])
    else Reconnect(w.(connections := w.connections[a := NewConnection(a, sessionId)]), a)
  }

  /**
   `createChannelConstructor(addr, sessionId, channelId)`: the address is
   lower-cased; the first use of an address creates its connection with the
   given session id and connects it, later uses reuse it untouched. An empty
   channel id takes the connection's counter in decimal and advances it; a
   given id leaves the counter alone.
   */
  function CreateChannelConstructor(w: World, addr: Text, sessionId: Text, channelId: Text): (c: Created)
    requires Valid(w)
    ensures Valid(c.step.world)
    ensures c.ctor.addr == Lower(addr) && c.ctor.addr in c.step.world.connections && |c.ctor.id| > 0
    ensures c.step.world.channels == w.channels && c.step.world.order == w.order
    ensures c.step.world.connections.Keys == w.connections.Keys + {Lower(addr)}
    ensures forall b :: b in w.connections && b != Lower(addr) ==> c.step.world.connections[b] == w.connections[b]
    ensures c.step.events == []
    ensures Lower(addr) in w.connections ==>
      && c.step.ops == []
      && c.step.world.connections[Lower(addr)]
           == w.connections[Lower(addr)].(nextChannelId := c.step.world.connections[Lower(addr)].nextChannelId)
    ensures Lower(addr) !in w.connections ==>
      && c.step.ops == [OpenSocket(Lower(addr))]
      && c.step.world.connections[Lower(addr)]
           == NewConnection(Lower(addr), sessionId).(hasSocket := true, nextChannelId := c.step.world.connections[Lower(addr)].nextChannelId)
    ensures var before := if Lower(addr) in w.connections then w.connections[Lower(addr)].nextChannelId else 1;
      && (|channelId| > 0 ==> c.ctor.id == channelId && c.step.world.connections[Lower(addr)].nextChannelId == before)
      && (|channelId| == 0 ==> c.ctor.id == Decimal(before) && c.step.world.connections[Lower(addr)].nextChannelId == before + 1)
  {
    var a := Lower(addr);
    LowerIdempotent(addr);
    var s0 := EnsureConnection(w, a, sessionId);
    var conn := s0.world.connections[a];
    if |channelId| == 0 then
      var next := conn.(nextChannelId := conn.nextChannelId + 1);
      Created(Step(s0.world.(connections := s0.world.connections[a := next]), s0.ops, []),
              Constructor(a, Decimal(conn.nextChannelId)))
    else
      Created(s0, Constructor(a, channelId))
  }

  /**
   Calling a `ConnectionChannelWrapper`: the first construction for an id
   creates the channel on the wrapper's connection, announced at once if that
   connection is connected; a later one returns the existing instance
   unchanged, whatever its address, and only re-announces it (on the
   channel's own connection) when the wrapper's connection is connected.
   */
  function ConstructChannel(w: World, ctor: Constructor, options: ChannelOptions): (r: Step)
    requires Valid(w) && ctor.addr in w.connections && |ctor.id| > 0
    ensures Valid(r.world)
    ensures ctor.id in r.world.channels && r.world.connections == w.connections && r.events == []
    ensures ctor.id in w.channels ==>
      && r.world == w
      && r.ops == (if w.connections[ctor.addr].connected
                   then [Send(w.channels[ctor.id].addr, Announce(ctor.id))] else [])
    ensures ctor.id !in w.channels ==>
      && r.world.channels == w.channels[ctor.id := Channel(ctor.id, ctor.addr, options, false, 0, [], DEFAULT_ENCODING)]
      && r.world.order == w.order + [ctor.id]
      && r.ops == (if w.connections[ctor.addr].connected
                   then [Send(ctor.addr, Announce(ctor.id))] else [])
      && LiveSends(r.world, r.ops)
  {
    var connected := w.connections[ctor.addr].connected;
    if ctor.id !in w.channels then
      var created := Channels.Create(ctor.id, ctor.addr, options, connected);
      Step(w.(channels := w.channels[ctor.id := created.channel], order := w.order + [ctor.id]),
           Sends(ctor.addr, created.out), [])
    else if connected then
      var ch := w.channels[ctor.id];
      Step(w, Sends(ch.addr, Channels.InitChannel(ch)), [])
    else
      Step(w, [], [])
  }

  /** The frames of the open handshake: the session line, then each id's announcement. */
  function OpenFrames(a: Text, session: Text, ids: seq<Text>): (ops: seq<SocketOp>)
    ensures |ops| == 1 + |ids| && ops[0] == Send(a, HandshakeLine(session))
    ensures forall i :: 0 <= i < |ids| ==> ops[i + 1] == Send(a, Announce(ids[i]))
    ensures forall i :: 0 <= i < |ops| ==> ops[i].Send? && ops[i].addr == a
  {
    var rest := Announcements(a, ids);
    var ops := [Send(a, HandshakeLine(session))] + rest;
    assert forall i :: 0 <= i < |ids| ==> ops[i + 1] == rest[i];
    ops
  }

  /** One `:id` frame per id, in order, on connection `a`. */
  function Announcements(a: Text, ids: seq<Text>): (ops: seq<SocketOp>)
    ensures |ops| == |ids|
    ensures forall i :: 0 <= i < |ids| ==> ops[i] == Send(a, Announce(ids[i]))
  {
    seq(|ids|, i requires 0 <= i < |ids| => Send(a, Announce(ids[i])))
  }

  /**
   `onopen`, run on an `o` frame: the handshake for the session id given at
   creation goes out first, the connection becomes connected, and every
   channel listening to it announces its id, in creation order.
   */
  function HandleOpen(w: World, a: Text): (r: Step)
    requires Valid(w) && a in w.connections && w.connections[a].hasSocket
    ensures Valid(r.world)
    ensures r.world.connections == w.connections[a := w.connections[a].(connected := true)]
    ensures r.world.channels == w.channels && r.world.order == w.order
    ensures r.ops == OpenFrames(a, w.connections[a].handshakeSession, ChannelsOn(w, a))
    ensures r.events == [ConnectionOpened(a)]
    ensures LiveSends(r.world, r.ops)
  {
    var conn := w.connections[a];
    var w' := w.(connections := w.connections[a := conn.(connected := true)]);
    ConnectionUpdateValid(w, a, conn.(connected := true));
    Step(w', OpenFrames(a, conn.handshakeSession, ChannelsOn(w, a)), [ConnectionOpened(a)])
  }

  /**
   `ws.onclose`: the connection is no longer connected and drops its socket;
   every channel listening to it ends closed and not relaying, with its
   buffer and encoding untouched, and reports the close, in creation order.
   */
  function HandleClose(w: World, a: Text, reason: Text): (r: Step)
    requires Valid(w) && a in w.connections && w.connections[a].hasSocket
    ensures Valid(r.world)
    ensures r.world.connections == w.connections[a := w.connections[a].(connected := false, hasSocket := false)]
    ensures r.world.channels.Keys == w.channels.Keys && r.world.order == w.order
    ensures forall id :: id in w.channels && w.channels[id].addr == a ==>
              r.world.channels[id] == w.channels[id].(isOpen := false, remoteState := 0)
    ensures forall id :: id in w.channels && w.channels[id].addr != a ==>
              r.world.channels[id] == w.channels[id]
    ensures r.ops == []
    ensures |r.events| == 1 + |ChannelsOn(w, a)| && r.events[0] == ConnectionClosed(a, reason)
    ensures forall i :: 0 <= i < |ChannelsOn(w, a)| ==>
              r.events[i + 1] == ChannelNotice(ChannelsOn(w, a)[i], Closed(Some(reason)))
  {
    var conn := w.connections[a];
    var w' := World(w.connections[a := conn.(connected := false, hasSocket := false)], ClosedChannels(w, a, reason), w.order);
    ClosedWorldValid(w, a, w');
    Step(w', [], [ConnectionClosed(a, reason)] + ClosedNotices(ChannelsOn(w, a), reason))
  }

  /** Every channel on `a` after its `onConnectionClose`; the others as they were. */
  function ClosedChannels(w: World, a: Text, reason: Text): (m: map<Text, Channel>)
    ensures m.Keys == w.channels.Keys
    ensures forall id :: id in w.channels && w.channels[id].addr == a ==>
              m[id] == w.channels[id].(isOpen := false, remoteState := 0)
    ensures forall id :: id in w.channels && w.channels[id].addr != a ==> m[id] == w.channels[id]
  {
    map id | id in w.channels ::
      if w.channels[id].addr == a then Channels.OnConnectionClose(w.channels[id], reason).channel
      else w.channels[id]
  }

  /** The `close` notice of each channel in `ids`, in order. */
  function ClosedNotices(ids: seq<Text>, reason: Text): (es: seq<Event>)
    ensures |es| == |ids|
    ensures forall i :: 0 <= i < |ids| ==> es[i] == ChannelNotice(ids[i], Closed(Some(reason)))
  {
    seq(|ids|, i requires 0 <= i < |ids| => ChannelNotice(ids[i], Closed(Some(reason))))
  }

  /** The world after channel `id` reacted: its new state, its frames on its own connection, its notices. */
  function Apply(w: World, id: Text, r: Reaction): (s: Step)
    requires Valid(w) && id in w.channels
    requires r.channel.id == id && r.channel.addr == w.channels[id].addr
    requires (r.channel.isOpen || r.channel.remoteState == 1) ==> w.connections[r.channel.addr].hasSocket
    ensures Valid(s.world)
    ensures s.world == w.(channels := w.channels[id := r.channel])
    ensures s.ops == Sends(w.channels[id].addr, r.out) && s.events == Notify(id, r.notices)
  {
    Step(w.(channels := w.channels[id := r.channel]), Sends(w.channels[id].addr, r.out), Notify(id, r.notices))
  }

  /**
   Channel `id` reacting to something addressed to it on connection `a`:
   only a channel that listens to `a` reacts, and it touches nothing but its
   own state, its own connection and its own notices.
   */
  function Deliver(w: World, a: Text, id: Text, ack: bool, data: Text): (r: Step)
    requires Valid(w) && a in w.connections && w.connections[a].hasSocket
    ensures Valid(r.world) && LiveSends(r.world, r.ops)
    ensures r.world.connections == w.connections && r.world.order == w.order
    ensures r.world.channels.Keys == w.channels.Keys
    ensures forall other :: other in w.channels && other != id ==> r.world.channels[other] == w.channels[other]
    ensures forall i :: 0 <= i < |r.events| ==> r.events[i].ChannelNotice? && r.events[i].id == id
    ensures !Listens(w, a, id) ==> r == Step(w, [], [])
  {
    if Listens(w, a, id) then
      var re := if ack then Channels.OnOpenAck(w.channels[id], w.connections[a].connected)
                else Channels.OnMessage(w.channels[id], data);
      var s := Apply(w, id, re);
      SendsLive(s.world, a, re.out);
      s
    else Step(w, [], [])
  }

  /** A listening channel reacts exactly as the channel model says, on its own connection. */
  lemma DeliverReacts(w: World, a: Text, id: Text, ack: bool, data: Text)
    requires Valid(w) && a in w.connections && w.connections[a].hasSocket && Listens(w, a, id)
    ensures var r := Deliver(w, a, id, ack, data);
      var re := if ack then Channels.OnOpenAck(w.channels[id], w.connections[a].connected)
                else Channels.OnMessage(w.channels[id], data);
      r.world.channels[id] == re.channel && r.ops == Sends(a, re.out) && r.events == Notify(id, re.notices)
  {
  }

  /** The connection's event for a message addressed to a channel: 'open.' + id or 'message.' + id. */
  function ChannelEvent(a: Text, rt: Routed): Event
    requires !rt.Core?
  {
    if rt.OpenAck? then ChannelAck(a, rt.id) else ChannelData(a, rt.id, rt.data)
  }

  /** The data a channel handler receives; an acknowledgement carries none. */
  function DataOf(rt: Routed): Text {
    if rt.ToChannel? then rt.data else []
  }

  /**
   `dispatchMessage(d)` on connection `a`: the connection reports the
   message; an acknowledgement or channel data goes to the channel of that id
   if it listens to `a` (and nowhere else); control text can only change the
   connection's session id.
   */
  function Dispatch(w: World, a: Text, d: Text): (r: Step)
    requires Valid(w) && a in w.connections && w.connections[a].hasSocket
    ensures Valid(r.world) && a in r.world.connections && r.world.connections[a].hasSocket
    ensures r.world.order == w.order && r.world.channels.Keys == w.channels.Keys
    ensures r.world.connections == w.connections[a := w.connections[a].(sessionId := r.world.connections[a].sessionId)]
    ensures Route(d).Core? ==>
      && r.world.channels == w.channels && r.ops == [] && r.events == [ConnectionMessage(a, d)]
      && r.world.connections[a].sessionId == SessionAfter(w.connections[a].sessionId, d)
    ensures !Route(d).Core? ==>
      var s := Deliver(w, a, Route(d).id, Route(d).OpenAck?, DataOf(Route(d)));
      && r.world == s.world && r.ops == s.ops
      && r.events == [ConnectionMessage(a, d), ChannelEvent(a, Route(d))] + s.events
  {
    var rt := Route(d);
    if rt.Core? then
      var conn := w.connections[a];
      var updated := conn.(sessionId := SessionAfter(conn.sessionId, d));
      ConnectionUpdateValid(w, a, updated);
      Step(w.(connections := w.connections[a := updated]), [], [ConnectionMessage(a, d)])
    else
      var s := Deliver(w, a, rt.id, rt.OpenAck?, DataOf(rt));
      Step(s.world, s.ops, [ConnectionMessage(a, d), ChannelEvent(a, rt)] + s.events)
  }

  /**
   Whatever the message, the connection reports it first and only once, and
   every frame dispatching sends goes out on a connection with a socket.
   */
  lemma DispatchEvents(w: World, a: Text, d: Text)
    requires Valid(w) && a in w.connections && w.connections[a].hasSocket
    ensures var r := Dispatch(w, a, d);
      && |r.events| >= 1 && r.events[0] == ConnectionMessage(a, d)
      && (forall i :: 1 <= i < |r.events| ==> !r.events[i].ConnectionMessage?)
      && LiveSends(r.world, r.ops)
  {
  }

  /**
   The `a` frame's `payload.forEach(dispatchMessage)`. A payload that is not
   a string is still reported as a `message`, but `dispatchMessage` then
   throws (no such value has the string methods it calls), which abandons
   the rest of the array.
   */
  function DispatchAll(w: World, a: Text, payloads: seq<Json>): (r: Step)
    requires Valid(w) && a in w.connections && w.connections[a].hasSocket
    ensures Valid(r.world) && a in r.world.connections && r.world.connections[a].hasSocket
    ensures r.world.order == w.order && r.world.channels.Keys == w.channels.Keys
    ensures r.world.connections.Keys == w.connections.Keys
    ensures forall b :: b in w.connections && b != a ==> r.world.connections[b] == w.connections[b]
    decreases |payloads|
  {
    if |payloads| == 0 then Step(w, [], [])
    else if !payloads[0].JString? then Step(w, [], [UnreadableMessage(a)])
    else
      var first := Dispatch(w, a, payloads[0].text);
      var rest := DispatchAll(first.world, a, payloads[1..]);
      Step(rest.world, first.ops + rest.ops, first.events + rest.events)
  }

  /** Every payload is a string. */
  predicate AllStrings(payloads: seq<Json>) {
    forall i :: 0 <= i < |payloads| ==> payloads[i].JString?
  }

  lemma Assoc<T>(x: seq<T>, y: seq<T>, z: seq<T>)
    ensures x + (y + z) == (x + y) + z
  {
  }

  /**
   One string payload is one `dispatchMessage`; any other payload is only
   reported, and changes and sends nothing.
   */
  lemma DispatchAllOne(w: World, a: Text, p: Json)
    requires Valid(w) && a in w.connections && w.connections[a].hasSocket
    ensures p.JString? ==> DispatchAll(w, a, [p]) == Dispatch(w, a, p.text)
    ensures !p.JString? ==> DispatchAll(w, a, [p]) == Step(w, [], [UnreadableMessage(a)])
  {
    assert [p][1..] == [];
    if p.JString? {
      var first := Dispatch(w, a, p.text);
      assert first.ops + [] == first.ops && first.events + [] == first.events;
    }
  }

  /**
   Dispatching `p + q`: when `p` holds only strings, it is dispatching `p`,
   then `q` against the world `p` left, with the socket operations and the
   events of both in that order; when `p` holds something else, `q` is
   never reached.
   */
  lemma {:induction false} DispatchAllConcat(w: World, a: Text, p: seq<Json>, q: seq<Json>)
    requires Valid(w) && a in w.connections && w.connections[a].hasSocket
    ensures AllStrings(p) ==>
      var s1 := DispatchAll(w, a, p);
      var s2 := DispatchAll(s1.world, a, q);
      DispatchAll(w, a, p + q) == Step(s2.world, s1.ops + s2.ops, s1.events + s2.events)
    ensures !AllStrings(p) ==> DispatchAll(w, a, p + q) == DispatchAll(w, a, p)
    decreases |p|
  {
    if |p| == 0 {
      assert p + q == q;
      var s2 := DispatchAll(w, a, q);
      assert [] + s2.ops == s2.ops && [] + s2.events == s2.events;
    } else {
      assert (p + q)[0] == p[0];
      assert (p + q)[1..] == p[1..] + q;
      if p[0].JString? {
        assert AllStrings(p) <==> AllStrings(p[1..]);
        var first := Dispatch(w, a, p[0].text);
        var t1 := DispatchAll(first.world, a, p[1..]);
        DispatchAllConcat(first.world, a, p[1..], q);
        var s2 := DispatchAll(t1.world, a, q);
        Assoc(first.ops, t1.ops, s2.ops);
        Assoc(first.events, t1.events, s2.events);
      }
    }
  }

  /** `ws.onmessage(msg)` on connection `a`; `parse` stands for `JSON.parse`. */
  function HandleFrame(w: World, a: Text, msg: Text, parse: Text -> Option<Json>): (r: Step)
    requires Valid(w) && a in w.connections && w.connections[a].hasSocket
    ensures Valid(r.world)
    ensures DecodeFrame(msg, parse) == Drop ==> r == Step(w, [], [])
    ensures DecodeFrame(msg, parse) == CloseRequest ==> r == Step(w, [CloseSocket(a)], [])
    ensures DecodeFrame(msg, parse) == Handshake ==> r == HandleOpen(w, a)
    ensures DecodeFrame(msg, parse).Deliver? ==> r == DispatchAll(w, a, DecodeFrame(msg, parse).payloads)
  {
    match DecodeFrame(msg, parse)
    case Handshake => HandleOpen(w, a)
    case Deliver(payloads) => DispatchAll(w, a, payloads)
    case CloseRequest => Step(w, [CloseSocket(a)], [])
    case Drop => Step(w, [], [])
  }

  // ---------------------------------------------------------------------
  // The channel's own operations, on the world.

  /** `channel.sendControl(data)`. */
  function SendControl(w: World, id: Text, data: Text): (r: Step)
    requires Valid(w) && id in w.channels
    ensures Valid(r.world) && LiveSends(r.world, r.ops)
    ensures w.channels[id].isOpen ==>
      && r.world == w
      && r.ops == [Send(w.channels[id].addr, Addressed(id, data))]
    ensures !w.channels[id].isOpen ==>
      && r.world == w.(channels := w.channels[id := w.channels[id].(controlBuffer := w.channels[id].controlBuffer + [data])])
      && r.ops == []
    ensures r.events == []
  {
    Apply(w, id, Channels.SendControl(w.channels[id], data))
  }

  /** `channel.writeLine(data)`: nothing changes; one frame when the channel relays. */
  function WriteLine(w: World, id: Text, data: Text): (r: Step)
    requires Valid(w) && id in w.channels
    ensures r.world == w && r.events == [] && LiveSends(r.world, r.ops)
    ensures w.channels[id].remoteState == 1 ==> r.ops == [Send(w.channels[id].addr, Addressed(id, data))]
    ensures w.channels[id].remoteState == 0 ==> r.ops == []
  {
    Step(w, Sends(w.channels[id].addr, Channels.WriteLine(w.channels[id], data)), [])
  }

  /** `channel.close()`: nothing changes locally; the bare `:id` goes out only when relaying. */
  function CloseChannel(w: World, id: Text): (r: Step)
    requires Valid(w) && id in w.channels
    ensures r.world == w && r.events == [] && LiveSends(r.world, r.ops)
    ensures w.channels[id].remoteState == 1 ==> r.ops == [Send(w.channels[id].addr, Announce(id))]
    ensures w.channels[id].remoteState == 0 ==> r.ops == []
  {
    Step(w, Sends(w.channels[id].addr, Channels.Close(w.channels[id])), [])
  }

  /** `channel.setEncoding(encoding)`. */
  function SetEncoding(w: World, id: Text, encoding: Text): (r: Step)
    requires Valid(w) && id in w.channels
    ensures Valid(r.world) && LiveSends(r.world, r.ops) && r.events == []
    ensures r.world == w.(channels := w.channels[id := w.channels[id].(encoding := encoding)])
    ensures w.connections[w.channels[id].addr].connected ==>
      r.ops == [Send(w.channels[id].addr, Addressed(id, EncodingLine(encoding)))]
    ensures !w.connections[w.channels[id].addr].connected ==> r.ops == []
  {
    var ch := w.channels[id];
    Apply(w, id, Channels.SetEncoding(ch, encoding, w.connections[ch.addr].connected))
  }

  /** `channel.initChannel()`: re-announces the id on the channel's connection. */
  function InitChannel(w: World, id: Text): (r: Step)
    requires Valid(w) && id in w.channels
    ensures r.world == w && r.events == []
    ensures r.ops == [Send(w.channels[id].addr, Announce(id))]
  {
    Step(w, Sends(w.channels[id].addr, Channels.InitChannel(w.channels[id])), [])
  }

  /**
   `channel.connect()`: the buffer is emptied, a connection without a socket
   reconnects, and the `HOST` line is sent if the channel is open and queued
   otherwise.
   */
  function ConnectChannel(w: World, id: Text): (r: Step)
    requires Valid(w) && id in w.channels
    ensures Valid(r.world) && LiveSends(r.world, r.ops) && r.events == []
    ensures var a := w.channels[id].addr;
      && r.world.connections == w.connections[a := w.connections[a].(hasSocket := true)]
      && r.world.order == w.order
    ensures var ch := w.channels[id];
      if ch.isOpen then
        && r.world.channels == w.channels[id := ch.(controlBuffer := [])]
        && r.ops == [Send(ch.addr, Addressed(id, HostLine(ch.options)))]
      else
        && r.world.channels == w.channels[id := ch.(controlBuffer := [HostLine(ch.options)])]
        && r.ops == (if w.connections[ch.addr].hasSocket then [] else [OpenSocket(ch.addr)])
  {
    var ch := w.channels[id];
    var s0 := if w.connections[ch.addr].hasSocket then Step(w, [], []) else Reconnect(w, ch.addr);
    var s1 := Apply(s0.world, id, Channels.Connect(s0.world.channels[id]));
    Step(s1.world, s0.ops + s1.ops, [])
  }
}
