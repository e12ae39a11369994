/** The browser side (resources/event.js), and the proof that server and client objects carry out the
    steps of the delivery protocol. */
module EventClient {
  import opened EventLog
  import opened LinkedQueue
  import opened Options
  import opened Daemon
  import opened JsonText
  import EP = EventProtocol

  /** `start` is None when the client has lost its position. */
  datatype Request = StartMsg(start: Option<int>) | SetFilter(channels: seq<string>)

  /** `Absent` until the first connection and between a lost one and the next; `Closed` when it was given up. */
  datatype Connection = Absent | Connecting | Open | Closed

  class EventDispatcher {
    const hasWebSocket: bool
    var autoReconnect: bool
    var connected: bool
    /** None after an error frame, which has no id. */
    var lastMsg: Option<int>
    /** One channel for each event name, in order of first registration. */
    var channels: seq<string>
    var callbacks: map<string, nat>
    /** Messages that reached the callbacks of their event. */
    var dispatched: seq<Message>

    var websocket: Connection
    /** What was sent on the current connection. */
    var sent: seq<Request>
    /** The two timers. */
    var filterDue: bool
    var reconnectDue: bool
    /** The channels the pending long poll asks for. */
    var polling: Option<seq<string>>

    ghost predicate Valid()
      reads this
    {
      && (forall i, j :: 0 <= i < j < |channels| ==> channels[i] != channels[j])
      && (forall c :: c in channels <==> c in callbacks)
      && (connected <==> channels != [])
      && (connected ==> if hasWebSocket then Talking() else polling == Some(channels))
    }

    /** A connection begins with start-msg.  The server was told all channels last, or is going to be, as long as
        there is a connection or one to come. */
    ghost predicate Talking()
      reads this
    {
      && (websocket.Open? ==> 0 < |sent| && sent[0].StartMsg? && forall i :: 0 < i < |sent| ==> sent[i].SetFilter?)
      && (websocket.Open? ==> filterDue || (1 < |sent| && sent[|sent| - 1] == SetFilter(channels)))
      && (websocket.Absent? ==> reconnectDue)
      && (websocket.Absent? || websocket.Connecting? ==> filterDue)
    }

    constructor (lastMsg: int, hasWebSocket: bool)
      ensures Valid() && this.lastMsg == Some(lastMsg) && this.hasWebSocket == hasWebSocket
      ensures !connected && channels == [] && dispatched == [] && websocket == Absent
    {
      this.hasWebSocket, this.lastMsg := hasWebSocket, Some(lastMsg);
      autoReconnect, connected, channels, callbacks, dispatched := false, false, [], map[], [];
      websocket, sent, filterDue, reconnectDue, polling := Absent, [], false, false, None;
    }

    method InitWebsocket()
      modifies `websocket, `sent
      ensures websocket == Connecting && sent == []
    {
      websocket, sent := Connecting, [];
    }

    method InitConnection()
      modifies `websocket, `sent, `polling
      ensures if hasWebSocket then websocket == Connecting && sent == [] && unchanged(`polling)
              else polling.Some? && unchanged(`websocket) && unchanged(`sent)
    {
      if hasWebSocket {
        InitWebsocket();
      } else {
        polling := Some(channels);
      }
    }

    /** Asks for all channels anew: after the timer, or at once by another poll. */
    method SetFilters()
      modifies `filterDue, `polling
      ensures if hasWebSocket then filterDue && unchanged(`polling)
              else polling == Some(channels) && unchanged(`filterDue)
    {
      if hasWebSocket {
        filterDue := true;
      } else {
        polling := Some(channels);
      }
    }

    /** `on`: a name joins the channels the first time it is used, later callbacks only add to its event.  The first
        name opens the connection; each new one is going to be asked for, together with all others. */
    method On(eventName: string)
      requires Valid()
      modifies `connected, `channels, `callbacks, `websocket, `sent, `filterDue, `polling
      ensures Valid() && connected
      ensures channels == if eventName in old(channels) then old(channels) else old(channels) + [eventName]
      ensures var before := if eventName in old(callbacks) then old(callbacks)[eventName] else 0;
              callbacks == old(callbacks)[eventName := before + 1]
      ensures hasWebSocket && !old(connected) ==> websocket == Connecting && sent == []
      ensures old(connected) || !hasWebSocket ==> websocket == old(websocket) && sent == old(sent)
      ensures hasWebSocket && eventName !in old(channels) ==> filterDue
      ensures eventName in old(channels) ==> filterDue == old(filterDue) && polling == old(polling)
      ensures !hasWebSocket ==> polling == Some(channels)
    {
      if !connected {
        connected := true;
        InitConnection();
      }
      if eventName !in callbacks {
        Join(eventName);
      }
      callbacks := callbacks[eventName := callbacks[eventName] + 1];
    }

    /** A name joins the channels; it has no callback yet. */
    method Join(eventName: string)
      requires eventName !in callbacks
      modifies `channels, `callbacks, `filterDue, `polling
      ensures channels == old(channels) + [eventName] && callbacks == old(callbacks)[eventName := 0]
      ensures if hasWebSocket then filterDue && unchanged(`polling)
              else polling == Some(channels) && unchanged(`filterDue)
    {
      callbacks := callbacks[eventName := 0];
      channels := channels + [eventName];
      SetFilters();
    }

    /** `onopen`. */
    method OnOpen()
      requires Valid() && connected && hasWebSocket && websocket.Connecting?
      modifies `websocket, `sent
      ensures Valid() && websocket == Open && sent == [StartMsg(lastMsg)]
    {
      websocket, sent := Open, [StartMsg(lastMsg)];
    }

    /** The timer of `set_filters`, which sets itself again while the connection is not ready. */
    method FilterTimeout()
      requires Valid() && connected && hasWebSocket && filterDue
      modifies `sent, `filterDue, `polling
      ensures Valid() && (filterDue <==> !websocket.Open?)
      ensures sent == old(sent) + if websocket.Open? then [SetFilter(channels)] else []
    {
      filterDue := false;
      if websocket.Open? {
        sent := sent + [SetFilter(channels)];
      } else {
        SetFilters();
      }
    }

    /** `onclose`: another connection follows if it was asked for, and is told the channels again. */
    method OnClose()
      requires Valid() && connected && hasWebSocket && (websocket.Open? || websocket.Connecting?)
      modifies `websocket, `filterDue, `reconnectDue, `polling
      ensures Valid()
      ensures if autoReconnect then websocket == Absent && reconnectDue && filterDue
              else websocket == Closed && filterDue == old(filterDue) && reconnectDue == old(reconnectDue)
    {
      if autoReconnect {
        websocket, reconnectDue := Absent, true;
        SetFilters();
      } else {
        websocket := Closed;
      }
    }

    method ReconnectTimeout()
      requires Valid() && connected && hasWebSocket && reconnectDue && websocket.Absent?
      modifies `websocket, `sent, `reconnectDue
      ensures Valid() && websocket == Connecting && sent == []
    {
      reconnectDue := false;
      InitWebsocket();
    }

    /** `onmessage`, and equally the success handler of a poll. */
    method OnMessage(data: Message)
      requires Valid()
      modifies `dispatched, `lastMsg
      ensures Valid() && lastMsg == Some(data.id)
      ensures dispatched == old(dispatched) + if data.channel in channels then [data] else []
    {
      if data.channel in callbacks {
        dispatched := dispatched + [data];
      }
      lastMsg := Some(data.id);
    }

    /** `onmessage` of an error frame: no event has its channel, and its id becomes the position. */
    method OnError()
      requires Valid()
      modifies `lastMsg
      ensures Valid() && lastMsg == None
    {
      lastMsg := None;
    }
  }

  /** The objects stand for the protocol state w; the first `read` messages sent have left the wire. */
  ghost predicate Serves(server: Server, socket: Socket, w: EP.World, read: nat)
    reads server, server.messages, server.messages.nodes, socket
  {
    && server.Valid()
    && server.base == w.base && server.log == w.log && server.maxQueue == w.maxQueue
    && w.link.Up?
    && read <= |socket.sent| && socket.sent[read..] == w.link.inFlight
    && socket.lastMessage == w.link.lastMessage
    && (socket in server.followers <==> w.link.following)
    && (w.link.following ==> socket.filter == w.filter)
  }

  ghost predicate Listens(client: EventDispatcher, w: EP.World)
    reads client
  {
    client.Valid() && client.lastMsg == Some(w.last) && client.dispatched == w.delivered
    && forall c :: c in client.channels <==> c in w.filter
  }

  /** A new socket on one side and the client's onopen on the other are the protocol's Connect. */
  method Connect(server: Server, client: EventDispatcher, ghost w: EP.World) returns (socket: Socket)
    requires server.Valid() && server.base == w.base && server.log == w.log && server.maxQueue == w.maxQueue
    requires Listens(client, w) && w.link.Down?
    requires client.connected && client.hasWebSocket && client.websocket.Connecting?
    modifies client
    ensures fresh(socket) && Serves(server, socket, EP.Step(w, EP.Connect), 0)
    ensures Listens(client, EP.Step(w, EP.Connect))
    ensures client.sent == [StartMsg(Some(EP.Step(w, EP.Connect).link.startMsg.start))]
  {
    socket := new Socket();
    client.OnOpen();
  }

  method ReadStart(server: Server, socket: Socket, length: nat, start: int, ghost w: EP.World, ghost read: nat)
    requires Serves(server, socket, w, read) && length <= server.maxBodySize
    requires w.link.startMsg == EP.Sent(start)
    modifies server`followers, socket
    ensures Serves(server, socket, EP.Step(w, EP.ReadStart), read)
  {
    server.OnMessage(socket, length, Some(Start(start)));
  }

  function Texts(channels: seq<string>): (texts: seq<Json>)
    ensures |texts| == |channels| && forall i :: 0 <= i < |channels| ==> texts[i] == Text(channels[i])
  {
    seq(|channels|, i requires 0 <= i < |channels| => Text(channels[i]))
  }

  /** The length of a set-filter request. */
  function FilterLength(channels: seq<string>): nat {
    |"{\"command\":\"set-filter\",\"filter\":[]}"| + ListLength(channels)
  }

  /** The client's timer asks for all its channels.  The server refuses exactly if they are too many or their text
      is too long; otherwise it takes the protocol's filter. */
  method SendFilter(server: Server, client: EventDispatcher, ghost w: EP.World)
      returns (length: nat, command: Option<Command>)
    requires Listens(client, w) && client.connected && client.hasWebSocket && client.filterDue && client.websocket.Open?
    modifies client`sent, client`filterDue, client`polling
    ensures Listens(client, w) && !client.filterDue && client.sent[|client.sent| - 1] == SetFilter(client.channels)
    ensures command.Some? && command.value.Filtering? && command.value.channels.Some?
    ensures server.Refused(length, command) <==>
            |client.channels| > server.maxFilter || FilterLength(client.channels) > server.maxBodySize
    ensures server.Channels(command.value.channels.value) == w.filter
  {
    client.FilterTimeout();
    length := FilterLength(client.channels);
    command := Some(Filtering(Some(Texts(client.channels))));
  }

  /** One channel of 163 plain characters is too much for a limit of 200. */
  lemma OneLongChannel(channel: string)
    requires |channel| == 163 && forall i :: 0 <= i < |channel| ==> Plain(channel[i])
    ensures FilterLength([channel]) == 201
  {
    PlainLength(channel);
    assert [channel][..0] == [];
    assert ListLength([channel]) == 165;
    assert |"{\"command\":\"set-filter\",\"filter\":[]}"| == 36;
  }

  method ReadFilter(server: Server, socket: Socket, length: nat, command: Option<Command>,
                    ghost w: EP.World, ghost read: nat)
    requires Serves(server, socket, w, read) && w.link.startMsg.Read?
    requires !server.Refused(length, command) && command.value.Filtering?
    requires server.Channels(command.value.channels.value) == w.filter
    modifies server`followers, socket
    ensures Serves(server, socket, EP.Step(w, EP.ReadFilter), read)
  {
    server.OnMessage(socket, length, command);
  }

  /** A refused filter is no step of the protocol: the socket goes on as it was, while the client, whose timer is
      done, believes all channels asked for, and its position is lost when the error frame arrives. */
  method RefuseFilter(server: Server, socket: Socket, client: EventDispatcher, length: nat, command: Option<Command>,
                      ghost w: EP.World, ghost read: nat)
    requires Serves(server, socket, w, read) && Listens(client, w) && server.Refused(length, command)
    modifies server`followers, socket, client`lastMsg
    ensures Serves(server, socket, w, read)
    ensures client.Valid() && client.lastMsg == None && client.filterDue == old(client.filterDue)
  {
    server.OnMessage(socket, length, command);
    client.OnError();
  }

  method Post(server: Server, socket: Socket, channel: string, message: string, ghost w: EP.World, ghost read: nat)
    requires Serves(server, socket, w, read)
    modifies server, server.messages, server.messages.nodes, server.followers, server.pollers
    ensures Serves(server, socket, EP.Step(w, EP.Post(channel, message)), read)
  {
    ghost var following := socket in server.followers;
    var id := server.MessagesPost(channel, message);
    if following {
      assert server.Got(socket, Message(id, channel, message), old(socket.sent), old(socket.filter));
    }
  }

  method Receive(server: Server, socket: Socket, client: EventDispatcher, ghost w: EP.World, read: nat)
    requires EP.Inv(w) && Serves(server, socket, w, read) && Listens(client, w)
    requires read < |socket.sent|
    modifies client
    ensures Serves(server, socket, EP.Step(w, EP.Receive), read + 1)
    ensures Listens(client, EP.Step(w, EP.Receive))
  {
    var m := socket.sent[read];
    assert m == w.link.inFlight[0];
    assert m in Missed(w.log, w.filter, w.last);
    MissedIsPart(w.log, w.filter, w.last, m);
    client.OnMessage(m);
  }
}
