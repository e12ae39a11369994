/** The event server (websocket/daemon.js): posting, catching up, following and long-polling, over the
    linked replay buffer. */
module Daemon {
  import opened EventLog
  import opened LinkedQueue
  import opened Options
  import opened PollProtocol

  /** A subscriber's connection.  `sent` is everything written to it, `errors` the rejected commands. */
  class Socket {
    var lastMessage: int
    var filter: Filter
    var sent: seq<Message>
    var errors: nat

    constructor ()
      ensures lastMessage == 0 && filter == {} && sent == [] && errors == 0
    {
      lastMessage, filter, sent, errors := 0, {}, [], 0;
    }

    method GotMessage(message: Message)
      modifies this
      ensures sent == old(sent) + if message.channel in filter then [message] else []
      ensures lastMessage == message.id && filter == old(filter) && errors == old(errors)
    {
      if message.channel in filter {
        sent := sent + [message];
      }
      lastMessage := message.id;
    }
  }

  /** A long-poll request; it is over once it has its response. */
  class Poller {
    const channels: Filter
    const lastMessage: int
    var response: Option<Message>

    constructor (channels: Filter, lastMessage: int)
      ensures this.channels == channels && this.lastMessage == lastMessage && response == Option.None
    {
      this.channels, this.lastMessage, response := channels, lastMessage, Option.None;
    }
  }

  /** An element of a set-filter request: a channel name, or any other JSON value. */
  datatype Json = Text(s: string) | Other

  /** What a request asks for; `channels` is None when the filter is not an array. */
  datatype Command = Start(start: int) | Filtering(channels: Option<seq<Json>>)

  class Server {
    const maxQueue: nat
    const maxFilter: nat
    const maxBodySize: nat
    const messages: Queue<Message>
    var followers: set<Socket>
    var pollers: set<Poller>
    var messageId: int
    ghost const base: int
    /** Everything ever posted. */
    ghost var log: seq<Message>

    ghost predicate Valid()
      reads `log, `messageId, messages, messages.nodes
    {
      && 0 < maxQueue
      && messages.Valid() && messages.Counted()
      && Numbered(log, base) && messageId == base + |log|
      && messages.Contents() == Kept(log, maxQueue)
    }

    constructor (maxQueue: nat, maxFilter: nat, maxBodySize: nat, now: int)
      requires 0 < maxQueue
      ensures Valid() && fresh(messages) && messages.nodes == []
      ensures this.maxQueue == maxQueue && this.maxFilter == maxFilter && this.maxBodySize == maxBodySize && base == now
      ensures log == [] && followers == {} && pollers == {}
    {
      this.maxQueue, this.maxFilter, this.maxBodySize := maxQueue, maxFilter, maxBodySize;
      messages := new Queue<Message>();
      followers, pollers, messageId := {}, {}, now;
      base, log := now, [];
    }

    /** The buffer step of a post. */
    method Store(m: Message)
      requires Valid() && m.id == messageId + 1
      modifies this`messageId, this`log, messages, messages.nodes
      ensures Valid() && messageId == m.id && log == old(log) + [m]
    {
      KeptSnoc(log, m, maxQueue);
      ghost var before := messages.Contents();
      messageId := messageId + 1;
      messages.Push(m);
      log := log + [m];
      assert messages.Contents() == before + [m] && messages.length == |before| + 1;
      if messages.length > maxQueue {
        var _ := messages.Pop();
      }
    }

    /** A post reaches every follower once, answers exactly the waiting polls that want it, and leaves the
        buffer holding the last maxQueue messages, numbered without gaps up to messageId. */
    method MessagesPost(channel: string, message: string) returns (id: int)
      requires Valid()
      modifies this, messages, messages.nodes, followers, pollers
      ensures Valid() && followers == old(followers)
      ensures id == messageId == old(messageId) + 1
      ensures log == old(log) + [Message(id, channel, message)]
      ensures forall s <- followers :: Got(s, Message(id, channel, message), old(s.sent), old(s.filter))
      ensures forall p :: p in pollers <==> p in old(pollers) && channel !in p.channels
      ensures forall p <- old(pollers) ::
                p.response == if channel in p.channels then Option.Some(Message(id, channel, message))
                              else old(p.response)
    {
      var resolvedMessage := Message(messageId + 1, channel, message);
      Store(resolvedMessage);
      NotifyFollowers(resolvedMessage);
      NotifyPollers(resolvedMessage);
      id := resolvedMessage.id;
    }

    /** The follower has been shown m, and nothing else, since it had sent `sent`. */
    ghost predicate Got(s: Socket, m: Message, sent: seq<Message>, filter: Filter)
      reads s
    {
      s.sent == sent + (if m.channel in filter then [m] else []) && s.lastMessage == m.id && s.filter == filter
    }

    method NotifyFollowers(m: Message)
      modifies followers
      ensures forall s <- followers :: Got(s, m, old(s.sent), old(s.filter))
    {
      var rest := followers;
      while rest != {}
        invariant rest <= followers
        invariant forall s <- followers :: if s in rest then unchanged(s) else Got(s, m, old(s.sent), old(s.filter))
        decreases |rest|
      {
        var client :| client in rest;
        client.GotMessage(m);
        rest := rest - {client};
      }
    }

    method NotifyPollers(m: Message)
      modifies this`pollers, pollers
      ensures forall p :: p in pollers <==> p in old(pollers) && m.channel !in p.channels
      ensures forall p <- old(pollers) ::
                p.response == if m.channel in p.channels then Option.Some(m) else old(p.response)
    {
      var rest := pollers;
      while rest != {}
        invariant rest <= pollers <= old(pollers)
        invariant forall p <- old(pollers) :: p in pollers <==> p in rest || m.channel !in p.channels
        invariant forall p <- old(pollers) ::
                    p.response == if p !in rest && m.channel in p.channels then Option.Some(m) else old(p.response)
        decreases |rest|
      {
        var request :| request in rest;
        rest := rest - {request};
        if m.channel in request.channels {
          request.response := Option.Some(m);
          pollers := pollers - {request};
        }
      }
    }

    /** Shows a client every buffered message past its position. */
    method MessagesCatchUp(client: Socket)
      requires Valid()
      modifies client
      ensures client.sent == old(client.sent) + Missed(Kept(log, maxQueue), old(client.filter), old(client.lastMessage))
      ensures client.lastMessage == Advanced(Kept(log, maxQueue), old(client.lastMessage))
      ensures client.filter == old(client.filter) && client.errors == old(client.errors)
    {
      ghost var all, filter, last := messages.Contents(), client.filter, client.lastMessage;
      assert Numbered(all, base + |log| - |all|);
      ghost var i := 0;
      var item := messages.head;
      while item != null
        invariant 0 <= i <= |messages.nodes| == |all|
        invariant item == if i < |all| then messages.nodes[i] else null
        invariant client.sent == old(client.sent) + Missed(all[..i], filter, last)
        invariant client.lastMessage == Advanced(all[..i], last)
        invariant client.filter == filter && client.errors == old(client.errors)
        decreases |all| - i
      {
        assert item.data == all[i];
        CatchUpStep(all, i, filter, last);
        if item.data.id > client.lastMessage {
          client.GotMessage(item.data);
        }
        item := item.next;
        i := i + 1;
      }
      assert all[..i] == all;
    }

    /** One more buffered message is shown exactly when it is past the position reached so far. */
    lemma CatchUpStep(all: seq<Message>, i: nat, filter: Filter, last: int)
      requires i < |all| && exists b :: Numbered(all, b)
      ensures Missed(all[..i + 1], filter, last) ==
              Missed(all[..i], filter, last) + if Wanted(all[i], filter, last) then [all[i]] else []
      ensures all[i].id > Advanced(all[..i], last) <==> all[i].id > last
      ensures Advanced(all[..i + 1], last) == if all[i].id > last then all[i].id else Advanced(all[..i], last)
    {
      assert all[..i + 1] == all[..i] + [all[i]];
      MissedSnoc(all[..i], all[i], filter, last);
    }

    method StartMsg(socket: Socket, start: int)
      modifies socket
      ensures socket.lastMessage == start
      ensures socket.filter == old(socket.filter) && socket.sent == old(socket.sent)
      ensures socket.errors == old(socket.errors)
    {
      socket.lastMessage := start;
    }

    /** The guard of set-filter: an array of one to maxFilter channel names. */
    predicate Acceptable(request: Option<seq<Json>>) {
      request.Some? && 0 < |request.value| <= maxFilter && forall c <- request.value :: c.Text?
    }

    function Channels(request: seq<Json>): Filter {
      set c | c in request && c.Text? :: c.s
    }

    /** The check of a set-filter request, which also collects the channels. */
    method CheckFilter(request: Option<seq<Json>>) returns (valid: bool, filter: Filter)
      ensures valid <==> Acceptable(request)
      ensures valid ==> filter == Channels(request.value)
    {
      filter := {};
      if request.None? || |request.value| == 0 || |request.value| > maxFilter {
        return false, filter;
      }
      for i := 0 to |request.value|
        invariant forall k :: 0 <= k < i ==> request.value[k].Text?
        invariant filter == Channels(request.value[..i])
      {
        if !request.value[i].Text? {
          return false, filter;
        }
        filter := filter + {request.value[i].s};
        assert request.value[..i + 1] == request.value[..i] + [request.value[i]];
      }
      assert request.value[..|request.value|] == request.value;
      valid := true;
    }

    /** A socket that sets an acceptable filter follows from then on and is first shown what it missed; any
        other request changes nothing but earns an error. */
    method SetFilter(socket: Socket, request: Option<seq<Json>>)
      requires Valid()
      modifies this`followers, socket
      ensures Valid()
      ensures Acceptable(request) ==>
                && followers == old(followers) + {socket}
                && socket.filter == Channels(request.value)
                && socket.sent == old(socket.sent) +
                     Missed(Kept(log, maxQueue), Channels(request.value), old(socket.lastMessage))
                && socket.lastMessage == Advanced(Kept(log, maxQueue), old(socket.lastMessage))
                && socket.errors == old(socket.errors)
      ensures !Acceptable(request) ==>
                && followers == old(followers)
                && socket.filter == old(socket.filter) && socket.sent == old(socket.sent)
                && socket.lastMessage == old(socket.lastMessage) && socket.errors == old(socket.errors) + 1
    {
      var valid, filter := CheckFilter(request);
      if valid {
        Follow(socket, filter);
      } else {
        socket.errors := socket.errors + 1;
      }
    }

    /** The branch for an acceptable filter. */
    method Follow(socket: Socket, filter: Filter)
      requires Valid()
      modifies this`followers, socket
      ensures Valid() && followers == old(followers) + {socket} && socket.filter == filter
      ensures socket.sent == old(socket.sent) + Missed(Kept(log, maxQueue), filter, old(socket.lastMessage))
      ensures socket.lastMessage == Advanced(Kept(log, maxQueue), old(socket.lastMessage))
      ensures socket.errors == old(socket.errors)
    {
      socket.filter := filter;
      followers := followers + {socket};
      assert Valid();
      MessagesCatchUp(socket);
    }

    /** A request that is too long, makes no sense or sets no acceptable filter. */
    predicate Refused(length: nat, command: Option<Command>) {
      || length > maxBodySize
      || command.None?
      || (command.value.Filtering? && !Acceptable(command.value.channels))
    }

    /** The handler of a request of this length; command is None when it is not JSON or names no command.  A refused
        one earns an error and changes nothing else. */
    method OnMessage(socket: Socket, length: nat, command: Option<Command>)
      requires Valid()
      modifies this`followers, socket
      ensures Valid() && socket.errors == old(socket.errors) + if Refused(length, command) then 1 else 0
      ensures Refused(length, command) ==>
                && followers == old(followers) && socket.filter == old(socket.filter)
                && socket.sent == old(socket.sent) && socket.lastMessage == old(socket.lastMessage)
      ensures !Refused(length, command) && command.value.Start? ==>
                && followers == old(followers) && socket.filter == old(socket.filter)
                && socket.sent == old(socket.sent) && socket.lastMessage == command.value.start
      ensures !Refused(length, command) && command.value.Filtering? ==>
                var filter := Channels(command.value.channels.value);
                && followers == old(followers) + {socket} && socket.filter == filter
                && socket.sent == old(socket.sent) + Missed(Kept(log, maxQueue), filter, old(socket.lastMessage))
                && socket.lastMessage == Advanced(Kept(log, maxQueue), old(socket.lastMessage))
    {
      if length > maxBodySize {
        socket.errors := socket.errors + 1;
        return;
      }
      match command
      case None => socket.errors := socket.errors + 1;
      case Some(Start(start)) => StartMsg(socket, start);
      case Some(Filtering(channels)) => SetFilter(socket, channels);
    }

    method Close(socket: Socket)
      modifies this`followers
      ensures followers == old(followers) - {socket}
    {
      followers := followers - {socket};
    }

    /** What `PollProtocol` has the server answer at once. */
    ghost function Told(channels: Filter, last: int): Option<Message>
      reads `log
    {
      match Answer(Kept(log, maxQueue), channels, last)
      case Answered(m) => Option.Some(m)
      case _ => Option.None
    }

    /** A poll is answered with the first buffered message it has not seen, or joins the pollers.  `last` is
        the parsed query parameter, None when it is missing or not a number. */
    method Poll(channels: Filter, last: Option<int>) returns (req: Poller)
      requires Valid()
      modifies this`pollers
      ensures Valid() && fresh(req)
      ensures req.channels == channels && req.lastMessage == if last.Some? then last.value else 0
      ensures req.response == Told(channels, req.lastMessage)
      ensures pollers == old(pollers) + if req.response == Option.None then {req} else {}
    {
      req := new Poller(channels, if last.Some? then last.value else 0);
      var got := FirstMissed(channels, req.lastMessage);
      req.response := got;
      if got == Option.None {
        pollers := pollers + {req};
      }
    }

    /** The walk of the buffer behind a poll: only the first hit is handed out. */
    method FirstMissed(channels: Filter, last: int) returns (got: Option<Message>)
      requires Valid()
      ensures got == Told(channels, last)
    {
      ghost var all := messages.Contents();
      ghost var i := 0;
      got := Option.None;
      var item := messages.head;
      while item != null
        invariant 0 <= i <= |messages.nodes| == |all|
        invariant item == if i < |all| then messages.nodes[i] else null
        invariant var missed := Missed(all[..i], channels, last);
                  got == if missed == [] then Option.None else Option.Some(missed[0])
        decreases |all| - i
      {
        assert item.data == all[i];
        assert all[..i + 1] == all[..i] + [all[i]];
        MissedSnoc(all[..i], all[i], channels, last);
        if got == Option.None && item.data.id > last && item.data.channel in channels {
          got := Option.Some(item.data);
        }
        item := item.next;
        i := i + 1;
      }
      assert all[..i] == all;
    }
  }
}
