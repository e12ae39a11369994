/** Delivery of events end to end (websocket/daemon.js with resources/event.js): one client with a fixed
    set of channels, over any number of connections that may be lost at any moment.  A lost connection
    loses whatever is on its way; the client asks again from the last message it dispatched. */
module EventProtocol {
  import opened EventLog

  /** The server's side of a connection, plus what is on its way in either direction.
      `startMsg` is a start-msg request the server has not read yet. */
  datatype Link =
    | Down
    | Up(startMsg: StartMsg, lastMessage: int, following: bool, inFlight: seq<Message>)

  datatype StartMsg = Sent(start: int) | Read

  datatype World = World(
    base: int,            // messageId when the server came up
    log: seq<Message>,    // everything posted since
    maxQueue: nat,
    filter: Filter,
    start: int,           // the client's first last_msg
    last: int,            // the client's current last_msg
    delivered: seq<Message>,
    link: Link)

  datatype Event =
    | Connect                                // onopen: start-msg goes out
    | ReadStart                              // the server reads it
    | ReadFilter                             // the server reads a set-filter and catches up
    | Post(channel: string, message: string)
    | Receive                                // onmessage: dispatch, then remember the id
    | Drop

  /** The page was rendered with some position no later than the newest message; nothing is connected yet. */
  ghost predicate Start(w: World) {
    && Numbered(w.log, w.base)
    && w.last == w.start <= w.base + |w.log|
    && 0 < w.maxQueue
    && w.delivered == [] && w.link == Down
  }

  function Step(w: World, e: Event): World {
    match e
    case Connect =>
      if w.link.Up? then w else w.(link := Up(Sent(w.last), 0, false, []))
    case ReadStart =>
      if w.link.Up? && w.link.startMsg.Sent?
      then w.(link := w.link.(startMsg := Read, lastMessage := w.link.startMsg.start))
      else w
    case ReadFilter =>
      if w.link.Up? && w.link.startMsg.Read?
      then
        var buffer := Kept(w.log, w.maxQueue);
        w.(link := w.link.(following := true,
                           inFlight := w.link.inFlight + Missed(buffer, w.filter, w.link.lastMessage),
                           lastMessage := Advanced(buffer, w.link.lastMessage)))
      else w
    case Post(channel, message) =>
      var m := Message(w.base + |w.log| + 1, channel, message);
      var link :=
        if w.link.Up? && w.link.following
        then w.link.(inFlight := w.link.inFlight + if m.channel in w.filter then [m] else [], lastMessage := m.id)
        else w.link;
      w.(log := w.log + [m], link := link)
    case Receive =>
      if w.link.Up? && w.link.inFlight != []
      then w.(delivered := w.delivered + [w.link.inFlight[0]], last := w.link.inFlight[0].id,
              link := w.link.(inFlight := w.link.inFlight[1..]))
      else w
    case Drop => w.(link := Down)
  }

  /** Nothing the client still needs has left the replay buffer. */
  predicate Replayable(w: World) {
    Missed(Evicted(w.log, w.maxQueue), w.filter, w.last) == []
  }

  /** The client has dispatched a prefix of what it should get and its position says exactly what is left. */
  ghost predicate OnTrack(w: World) {
    && Numbered(w.log, w.base)
    && w.last <= w.base + |w.log|
    && 0 < w.maxQueue
    && w.delivered + Missed(w.log, w.filter, w.last) == Missed(w.log, w.filter, w.start)
    && w.start <= w.last
  }

  /** While the server follows, what is left is on its way; before that nothing is. */
  ghost predicate LinkInSync(w: World) {
    w.link.Up? ==>
      && (w.link.startMsg.Sent? ==> w.link.startMsg.start == w.last && !w.link.following)
      && (!w.link.following ==> w.link.inFlight == [])
      && (!w.link.following && w.link.startMsg.Read? ==> w.link.lastMessage == w.last)
      && (w.link.following ==> w.link.inFlight == Missed(w.log, w.filter, w.last)
                               && Missed(w.log, w.filter, w.link.lastMessage) == [])
  }

  ghost predicate Inv(w: World) {
    OnTrack(w) && LinkInSync(w)
  }

  predicate FirstFilter(w: World, e: Event) {
    e == ReadFilter && w.link.Up? && w.link.startMsg.Read? && !w.link.following
  }

  lemma CatchUpIsMissed(w: World, last: int)
    requires Numbered(w.log, w.base) && 0 < w.maxQueue
    ensures Missed(w.log, w.filter, last) ==
            Missed(Evicted(w.log, w.maxQueue), w.filter, last) + Missed(Kept(w.log, w.maxQueue), w.filter, last)
    ensures Missed(w.log, w.filter, Advanced(Kept(w.log, w.maxQueue), last)) == []
  {
    KeptSplit(w.log, w.maxQueue);
    MissedSplit(Evicted(w.log, w.maxQueue), Kept(w.log, w.maxQueue), w.filter, last);
    MissedInLog(w.log, w.filter, Advanced(Kept(w.log, w.maxQueue), last), w.base);
  }

  /** The catch-up answers exactly the client's needs, and keeps the run on track, if and only if nothing
      it needs was evicted. */
  lemma CatchUpExact(w: World)
    requires Inv(w) && FirstFilter(w, ReadFilter)
    ensures Inv(Step(w, ReadFilter)) <==> Replayable(w)
  {
    CatchUpIsMissed(w, w.last);
    var w' := Step(w, ReadFilter);
    var gone := Missed(Evicted(w.log, w.maxQueue), w.filter, w.last);
    var there := Missed(Kept(w.log, w.maxQueue), w.filter, w.last);
    assert w'.link.inFlight == [] + there == there;
    assert Inv(w') <==> there == gone + there;
  }

  lemma PostOnTrack(w: World, m: Message)
    requires OnTrack(w) && m.id == w.base + |w.log| + 1
    ensures OnTrack(w.(log := w.log + [m]))
  {
    MissedSnoc(w.log, m, w.filter, w.last);
    MissedSnoc(w.log, m, w.filter, w.start);
  }

  lemma PostKeeps(w: World, channel: string, message: string)
    requires Inv(w)
    ensures Inv(Step(w, Post(channel, message)))
  {
    var m := Message(w.base + |w.log| + 1, channel, message);
    PostOnTrack(w, m);
    MissedSnoc(w.log, m, w.filter, w.last);
    MissedInLog(w.log + [m], w.filter, m.id, w.base);
  }

  lemma StepKeeps(w: World, e: Event)
    requires Inv(w) && (FirstFilter(w, e) ==> Replayable(w))
    ensures Inv(Step(w, e))
  {
    match e
    case Post(channel, message) => PostKeeps(w, channel, message);
    case Receive =>
      if w.link.Up? && w.link.inFlight != [] {
        MissedInLog(w.log, w.filter, w.last, w.base);
        MissedAdvance(w.log, w.filter, w.last, w.base, 0);
        assert w.link.inFlight[0] in Missed(w.log, w.filter, w.last);
      }
    case ReadFilter =>
      if FirstFilter(w, e) {
        CatchUpExact(w);
      } else if w.link.Up? && w.link.startMsg.Read? {
        CatchUpIsMissed(w, w.link.lastMessage);
      }
    case _ =>
  }

  // ---- Whole runs ----

  function Run(w: World, events: seq<Event>): World
    decreases |events|
  {
    if events == [] then w else Run(Step(w, events[0]), events[1..])
  }

  /** Every first set-filter of a connection is read while the buffer still holds all the client needs. */
  predicate NoGap(w: World, events: seq<Event>)
    decreases |events|
  {
    events != [] ==>
      (FirstFilter(w, events[0]) ==> Replayable(w)) && NoGap(Step(w, events[0]), events[1..])
  }

  ghost predicate InvThroughout(w: World, events: seq<Event>)
    decreases |events|
  {
    Inv(w) && (events != [] ==> InvThroughout(Step(w, events[0]), events[1..]))
  }

  /** What the client dispatched is a prefix of the posted messages it wants, with no gap and no repetition; when
      its link follows and nothing is on the way, it is all of them. */
  ghost predicate InOrder(w: World) {
    && w.delivered <= Missed(w.log, w.filter, w.start)
    && (w.link.Up? && w.link.following && w.link.inFlight == [] ==>
          w.delivered == Missed(w.log, w.filter, w.start))
  }

  /** The exact condition: a run stays on track from end to end if and only if no needed message was
      evicted before a catch-up. */
  lemma {:induction false} OnTrackIffNoGap(w: World, events: seq<Event>)
    requires Inv(w)
    ensures InvThroughout(w, events) <==> NoGap(w, events)
    ensures NoGap(w, events) ==> InOrder(Run(w, events))
    decreases |events|
  {
    if events != [] {
      var e := events[0];
      if FirstFilter(w, e) {
        CatchUpExact(w);
      } else {
        StepKeeps(w, e);
      }
      if Inv(Step(w, e)) {
        OnTrackIffNoGap(Step(w, e), events[1..]);
      }
    }
  }

  /** Exactly once and in order, over any number of reconnects. */
  lemma ExactlyOnceInOrder(w: World, events: seq<Event>)
    requires Start(w) && NoGap(w, events)
    ensures InOrder(Run(w, events))
  {
    OnTrackIffNoGap(w, events);
  }

  /** Every first set-filter of a connection is read while at most maxQueue messages have been posted past
      the client's last id. */
  predicate Timely(w: World, events: seq<Event>)
    decreases |events|
  {
    events != [] ==>
      && (FirstFilter(w, events[0]) ==> w.base + |w.log| - w.last <= w.maxQueue)
      && Timely(Step(w, events[0]), events[1..])
  }

  /** Then nothing needed is evicted. */
  lemma {:induction false} TimelyHasNoGap(w: World, events: seq<Event>)
    requires Inv(w) && Timely(w, events)
    ensures NoGap(w, events)
    decreases |events|
  {
    if events != [] {
      MissedInLog(Evicted(w.log, w.maxQueue), w.filter, w.last, w.base);
      StepKeeps(w, events[0]);
      TimelyHasNoGap(Step(w, events[0]), events[1..]);
    }
  }

  // ---- What is evicted is gone ----

  /** What has left the buffer and is neither dispatched nor on its way. */
  function Gone(w: World): set<Message> {
    set m | m in Evicted(w.log, w.maxQueue) && m !in w.delivered && (w.link.Up? ==> m !in w.link.inFlight)
  }

  lemma StepKeepsGone(w: World, e: Event, m: Message)
    requires Numbered(w.log, w.base) && m in Gone(w)
    ensures m in Gone(Step(w, e))
    ensures m in Missed(w.log, w.filter, w.start) ==>
              var w' := Step(w, e); m in Missed(w'.log, w'.filter, w'.start)
  {
    match e
    case Post(channel, message) =>
      var w' := Step(w, e);
      assert Evicted(w.log, w.maxQueue) == Evicted(w'.log, w.maxQueue)[..|Evicted(w.log, w.maxQueue)|];
      var i :| 0 <= i < |w.log| && w.log[i] == m;
      assert m.id == w.base + 1 + i;
    case ReadFilter =>
      if w.link.Up? && w.link.startMsg.Read? {
        MissedIsPart(Kept(w.log, w.maxQueue), w.filter, w.link.lastMessage, m);
      }
    case _ =>
  }

  /** A message that left the buffer before it was dispatched or on its way is never dispatched, whatever
      happens later, reconnects included. */
  lemma {:induction false} EvictedNeverDispatched(w: World, events: seq<Event>, m: Message)
    requires Numbered(w.log, w.base) && m in Gone(w)
    ensures m in Gone(Run(w, events))
    ensures m in Missed(w.log, w.filter, w.start) ==>
              var w' := Run(w, events); m in Missed(w'.log, w'.filter, w'.start)
    decreases |events|
  {
    if events != [] {
      StepKeepsGone(w, events[0], m);
      EvictedNeverDispatched(Step(w, events[0]), events[1..], m);
    }
  }

  /** The link follows and nothing is on its way. */
  predicate Drained(w: World) {
    w.link.Up? && w.link.following && w.link.inFlight == []
  }

  predicate Complete(w: World) {
    w.delivered == Missed(w.log, w.filter, w.start)
  }

  /** The client should get some message that it never will. */
  ghost predicate LosesForGood(w: World) {
    exists m :: m in Gone(w) && m in Missed(w.log, w.filter, w.start)
  }

  /** The exact condition for the client: once its link follows and is drained, it has dispatched all it wants if
      and only if no needed message was evicted before a catch-up.  What it missed it misses for good. */
  lemma {:induction false} CompleteIffNoGap(w: World, events: seq<Event>)
    requires Inv(w)
    ensures !NoGap(w, events) ==> LosesForGood(Run(w, events))
    ensures Drained(Run(w, events)) ==> (Complete(Run(w, events)) <==> NoGap(w, events))
    decreases |events|
  {
    OnTrackIffNoGap(w, events);
    if events == [] {
      assert NoGap(w, events) && Run(w, events) == w;
    } else {
      var e := events[0];
      if FirstFilter(w, e) && !Replayable(w) {
        var gone := Missed(Evicted(w.log, w.maxQueue), w.filter, w.last);
        var m := gone[0];
        assert m in gone;
        MissedIsPart(Evicted(w.log, w.maxQueue), w.filter, w.last, m);
        MissedIsPart(w.log, w.filter, w.last, m);
        NoRepeat(w.log, w.filter, w.start, w.base, w.delivered, Missed(w.log, w.filter, w.last), m);
        MissedIsPart(w.log, w.filter, w.start, m);
        EvictedNeverDispatched(w, events, m);
      } else {
        StepKeeps(w, e);
        var next, rest := Step(w, e), events[1..];
        assert (NoGap(w, events) <==> NoGap(next, rest)) && Run(w, events) == Run(next, rest);
        CompleteIffNoGap(next, rest);
      }
    }
  }

  /** An instance: two posts against a buffer of one. */
  lemma LateClientSkips()
    ensures var a, b := Message(1, "sub", "a"), Message(2, "sub", "b");
            var posted := World(0, [a, b], 1, {"sub"}, 0, 0, [], Down);
            var w := Step(Step(Step(Step(posted, Connect), ReadStart), ReadFilter), Receive);
            && Start(posted) && !Replayable(Step(Step(posted, Connect), ReadStart))
            && w.delivered == [b] && w.last == 2
            && Missed(w.log, w.filter, w.start) == [a, b]
            && Missed(w.log, w.filter, w.last) == []
  {
    var a, b := Message(1, "sub", "a"), Message(2, "sub", "b");
    assert Kept([a, b], 1) == [b] && Evicted([a, b], 1) == [a];
    MissedOne(a, {"sub"}, 0);
    MissedOne(b, {"sub"}, 0);
    MissedOne(a, {"sub"}, 2);
    assert [a, b] == [a] + [b];
    MissedSnoc([a], b, {"sub"}, 0);
    MissedSnoc([a], b, {"sub"}, 2);
  }

  lemma MissedOne(m: Message, filter: Filter, last: int)
    ensures Missed([m], filter, last) == if Wanted(m, filter, last) then [m] else []
  {}
}
