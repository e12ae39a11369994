/** Delivery to a client that long-polls instead (websocket/daemon.js with resources/event.js): each
    request carries the last id and is answered by one message, at once or when it is posted. */
module PollProtocol {
  import opened EventLog

  datatype Request =
    | NoRequest
    | Waiting                       // among the pollers
    | Answered(response: Message)   // written, on its way to the client

  datatype World = World(
    base: int,
    log: seq<Message>,
    maxQueue: nat,
    filter: Filter,
    start: int,
    last: int,
    delivered: seq<Message>,
    request: Request)

  datatype Event =
    | Ask                                     // long_poll reaches the server
    | Post(channel: string, message: string)
    | Receive                                 // success: dispatch, remember the id
    | Lose                                    // timeout, abort, or a lost connection

  ghost predicate Start(w: World) {
    && Numbered(w.log, w.base)
    && w.last == w.start <= w.base + |w.log|
    && 0 < w.maxQueue
    && w.delivered == [] && w.request == NoRequest
  }

  /** The first buffered message past the client's position on its channels, if any. */
  function Answer(buffer: seq<Message>, filter: Filter, last: int): Request {
    var missed := Missed(buffer, filter, last);
    if missed == [] then Waiting else Answered(missed[0])
  }

  function Step(w: World, e: Event): World {
    match e
    case Ask =>
      if w.request.NoRequest? then w.(request := Answer(Kept(w.log, w.maxQueue), w.filter, w.last)) else w
    case Post(channel, message) =>
      var m := Message(w.base + |w.log| + 1, channel, message);
      w.(log := w.log + [m],
         request := if w.request.Waiting? && m.channel in w.filter then Answered(m) else w.request)
    case Receive =>
      if w.request.Answered?
      then w.(delivered := w.delivered + [w.request.response], last := w.request.response.id, request := NoRequest)
      else w
    case Lose => w.(request := NoRequest)
  }

  predicate Replayable(w: World) {
    Missed(Evicted(w.log, w.maxQueue), w.filter, w.last) == []
  }

  ghost predicate Inv(w: World) {
    && Numbered(w.log, w.base)
    && w.start <= w.last <= w.base + |w.log|
    && 0 < w.maxQueue
    && w.delivered + Missed(w.log, w.filter, w.last) == Missed(w.log, w.filter, w.start)
    && (w.request.Waiting? ==> Missed(w.log, w.filter, w.last) == [])
    && (w.request.Answered? ==>
          Missed(w.log, w.filter, w.last) != [] && w.request.response == Missed(w.log, w.filter, w.last)[0])
  }

  /** An answer is the right one if and only if nothing the client needs was evicted. */
  lemma AnswerExact(w: World)
    requires Inv(w) && w.request.NoRequest?
    ensures Inv(Step(w, Ask)) <==> Replayable(w)
  {
    var kept, evicted := Kept(w.log, w.maxQueue), Evicted(w.log, w.maxQueue);
    KeptSplit(w.log, w.maxQueue);
    MissedSplit(evicted, kept, w.filter, w.last);
    var gone, there := Missed(evicted, w.filter, w.last), Missed(kept, w.filter, w.last);
    if gone == [] {
      assert gone + there == there;
    } else if there != [] {
      MissedInLog(evicted, w.filter, w.last, w.base);
      assert Numbered(kept, w.base + |evicted|);
      SuffixLater(kept, w.filter, w.last, w.base + |evicted|);
      assert (gone + there)[0] == gone[0] && gone[0] in gone && there[0] in there;
    }
  }

  lemma {:induction false} SuffixLater(log: seq<Message>, filter: Filter, last: int, base: int)
    requires Numbered(log, base)
    ensures forall m <- Missed(log, filter, last) :: base < m.id
  {
    if log != [] {
      SuffixLater(log[..|log| - 1], filter, last, base);
    }
  }

  lemma StepKeeps(w: World, e: Event)
    requires Inv(w) && (e == Ask && w.request.NoRequest? ==> Replayable(w))
    ensures Inv(Step(w, e))
  {
    match e
    case Ask =>
      if w.request.NoRequest? {
        AnswerExact(w);
      }
    case Post(channel, message) =>
    case Receive =>
      if w.request.Answered? {
        MissedInLog(w.log, w.filter, w.last, w.base);
        MissedAdvance(w.log, w.filter, w.last, w.base, 0);
        assert w.request.response in Missed(w.log, w.filter, w.last);
      }
    case Lose =>
  }

  function Run(w: World, events: seq<Event>): World
    decreases |events|
  {
    if events == [] then w else Run(Step(w, events[0]), events[1..])
  }

  predicate NoGap(w: World, events: seq<Event>)
    decreases |events|
  {
    events != [] ==>
      && (events[0] == Ask && w.request.NoRequest? ==> Replayable(w))
      && NoGap(Step(w, events[0]), events[1..])
  }

  ghost predicate InvThroughout(w: World, events: seq<Event>)
    decreases |events|
  {
    Inv(w) && (events != [] ==> InvThroughout(Step(w, events[0]), events[1..]))
  }

  /** What the client dispatched is a prefix of the very sequence a socket client dispatches a prefix of; all of it
      while a request waits. */
  ghost predicate InOrder(w: World) {
    && w.delivered <= Missed(w.log, w.filter, w.start)
    && (w.request.Waiting? ==> w.delivered == Missed(w.log, w.filter, w.start))
  }

  lemma {:induction false} OnTrackIffNoGap(w: World, events: seq<Event>)
    requires Inv(w)
    ensures InvThroughout(w, events) <==> NoGap(w, events)
    ensures NoGap(w, events) ==> InOrder(Run(w, events))
    decreases |events|
  {
    if events != [] {
      var e := events[0];
      if e == Ask && w.request.NoRequest? {
        AnswerExact(w);
      } else {
        StepKeeps(w, e);
      }
      if Inv(Step(w, e)) {
        OnTrackIffNoGap(Step(w, e), events[1..]);
      }
    }
  }

  /** The long-poll client gets the wanted messages after its starting position, each once and in order. */
  lemma ExactlyOnceInOrder(w: World, events: seq<Event>)
    requires Start(w) && NoGap(w, events)
    ensures InOrder(Run(w, events))
  {
    OnTrackIffNoGap(w, events);
  }

  /** Every request arrives while at most maxQueue messages have been posted past the client's last id. */
  predicate Timely(w: World, events: seq<Event>)
    decreases |events|
  {
    events != [] ==>
      && (events[0] == Ask && w.request.NoRequest? ==> w.base + |w.log| - w.last <= w.maxQueue)
      && Timely(Step(w, events[0]), events[1..])
  }

  /** Then nothing needed is evicted. */
  lemma {:induction false} TimelyHasNoGap(w: World, events: seq<Event>)
    requires Inv(w) && Timely(w, events)
    ensures NoGap(w, events)
    decreases |events|
  {
    if events != [] {
      MissedInLog(Evicted(w.log, w.maxQueue), w.filter, w.last, w.base);
      StepKeeps(w, events[0]);
      TimelyHasNoGap(Step(w, events[0]), events[1..]);
    }
  }

  // ---- What is evicted is gone ----

  /** What has left the buffer and is neither dispatched nor on its way. */
  function Gone(w: World): set<Message> {
    set m | m in Evicted(w.log, w.maxQueue) && m !in w.delivered && w.request != Answered(m)
  }

  lemma StepKeepsGone(w: World, e: Event, m: Message)
    requires Numbered(w.log, w.base) && m in Gone(w)
    ensures m in Gone(Step(w, e))
  {
    match e
    case Post(channel, message) =>
      var w' := Step(w, e);
      assert Evicted(w.log, w.maxQueue) == Evicted(w'.log, w.maxQueue)[..|Evicted(w.log, w.maxQueue)|];
      var i :| 0 <= i < |w.log| && w.log[i] == m;
      assert m.id == w.base + 1 + i;
    case Ask => MissedIsPart(Kept(w.log, w.maxQueue), w.filter, w.last, m);
    case _ =>
  }

  /** Such a message is never dispatched, whatever happens later. */
  lemma {:induction false} EvictedNeverDispatched(w: World, events: seq<Event>, m: Message)
    requires Numbered(w.log, w.base) && m in Gone(w)
    ensures m in Gone(Run(w, events))
    ensures m in Missed(w.log, w.filter, w.start) ==>
              var w' := Run(w, events); m in Missed(w'.log, w'.filter, w'.start)
    decreases |events|
  {
    if events != [] {
      StepKeepsGone(w, events[0], m);
      EvictedNeverDispatched(Step(w, events[0]), events[1..], m);
    }
  }

  predicate Complete(w: World) {
    w.delivered == Missed(w.log, w.filter, w.start)
  }

  /** The client should get some message that it never will. */
  ghost predicate LosesForGood(w: World) {
    exists m :: m in Gone(w) && m in Missed(w.log, w.filter, w.start)
  }

  /** While a request waits, the client has dispatched all it wants if and only if no needed message was evicted
      before a request came; what it missed it misses for good. */
  lemma {:induction false} CompleteIffNoGap(w: World, events: seq<Event>)
    requires Inv(w)
    ensures !NoGap(w, events) ==> LosesForGood(Run(w, events))
    ensures Run(w, events).request.Waiting? ==> (Complete(Run(w, events)) <==> NoGap(w, events))
    decreases |events|
  {
    OnTrackIffNoGap(w, events);
    if events == [] {
      assert NoGap(w, events) && Run(w, events) == w;
    } else {
      var e := events[0];
      if e == Ask && w.request.NoRequest? && !Replayable(w) {
        var m := Missed(Evicted(w.log, w.maxQueue), w.filter, w.last)[0];
        assert m in Missed(Evicted(w.log, w.maxQueue), w.filter, w.last);
        MissedIsPart(Evicted(w.log, w.maxQueue), w.filter, w.last, m);
        MissedIsPart(w.log, w.filter, w.last, m);
        MissedIsPart(w.log, w.filter, w.start, m);
        NoRepeat(w.log, w.filter, w.start, w.base, w.delivered, Missed(w.log, w.filter, w.last), m);
        EvictedNeverDispatched(w, events, m);
      } else {
        StepKeeps(w, e);
        var next, rest := Step(w, e), events[1..];
        assert (NoGap(w, events) <==> NoGap(next, rest)) && Run(w, events) == Run(next, rest);
        CompleteIffNoGap(next, rest);
      }
    }
  }
}
