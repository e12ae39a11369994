/** Whole runs of balancer and bridges: what reaches a bridge concerns the submission it waits for exactly as long
    as nothing disturbs the pairing, and runs in which something does. */
module PairingRuns {
  import opened BalancerJudges
  import opened Options
  import opened Pairing
  import opened PairingSteps

  function Run(w: World, events: seq<Event>): World
    decreases |events|
  {
    if events == [] then w else Run(Step(w, events[0]), events[1..])
  }

  ghost predicate AllPossible(w: World, events: seq<Event>)
    decreases |events|
  {
    events == [] || (Possible(w, events[0]) && AllPossible(Step(w, events[0]), events[1..]))
  }

  ghost predicate CalmRun(w: World, events: seq<Event>)
    decreases |events|
  {
    events == [] || (Calm(w, events[0]) && CalmRun(Step(w, events[0]), events[1..]))
  }

  ghost predicate SoundThroughout(w: World, events: seq<Event>)
    decreases |events|
  {
    Sound(w) && (events != [] ==> SoundThroughout(Step(w, events[0]), events[1..]))
  }

  ghost predicate AllExpected(w: World, events: seq<Event>)
    decreases |events|
  {
    events == [] || (Expected(w, events[0]) && AllExpected(Step(w, events[0]), events[1..]))
  }

  const EMPTY := World(State(map[], [], map[], map[]), map[])

  /** The exact condition for runs. */
  lemma {:induction false} RunExact(w: World, events: seq<Event>)
    requires Sound(w) && AllPossible(w, events)
    ensures SoundThroughout(w, events) <==> CalmRun(w, events)
    ensures CalmRun(w, events) ==> AllExpected(w, events)
    decreases |events|
  {
    if events != [] {
      StepExact(w, events[0]);
      if Calm(w, events[0]) {
        RunExact(Step(w, events[0]), events[1..]);
      }
    }
  }

  /** From an empty balancer, the dictionaries stay inverse to each other, names distinct, paired judges working
      and bridges in step, exactly as long as every event is calm; and then every packet that reached a bridge
      concerned the submission the bridge waited for. */
  lemma EveryPacketIsExpected(events: seq<Event>)
    requires AllPossible(EMPTY, events)
    ensures SoundThroughout(EMPTY, events) <==> CalmRun(EMPTY, events)
    ensures CalmRun(EMPTY, events) ==> AllExpected(EMPTY, events)
  {
    RunExact(EMPTY, events);
  }

  // ---- First come, first served ----

  function Arrival(e: Event): seq<Request> { if e.Requested? then [e.r] else [] }

  /** The requests of a run, in the order in which the bridges send them. */
  function Arrivals(events: seq<Event>): seq<Request> {
    if events == [] then [] else Arrival(events[0]) + Arrivals(events[1..])
  }

  /** a is what is left of b when some of its first elements are taken. */
  ghost predicate IsTail(a: seq<Request>, b: seq<Request>) {
    exists k :: 0 <= k <= |b| && a == b[k..]
  }

  lemma TailOfItself(a: seq<Request>)
    ensures IsTail(a, a)
  {
    assert a == a[0..];
  }

  lemma TailOfTail(a: seq<Request>, b: seq<Request>, c: seq<Request>)
    requires IsTail(a, b) && IsTail(b, c)
    ensures IsTail(a, c)
  {
    var i :| 0 <= i <= |b| && a == b[i..];
    var j :| 0 <= j <= |c| && b == c[j..];
    assert a == c[i + j..];
  }

  lemma TailAppend(a: seq<Request>, b: seq<Request>, c: seq<Request>)
    requires IsTail(a, b)
    ensures IsTail(a + c, b + c)
  {
    var i :| 0 <= i <= |b| && a == b[i..];
    assert a + c == (b + c)[i..];
  }

  lemma TryJudgeTail(s: State, order: seq<JudgeHandler>)
    ensures IsTail(TryJudge(s, order).queue, s.queue)
  {
    TryJudgeTakesFirst(s, order);
  }

  lemma StepTakesFirst(w: World, e: Event)
    ensures IsTail(Step(w, e).s.queue, w.s.queue + Arrival(e))
  {
    if e.Requested? {
      TryJudgeTail(Enqueued(w.s, e.r), e.order);
    } else {
      StepOnlyTakes(w, e);
      assert w.s.queue + [] == w.s.queue;
    }
  }

  lemma StepOnlyTakes(w: World, e: Event)
    requires !e.Requested?
    ensures IsTail(Step(w, e).s.queue, w.s.queue)
  {
    match e
    case Finished(j, order) =>
      if FreeRaises(w.s, j.name) {
        TailOfItself(w.s.queue);
      } else {
        TryJudgeTail(Freed(w.s, j), order);
      }
    case Registered(j, order) => TryJudgeTail(Added(w.s, j, JobOf(w.s, j)), order);
    case _ => TailOfItself(w.s.queue);
  }

  /** Requests leave the queue in the order in which they came, over any run and whatever disturbs the pairing:
      what waits in the end is the newest part of all that waited or came, so whatever was handed out came
      before it. */
  lemma {:induction false} ServedInArrivalOrder(w: World, events: seq<Event>)
    ensures IsTail(Run(w, events).s.queue, w.s.queue + Arrivals(events))
    decreases |events|
  {
    if events == [] {
      TailOfItself(w.s.queue);
      assert w.s.queue + [] == w.s.queue;
    } else {
      var w', rest := Step(w, events[0]), Arrivals(events[1..]);
      ServedInArrivalOrder(w', events[1..]);
      StepTakesFirst(w, events[0]);
      TailAppend(w'.s.queue, w.s.queue + Arrival(events[0]), rest);
      TailOfTail(Run(w, events).s.queue, w'.s.queue + rest, w.s.queue + Arrival(events[0]) + rest);
      assert w.s.queue + Arrival(events[0]) + rest == w.s.queue + Arrivals(events);
    }
  }

  // ---- Work whose bridge was reset ----

  /** The submission that a judge is still working on for a bridge that was reset. */
  ghost function OrphanedJob(s: State, j: JudgeHandler): Option<int> {
    if j.name !in s.bridgeOf && NewName(s, j) then JobOf(s, j) else None
  }

  lemma ResetOrphans(w: World, b: nat)
    requires Sound(w) && b in w.s.judgeOf
    ensures OrphanedJob(Step(w, Reset(b)).s, w.s.judgeOf[b]) == Some(w.waiting[b])
  {}

  lemma {:induction false} TryJudgeLeavesBusy(s: State, order: seq<JudgeHandler>, j: JudgeHandler, id: int)
    requires OrphanedJob(s, j) == Some(id) && forall k <- order :: k in s.judges && k != j
    ensures OrphanedJob(TryJudge(s, order), j) == Some(id)
    decreases |order|
  {
    if order != [] && s.queue != [] {
      var n := |order| - 1;
      assert order[n] in order && (forall k <- order[..n] :: k in order);
      TryJudgeLeavesBusy(Pair(s.(queue := s.queue[1..]), order[n], s.queue[0]), order[..n], j, id);
    }
  }

  predicate EndsOf(e: Event, j: JudgeHandler) {
    (e.Finished? || e.Disconnected?) && e.j == j
  }

  predicate TakesName(e: Event, j: JudgeHandler) {
    e.Registered? && e.j != j && e.j.name == j.name
  }

  lemma StepKeepsOrphan(w: World, e: Event, j: JudgeHandler, id: int)
    requires Possible(w, e) && OrphanedJob(w.s, j) == Some(id) && !EndsOf(e, j) && !TakesName(e, j)
    ensures OrphanedJob(Step(w, e).s, j) == Some(id)
  {
    match e
    case Requested(r, order) => TryJudgeLeavesBusy(Enqueued(w.s, r), order, j, id);
    case Finished(k, order) =>
      if !FreeRaises(w.s, k.name) {
        TryJudgeLeavesBusy(Freed(w.s, k), order, j, id);
      }
    case Registered(k, order) => TryJudgeLeavesBusy(Added(w.s, k, JobOf(w.s, k)), order, j, id);
    case _ =>
  }

  /** Whatever happens meanwhile, as long as no other judge takes its name, the old job of a reset bridge stays
      with its judge, and its packets go nowhere until the judge is done with it. */
  lemma {:induction false} OrphanedJobIsSilent(w: World, events: seq<Event>, j: JudgeHandler, id: int)
    requires OrphanedJob(w.s, j) == Some(id) && AllPossible(w, events)
    requires forall e <- events :: !EndsOf(e, j) && !TakesName(e, j)
    ensures OrphanedJob(Run(w, events).s, j) == Some(id)
    ensures Sent(Run(w, events), Forwarded(j)).None?
    decreases |events|
  {
    if events != [] {
      StepKeepsOrphan(w, events[0], j, id);
      OrphanedJobIsSilent(Step(w, events[0]), events[1..], j, id);
    }
  }

  // ---- A reset while the submission is queued ----

  lemma Unfold(w: World, e: Event, rest: seq<Event>)
    ensures Run(w, [e] + rest) == Run(Step(w, e), rest)
    ensures AllPossible(w, [e] + rest) <==> Possible(w, e) && AllPossible(Step(w, e), rest)
  {}

  lemma OneTaken(s: State, j: JudgeHandler)
    requires s.queue != []
    ensures TryJudge(s, [j]) == Pair(s.(queue := s.queue[1..]), j, s.queue[0])
  {
    var t := Pair(s.(queue := s.queue[1..]), j, s.queue[0]);
    assert [j][..0] == [];
    assert TryJudge(t, []) == t;
  }

  /** Two judges come to a queue of two submissions of one bridge, one after the other. */
  lemma TwoJudgesOneBridge(w: World, a: JudgeHandler, b: JudgeHandler)
    requires a.name.Some? && b.name.Some? && a.name != b.name
    requires w.s == State(map[], [Request(0, 1), Request(0, 2)], map[], map[])
    ensures var events := [Registered(a, [a])] + ([Registered(b, [b])] + []);
            AllPossible(w, events) && !Mutual(Run(w, events).s)
  {
    OneTaken(Added(w.s, a, None), a);
    var t := Step(w, Registered(a, [a]));
    OneTaken(Added(t.s, b, None), b);
    assert Idle(Added(w.s, a, None)) == {a} && Idle(Added(t.s, b, None)) == {b};
    var u := Step(t, Registered(b, [b]));
    assert a.name in u.s.bridgeOf && u.s.bridgeOf[a.name] == 0 && u.s.judgeOf[0] == b;
    Unfold(w, Registered(a, [a]), [Registered(b, [b])] + []);
    Unfold(t, Registered(b, [b]), []);
  }

  /** A bridge is reset while its submission is queued, sends another one, and two judges come: both work for
      the same bridge, and the dictionaries are no longer inverse to each other. */
  lemma ResetWhileQueuedBreaks(a: JudgeHandler, b: JudgeHandler) returns (events: seq<Event>)
    requires a.name.Some? && b.name.Some? && a.name != b.name
    ensures AllPossible(EMPTY, events) && !Mutual(Run(EMPTY, events).s)
  {
    var first, second := Requested(Request(0, 1), []), Requested(Request(0, 2), []);
    var judges := [Registered(a, [a])] + ([Registered(b, [b])] + []);
    events := [first] + ([Reset(0)] + ([second] + judges));
    var w1 := Step(EMPTY, first);
    var w2 := Step(w1, Reset(0));
    var w3 := Step(w2, second);
    TwoJudgesOneBridge(w3, a, b);
    Unfold(w2, second, judges);
    Unfold(w1, Reset(0), [second] + judges);
    Unfold(EMPTY, first, [Reset(0)] + ([second] + judges));
  }

  // ---- Two judges of one name ----

  /** Registering a judge while nothing waits, and a submission for the only idle judge. */
  lemma ComesAndWorks(w: World, j: JudgeHandler, r: Request, rest: seq<Event>)
    requires w.s.queue == [] && Idle(w.s) == {} && j !in w.s.judges && j.name.Some? && r.bridge !in w.waiting
    ensures var events := [Registered(j, [j])] + ([Requested(r, [j])] + rest);
            var t := World(Pair(Added(w.s, j, None), j, r), w.waiting[r.bridge := r.id]);
            Run(w, events) == Run(t, rest) && (AllPossible(w, events) <==> AllPossible(t, rest))
  {
    var t := Step(w, Registered(j, [j]));
    assert t.s == Added(w.s, j, None) && Idle(t.s) == {j};
    OneTaken(Enqueued(t.s, r), j);
    assert ([] + [r])[1..] == [];
    Unfold(w, Registered(j, [j]), [Requested(r, [j])] + rest);
    Unfold(t, Requested(r, [j]), rest);
  }

  /** Each of two judges of one name gets the submission of another bridge; then the packets of the first reach
      the bridge of the second. */
  lemma NamesakeMisdelivers(a: JudgeHandler, b: JudgeHandler) returns (events: seq<Event>)
    requires a != b && a.name.Some? && a.name == b.name
    ensures AllPossible(EMPTY, events)
    ensures var w := Run(EMPTY, events);
            && w.waiting == map[0 := 1, 1 := 2] && Possible(w, Forwarded(a))
            && Sent(w, Forwarded(a)) == Some(Packet(1, Some(1))) && !Expected(w, Forwarded(a))
  {
    var second := [Registered(b, [b])] + ([Requested(Request(1, 2), [b])] + []);
    events := [Registered(a, [a])] + ([Requested(Request(0, 1), [a])] + second);
    ComesAndWorks(EMPTY, a, Request(0, 1), second);
    var w := World(Pair(Added(EMPTY.s, a, None), a, Request(0, 1)), map[0 := 1]);
    ComesAndWorks(w, b, Request(1, 2), []);
  }
}
