/** The balancer together with the bridges: each bridge remembers the submission it waits for.  Every event keeps
    the two in step exactly if it does not disturb the pairing (judge/balancer/balancer.py,
    judge/balancer/judge_handler.py, judge/balancer/bridge_handler.py). */
module PairingSteps {
  import opened BalancerJudges
  import opened Options
  import opened Pairing

  /** `waiting` maps a bridge to the submission it has sent and has no verdict for. */
  datatype World = World(s: State, waiting: map<nat, int>)

  datatype Event =
    | Requested(r: Request, order: seq<JudgeHandler>)
    | Forwarded(j: JudgeHandler)
    | Finished(j: JudgeHandler, order: seq<JudgeHandler>)
    | Disconnected(j: JudgeHandler)
    | Reset(b: nat)
    | Registered(j: JudgeHandler, order: seq<JudgeHandler>)

  /** Everything a judge sends reaches a bridge here, including the internal error of a lost judge. */
  function Sent(w: World, e: Event): Option<Packet> {
    match e
    case Forwarded(j) => Delivery(w.s, j.name, JobOf(w.s, j))
    case Finished(j, _) => Delivery(w.s, j.name, JobOf(w.s, j))
    case Disconnected(j) => if JobOf(w.s, j).Some? then Delivery(w.s, j.name, JobOf(w.s, j)) else None
    case _ => None
  }

  /** A verdict ends the waiting of the bridge it reaches. */
  function Settled(w: World, e: Event): map<nat, int> {
    match Sent(w, e)
    case Some(p) => w.waiting - {p.bridge}
    case None => w.waiting
  }

  function Step(w: World, e: Event): World {
    match e
    case Requested(r, order) => World(QueueSubmission(w.s, r, order), w.waiting[r.bridge := r.id])
    case Forwarded(j) => w
    case Finished(j, order) => World(FreeSelf(w.s, j, order), Settled(w, e))
    case Disconnected(j) => World(OnDisconnect(w.s, j, JobOf(w.s, j).Some?), Settled(w, e))
    case Reset(b) => World(ResetBridge(w.s, b), w.waiting - {b})
    case Registered(j, order) => World(RegisterJudge(w.s, j, JobOf(w.s, j), order), w.waiting)
  }

  /** A bridge sends a submission only when it waits for none, and a judge registers under some name.  A
      connection may close before it registers. */
  ghost predicate Possible(w: World, e: Event) {
    match e
    case Requested(r, order) => r.bridge !in w.waiting && Lists(order, Enqueued(w.s, r))
    case Forwarded(j) => j in w.s.judges
    case Finished(j, order) => j in w.s.judges && Lists(order, Freed(w.s, j))
    case Disconnected(j) => true
    case Reset(b) => true
    case Registered(j, order) => j.name.Some? && Lists(order, Added(w.s, j, JobOf(w.s, j)))
  }

  /** No reset of a bridge whose submission is still in the queue, no judge registering under the name of
      another, and no connection closing that took the name of a paired judge but did not register. */
  ghost predicate Calm(w: World, e: Event) {
    match e
    case Reset(b) => !Queued(w.s, b)
    case Registered(j, _) => NewName(w.s, j)
    case Disconnected(j) => j in w.s.judges || j.name !in w.s.bridgeOf
    case _ => true
  }

  /** What a bridge waits for is exactly what is queued or being judged for it. */
  ghost predicate Faithful(w: World) {
    && (forall i :: 0 <= i < |w.s.queue| ==>
          w.s.queue[i].bridge in w.waiting && w.waiting[w.s.queue[i].bridge] == w.s.queue[i].id)
    && (forall b <- w.s.judgeOf ::
          b in w.waiting && w.s.judgeOf[b] in w.s.judges && w.s.judges[w.s.judgeOf[b]] == Some(w.waiting[b]))
    && (forall b <- w.waiting :: b in w.s.judgeOf || Queued(w.s, b))
  }

  ghost predicate Sound(w: World) {
    Inv(w.s) && Faithful(w)
  }

  /** A packet that reaches a bridge concerns what the bridge waits for. */
  ghost predicate Expected(w: World, e: Event) {
    match Sent(w, e)
    case Some(p) => p.bridge in w.waiting && p.id == Some(w.waiting[p.bridge])
    case None => true
  }

  // ---- Steps ----

  lemma PairFaithful(w: World, j: JudgeHandler)
    requires Sound(w) && j in Idle(w.s) && w.s.queue != []
    ensures Faithful(w.(s := Pair(w.s.(queue := w.s.queue[1..]), j, w.s.queue[0])))
  {
    var s, r := w.s, w.s.queue[0];
    var t := Pair(s.(queue := s.queue[1..]), j, r);
    forall b <- w.waiting
      ensures b in t.judgeOf || Queued(t, b)
    {
      if b !in s.judgeOf && b != r.bridge {
        var i :| 0 <= i < |s.queue| && s.queue[i].bridge == b;
        assert t.queue[i - 1].bridge == b;
      }
    }
  }

  lemma {:induction false} TryJudgeFaithful(w: World, order: seq<JudgeHandler>)
    requires Sound(w) && Lists(order, w.s)
    ensures Sound(w.(s := TryJudge(w.s, order)))
    decreases |order|
  {
    TryJudgeKeeps(w.s, order);
    if order != [] && w.s.queue != [] {
      var n := |order| - 1;
      var t := Pair(w.s.(queue := w.s.queue[1..]), order[n], w.s.queue[0]);
      assert order[n] in order;
      PairKeeps(w.s, order[n]);
      PairFaithful(w, order[n]);
      ListsRest(w.s, order, t);
      TryJudgeFaithful(w.(s := t), order[..n]);
    }
  }

  lemma EnqueueFaithful(w: World, r: Request)
    requires Sound(w) && r.bridge !in w.waiting
    ensures Sound(World(Enqueued(w.s, r), w.waiting[r.bridge := r.id]))
  {
    var t := Enqueued(w.s, r);
    assert !Queued(w.s, r.bridge);
    EnqueueKeeps(w.s, r);
    forall b <- w.waiting[r.bridge := r.id]
      ensures b in t.judgeOf || Queued(t, b)
    {
      if b == r.bridge {
        assert t.queue[|w.s.queue|].bridge == b;
      } else if b !in w.s.judgeOf {
        var i :| 0 <= i < |w.s.queue| && w.s.queue[i].bridge == b;
        assert t.queue[i].bridge == b;
      }
    }
  }

  /** Taking a paired judge's bridge out of both. */
  lemma SettledFaithful(w: World, j: JudgeHandler, judges: map<JudgeHandler, Option<int>>)
    requires Sound(w) && j in w.s.judges
    requires forall k <- w.s.judges :: k != j ==> k in judges && judges[k] == w.s.judges[k]
    ensures var waiting := if j.name in w.s.bridgeOf then w.waiting - {w.s.bridgeOf[j.name]} else w.waiting;
            Faithful(World(Unpaired(w.s, j.name).(judges := judges), waiting))
  {
    var t := Unpaired(w.s, j.name).(judges := judges);
    forall b | Queued(w.s, b)
      ensures Queued(t, b)
    {
      var i :| 0 <= i < |w.s.queue| && w.s.queue[i].bridge == b;
      assert t.queue[i].bridge == b;
    }
  }

  lemma FinishedSound(w: World, j: JudgeHandler, order: seq<JudgeHandler>)
    requires Sound(w) && Possible(w, Finished(j, order))
    ensures Sound(Step(w, Finished(j, order)))
  {
    FreedKeeps(w.s, j);
    SettledFaithful(w, j, w.s.judges[j := None]);
    if j.name in w.s.bridgeOf {
      TryJudgeFaithful(World(Freed(w.s, j), Settled(w, Finished(j, order))), order);
    }
  }

  lemma DisconnectedSound(w: World, j: JudgeHandler)
    requires Sound(w) && Calm(w, Disconnected(j))
    ensures Sound(Step(w, Disconnected(j)))
  {
    DisconnectKeeps(w.s, j, JobOf(w.s, j).Some?);
    if j in w.s.judges {
      SettledFaithful(w, j, w.s.judges - {j});
    }
  }

  lemma RegisteredSound(w: World, j: JudgeHandler, order: seq<JudgeHandler>)
    requires Sound(w) && Possible(w, Registered(j, order)) && NewName(w.s, j)
    ensures Sound(Step(w, Registered(j, order)))
  {
    var t := w.(s := Added(w.s, j, JobOf(w.s, j)));
    assert Sound(t);
    TryJudgeFaithful(t, order);
  }

  lemma ResetFaithful(w: World, b: nat)
    requires Sound(w) && !Queued(w.s, b)
    ensures Faithful(Step(w, Reset(b)))
  {
    var t := Step(w, Reset(b)).s;
    forall c | Queued(w.s, c)
      ensures Queued(t, c)
    {
      var i :| 0 <= i < |w.s.queue| && w.s.queue[i].bridge == c;
      assert t.queue[i].bridge == c;
    }
  }

  /** A reset leaves the balancer in step with the bridges exactly when the bridge's submission is not in the
      queue any more: nothing takes it out of there. */
  lemma ResetExact(w: World, b: nat)
    requires Sound(w)
    ensures Sound(Step(w, Reset(b))) <==> Calm(w, Reset(b))
  {
    ResetKeeps(w.s, b);
    if Queued(w.s, b) {
      var i :| 0 <= i < |w.s.queue| && w.s.queue[i].bridge == b;
      var t := Step(w, Reset(b));
      assert t.s.queue[i].bridge == b && b !in t.waiting;
    } else {
      ResetFaithful(w, b);
    }
  }

  /** The exact condition for every step, and packets are expected in any case. */
  lemma StepExact(w: World, e: Event)
    requires Sound(w) && Possible(w, e)
    ensures Sound(Step(w, e)) <==> Calm(w, e)
    ensures Expected(w, e)
  {
    match e
    case Requested(r, order) =>
      EnqueueFaithful(w, r);
      TryJudgeFaithful(World(Enqueued(w.s, r), w.waiting[r.bridge := r.id]), order);
    case Forwarded(j) =>
    case Finished(j, order) => FinishedSound(w, j, order);
    case Disconnected(j) =>
      if Calm(w, e) {
        DisconnectedSound(w, j);
      } else {
        ImpostorUnpairs(w, j);
      }
    case Reset(b) => ResetExact(w, b);
    case Registered(j, order) =>
      RegisterKeepsExact(w.s, j, order);
      if NewName(w.s, j) {
        RegisteredSound(w, j, order);
      }
  }

  /** A connection that took a paired judge's name without registering takes its pairing along. */
  lemma ImpostorUnpairs(w: World, j: JudgeHandler)
    requires Sound(w) && j !in w.s.judges && j.name in w.s.bridgeOf
    ensures var t, b := Step(w, Disconnected(j)), w.s.bridgeOf[j.name];
            b in t.waiting && b !in t.s.judgeOf && !Queued(t.s, b)
  {}
}
