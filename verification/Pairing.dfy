/** The pairing of judges and bridges in the judge balancer (judge/balancer/balancer.py and
    judge/balancer/judge_handler.py) as a state machine: judges, the queue, and the two pairing dictionaries.
    Judges are told apart by their connections, but `judge_to_bridge` knows them by their names only. */
module Pairing {
  import opened BalancerJudges
  import opened Options

  /** A queued submission packet and the bridge that sent it. */
  datatype Request = Request(bridge: nat, id: int)

  /** `judges` gives the submission each is working on. */
  datatype State =
    State(judges: map<JudgeHandler, Option<int>>, queue: seq<Request>, bridgeOf: map<Name, nat>,
          judgeOf: map<nat, JudgeHandler>)

  function JobOf(s: State, j: JudgeHandler): Option<int> {
    if j in s.judges then s.judges[j] else None
  }

  function Idle(s: State): set<JudgeHandler> {
    set j | j in s.judges && s.judges[j].None?
  }

  /** `order` is the list of the available judges, which comes from a set in any order. */
  ghost predicate Lists(order: seq<JudgeHandler>, s: State) {
    && (forall i, j :: 0 <= i < j < |order| ==> order[i] != order[j])
    && (forall j <- order :: j in Idle(s))
    && forall j <- Idle(s) :: j in order
  }

  /** What a packet brings to a bridge: the bridge paired with the sender's name, and the submission the sender
      is working on, which its packets concern.  Without a pairing it is dropped. */
  datatype Packet = Packet(bridge: nat, id: Option<int>)

  function Delivery(s: State, name: Name, job: Option<int>): Option<Packet> {
    if name in s.bridgeOf then Some(Packet(s.bridgeOf[name], job)) else None
  }

  // ---- The methods of the balancer ----

  function Pair(s: State, j: JudgeHandler, r: Request): State {
    s.(judges := s.judges[j := Some(r.id)], bridgeOf := s.bridgeOf[j.name := r.bridge],
       judgeOf := s.judgeOf[r.bridge := j])
  }

  /** `_try_judge`: available judges are taken from the end of the list. */
  function TryJudge(s: State, order: seq<JudgeHandler>): State
    decreases |order|
  {
    if order == [] || s.queue == [] then s
    else
      var n := |order| - 1;
      TryJudge(Pair(s.(queue := s.queue[1..]), order[n], s.queue[0]), order[..n])
  }

  function Enqueued(s: State, r: Request): State { s.(queue := s.queue + [r]) }

  function Added(s: State, j: JudgeHandler, job: Option<int>): State { s.(judges := s.judges[j := job]) }

  function QueueSubmission(s: State, r: Request, order: seq<JudgeHandler>): State {
    TryJudge(Enqueued(s, r), order)
  }

  function RegisterJudge(s: State, j: JudgeHandler, job: Option<int>, order: seq<JudgeHandler>): State {
    TryJudge(Added(s, j, job), order)
  }

  /** `reset_bridge` raises KeyError when the name of the bridge's judge is not paired. */
  predicate ResetRaises(s: State, b: nat) {
    b in s.judgeOf && s.judgeOf[b].name !in s.bridgeOf
  }

  function ResetBridge(s: State, b: nat): State {
    if b in s.judgeOf && !ResetRaises(s, b)
    then s.(bridgeOf := s.bridgeOf - {s.judgeOf[b].name}, judgeOf := s.judgeOf - {b})
    else s
  }

  /** Taking out a name and its bridge raises KeyError at the second of the two deletions when the bridge has
      no judge; the first deletion stays. */
  predicate Torn(s: State, name: Name) {
    name in s.bridgeOf && s.bridgeOf[name] !in s.judgeOf
  }

  function Unpaired(s: State, name: Name): State {
    if name in s.bridgeOf then s.(bridgeOf := s.bridgeOf - {name}, judgeOf := s.judgeOf - {s.bridgeOf[name]}) else s
  }

  /** The judge has no submission any more. */
  function Idled(s: State, j: JudgeHandler): State {
    if j in s.judges then s.(judges := s.judges[j := None]) else s
  }

  function Freed(s: State, j: JudgeHandler): State {
    Unpaired(Idled(s, j), j.name)
  }

  /** `free_judge` raises KeyError when the judge's name is not paired, too. */
  predicate FreeRaises(s: State, name: Name) {
    name !in s.bridgeOf || Torn(s, name)
  }

  /** The end of `forward_packet_and_free_self`: when `free_judge` raises, it hands out no work. */
  function FreeSelf(s: State, j: JudgeHandler, order: seq<JudgeHandler>): State {
    if FreeRaises(s, j.name) then Freed(s, j) else TryJudge(Freed(s, j), order)
  }

  /** A judge stays registered when taking out its pairing raises. */
  function RemoveJudge(s: State, j: JudgeHandler): State {
    var t := Unpaired(s, j.name);
    if Torn(s, j.name) then t else t.(judges := t.judges - {j})
  }

  /** `on_disconnect` resets the bridge of a judge that is working first; if that raises, nothing is removed. */
  function OnDisconnect(s: State, j: JudgeHandler, working: bool): State {
    if working && j.name in s.bridgeOf
    then
      var b := s.bridgeOf[j.name];
      if ResetRaises(s, b) then s else RemoveJudge(ResetBridge(s, b), j)
    else RemoveJudge(s, j)
  }

  // ---- Invariants ----

  /** Registered judges have names, and no two the same. */
  ghost predicate Distinct(s: State) {
    && (forall j <- s.judges :: j.name.Some?)
    && forall j, k :: j in s.judges && k in s.judges && j.name == k.name ==> j == k
  }

  /** The two dictionaries are each other's inverse. */
  ghost predicate Mutual(s: State) {
    && (forall n <- s.bridgeOf :: s.bridgeOf[n] in s.judgeOf && s.judgeOf[s.bridgeOf[n]].name == n)
    && (forall b <- s.judgeOf :: s.judgeOf[b].name in s.bridgeOf && s.bridgeOf[s.judgeOf[b].name] == b)
  }

  ghost predicate PairedWork(s: State) {
    forall b <- s.judgeOf :: s.judgeOf[b] in s.judges && s.judges[s.judgeOf[b]].Some?
  }

  predicate Queued(s: State, b: nat) {
    exists i :: 0 <= i < |s.queue| && s.queue[i].bridge == b
  }

  /** A bridge has at most one submission here, waiting or being judged. */
  ghost predicate Single(s: State) {
    && (forall i, j :: 0 <= i < j < |s.queue| ==> s.queue[i].bridge != s.queue[j].bridge)
    && forall i :: 0 <= i < |s.queue| ==> s.queue[i].bridge !in s.judgeOf
  }

  ghost predicate Inv(s: State) {
    Distinct(s) && Mutual(s) && PairedWork(s) && Single(s)
  }

  /** No judge is idle while a submission waits. */
  ghost predicate WorkConserving(s: State) {
    s.queue == [] || Idle(s) == {}
  }

  // ---- Handing out work ----

  lemma PairKeeps(s: State, j: JudgeHandler)
    requires Inv(s) && j in Idle(s) && s.queue != []
    ensures Inv(Pair(s.(queue := s.queue[1..]), j, s.queue[0]))
    ensures Idle(Pair(s.(queue := s.queue[1..]), j, s.queue[0])) == Idle(s) - {j}
  {}

  lemma {:induction false} TryJudgeKeeps(s: State, order: seq<JudgeHandler>)
    requires Inv(s) && Lists(order, s)
    ensures Inv(TryJudge(s, order)) && WorkConserving(TryJudge(s, order))
    decreases |order|
  {
    if order == [] {
      assert Idle(s) == {};
    } else if s.queue != [] {
      var n := |order| - 1;
      var t := Pair(s.(queue := s.queue[1..]), order[n], s.queue[0]);
      assert order[n] in order;
      PairKeeps(s, order[n]);
      ListsRest(s, order, t);
      TryJudgeKeeps(t, order[..n]);
    }
  }

  lemma ListsRest(s: State, order: seq<JudgeHandler>, t: State)
    requires order != [] && Lists(order, s) && Idle(t) == Idle(s) - {order[|order| - 1]}
    ensures Lists(order[..|order| - 1], t)
  {
    forall j <- Idle(t)
      ensures j in order[..|order| - 1]
    {
      assert j in order;
    }
  }

  // ---- Every method keeps the invariant ----

  lemma ResetKeeps(s: State, b: nat)
    requires Inv(s)
    ensures Inv(ResetBridge(s, b)) && (WorkConserving(s) ==> WorkConserving(ResetBridge(s, b)))
    ensures !ResetRaises(s, b)
  {}

  lemma UnpairedKeeps(s: State, name: Name)
    requires Mutual(s) && Single(s)
    ensures var t := Unpaired(s, name);
            Mutual(t) && Single(t) && name !in t.bridgeOf && forall b <- t.judgeOf :: t.judgeOf[b].name != name
  {}

  lemma FreedKeeps(s: State, j: JudgeHandler)
    requires Inv(s) && j in s.judges
    ensures Inv(Freed(s, j)) && j.name !in Freed(s, j).bridgeOf && !Torn(s, j.name)
  {
    UnpairedKeeps(Idled(s, j), j.name);
  }

  lemma RemoveKeeps(s: State, j: JudgeHandler)
    requires Inv(s)
    requires j in s.judges || j.name !in s.bridgeOf
    ensures Inv(RemoveJudge(s, j)) && (WorkConserving(s) ==> WorkConserving(RemoveJudge(s, j)))
    ensures j !in RemoveJudge(s, j).judges
  {
    UnpairedKeeps(s, j.name);
    assert Idle(RemoveJudge(s, j)) <= Idle(s);
  }

  /** A lost connection that never registered changes nothing unless it claimed the name of a paired judge. */
  lemma DisconnectKeeps(s: State, j: JudgeHandler, working: bool)
    requires Inv(s)
    requires j in s.judges || j.name !in s.bridgeOf
    ensures var t := OnDisconnect(s, j, working);
            && Inv(t) && (WorkConserving(s) ==> WorkConserving(t))
            && t == RemoveJudge(s, j) && j !in t.judges
            && (j !in s.judges ==> t == s)
  {
    if j.name in s.bridgeOf {
      ResetKeeps(s, s.bridgeOf[j.name]);
    }
    RemoveKeeps(s, j);
  }

  /** A new judge keeps the invariant exactly if no other judge of its name is registered.  Its own
      `disconnect` does not see to that. */
  lemma RegisterKeepsExact(s: State, j: JudgeHandler, order: seq<JudgeHandler>)
    requires Inv(s) && j.name.Some? && Lists(order, Added(s, j, JobOf(s, j)))
    ensures var t := RegisterJudge(s, j, JobOf(s, j), order);
            && (Inv(t) <==> NewName(s, j))
            && (Inv(t) ==> WorkConserving(t))
  {
    var t := Added(s, j, JobOf(s, j));
    if NewName(s, j) {
      TryJudgeKeeps(t, order);
    } else {
      TryJudgeKeepsJudges(t, order);
      assert !Distinct(t);
    }
  }

  /** Is the name of the judge that registers not one of another judge? */
  ghost predicate NewName(s: State, j: JudgeHandler) {
    forall k <- s.judges :: k.name == j.name ==> k == j
  }

  lemma {:induction false} TryJudgeKeepsJudges(s: State, order: seq<JudgeHandler>)
    requires forall j <- order :: j in s.judges
    ensures TryJudge(s, order).judges.Keys == s.judges.Keys
    decreases |order|
  {
    if order != [] && s.queue != [] {
      var n := |order| - 1;
      assert order[n] in order;
      TryJudgeKeepsJudges(Pair(s.(queue := s.queue[1..]), order[n], s.queue[0]), order[..n]);
    }
  }

  /** A judge that is freed while paired keeps the balancer busy; one whose bridge was reset meanwhile does so
      only if nothing waits. */
  lemma FreeSelfKeeps(s: State, j: JudgeHandler, order: seq<JudgeHandler>)
    requires Inv(s) && j in s.judges && Lists(order, Freed(s, j))
    ensures Inv(FreeSelf(s, j, order))
    ensures WorkConserving(FreeSelf(s, j, order)) <==> j.name in s.bridgeOf || s.queue == []
  {
    FreedKeeps(s, j);
    if j.name in s.bridgeOf {
      TryJudgeKeeps(Freed(s, j), order);
    } else {
      assert j in Idle(Freed(s, j));
    }
  }

  lemma EnqueueKeeps(s: State, r: Request)
    requires Inv(s) && r.bridge !in s.judgeOf && !Queued(s, r.bridge)
    ensures Inv(Enqueued(s, r))
  {}

  // ---- Two submissions of one bridge ----

  /** How many submissions of the bridge are here: waiting, or with a judge. */
  function Waiting(queue: seq<Request>, b: nat): nat {
    if queue == [] then 0 else (if queue[0].bridge == b then 1 else 0) + Waiting(queue[1..], b)
  }

  function Load(s: State, b: nat): nat {
    Waiting(s.queue, b) + |NamesOf(s.bridgeOf, b)|
  }

  function NamesOf(bridgeOf: map<Name, nat>, b: nat): set<Name> {
    set n | n in bridgeOf && bridgeOf[n] == b
  }

  lemma OneMoreName(bridgeOf: map<Name, nat>, name: Name, c: nat, b: nat)
    requires name !in bridgeOf
    ensures |NamesOf(bridgeOf[name := c], b)| == |NamesOf(bridgeOf, b)| + if c == b then 1 else 0
  {
    if c == b {
      assert NamesOf(bridgeOf[name := c], b) == NamesOf(bridgeOf, b) + {name};
    } else {
      assert NamesOf(bridgeOf[name := c], b) == NamesOf(bridgeOf, b);
    }
  }

  lemma {:induction false} WaitingQueued(queue: seq<Request>, b: nat)
    ensures Waiting(queue, b) == 0 <==> forall i :: 0 <= i < |queue| ==> queue[i].bridge != b
  {
    if queue != [] {
      WaitingQueued(queue[1..], b);
      assert forall i :: 0 < i < |queue| ==> queue[i] == queue[1..][i - 1];
    }
  }

  lemma {:induction false} WaitingAppend(queue: seq<Request>, r: Request, b: nat)
    ensures Waiting(queue + [r], b) == Waiting(queue, b) + if r.bridge == b then 1 else 0
  {
    if queue == [] {
      assert queue + [r] == [r];
    } else {
      assert (queue + [r])[1..] == queue[1..] + [r];
      WaitingAppend(queue[1..], r, b);
    }
  }

  lemma {:induction false} WaitingOnce(queue: seq<Request>, b: nat)
    requires forall i, j :: 0 <= i < j < |queue| ==> queue[i].bridge != queue[j].bridge
    ensures Waiting(queue, b) <= 1
  {
    if queue != [] {
      WaitingOnce(queue[1..], b);
      WaitingQueued(queue[1..], b);
    }
  }

  lemma InvLoad(s: State, b: nat)
    requires Inv(s)
    ensures Load(s, b) <= 1
    ensures Load(s, b) == 0 <==> b !in s.judgeOf && !Queued(s, b)
  {
    WaitingOnce(s.queue, b);
    WaitingQueued(s.queue, b);
    if b in s.judgeOf {
      assert NamesOf(s.bridgeOf, b) == {s.judgeOf[b].name};
    } else {
      assert NamesOf(s.bridgeOf, b) == {};
    }
  }

  /** What handing out work needs of the names. */
  ghost predicate Ready(s: State) {
    Distinct(s) && forall j <- Idle(s) :: j.name !in s.bridgeOf
  }

  lemma PairTakes(s: State, j: JudgeHandler)
    requires Ready(s) && j in Idle(s) && s.queue != []
    ensures var t := Pair(s.(queue := s.queue[1..]), j, s.queue[0]);
            Idle(t) == Idle(s) - {j} && Ready(t)
  {}

  lemma PairKeepsLoad(s: State, j: JudgeHandler, b: nat)
    requires Ready(s) && j in Idle(s) && s.queue != []
    ensures var t := Pair(s.(queue := s.queue[1..]), j, s.queue[0]);
            Load(t, b) == Load(s, b)
  {
    OneMoreName(s.bridgeOf, j.name, s.queue[0].bridge, b);
  }

  /** Handing out work neither adds nor loses a submission of any bridge. */
  lemma {:induction false} TryJudgeKeepsLoad(s: State, order: seq<JudgeHandler>, b: nat)
    requires Ready(s) && Lists(order, s)
    ensures Load(TryJudge(s, order), b) == Load(s, b)
    decreases |order|
  {
    if order != [] && s.queue != [] {
      var n := |order| - 1;
      var t := Pair(s.(queue := s.queue[1..]), order[n], s.queue[0]);
      assert order[n] in order;
      PairKeepsLoad(s, order[n], b);
      PairTakes(s, order[n]);
      ListsRest(s, order, t);
      TryJudgeKeepsLoad(t, order[..n], b);
    }
  }

  /** The judge works on this request, and what it sends goes to the bridge of the request. */
  predicate Serves(s: State, j: JudgeHandler, r: Request) {
    Delivery(s, j.name, JobOf(s, j)) == Some(Packet(r.bridge, Some(r.id)))
  }

  lemma {:induction false} TryJudgeLeavesServed(s: State, order: seq<JudgeHandler>, j: JudgeHandler, r: Request)
    requires Serves(s, j, r) && forall k <- order :: k != j && k.name != j.name
    ensures Serves(TryJudge(s, order), j, r)
    decreases |order|
  {
    if order != [] && s.queue != [] {
      var n := |order| - 1;
      assert order[n] in order && forall k <- order[..n] :: k in order;
      TryJudgeLeavesServed(Pair(s.(queue := s.queue[1..]), order[n], s.queue[0]), order[..n], j, r);
    }
  }

  /** As many requests are handed out as there are both requests and judges in the list: the first in the queue,
      and the rest stays as it is. */
  lemma {:induction false} TryJudgeTakesFirst(s: State, order: seq<JudgeHandler>)
    ensures TryJudge(s, order).queue == s.queue[(if |order| < |s.queue| then |order| else |s.queue|)..]
    decreases |order|
  {
    if order != [] && s.queue != [] {
      var n := |order| - 1;
      TryJudgeTakesFirst(Pair(s.(queue := s.queue[1..]), order[n], s.queue[0]), order[..n]);
    }
  }

  /** Each of them goes to a judge of its own. */
  lemma {:induction false} TryJudgeServes(s: State, order: seq<JudgeHandler>, i: nat)
    requires Ready(s) && Lists(order, s) && i < |order| && i < |s.queue|
    ensures Serves(TryJudge(s, order), order[|order| - 1 - i], s.queue[i])
    decreases |order|
  {
    var n := |order| - 1;
    var t := Pair(s.(queue := s.queue[1..]), order[n], s.queue[0]);
    assert order[n] in order;
    if i == 0 {
      LastIsOther(s, order);
      TryJudgeLeavesServed(t, order[..n], order[n], s.queue[0]);
    } else {
      PairTakes(s, order[n]);
      ListsRest(s, order, t);
      TryJudgeServes(t, order[..n], i - 1);
    }
  }

  lemma LastIsOther(s: State, order: seq<JudgeHandler>)
    requires Distinct(s) && order != [] && Lists(order, s)
    ensures forall j <- order[..|order| - 1] :: j != order[|order| - 1] && j.name != order[|order| - 1].name
  {
    forall i | 0 <= i < |order| - 1
      ensures order[i] != order[|order| - 1] && order[i].name != order[|order| - 1].name
    {
      assert order[i] in order && order[|order| - 1] in order;
    }
  }

  /** Queueing a submission keeps the balancer's state sound exactly when the bridge has none here. */
  lemma QueueKeepsExact(s: State, r: Request, order: seq<JudgeHandler>)
    requires Inv(s) && Lists(order, Enqueued(s, r))
    ensures Inv(QueueSubmission(s, r, order)) <==> r.bridge !in s.judgeOf && !Queued(s, r.bridge)
    ensures Inv(QueueSubmission(s, r, order)) ==> WorkConserving(QueueSubmission(s, r, order))
  {
    if r.bridge !in s.judgeOf && !Queued(s, r.bridge) {
      EnqueueKeeps(s, r);
      TryJudgeKeeps(Enqueued(s, r), order);
    } else {
      InvLoad(s, r.bridge);
      WaitingAppend(s.queue, r, r.bridge);
      TryJudgeKeepsLoad(Enqueued(s, r), order, r.bridge);
      if Inv(QueueSubmission(s, r, order)) {
        InvLoad(QueueSubmission(s, r, order), r.bridge);
      }
    }
  }
}
