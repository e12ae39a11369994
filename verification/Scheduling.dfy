/** The dispatcher's behaviour on values (judge/bridge/judge_list.py), for dispatches that succeed: one
    step function, the invariant every step keeps, and what follows for whole runs. */
module Scheduling {
  import opened Judges
  import opened Options

  datatype Submission = Submission(id: Id, problem: string, language: string, source: string,
                                   judgeId: Option<string>, banned: set<string>)

  datatype Node = Marker(priority: nat) | Entry(sub: Submission)

  const PRIORITIES: nat := 4

  /** When a submission was accepted, and at what priority. */
  datatype Ticket = Ticket(priority: nat, stamp: nat)

  datatype State = State(
    queue: seq<Node>,
    judges: map<JudgeHandler, JudgeInfo>,
    running: map<Id, JudgeHandler>,    // submission_map
    minTier: Option<nat>,
    tickets: map<Id, Ticket>,          // latest acceptance of every id
    clock: nat)

  predicate Eligible(j: JudgeInfo, sub: Submission) {
    j.name !in sub.banned && j.CanJudge(sub.problem, sub.language, sub.judgeId)
  }

  ghost predicate Queued(s: State, id: Id) {
    exists n <- s.queue :: n.Entry? && n.sub.id == id
  }

  // ---- Steps ----

  /** Where the scan from the front of the queue stops for a judge; |queue| when nothing suits it. */
  function FirstEligible(queue: seq<Node>, j: JudgeInfo): (k: nat)
    ensures k <= |queue|
    ensures k < |queue| ==> queue[k].Entry? && Eligible(j, queue[k].sub)
    ensures forall i :: 0 <= i < k && queue[i].Entry? ==> !Eligible(j, queue[i].sub)
  {
    if queue == [] || (queue[0].Entry? && Eligible(j, queue[0].sub)) then 0
    else 1 + FirstEligible(queue[1..], j)
  }

  function Without<T>(s: seq<T>, k: nat): seq<T>
    requires k < |s|
  {
    s[..k] + s[k + 1..]
  }

  function Start(s: State, j: JudgeHandler, id: Id): State
    requires j in s.judges
  {
    s.(running := s.running[id := j], judges := s.judges[j := s.judges[j].(working := Some(id))])
  }

  /** `_handle_free_judge`.  With no minimum tier the comparison raises before anything changes. */
  function HandleFree(s: State, j: JudgeHandler): State
    requires j in s.judges
  {
    if s.minTier.None? || s.judges[j].tier > s.minTier.value then s
    else
      var k := FirstEligible(s.queue, s.judges[j]);
      if k == |s.queue| then s
      else Start(s, j, s.queue[k].sub.id).(queue := Without(s.queue, k))
  }

  ghost predicate IsMinTier(judges: map<JudgeHandler, JudgeInfo>, t: Option<nat>) {
    && (t.None? ==> forall j <- judges :: judges[j].disabled)
    && (t.Some? ==>
          && (exists j <- judges :: !judges[j].disabled && judges[j].tier == t.value)
          && (forall j <- judges :: !judges[j].disabled ==> t.value <= judges[j].tier))
  }

  predicate InTier(j: JudgeInfo, t: Option<nat>) {
    !j.disabled && t == Some(j.tier)
  }

  /** `current_tier_judges`, as a set. */
  function CurrentTier(s: State): set<JudgeHandler> {
    set j | j in s.judges && InTier(s.judges[j], s.minTier)
  }

  /** order lists js, each judge once: some iteration order of a Python set. */
  ghost predicate Listing(order: seq<JudgeHandler>, js: set<JudgeHandler>) {
    && (forall j <- order :: j in js) && (forall j <- js :: j in order)
    && (forall i, k :: 0 <= i < k < |order| ==> order[i] != order[k])
  }

  function HandleIdle(s: State, j: JudgeHandler): State
    requires j in s.judges
  {
    if s.judges[j].Idle() then HandleFree(s, j) else s
  }

  function HandleAll(s: State, order: seq<JudgeHandler>): (s': State)
    requires forall j <- order :: j in s.judges
    ensures s'.judges.Keys == s.judges.Keys && s'.minTier == s.minTier
    decreases |order|
  {
    if order == [] then s
    else
      var n := |order| - 1;
      HandleIdle(HandleAll(s, order[..n]), order[n])
  }

  /** `_update_min_tier`, given the new minimum and the order of its loop.  Only a rise of a known minimum
      hands out work. */
  function UpdateMinTier(s: State, t: Option<nat>, order: seq<JudgeHandler>): State
    requires forall j <- order :: j in s.judges
  {
    var s' := s.(minTier := t);
    if Rises(s.minTier, t) then HandleAll(s', order) else s'
  }

  predicate Rises(old_: Option<nat>, new_: Option<nat>) {
    old_.Some? && new_.Some? && new_.value > old_.value
  }

  /** The judges a submission could start on right now. */
  function Available(s: State, sub: Submission): set<JudgeHandler> {
    set j | j in CurrentTier(s) && Eligible(s.judges[j], sub) && s.judges[j].Idle()
  }

  /** Inserting at index k. */
  function Inserted<T>(s: seq<T>, k: nat, x: T): seq<T>
    requires k <= |s|
  {
    s[..k] + [x] + s[k..]
  }

  lemma {:induction false} FirstOccurrence<T>(q: seq<T>, x: T) returns (k: nat)
    requires x in q
    ensures k < |q| && q[k] == x && x !in q[..k]
  {
    k := 0;
    while q[k] != x
      invariant k < |q| && x !in q[..k] && x in q[k..]
      decreases |q| - k
    {
      assert q[..k + 1] == q[..k] + [q[k]] && q[k..] == [q[k]] + q[k + 1..];
      k := k + 1;
    }
  }

  /** Where a node first occurs; |queue| when it does not. */
  ghost function Position(queue: seq<Node>, n: Node): (k: nat)
    ensures k <= |queue| && (k < |queue| ==> queue[k] == n) && n !in queue[..k]
    ensures n in queue ==> k < |queue|
  {
    if n in queue then
      assert exists k :: 0 <= k < |queue| && queue[k] == n && n !in queue[..k] by {
        var k := FirstOccurrence(queue, n);
      }
      var k :| 0 <= k < |queue| && queue[k] == n && n !in queue[..k]; k
    else
      assert queue[..|queue|] == queue;
      |queue|
  }

  lemma PositionUnique(q: seq<Node>, n: Node, k: nat)
    requires k < |q| && q[k] == n && n !in q[..k]
    ensures Position(q, n) == k
  {}

  function Accept(s: State, id: Id, priority: nat): State {
    s.(tickets := s.tickets[id := Ticket(priority, s.clock)], clock := s.clock + 1)
  }

  ghost predicate Known(s: State, id: Id) {
    id in s.running || Queued(s, id)
  }

  /** `judge`: start at once on the chosen available judge, or queue before the marker of the priority. */
  ghost function Submit(s: State, sub: Submission, priority: nat, chosen: Option<JudgeHandler>): State {
    if Known(s, sub.id) then s
    else
      var s' := Accept(s, sub.id, priority);
      if Available(s, sub) != {} && chosen.Some? && chosen.value in s.judges then Start(s', chosen.value, sub.id)
      else s'.(queue := Inserted(s.queue, Position(s.queue, Marker(priority)), Entry(sub)))
  }

  /** `on_judge_free`; an id that is not running raises before anything changes. */
  function Free(s: State, j: JudgeHandler, id: Id): State
    requires j in s.judges
  {
    if id !in s.running then s
    else
      var s' := s.(running := s.running - {id}, judges := s.judges[j := s.judges[j].(working := None)]);
      HandleFree(s', j)
  }

  function Register(s: State, j: JudgeHandler, info: JudgeInfo, t: Option<nat>, order: seq<JudgeHandler>): State
    requires forall k <- order :: k in s.judges || k == j
  {
    HandleFree(UpdateMinTier(s.(judges := s.judges[j := info]), t, order), j)
  }

  function HandleSole(s: State): State {
    var tier := CurrentTier(s);
    if exists j <- tier :: tier == {j}
    then var j :| j in tier && tier == {j}; HandleIdle(s, j)
    else s
  }

  /** The first half of `remove`: the judge goes, and the entry of the submission it says it is running. */
  function TakenOut(s: State, j: JudgeHandler, working: Option<Id>): State {
    var running := if working.Some? then s.running - {working.value} else s.running;
    s.(running := running, judges := s.judges - {j})
  }

  function Remove(s: State, j: JudgeHandler, working: Option<Id>, t: Option<nat>, order: seq<JudgeHandler>): State
    requires forall k <- order :: k in s.judges && k != j
  {
    HandleSole(UpdateMinTier(TakenOut(s, j, working), t, order))
  }

  /** `abort`: a running submission is only told to stop, a queued one is dropped. */
  ghost function Abort(s: State, id: Id): State {
    if id !in s.running && Queued(s, id) then s.(queue := Without(s.queue, IndexOf(s, id))) else s
  }

  ghost function IndexOf(s: State, id: Id): (k: nat)
    requires Queued(s, id)
    ensures k < |s.queue| && s.queue[k].Entry? && s.queue[k].sub.id == id
  {
    var k :| 0 <= k < |s.queue| && s.queue[k].Entry? && s.queue[k].sub.id == id;
    k
  }

  /** A ping response reports the judge's load. */
  function SetLoad(s: State, j: JudgeHandler, load: real): State
    requires j in s.judges
  {
    s.(judges := s.judges[j := s.judges[j].(load := load)])
  }

  function UpdateProblems(s: State, j: JudgeHandler, problems: set<string>): State
    requires j in s.judges
  {
    HandleIdle(s.(judges := s.judges[j := s.judges[j].(problems := problems)]), j)
  }

  /** `update_problems_all` goes through the judges one by one; at an idle judge it raises, and stops, if
      there is no minimum tier. */
  function UpdateProblemsAll(s: State, problems: set<string>, order: seq<JudgeHandler>): State
    requires forall j <- order :: j in s.judges
    decreases |order|
  {
    if order == [] then s
    else
      var s' := UpdateProblems(s, order[0], problems);
      if s.minTier.None? && s.judges[order[0]].Idle() then s' else UpdateProblemsAll(s', problems, order[1..])
  }

  function Flagged(judges: map<JudgeHandler, JudgeInfo>, name: string, flag: bool): (r: map<JudgeHandler, JudgeInfo>)
    ensures r.Keys == judges.Keys
  {
    map j | j in judges :: if judges[j].name == name then judges[j].(disabled := flag) else judges[j]
  }

  function SetDisabled(s: State, name: string, flag: bool, t: Option<nat>, order: seq<JudgeHandler>): State
    requires forall j <- order :: j in s.judges
  {
    UpdateMinTier(s.(judges := Flagged(s.judges, name, flag)), t, order)
  }

  // ---- The invariant ----

  datatype Key = Key(priority: nat, stamp: Option<nat>)

  /** Position in the dispatch order; the marker of a priority comes after everything of that priority. */
  function NodeKey(tickets: map<Id, Ticket>, n: Node): Key {
    match n
    case Marker(p) => Key(p, None)
    case Entry(sub) =>
      if sub.id in tickets then Key(tickets[sub.id].priority, Some(tickets[sub.id].stamp)) else Key(PRIORITIES, None)
  }

  predicate Before(a: Key, b: Key) {
    || a.priority < b.priority
    || (a.priority == b.priority && a.stamp.Some? && (b.stamp.None? || a.stamp.value < b.stamp.value))
  }

  predicate Tagged(n: Node, tickets: map<Id, Ticket>, clock: nat) {
    match n
    case Marker(p) => p < PRIORITIES
    case Entry(sub) => sub.id in tickets && tickets[sub.id].priority < PRIORITIES && tickets[sub.id].stamp < clock
  }

  ghost predicate Sorted(queue: seq<Node>, tickets: map<Id, Ticket>) {
    forall i, k :: 0 <= i < k < |queue| ==> Before(NodeKey(tickets, queue[i]), NodeKey(tickets, queue[k]))
  }

  /** The one list is strictly sorted by (priority, arrival) and never loses a marker. */
  ghost predicate Ordered(queue: seq<Node>, tickets: map<Id, Ticket>, clock: nat) {
    && Sorted(queue, tickets)
    && (forall n <- queue :: Tagged(n, tickets, clock))
    && (forall p: nat :: p < PRIORITIES ==> Marker(p) in queue)
  }

  /** The running map and the judges tell the same story, and nothing is both queued and running. */
  ghost predicate Agree(s: State) {
    && (forall id <- s.running :: s.running[id] in s.judges && s.judges[s.running[id]].working == Some(id))
    && (forall j <- s.judges :: s.judges[j].working.Some? ==>
          s.judges[j].working.value in s.running && s.running[s.judges[j].working.value] == j)
    && (forall id <- s.running :: !Queued(s, id))
  }

  /** What remains of that when dispatches fail: it is true of the registered judges.  A failed dispatch leaves
      an entry for a judge that is registered no more, possibly for a submission that is still queued. */
  ghost predicate AgreeRegistered(s: State) {
    && (forall id <- s.running :: s.running[id] in s.judges ==> s.judges[s.running[id]].working == Some(id))
    && (forall j <- s.judges :: s.judges[j].working.Some? ==>
          s.judges[j].working.value in s.running && s.running[s.judges[j].working.value] == j)
    && (forall id <- s.running :: Queued(s, id) ==> s.running[id] !in s.judges)
  }

  ghost predicate Inv(s: State) {
    && Ordered(s.queue, s.tickets, s.clock)
    && Agree(s)
    && IsMinTier(s.judges, s.minTier)
  }

  /** Nothing queued suits j. */
  ghost predicate NoWork(s: State, j: JudgeHandler)
    requires j in s.judges
  {
    forall n <- s.queue :: n.Entry? ==> !Eligible(s.judges[j], n.sub)
  }

  /** No idle judge of the minimum tier is left without work it could do. */
  ghost predicate WorkConserving(s: State) {
    forall j <- CurrentTier(s) :: s.judges[j].Idle() ==> NoWork(s, j)
  }

  // ---- Parts of steps keep it ----

  lemma InsertedMembers<T>(q: seq<T>, k: nat, x: T, y: T)
    requires k <= |q|
    ensures y in Inserted(q, k, x) <==> y == x || y in q
  {}

  lemma RemovalKeepsOrder(s: State, k: nat)
    requires Ordered(s.queue, s.tickets, s.clock) && k < |s.queue| && s.queue[k].Entry?
    ensures Ordered(Without(s.queue, k), s.tickets, s.clock)
  {}

  /** Taking node k out takes out exactly its id. */
  lemma RemovalTakesOne(s: State, k: nat, id: Id)
    requires Ordered(s.queue, s.tickets, s.clock) && k < |s.queue| && s.queue[k].Entry?
    ensures Queued(s.(queue := Without(s.queue, k)), id) <==> Queued(s, id) && id != s.queue[k].sub.id
  {}

  lemma AcceptKeepsOrder(s: State, id: Id, priority: nat)
    requires Ordered(s.queue, s.tickets, s.clock) && !Queued(s, id)
    ensures var a := Accept(s, id, priority);
            && Ordered(s.queue, a.tickets, a.clock)
            && forall n <- s.queue :: NodeKey(a.tickets, n) == NodeKey(s.tickets, n)
  {
    var a := Accept(s, id, priority);
    forall n <- s.queue
      ensures NodeKey(a.tickets, n) == NodeKey(s.tickets, n) && Tagged(n, a.tickets, a.clock)
    {
      assert Tagged(n, s.tickets, s.clock);
    }
    forall i, k | 0 <= i < k < |s.queue|
      ensures Before(NodeKey(a.tickets, s.queue[i]), NodeKey(a.tickets, s.queue[k]))
    {
      assert s.queue[i] in s.queue && s.queue[k] in s.queue;
    }
  }

  /** Before its marker is after everything of the same priority and before everything of a later one. */
  lemma InsertionPlace(q: seq<Node>, tickets: map<Id, Ticket>, clock: nat, k: nat, x: Node, priority: nat)
    requires Sorted(q, tickets) && k < |q| && q[k] == Marker(priority)
    requires NodeKey(tickets, x) == Key(priority, Some(clock))
    requires forall n <- q :: Tagged(n, tickets, clock)
    ensures Sorted(Inserted(q, k, x), tickets)
  {
    forall i | 0 <= i < |q|
      ensures i < k ==> Before(NodeKey(tickets, q[i]), NodeKey(tickets, x))
      ensures k <= i ==> Before(NodeKey(tickets, x), NodeKey(tickets, q[i]))
    {
      assert Tagged(q[i], tickets, clock);
    }
  }

  lemma InsertionKeepsOrder(s: State, sub: Submission, priority: nat)
    requires Ordered(s.queue, s.tickets, s.clock) && priority < PRIORITIES && !Queued(s, sub.id)
    ensures var a := Accept(s, sub.id, priority);
            var k := Position(s.queue, Marker(priority));
            && k < |s.queue|
            && Ordered(Inserted(s.queue, k, Entry(sub)), a.tickets, a.clock)
  {
    var a := Accept(s, sub.id, priority);
    AcceptKeepsOrder(s, sub.id, priority);
    assert Marker(priority) in s.queue;
    var k := Position(s.queue, Marker(priority));
    assert s.queue[..k] + s.queue[k..] == s.queue;
    forall n <- s.queue
      ensures Tagged(n, a.tickets, s.clock)
    {
      assert Tagged(n, s.tickets, s.clock);
    }
    InsertionPlace(s.queue, a.tickets, s.clock, k, Entry(sub), priority);
    forall n | n in Inserted(s.queue, k, Entry(sub))
      ensures Tagged(n, a.tickets, a.clock)
    {
      InsertedMembers(s.queue, k, Entry(sub), n);
    }
    forall p: nat | p < PRIORITIES
      ensures Marker(p) in Inserted(s.queue, k, Entry(sub))
    {
      InsertedMembers(s.queue, k, Entry(sub), Marker(p));
    }
  }
}
