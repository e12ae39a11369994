/** Whole runs of the dispatcher: the invariant and the account of every accepted submission for all runs; and
    work conservation and no overtaking, each with its exact condition. */
module DispatchRuns {
  import opened Judges
  import opened Options
  import opened Scheduling
  import opened Dispatching

  /** The public operations.  `chosen`, `t` and `order` are what the operation finds: the least loaded
      available judge, the new minimum tier, the iteration order of the judge set. */
  datatype Event =
    | Submitted(sub: Submission, priority: nat, chosen: Option<JudgeHandler>)
    | Freed(j: JudgeHandler, id: Id)
    | Registered(j: JudgeHandler, info: JudgeInfo, t: Option<nat>, order: seq<JudgeHandler>)
    | Removed(j: JudgeHandler, working: Option<Id>, t: Option<nat>, order: seq<JudgeHandler>)
    | Aborted(id: Id)
    | ProblemsUpdated(j: JudgeHandler, problems: set<string>)
    | AllProblemsUpdated(problems: set<string>, order: seq<JudgeHandler>)
    | DisabledSet(name: string, flag: bool, t: Option<nat>, order: seq<JudgeHandler>)
    | Loaded(j: JudgeHandler, load: real)

  ghost predicate Retiered(s: State, t: Option<nat>, order: seq<JudgeHandler>) {
    IsMinTier(s.judges, t) && Listing(order, CurrentTier(s.(minTier := t)))
  }

  ghost predicate Allowed(s: State, e: Event) {
    match e
    case Submitted(sub, priority, chosen) =>
      && priority < PRIORITIES
      && (!Known(s, sub.id) && Available(s, sub) != {} ==>
            && chosen.Some? && chosen.value in Available(s, sub)
            && forall k <- Available(s, sub) :: s.judges[chosen.value].load <= s.judges[k].load)
    case Freed(j, id) => j in s.judges && (id in s.running ==> s.judges[j].working == Some(id))
    case Registered(j, info, t, order) =>
      j !in s.judges && info.Idle() && Retiered(s.(judges := s.judges[j := info]), t, order)
    case Removed(j, working, t, order) => working == WorkOf(s, j) && Retiered(s.(judges := s.judges - {j}), t, order)
    case Aborted(id) => true
    case ProblemsUpdated(j, problems) => j in s.judges
    case AllProblemsUpdated(problems, order) => Listing(order, s.judges.Keys)
    case DisabledSet(name, flag, t, order) => Retiered(s.(judges := Flagged(s.judges, name, flag)), t, order)
    case Loaded(j, _) => j in s.judges
  }

  ghost function Step(s: State, e: Event): State
    requires Allowed(s, e)
  {
    match e
    case Submitted(sub, priority, chosen) => Submit(s, sub, priority, chosen)
    case Freed(j, id) => Free(s, j, id)
    case Registered(j, info, t, order) => Register(s, j, info, t, order)
    case Removed(j, working, t, order) => Remove(s, j, working, t, order)
    case Aborted(id) => Abort(s, id)
    case ProblemsUpdated(j, problems) => UpdateProblems(s, j, problems)
    case AllProblemsUpdated(problems, order) => UpdateProblemsAll(s, problems, order)
    case DisabledSet(name, flag, t, order) => SetDisabled(s, name, flag, t, order)
    case Loaded(j, load) => SetLoad(s, j, load)
  }

  ghost predicate Safe(s: State) {
    Inv(s) && WorkConserving(s)
  }

  /** What an enabling must meet to conserve work; every other event meets it. */
  ghost predicate Guarded(s: State, e: Event) {
    e.DisabledSet? && !e.flag ==> NothingForEnabled(s, e.name, e.t)
  }

  /** Every step keeps the invariant, and from a state that conserves work it leads to one exactly if it is
      guarded. */
  lemma StepConserves(s: State, e: Event)
    requires Inv(s) && Allowed(s, e)
    ensures Inv(Step(s, e))
    ensures WorkConserving(s) ==> (WorkConserving(Step(s, e)) <==> Guarded(s, e))
  {
    match e
    case Submitted(sub, priority, chosen) => SubmitKeeps(s, sub, priority, chosen);
    case Freed(j, id) =>
      if id in s.running {
        FreeKeeps(s, j, id);
      }
    case Registered(j, info, t, order) => RegisterKeeps(s, j, info, t, order);
    case Removed(j, _, t, order) => RemoveKeeps(s, j, t, order);
    case Aborted(id) => AbortKeeps(s, id);
    case ProblemsUpdated(j, problems) => UpdateProblemsKeeps(s, j, problems);
    case AllProblemsUpdated(problems, order) => UpdateProblemsAllKeeps(s, problems, order);
    case DisabledSet(name, flag, t, order) =>
      SetDisabledKeeps(s, name, flag, t, order);
      if !flag && WorkConserving(s) {
        EnableExact(s, name, t, order);
      }
    case Loaded(j, load) => LoadKeeps(s, j, load);
  }

  // ---- No overtaking ----

  /** Everything queued that j could run comes later than id in (priority, arrival) order. */
  ghost predicate FirstFor(s: State, j: JudgeHandler, id: Id)
    requires j in s.judges
  {
    forall n <- s.queue :: n.Entry? && Eligible(s.judges[j], n.sub) ==>
      id in s.tickets && Before(Key(s.tickets[id].priority, Some(s.tickets[id].stamp)), NodeKey(s.tickets, n))
  }

  /** Between s and s', j began to run id. */
  ghost predicate Begins(s: State, s': State, j: JudgeHandler, id: Id) {
    && j in s'.judges && s'.judges[j].working == Some(id)
    && !(j in s.judges && s.judges[j].working == Some(id))
  }

  /** id came from the queue of s, suits k as it is in s', and was the first to do so there; and k is of no higher
      tier than the minimum. */
  ghost predicate Placed(s: State, s': State, k: JudgeHandler, id: Id)
    requires k in s'.judges
  {
    exists n <- s.queue ::
      && n.Entry? && n.sub.id == id && Eligible(s'.judges[k], n.sub) && FirstFor(s', k, id)
      && s'.minTier.Some? && s'.judges[k].tier <= s'.minTier.value
  }

  lemma HandleIdleFirst(s: State, j: JudgeHandler, k: JudgeHandler, id: Id)
    requires Core(s) && j in s.judges && Begins(s, HandleIdle(s, j), k, id)
    ensures Placed(s, HandleIdle(s, j), k, id)
  {
    var q := s.queue;
    var i := FirstEligible(q, s.judges[j]);
    var s' := HandleIdle(s, j);
    assert k == j && i < |q| && q[i].sub.id == id && q[i] in q && s'.queue == Without(q, i);
    assert Tagged(q[i], s.tickets, s.clock);
    forall n <- s'.queue | n.Entry? && Eligible(s'.judges[k], n.sub)
      ensures Before(NodeKey(s.tickets, q[i]), NodeKey(s.tickets, n))
    {}
  }

  lemma {:induction false} HandleAllFirst(s: State, order: seq<JudgeHandler>, k: JudgeHandler, id: Id)
    requires Core(s) && forall j <- order :: j in s.judges
    requires Begins(s, HandleAll(s, order), k, id)
    ensures Placed(s, HandleAll(s, order), k, id)
    decreases |order|
  {
    var n := |order| - 1;
    var s1 := HandleAll(s, order[..n]);
    HandleAllKeeps(s, order[..n]);
    HandleIdleKeeps(s1, order[n]);
    if Begins(s, s1, k, id) {
      HandleAllFirst(s, order[..n], k, id);
    }
    if Begins(s1, HandleAll(s, order), k, id) {
      HandleIdleFirst(s1, order[n], k, id);
    }
  }

  lemma UpdateMinTierFirst(s: State, t: Option<nat>, order: seq<JudgeHandler>, k: JudgeHandler, id: Id)
    requires Core(s) && Retiered(s, t, order) && Begins(s, UpdateMinTier(s, t, order), k, id)
    ensures Placed(s, UpdateMinTier(s, t, order), k, id)
  {
    var s1 := s.(minTier := t);
    assert Core(s1) by {
      forall i <- s.running
        ensures !Queued(s1, i)
      {
        assert !Queued(s, i);
      }
    }
    HandleAllFirst(s1, order, k, id);
  }

  /** Retiering, then serving one more judge. */
  lemma RetierAndServeFirst(s: State, t: Option<nat>, order: seq<JudgeHandler>, j: JudgeHandler,
                            k: JudgeHandler, id: Id)
    requires Core(s) && Retiered(s, t, order) && j in s.judges
    requires Begins(s, HandleIdle(UpdateMinTier(s, t, order), j), k, id)
    ensures Placed(s, HandleIdle(UpdateMinTier(s, t, order), j), k, id)
  {
    var s1 := UpdateMinTier(s, t, order);
    UpdateMinTierKeeps(s, t, order);
    HandleIdleKeeps(s1, j);
    if Begins(s, s1, k, id) {
      UpdateMinTierFirst(s, t, order, k, id);
    }
    if Begins(s1, HandleIdle(s1, j), k, id) {
      HandleIdleFirst(s1, j, k, id);
    }
  }

  /** Changes to judges that leave what is queued and running alone. */
  lemma JudgesChangedCore(s: State, s1: State)
    requires Core(s) && s1.queue == s.queue && s1.tickets == s.tickets && s1.clock == s.clock
    requires forall id <- s1.running :: id in s.running && s1.running[id] == s.running[id]
    requires forall id <- s1.running :: s1.running[id] in s1.judges && s1.judges[s1.running[id]].working == Some(id)
    requires forall j <- s1.judges :: s1.judges[j].working.Some? ==>
               s1.judges[j].working.value in s1.running && s1.running[s1.judges[j].working.value] == j
    ensures Core(s1)
  {}

  lemma FreedFirst(s: State, j: JudgeHandler, id0: Id, k: JudgeHandler, id: Id)
    requires Inv(s) && Allowed(s, Freed(j, id0))
    requires Begins(s, Free(s, j, id0), k, id)
    ensures Placed(s, Free(s, j, id0), k, id)
  {
    var s1 := s.(running := s.running - {id0}, judges := s.judges[j := s.judges[j].(working := None)]);
    JudgesChangedCore(s, s1);
    assert Free(s, j, id0) == HandleIdle(s1, j);
    HandleIdleFirst(s1, j, k, id);
  }

  lemma RegisteredFirst(s: State, j: JudgeHandler, info: JudgeInfo, t: Option<nat>, order: seq<JudgeHandler>,
                        k: JudgeHandler, id: Id)
    requires Inv(s) && Allowed(s, Registered(j, info, t, order))
    requires Begins(s, Register(s, j, info, t, order), k, id)
    ensures Placed(s, Register(s, j, info, t, order), k, id)
  {
    var s1 := s.(judges := s.judges[j := info]);
    JudgesChangedCore(s, s1);
    NoRise(s, s1, t);
    assert Register(s, j, info, t, order) == HandleIdle(UpdateMinTier(s1, t, order), j);
    RetierAndServeFirst(s1, t, order, j, k, id);
  }

  lemma RemovedFirst(s: State, j: JudgeHandler, t: Option<nat>, order: seq<JudgeHandler>, k: JudgeHandler, id: Id)
    requires Inv(s) && Allowed(s, Removed(j, WorkOf(s, j), t, order))
    requires Begins(s, Remove(s, j, WorkOf(s, j), t, order), k, id)
    ensures Placed(s, Remove(s, j, WorkOf(s, j), t, order), k, id)
  {
    var s1 := TakenOut(s, j, WorkOf(s, j));
    TakenOutCore(s, j, t, order);
    assert Begins(s1, Remove(s, j, WorkOf(s, j), t, order), k, id);
    SoleFirst(s1, t, order, k, id);
  }

  lemma TakenOutCore(s: State, j: JudgeHandler, t: Option<nat>, order: seq<JudgeHandler>)
    requires Inv(s) && Retiered(s.(judges := s.judges - {j}), t, order)
    ensures Core(TakenOut(s, j, WorkOf(s, j))) && Retiered(TakenOut(s, j, WorkOf(s, j)), t, order)
  {
    var s1 := TakenOut(s, j, WorkOf(s, j));
    JudgesChangedCore(s, s1);
    assert CurrentTier(s1.(minTier := t)) == CurrentTier(s.(judges := s.judges - {j}, minTier := t));
  }

  /** Retiering, then serving a judge left alone in its tier. */
  lemma SoleFirst(s: State, t: Option<nat>, order: seq<JudgeHandler>, k: JudgeHandler, id: Id)
    requires Core(s) && Retiered(s, t, order) && Begins(s, HandleSole(UpdateMinTier(s, t, order)), k, id)
    ensures Placed(s, HandleSole(UpdateMinTier(s, t, order)), k, id)
  {
    var s2 := UpdateMinTier(s, t, order);
    if exists j <- CurrentTier(s2) :: CurrentTier(s2) == {j} {
      var sole :| sole in CurrentTier(s2) && CurrentTier(s2) == {sole};
      assert HandleSole(s2) == HandleIdle(s2, sole);
      UpdateMinTierKeeps(s, t, order);
      RetierAndServeFirst(s, t, order, sole, k, id);
    } else {
      UpdateMinTierFirst(s, t, order, k, id);
    }
  }

  lemma ProblemsUpdatedFirst(s: State, j: JudgeHandler, problems: set<string>, k: JudgeHandler, id: Id)
    requires Inv(s) && j in s.judges && Begins(s, UpdateProblems(s, j, problems), k, id)
    ensures Placed(s, UpdateProblems(s, j, problems), k, id)
  {
    var s1 := s.(judges := s.judges[j := s.judges[j].(problems := problems)]);
    JudgesChangedCore(s, s1);
    HandleIdleFirst(s1, j, k, id);
  }

  /** Later rounds of a problem update leave a judge alone that is not among them. */
  lemma {:induction false} OthersUntouched(s: State, problems: set<string>, order: seq<JudgeHandler>, k: JudgeHandler)
    requires Inv(s) && (forall j <- order :: j in s.judges) && k in s.judges && k !in order
    ensures var s' := UpdateProblemsAll(s, problems, order);
            && k in s'.judges && s'.judges[k] == s.judges[k]
            && s' == s.(judges := s'.judges, running := s'.running, queue := s'.queue)
            && forall n <- s'.queue :: n in s.queue
    decreases |order|
  {
    if order != [] {
      var s1 := UpdateProblems(s, order[0], problems);
      UpdateProblemsKeeps(s, order[0], problems);
      if !(s.minTier.None? && s.judges[order[0]].Idle()) {
        OthersUntouched(s1, problems, order[1..], k);
      }
    }
  }

  lemma PlacedEarlier(s: State, s1: State, s': State, k: JudgeHandler, id: Id)
    requires k in s'.judges && Placed(s1, s', k, id) && forall n <- s1.queue :: n in s.queue
    ensures Placed(s, s', k, id)
  {}

  lemma StartStays(s: State, s1: State, s': State, k: JudgeHandler, id: Id)
    requires k in s1.judges && Placed(s, s1, k, id)
    requires k in s'.judges && s'.judges[k] == s1.judges[k]
    requires s'.tickets == s1.tickets && s'.minTier == s1.minTier && forall n <- s'.queue :: n in s1.queue
    ensures Placed(s, s', k, id)
  {}

  lemma FirstRoundFirst(s: State, problems: set<string>, j: JudgeHandler, rest: seq<JudgeHandler>, k: JudgeHandler,
                        id: Id)
    requires Inv(s) && j in s.judges && j !in rest && forall i <- rest :: i in s.judges
    requires Begins(s, UpdateProblems(s, j, problems), k, id)
    ensures var s' := UpdateProblemsAll(UpdateProblems(s, j, problems), problems, rest);
            k in s'.judges && Placed(s, s', k, id)
  {
    var s1 := UpdateProblems(s, j, problems);
    UpdateProblemsKeeps(s, j, problems);
    assert k == j;
    ProblemsUpdatedFirst(s, j, problems, k, id);
    OthersUntouched(s1, problems, rest, k);
    StartStays(s, s1, UpdateProblemsAll(s1, problems, rest), k, id);
  }

  lemma {:induction false} AllProblemsUpdatedFirst(s: State, problems: set<string>, order: seq<JudgeHandler>,
                                                   k: JudgeHandler, id: Id)
    requires Inv(s) && (forall j <- order :: j in s.judges)
    requires forall i, m :: 0 <= i < m < |order| ==> order[i] != order[m]
    requires Begins(s, UpdateProblemsAll(s, problems, order), k, id)
    ensures Placed(s, UpdateProblemsAll(s, problems, order), k, id)
    decreases |order|
  {
    var s1 := UpdateProblems(s, order[0], problems);
    UpdateProblemsKeeps(s, order[0], problems);
    if s.minTier.None? && s.judges[order[0]].Idle() {
      ProblemsUpdatedFirst(s, order[0], problems, k, id);
    } else if Begins(s, s1, k, id) {
      FirstRoundFirst(s, problems, order[0], order[1..], k, id);
    } else {
      AllProblemsUpdatedFirst(s1, problems, order[1..], k, id);
      PlacedEarlier(s, s1, UpdateProblemsAll(s1, problems, order[1..]), k, id);
    }
  }

  /** Work handed out from the queue never overtakes, and goes to a judge of the minimum tier that it suits,
      whatever came before. */
  lemma QueueNeverOvertakes(s: State, e: Event, k: JudgeHandler, id: Id)
    requires Inv(s) && Allowed(s, e) && !e.Submitted? && Begins(s, Step(s, e), k, id)
    ensures FirstFor(Step(s, e), k, id)
    ensures Placed(s, Step(s, e), k, id)
  {
    match e
    case Freed(j, id0) => FreedFirst(s, j, id0, k, id);
    case Registered(j, info, t, order) => RegisteredFirst(s, j, info, t, order, k, id);
    case Removed(j, _, t, order) => RemovedFirst(s, j, t, order, k, id);
    case ProblemsUpdated(j, problems) => ProblemsUpdatedFirst(s, j, problems, k, id);
    case AllProblemsUpdated(problems, order) => AllProblemsUpdatedFirst(s, problems, order, k, id);
    case DisabledSet(name, flag, t, order) =>
      var s1 := s.(judges := Flagged(s.judges, name, flag));
      JudgesChangedCore(s, s1);
      UpdateMinTierFirst(s1, t, order, k, id);
    case Aborted(_) => assert false;
    case Loaded(_, _) => assert false;
  }

  /** In the judge's own fields: it has the problem and the executor, is not banned, and if it is disabled, or
      some judge was asked for, it was asked for by name. */
  predicate Suits(info: JudgeInfo, sub: Submission) {
    && sub.problem in info.problems && sub.language in info.executors && info.name !in sub.banned
    && (info.disabled || (sub.judgeId.Some? && sub.judgeId.value != "") ==> sub.judgeId == Some(info.name))
  }

  /** No enabled judge is of a lower tier. */
  ghost predicate Lowest(s: State, k: JudgeHandler)
    requires k in s.judges
  {
    forall q <- s.judges :: !s.judges[q].disabled ==> s.judges[k].tier <= s.judges[q].tier
  }

  /** The submission of this id that the event brings, or that waits in the queue. */
  ghost predicate Brought(s: State, e: Event, sub: Submission, id: Id) {
    sub.id == id && if e.Submitted? then sub == e.sub else Entry(sub) in s.queue
  }

  /** Whatever starts, from the queue or directly, starts on a judge it suits, and no enabled judge is of a
      lower tier than that one. */
  lemma StartsWhereItBelongs(s: State, e: Event, k: JudgeHandler, id: Id)
    requires Inv(s) && Allowed(s, e) && Begins(s, Step(s, e), k, id)
    ensures exists sub :: Brought(s, e, sub, id) && Suits(Step(s, e).judges[k], sub)
    ensures Lowest(Step(s, e), k)
  {
    StepConserves(s, e);
    if e.Submitted? {
      assert k in Available(s, e.sub);
      assert Brought(s, e, e.sub, id);
    } else {
      QueueNeverOvertakes(s, e, k, id);
      var n :| n in s.queue && n.Entry? && n.sub.id == id && Eligible(Step(s, e).judges[k], n.sub);
      assert Brought(s, e, n.sub, id);
    }
  }

  /** Where work is conserved, nothing in the queue suits an idle enabled judge of the lowest tier. */
  lemma IdleOnlyWithoutWork(s: State, k: JudgeHandler, sub: Submission)
    requires Safe(s) && k in s.judges && s.judges[k].Idle() && !s.judges[k].disabled && Lowest(s, k)
    requires Entry(sub) in s.queue
    ensures !Suits(s.judges[k], sub)
  {
    assert s.minTier.Some?;
    assert k in CurrentTier(s);
    assert !Eligible(s.judges[k], Entry(sub).sub);
  }

  /** The judges an event serves, whatever was left undone before it: one that reports, arrives or gets new
      problems, and after a removal one that is alone in the minimum tier. */
  ghost predicate Serves(s: State, e: Event, j: JudgeHandler)
    requires Allowed(s, e)
  {
    match e
    case Freed(k, id) => j == k && id in s.running
    case Registered(k, _, _, _) => j == k
    case ProblemsUpdated(k, _) => j == k
    case AllProblemsUpdated(_, order) => j in order
    case Removed(_, _, _, _) => CurrentTier(Step(s, e)) == {j}
    case _ => false
  }

  /** A served judge that may take work, and is idle afterwards, finds nothing suitable in the queue. */
  lemma ServedJudgeIsSatisfied(s: State, e: Event, j: JudgeHandler)
    requires Inv(s) && Allowed(s, e) && Serves(s, e, j)
    ensures j in Step(s, e).judges && Satisfied(Step(s, e), j)
  {
    match e
    case Freed(_, id) =>
      var s1 := s.(running := s.running - {id}, judges := s.judges[j := s.judges[j].(working := None)]);
      JudgesChangedCore(s, s1);
      HandleFreeKeeps(s1, j);
    case Registered(_, info, t, order) =>
      var s1 := s.(judges := s.judges[j := info]);
      JudgesChangedCore(s, s1);
      NoRise(s, s1, t);
      UpdateMinTierKeeps(s1, t, order);
      HandleFreeKeeps(UpdateMinTier(s1, t, order), j);
    case ProblemsUpdated(_, problems) => RoundServes(s, problems, j);
    case AllProblemsUpdated(problems, order) => AllServed(s, problems, order, j);
    case Removed(k, _, t, order) =>
      TakenOutCore(s, k, t, order);
      UpdateMinTierKeeps(TakenOut(s, k, WorkOf(s, k)), t, order);
      SoleServed(UpdateMinTier(TakenOut(s, k, WorkOf(s, k)), t, order), j);
  }

  lemma SoleServed(s: State, j: JudgeHandler)
    requires Inv(s) && CurrentTier(HandleSole(s)) == {j}
    ensures j in HandleSole(s).judges && Satisfied(HandleSole(s), j)
  {
    HandleSoleKeeps(s);
    ProgressKeepsMinTier(s, HandleSole(s));
    assert j in {j} && HandleSole(s) == HandleIdle(s, j);
    HandleIdleKeeps(s, j);
  }

  lemma {:induction false} AllServed(s: State, problems: set<string>, order: seq<JudgeHandler>, j: JudgeHandler)
    requires Inv(s) && (forall k <- order :: k in s.judges) && j in order
    requires forall i, m :: 0 <= i < m < |order| ==> order[i] != order[m]
    ensures j in UpdateProblemsAll(s, problems, order).judges && Satisfied(UpdateProblemsAll(s, problems, order), j)
    decreases |order|
  {
    var s1 := UpdateProblems(s, order[0], problems);
    UpdateProblemsKeeps(s, order[0], problems);
    if s.minTier.None? && s.judges[order[0]].Idle() {
      assert s1.minTier.None?;
    } else if j == order[0] {
      RoundServes(s, problems, j);
      OthersUntouched(s1, problems, order[1..], j);
    } else {
      AllServed(s1, problems, order[1..], j);
    }
  }

  lemma RoundServes(s: State, problems: set<string>, j: JudgeHandler)
    requires Inv(s) && j in s.judges
    ensures j in UpdateProblems(s, j, problems).judges && Satisfied(UpdateProblems(s, j, problems), j)
  {
    var s1 := s.(judges := s.judges[j := s.judges[j].(problems := problems)]);
    JudgesChangedCore(s, s1);
    HandleIdleKeeps(s1, j);
  }

  /** All that is queued and suits the judge is of a later priority. */
  ghost predicate OnlyLaterPriorities(s: State, k: JudgeHandler, priority: nat)
    requires k in s.judges
  {
    forall n <- s.queue :: n.Entry? && Eligible(s.judges[k], n.sub) ==>
      n.sub.id in s.tickets && s.tickets[n.sub.id].priority > priority
  }

  /** A direct start looks at no queue: it overtakes nothing exactly if all that is queued and suits the chosen
      judge is of a later priority. */
  lemma DirectStartExact(s: State, sub: Submission, priority: nat, chosen: Option<JudgeHandler>, k: JudgeHandler,
                         id: Id)
    requires Inv(s) && Allowed(s, Submitted(sub, priority, chosen))
    requires Begins(s, Submit(s, sub, priority, chosen), k, id)
    ensures k in s.judges
    ensures FirstFor(Submit(s, sub, priority, chosen), k, id) <==> OnlyLaterPriorities(s, k, priority)
  {
    var s' := Submit(s, sub, priority, chosen);
    assert chosen == Some(k) && k in Available(s, sub) && id == sub.id && s'.queue == s.queue;
    forall n <- s.queue | n.Entry? && Eligible(s.judges[k], n.sub)
      ensures Eligible(s'.judges[k], n.sub) && n.sub.id != id && Tagged(n, s.tickets, s.clock)
    {
      assert Queued(s, n.sub.id);
    }
    if FirstFor(s', k, id) {
      forall n <- s.queue | n.Entry? && Eligible(s.judges[k], n.sub)
        ensures n.sub.id in s.tickets && s.tickets[n.sub.id].priority > priority
      {
        assert Before(Key(priority, Some(s.clock)), NodeKey(s'.tickets, n));
      }
    }
  }

  /** Where work is conserved, nothing overtakes; in particular a direct start jumps nothing the chosen judge
      could take. */
  lemma NoOvertaking(s: State, e: Event, k: JudgeHandler, id: Id)
    requires Safe(s) && Allowed(s, e) && Begins(s, Step(s, e), k, id)
    ensures FirstFor(Step(s, e), k, id)
  {
    if e.Submitted? {
      DirectStartExact(s, e.sub, e.priority, e.chosen, k, id);
      assert k in Available(s, e.sub) && NoWork(s, k);
    } else {
      QueueNeverOvertakes(s, e, k, id);
    }
  }

  /** Enabling a judge beside a queued submission it could run, and then submitting an equal one of the same
      priority: the second one starts, past the first. */
  lemma EnabledJudgeOvertakes(j: JudgeHandler)
    ensures var s := SetDisabled(Waiting(j), "a", false, Some(1), [j]);
            var e := Submitted(Submission(2, "p", "c", "", None, {}), 1, Some(j));
            && Inv(s) && Allowed(s, e)
            && Begins(s, Step(s, e), j, 2) && !FirstFor(Step(s, e), j, 2)
  {
    var w := Waiting(j);
    WaitingInv(j);
    var flagged := w.(judges := Flagged(w.judges, "a", false));
    assert flagged.judges == map[j := w.judges[j].(disabled := false)];
    assert CurrentTier(flagged.(minTier := Some(1))) == {j};
    SetDisabledKeeps(w, "a", false, Some(1), [j]);
    var s := SetDisabled(w, "a", false, Some(1), [j]);
    assert s == flagged.(minTier := Some(1));
    var sub := Submission(2, "p", "c", "", None, {});
    assert Available(s, sub) == {j};
    DirectStartExact(s, sub, 1, Some(j), j, 2);
    assert s.queue[1] in s.queue && Eligible(s.judges[j], s.queue[1].sub);
  }

  // ---- What an operation changes itself ----

  /** The judges that `update_problems_all` comes to: all, or without a minimum tier those up to the first idle one. */
  function ComesTo(s: State, order: seq<JudgeHandler>): seq<JudgeHandler>
    requires forall j <- order :: j in s.judges
  {
    if order == [] then []
    else if s.minTier.None? && s.judges[order[0]].Idle() then [order[0]]
    else [order[0]] + ComesTo(s, order[1..])
  }

  /** The state with what the event says changed, and nothing handed out yet. */
  ghost function Changed(s: State, e: Event): State
    requires Allowed(s, e)
  {
    match e
    case Submitted(sub, priority, _) =>
      if Known(s, sub.id) then s
      else s.(queue := s.queue + [Entry(sub)], tickets := s.tickets[sub.id := Ticket(priority, s.clock)])
    case Freed(j, id) => if id in s.running then s.(judges := s.judges[j := s.judges[j].(working := None)]) else s
    case Registered(j, info, _, _) => s.(judges := s.judges[j := info])
    case Removed(j, _, _, _) => s.(judges := s.judges - {j})
    case Aborted(_) => s
    case ProblemsUpdated(j, problems) => s.(judges := s.judges[j := s.judges[j].(problems := problems)])
    case AllProblemsUpdated(problems, order) => s.(judges := WithProblems(s.judges, ComesTo(s, order), problems))
    case DisabledSet(name, flag, _, _) =>
      s.(judges := map k | k in s.judges ::
           if s.judges[k].name == name then s.judges[k].(disabled := flag) else s.judges[k])
    case Loaded(j, load) => s.(judges := s.judges[j := s.judges[j].(load := load)])
  }

  function WithProblems(judges: map<JudgeHandler, JudgeInfo>, who: seq<JudgeHandler>, problems: set<string>)
    : map<JudgeHandler, JudgeInfo>
  {
    map k | k in judges :: if k in who then judges[k].(problems := problems) else judges[k]
  }

  /** From s to s' submissions of the queue may have started on idle judges; nothing else happened to the judges. */
  ghost predicate HandedOut(s: State, s': State) {
    && s'.judges.Keys == s.judges.Keys && s'.tickets == s.tickets
    && (forall k <- s.judges :: Started(s.judges[k], s'.judges[k]))
    && (forall n <- s'.queue :: n in s.queue)
  }

  /** Beyond what the event says, a step only hands out work. */
  lemma StepOnlyHandsOut(s: State, e: Event)
    requires Inv(s) && Allowed(s, e)
    ensures HandedOut(Changed(s, e), Step(s, e))
  {
    match e
    case Freed(j, id) =>
      if id in s.running {
        FreeOnlyHandsOut(s, j, id);
      }
    case Registered(j, info, t, order) => RegisterOnlyHandsOut(s, j, info, t, order);
    case Removed(j, _, t, order) => RemoveOnlyHandsOut(s, j, t, order);
    case ProblemsUpdated(j, problems) => RoundHandsOut(s, j, problems);
    case AllProblemsUpdated(problems, order) => AllOnlyHandOut(s, problems, order);
    case DisabledSet(name, flag, t, order) => DisableOnlyHandsOut(s, name, flag, t, order);
    case _ =>
  }

  lemma FreeOnlyHandsOut(s: State, j: JudgeHandler, id: Id)
    requires Inv(s) && j in s.judges && s.judges[j].working == Some(id)
    ensures HandedOut(s.(judges := s.judges[j := s.judges[j].(working := None)]), Free(s, j, id))
  {
    var s1 := s.(running := s.running - {id}, judges := s.judges[j := s.judges[j].(working := None)]);
    JudgesChangedCore(s, s1);
    HandleFreeKeeps(s1, j);
  }

  lemma DisableOnlyHandsOut(s: State, name: string, flag: bool, t: Option<nat>, order: seq<JudgeHandler>)
    requires Inv(s) && Allowed(s, DisabledSet(name, flag, t, order))
    ensures HandedOut(Changed(s, DisabledSet(name, flag, t, order)), SetDisabled(s, name, flag, t, order))
  {
    var s1 := s.(judges := Flagged(s.judges, name, flag));
    JudgesChangedCore(s, s1);
    UpdateMinTierKeeps(s1, t, order);
    assert s1.judges == Changed(s, DisabledSet(name, flag, t, order)).judges;
  }

  lemma RegisterOnlyHandsOut(s: State, j: JudgeHandler, info: JudgeInfo, t: Option<nat>, order: seq<JudgeHandler>)
    requires Inv(s) && Allowed(s, Registered(j, info, t, order))
    ensures HandedOut(s.(judges := s.judges[j := info]), Register(s, j, info, t, order))
  {
    var s1 := s.(judges := s.judges[j := info]);
    JudgesChangedCore(s, s1);
    NoRise(s, s1, t);
    UpdateMinTierKeeps(s1, t, order);
    HandleFreeKeeps(UpdateMinTier(s1, t, order), j);
  }

  lemma RemoveOnlyHandsOut(s: State, j: JudgeHandler, t: Option<nat>, order: seq<JudgeHandler>)
    requires Inv(s) && Allowed(s, Removed(j, WorkOf(s, j), t, order))
    ensures HandedOut(s.(judges := s.judges - {j}), Remove(s, j, WorkOf(s, j), t, order))
  {
    var s1 := TakenOut(s, j, WorkOf(s, j));
    var s2 := UpdateMinTier(s1, t, order);
    TakenOutCore(s, j, t, order);
    UpdateMinTierKeeps(s1, t, order);
    assert HandedOut(s.(judges := s.judges - {j}), s2);
    HandleSoleKeeps(s2);
    HandedOutTwice(s.(judges := s.judges - {j}), s2, HandleSole(s2));
  }

  lemma HandedOutTwice(a: State, b: State, c: State)
    requires HandedOut(a, b) && Progress(b, c)
    ensures HandedOut(a, c)
  {
    forall k <- a.judges
      ensures Started(a.judges[k], c.judges[k])
    {
      assert Started(a.judges[k], b.judges[k]);
    }
  }

  /** Handing out work after one judge's change and after the others' is handing out work after all of them. */
  lemma RoundThenRest(s: State, s1: State, s': State, o: JudgeHandler, rest: seq<JudgeHandler>, problems: set<string>)
    requires o in s.judges && HandedOut(s.(judges := s.judges[o := s.judges[o].(problems := problems)]), s1)
    requires HandedOut(s1.(judges := WithProblems(s1.judges, rest, problems)), s')
    ensures HandedOut(s.(judges := WithProblems(s.judges, [o] + rest, problems)), s')
  {
    var before, between := WithProblems(s.judges, [o] + rest, problems), WithProblems(s1.judges, rest, problems);
    forall k <- s.judges
      ensures Started(before[k], s'.judges[k])
    {
      assert Started(if k == o then s.judges[o].(problems := problems) else s.judges[k], s1.judges[k]);
      assert Started(between[k], s'.judges[k]);
    }
  }

  lemma RoundHandsOut(s: State, j: JudgeHandler, problems: set<string>)
    requires Inv(s) && j in s.judges
    ensures HandedOut(s.(judges := s.judges[j := s.judges[j].(problems := problems)]), UpdateProblems(s, j, problems))
    ensures UpdateProblems(s, j, problems).minTier == s.minTier
  {
    var s1 := s.(judges := s.judges[j := s.judges[j].(problems := problems)]);
    JudgesChangedCore(s, s1);
    HandleIdleKeeps(s1, j);
  }

  lemma {:induction false} ComesToSame(s: State, s1: State, order: seq<JudgeHandler>)
    requires s1.minTier == s.minTier && forall j <- order :: j in s.judges && j in s1.judges
    requires s.minTier.None? ==> forall j <- order :: s1.judges[j].Idle() == s.judges[j].Idle()
    ensures ComesTo(s1, order) == ComesTo(s, order)
  {
    if order != [] {
      ComesToSame(s, s1, order[1..]);
    }
  }

  lemma {:induction false} AllOnlyHandOut(s: State, problems: set<string>, order: seq<JudgeHandler>)
    requires Inv(s) && forall j <- order :: j in s.judges
    ensures HandedOut(s.(judges := WithProblems(s.judges, ComesTo(s, order), problems)),
                      UpdateProblemsAll(s, problems, order))
    decreases |order|
  {
    if order != [] {
      var s1 := UpdateProblems(s, order[0], problems);
      RoundHandsOut(s, order[0], problems);
      if s.minTier.None? && s.judges[order[0]].Idle() {
        assert WithProblems(s.judges, [order[0]], problems) ==
               s.judges[order[0] := s.judges[order[0]].(problems := problems)];
      } else {
        UpdateProblemsKeeps(s, order[0], problems);
        AllOnlyHandOut(s1, problems, order[1..]);
        ComesToSame(s, s1, order[1..]);
        RoundThenRest(s, s1, UpdateProblemsAll(s1, problems, order[1..]), order[0], ComesTo(s, order[1..]), problems);
      }
    }
  }

  // ---- Runs ----

  function Initial(): State {
    State([Marker(0), Marker(1), Marker(2), Marker(3)], map[], map[], None, map[], 0)
  }

  ghost predicate Possible(s: State, events: seq<Event>)
    decreases |events|
  {
    events != [] ==> Allowed(s, events[0]) && Possible(Step(s, events[0]), events[1..])
  }

  ghost function Run(s: State, events: seq<Event>): State
    requires Possible(s, events)
    decreases |events|
  {
    if events == [] then s else Run(Step(s, events[0]), events[1..])
  }

  lemma {:induction false} RunInv(s: State, events: seq<Event>)
    requires Inv(s) && Possible(s, events)
    ensures Inv(Run(s, events))
    decreases |events|
  {
    if events != [] {
      StepConserves(s, events[0]);
      RunInv(Step(s, events[0]), events[1..]);
    }
  }

  /** In every reachable state the list is in order, the running map and the judges agree, nothing is queued and
      running, and the minimum tier is right.  Whatever starts next from the queue is first in (priority,
      arrival) order among all its judge could run; what starts directly is so exactly if everything queued that
      suits its judge is of a later priority. */
  lemma EveryReachableState(events: seq<Event>, e: Event, k: JudgeHandler, id: Id)
    requires Possible(Initial(), events) && Allowed(Run(Initial(), events), e)
    ensures var s := Run(Initial(), events);
            && Inv(s)
            && (Begins(s, Step(s, e), k, id) && !e.Submitted? ==> FirstFor(Step(s, e), k, id))
            && (Begins(s, Step(s, e), k, id) && e.Submitted? ==>
                  k in s.judges && (FirstFor(Step(s, e), k, id) <==> OnlyLaterPriorities(s, k, e.priority)))
  {
    RunInv(Initial(), events);
    NextStart(Run(Initial(), events), e, k, id);
  }

  lemma NextStart(s: State, e: Event, k: JudgeHandler, id: Id)
    requires Inv(s) && Allowed(s, e)
    ensures Begins(s, Step(s, e), k, id) && !e.Submitted? ==> FirstFor(Step(s, e), k, id)
    ensures Begins(s, Step(s, e), k, id) && e.Submitted? ==>
              k in s.judges && (FirstFor(Step(s, e), k, id) <==> OnlyLaterPriorities(s, k, e.priority))
  {
    if Begins(s, Step(s, e), k, id) {
      if e.Submitted? {
        DirectStartExact(s, e.sub, e.priority, e.chosen, k, id);
      } else {
        QueueNeverOvertakes(s, e, k, id);
      }
    }
  }

  /** Where these events lead from the empty dispatcher, if they can happen. */
  ghost function Reached(events: seq<Event>): Option<State> {
    if Possible(Initial(), events) then Some(Run(Initial(), events)) else None
  }

  /** The state in which enabling starves a judge, and from which a direct start overtakes, is reached by
      registering the judge, disabling it and submitting. */
  lemma WaitingIsReachable(j: JudgeHandler) returns (events: seq<Event>)
    ensures Reached(events) == Some(Waiting(j))
  {
    var info := JudgeInfo("a", 1, {"p"}, {"c"}, None, false, 0.0);
    var registered := Registered(j, info, Some(1), [j]);
    var disabled := DisabledSet("a", true, None, []);
    var submitted := Submitted(Submission(1, "p", "c", "", None, {}), 1, None);
    SubmissionWaits(j, info);
    OneMore(Initial().(judges := map[j := info.(disabled := true)]), submitted, []);
    JudgeIsDisabled(j, info);
    OneMore(Initial().(judges := map[j := info], minTier := Some(1)), disabled, [submitted] + []);
    JudgeArrives(j, info);
    events := [registered] + ([disabled] + ([submitted] + []));
    OneMore(Initial(), registered, [disabled] + ([submitted] + []));
  }

  lemma OneMore(s: State, e: Event, rest: seq<Event>)
    requires Allowed(s, e) && Possible(Step(s, e), rest)
    ensures Possible(s, [e] + rest) && Run(s, [e] + rest) == Run(Step(s, e), rest)
  {
    assert ([e] + rest)[1..] == rest;
  }

  lemma JudgeArrives(j: JudgeHandler, info: JudgeInfo)
    requires info == JudgeInfo("a", 1, {"p"}, {"c"}, None, false, 0.0)
    ensures Allowed(Initial(), Registered(j, info, Some(1), [j]))
    ensures Step(Initial(), Registered(j, info, Some(1), [j])) ==
            Initial().(judges := map[j := info], minTier := Some(1))
  {
    var s := Initial().(judges := map[j := info], minTier := Some(1));
    assert CurrentTier(s) == {j};
    assert FirstEligible(s.queue, info) == |s.queue| by {
      assert forall n <- s.queue :: n.Marker?;
    }
  }

  lemma JudgeIsDisabled(j: JudgeHandler, info: JudgeInfo)
    requires info == JudgeInfo("a", 1, {"p"}, {"c"}, None, false, 0.0)
    ensures var s := Initial().(judges := map[j := info], minTier := Some(1));
            Allowed(s, DisabledSet("a", true, None, [])) &&
            Step(s, DisabledSet("a", true, None, [])) == Initial().(judges := map[j := info.(disabled := true)])
  {
    var s := Initial().(judges := map[j := info], minTier := Some(1));
    assert Flagged(s.judges, "a", true) == map[j := info.(disabled := true)];
  }

  lemma SubmissionWaits(j: JudgeHandler, info: JudgeInfo)
    requires info == JudgeInfo("a", 1, {"p"}, {"c"}, None, false, 0.0)
    ensures var s := Initial().(judges := map[j := info.(disabled := true)]);
            var e := Submitted(Submission(1, "p", "c", "", None, {}), 1, None);
            Allowed(s, e) && Step(s, e) == Waiting(j)
  {
    var s := Initial().(judges := map[j := info.(disabled := true)]);
    assert Available(s, Submission(1, "p", "c", "", None, {})) == {};
    assert s.queue[..1] == [Marker(0)];
    PositionUnique(s.queue, Marker(1), 1);
  }

  ghost predicate GuardedRun(s: State, events: seq<Event>)
    requires Possible(s, events)
    decreases |events|
  {
    events != [] ==> Guarded(s, events[0]) && GuardedRun(Step(s, events[0]), events[1..])
  }

  ghost predicate SafeThroughout(s: State, events: seq<Event>)
    requires Possible(s, events)
    decreases |events|
  {
    Safe(s) && (events != [] ==> SafeThroughout(Step(s, events[0]), events[1..]))
  }

  /** A run conserves work from end to end exactly if no judge is enabled beside work it could do; and then
      nothing in it overtakes. */
  lemma {:induction false} ConservesIffGuarded(s: State, events: seq<Event>)
    requires Safe(s) && Possible(s, events)
    ensures SafeThroughout(s, events) <==> GuardedRun(s, events)
    ensures GuardedRun(s, events) ==> Safe(Run(s, events))
    decreases |events|
  {
    if events != [] {
      StepConserves(s, events[0]);
      if Safe(Step(s, events[0])) {
        ConservesIffGuarded(Step(s, events[0]), events[1..]);
      }
    }
  }

  lemma EveryGuardedState(events: seq<Event>, e: Event, k: JudgeHandler, id: Id)
    requires Possible(Initial(), events) && GuardedRun(Initial(), events) && Allowed(Run(Initial(), events), e)
    ensures var s := Run(Initial(), events);
            Safe(s) && (Begins(s, Step(s, e), k, id) ==> FirstFor(Step(s, e), k, id))
  {
    ConservesIffGuarded(Initial(), events);
    NextOvertakesNone(Run(Initial(), events), e, k, id);
  }

  lemma NextOvertakesNone(s: State, e: Event, k: JudgeHandler, id: Id)
    requires Safe(s) && Allowed(s, e)
    ensures Begins(s, Step(s, e), k, id) ==> FirstFor(Step(s, e), k, id)
  {
    if Begins(s, Step(s, e), k, id) {
      NoOvertaking(s, e, k, id);
    }
  }

  // ---- Where every accepted submission goes ----

  /** How many times an id is in the dispatcher's care: queued or running, and never both. */
  ghost function Live(s: State, id: Id): nat {
    (if Queued(s, id) then 1 else 0) + (if id in s.running then 1 else 0)
  }

  ghost predicate SameLive(s: State, s': State) {
    forall id :: Live(s', id) == Live(s, id)
  }

  /** Handing out work moves submissions from queued to running and loses none. */
  lemma HandleIdleLive(s: State, j: JudgeHandler)
    requires Core(s) && j in s.judges
    ensures SameLive(s, HandleIdle(s, j))
  {
    if HandleIdle(s, j) != s {
      var k := FirstEligible(s.queue, s.judges[j]);
      assert Queued(s, s.queue[k].sub.id) by { assert s.queue[k] in s.queue; }
      forall id
        ensures Live(HandleIdle(s, j), id) == Live(s, id)
      {
        RemovalTakesOne(s, k, id);
        assert Queued(HandleIdle(s, j), id) <==> Queued(s.(queue := Without(s.queue, k)), id);
      }
    }
  }

  lemma {:induction false} HandleAllLive(s: State, order: seq<JudgeHandler>)
    requires Core(s) && forall j <- order :: j in s.judges
    ensures SameLive(s, HandleAll(s, order))
    decreases |order|
  {
    if order != [] {
      var n := |order| - 1;
      HandleAllLive(s, order[..n]);
      HandleAllKeeps(s, order[..n]);
      HandleIdleLive(HandleAll(s, order[..n]), order[n]);
    }
  }

  lemma UpdateMinTierLive(s: State, t: Option<nat>, order: seq<JudgeHandler>)
    requires Core(s) && Retiered(s, t, order)
    ensures SameLive(s, UpdateMinTier(s, t, order))
  {
    var s1 := s.(minTier := t);
    JudgesChangedCore(s, s1);
    if Rises(s.minTier, t) {
      HandleAllLive(s1, order);
    }
    forall id
      ensures Live(s1, id) == Live(s, id)
    {
      assert Queued(s1, id) <==> Queued(s, id);
    }
  }

  /** What an operation adds to the submissions in the dispatcher's care, ... */
  ghost function Accepted(s: State, e: Event, id: Id): nat {
    if e.Submitted? && e.sub.id == id && !Known(s, id) then 1 else 0
  }

  /** ... and the three ways out of it. */
  datatype Exit = Finished | Cancelled | LostWithJudge

  ghost predicate Leaves(s: State, e: Event, exit: Exit, id: Id) {
    match (e, exit)
    case (Freed(_, i), Finished) => i == id && id in s.running
    case (Aborted(i), Cancelled) => i == id && id !in s.running && Queued(s, id)
    case (Removed(_, working, _, _), LostWithJudge) => working == Some(id)
    case _ => false
  }

  ghost function Leaving(s: State, e: Event, id: Id): nat {
    Count(Leaves(s, e, Finished, id)) + Count(Leaves(s, e, Cancelled, id)) + Count(Leaves(s, e, LostWithJudge, id))
  }

  function Count(b: bool): nat { if b then 1 else 0 }

  lemma JudgesChangedLive(s: State, s1: State, id: Id)
    requires s1.queue == s.queue
    ensures Live(s1, id) == Live(s, id) - Count(id in s.running) + Count(id in s1.running)
  {}

  lemma RemovedLive(s: State, j: JudgeHandler, t: Option<nat>, order: seq<JudgeHandler>, id: Id)
    requires Inv(s) && Allowed(s, Removed(j, WorkOf(s, j), t, order))
    ensures Live(Remove(s, j, WorkOf(s, j), t, order), id) + Leaving(s, Removed(j, WorkOf(s, j), t, order), id) ==
            Live(s, id)
  {
    var s1 := TakenOut(s, j, WorkOf(s, j));
    TakenOutCore(s, j, t, order);
    JudgesChangedLive(s, s1, id);
    UpdateMinTierLive(s1, t, order);
    UpdateMinTierKeeps(s1, t, order);
    HandleSoleLive(UpdateMinTier(s1, t, order));
  }

  lemma HandleSoleLive(s: State)
    requires Inv(s)
    ensures SameLive(s, HandleSole(s))
  {
    if exists k <- CurrentTier(s) :: CurrentTier(s) == {k} {
      var sole :| sole in CurrentTier(s) && CurrentTier(s) == {sole};
      HandleIdleLive(s, sole);
    }
  }

  lemma SubmittedLive(s: State, sub: Submission, priority: nat, chosen: Option<JudgeHandler>, id: Id)
    requires Inv(s) && Allowed(s, Submitted(sub, priority, chosen))
    ensures Live(Submit(s, sub, priority, chosen), id) ==
            Live(s, id) + Accepted(s, Submitted(sub, priority, chosen), id)
  {}

  lemma UpdateProblemsLive(s: State, j: JudgeHandler, problems: set<string>)
    requires Inv(s) && j in s.judges
    ensures SameLive(s, UpdateProblems(s, j, problems))
  {
    var s1 := s.(judges := s.judges[j := s.judges[j].(problems := problems)]);
    JudgesChangedCore(s, s1);
    HandleIdleLive(s1, j);
    forall id {
      JudgesChangedLive(s, s1, id);
    }
  }

  lemma {:induction false} UpdateProblemsAllLive(s: State, problems: set<string>, order: seq<JudgeHandler>)
    requires Inv(s) && forall j <- order :: j in s.judges
    ensures SameLive(s, UpdateProblemsAll(s, problems, order))
    decreases |order|
  {
    if order != [] {
      UpdateProblemsLive(s, order[0], problems);
      UpdateProblemsKeeps(s, order[0], problems);
      if !(s.minTier.None? && s.judges[order[0]].Idle()) {
        UpdateProblemsAllLive(UpdateProblems(s, order[0], problems), problems, order[1..]);
      }
    }
  }

  lemma FreedLive(s: State, j: JudgeHandler, i: Id, id: Id)
    requires Inv(s) && Allowed(s, Freed(j, i))
    ensures Live(Free(s, j, i), id) + Count(i == id && id in s.running) == Live(s, id)
  {
    if i in s.running {
      var s1 := s.(running := s.running - {i}, judges := s.judges[j := s.judges[j].(working := None)]);
      JudgesChangedCore(s, s1);
      JudgesChangedLive(s, s1, id);
      HandleIdleLive(s1, j);
      assert Free(s, j, i) == HandleIdle(s1, j);
    }
  }

  lemma RegisteredLive(s: State, j: JudgeHandler, info: JudgeInfo, t: Option<nat>, order: seq<JudgeHandler>, id: Id)
    requires Inv(s) && Allowed(s, Registered(j, info, t, order))
    ensures Live(Register(s, j, info, t, order), id) == Live(s, id)
  {
    var s1 := s.(judges := s.judges[j := info]);
    JudgesChangedCore(s, s1);
    JudgesChangedLive(s, s1, id);
    UpdateMinTierLive(s1, t, order);
    UpdateMinTierKeeps(s1, t, order);
    NoRise(s, s1, t);
    assert Register(s, j, info, t, order) == HandleIdle(UpdateMinTier(s1, t, order), j);
    HandleIdleLive(UpdateMinTier(s1, t, order), j);
  }

  lemma StepAccount(s: State, e: Event, id: Id)
    requires Inv(s) && Allowed(s, e)
    ensures Live(Step(s, e), id) + Leaving(s, e, id) == Live(s, id) + Accepted(s, e, id)
  {
    match e
    case Submitted(sub, priority, chosen) => SubmittedLive(s, sub, priority, chosen, id);
    case Freed(j, i) => FreedLive(s, j, i, id);
    case Registered(j, info, t, order) => RegisteredLive(s, j, info, t, order, id);
    case Removed(j, _, t, order) => RemovedLive(s, j, t, order, id);
    case Aborted(i) =>
      if i !in s.running && Queued(s, i) {
        RemovalTakesOne(s, IndexOf(s, i), id);
      }
    case ProblemsUpdated(j, problems) => UpdateProblemsLive(s, j, problems);
    case AllProblemsUpdated(problems, order) => UpdateProblemsAllLive(s, problems, order);
    case DisabledSet(name, flag, t, order) =>
      var s1 := s.(judges := Flagged(s.judges, name, flag));
      JudgesChangedCore(s, s1);
      JudgesChangedLive(s, s1, id);
      UpdateMinTierLive(s1, t, order);
    case Loaded(j, load) => JudgesChangedLive(s, SetLoad(s, j, load), id);
  }

  ghost function AcceptedIn(s: State, events: seq<Event>, id: Id): nat
    requires Possible(s, events)
    decreases |events|
  {
    if events == [] then 0 else Accepted(s, events[0], id) + AcceptedIn(Step(s, events[0]), events[1..], id)
  }

  ghost function LeftIn(s: State, events: seq<Event>, exit: Exit, id: Id): nat
    requires Possible(s, events)
    decreases |events|
  {
    if events == [] then 0
    else Count(Leaves(s, events[0], exit, id)) + LeftIn(Step(s, events[0]), events[1..], exit, id)
  }

  lemma {:induction false} RunAccount(s: State, events: seq<Event>, id: Id)
    requires Inv(s) && Possible(s, events)
    ensures Live(Run(s, events), id) + LeftIn(s, events, Finished, id) + LeftIn(s, events, Cancelled, id)
              + LeftIn(s, events, LostWithJudge, id) == Live(s, id) + AcceptedIn(s, events, id)
    decreases |events|
  {
    if events != [] {
      StepAccount(s, events[0], id);
      StepConserves(s, events[0]);
      RunAccount(Step(s, events[0]), events[1..], id);
    }
  }

  /** Over any run, every acceptance of every id is accounted for exactly once: it is still queued or still
      running, or it finished, was cancelled while queued, or was lost with the judge that ran it. */
  lemma EveryAcceptanceAccountedFor(events: seq<Event>, id: Id)
    requires Possible(Initial(), events)
    ensures var s := Run(Initial(), events);
            && AcceptedIn(Initial(), events, id) ==
                 Live(s, id) + LeftIn(Initial(), events, Finished, id) + LeftIn(Initial(), events, Cancelled, id)
                 + LeftIn(Initial(), events, LostWithJudge, id)
            && Live(s, id) <= 1
  {
    RunAccount(Initial(), events, id);
    RunInv(Initial(), events);
  }
}
