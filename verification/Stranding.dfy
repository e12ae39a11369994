/** What a failed dispatch can lead to in the dispatcher (judge/bridge/judge_list.py): a judge whose submission
    is neither running by the books nor queued, and what becomes of it over all runs. */
module Stranding {
  import opened Judges
  import opened Options
  import opened Scheduling
  import opened Dispatching
  import opened DispatchRuns

  /** A registered judge that goes takes its own submission with it.  One that a failed dispatch had already
      dropped may still name the submission: its removal keeps the books of the registered judges exactly when
      none of them has taken that submission over meanwhile. */
  lemma RemovalExact(s: State, j: JudgeHandler, working: Option<Id>)
    requires AgreeRegistered(s) && (j in s.judges ==> working == s.judges[j].working)
    ensures AgreeRegistered(TakenOut(s, j, working)) <==>
            !(working.Some? && working.value in s.running && s.running[working.value] in s.judges - {j})
  {
    var s' := TakenOut(s, j, working);
    assert forall id :: Queued(s', id) <==> Queued(s, id);
    if working.Some? && working.value in s.running && s.running[working.value] in s.judges - {j} {
      var k := s.running[working.value];
      assert k in s'.judges && s'.judges[k].working == working;
    }
  }

  /** A dispatch that failed after the judge was marked: its entry stays, the submission stays queued, and the
      judge is dropped. */
  function FailedDispatch(s: State, j: JudgeHandler, t: Option<nat>): State
    requires j in s.judges
  {
    var k := FirstEligible(s.queue, s.judges[j]);
    if k == |s.queue| then s
    else s.(running := s.running[s.queue[k].sub.id := j], judges := s.judges - {j}, minTier := t)
  }

  lemma FailedDispatchKeeps(s: State, j: JudgeHandler, t: Option<nat>)
    requires AgreeRegistered(s) && j in s.judges && s.judges[j].Idle()
    ensures AgreeRegistered(FailedDispatch(s, j, t))
  {
    var s' := FailedDispatch(s, j, t);
    assert forall id :: Queued(s', id) <==> Queued(s, id);
    var k := FirstEligible(s.queue, s.judges[j]);
    if k < |s.queue| {
      assert Queued(s, s.queue[k].sub.id) by { assert s.queue[k] in s.queue; }
    }
  }

  /** The submission that a judge works on though it is neither running by the books nor queued. */
  ghost function StrandedOn(s: State, j: JudgeHandler): Option<Id> {
    if j in s.judges && s.judges[j].working.Some? && !Known(s, s.judges[j].working.value) then s.judges[j].working
    else None
  }

  lemma UnsafeRemovalStrands(s: State, j: JudgeHandler, id: Id)
    requires AgreeRegistered(s) && j !in s.judges && id in s.running && s.running[id] in s.judges
    ensures StrandedOn(TakenOut(s, j, Some(id)), s.running[id]) == Some(id)
  {
    assert Queued(TakenOut(s, j, Some(id)), id) <==> Queued(s, id);
  }

  // ---- How long a judge stays stranded ----

  /** The two events that end it: the submission is accepted again, or the judge goes. */
  predicate Ends(e: Event, j: JudgeHandler, id: Id) {
    (e.Submitted? && e.sub.id == id) || (e.Removed? && e.j == j)
  }

  lemma HandleFreeLeaves(s: State, k: JudgeHandler, j: JudgeHandler, id: Id)
    requires k in s.judges && k != j && StrandedOn(s, j) == Some(id)
    ensures StrandedOn(HandleFree(s, k), j) == Some(id)
  {
    var s' := HandleFree(s, k);
    assert forall n <- s'.queue :: n in s.queue;
    var i := FirstEligible(s.queue, s.judges[k]);
    assert i < |s.queue| ==> s.queue[i] in s.queue;
  }

  lemma HandleIdleLeaves(s: State, k: JudgeHandler, j: JudgeHandler, id: Id)
    requires k in s.judges && StrandedOn(s, j) == Some(id)
    ensures StrandedOn(HandleIdle(s, k), j) == Some(id)
  {
    if s.judges[k].Idle() {
      HandleFreeLeaves(s, k, j, id);
    }
  }

  lemma {:induction false} HandleAllLeaves(s: State, order: seq<JudgeHandler>, j: JudgeHandler, id: Id)
    requires (forall k <- order :: k in s.judges) && StrandedOn(s, j) == Some(id)
    ensures StrandedOn(HandleAll(s, order), j) == Some(id)
    decreases |order|
  {
    if order != [] {
      var n := |order| - 1;
      HandleAllLeaves(s, order[..n], j, id);
      HandleIdleLeaves(HandleAll(s, order[..n]), order[n], j, id);
    }
  }

  lemma UpdateMinTierLeaves(s: State, t: Option<nat>, order: seq<JudgeHandler>, j: JudgeHandler, id: Id)
    requires (forall k <- order :: k in s.judges) && StrandedOn(s, j) == Some(id)
    ensures StrandedOn(UpdateMinTier(s, t, order), j) == Some(id)
  {
    assert StrandedOn(s.(minTier := t), j) == Some(id);
    HandleAllLeaves(s.(minTier := t), order, j, id);
  }

  /** The removal of another judge, whatever submission it names: also of one dropped before. */
  lemma RemoveLeaves(s: State, k: JudgeHandler, working: Option<Id>, t: Option<nat>, order: seq<JudgeHandler>,
                     j: JudgeHandler, id: Id)
    requires (forall i <- order :: i in s.judges && i != k) && k != j && StrandedOn(s, j) == Some(id)
    ensures StrandedOn(Remove(s, k, working, t, order), j) == Some(id)
  {
    var s1 := TakenOut(s, k, working);
    assert StrandedOn(s1, j) == Some(id);
    UpdateMinTierLeaves(s1, t, order, j, id);
    var s2 := UpdateMinTier(s1, t, order);
    if exists i <- CurrentTier(s2) :: CurrentTier(s2) == {i} {
      var sole :| sole in CurrentTier(s2) && CurrentTier(s2) == {sole};
      HandleIdleLeaves(s2, sole, j, id);
    }
  }

  lemma UpdateProblemsLeaves(s: State, k: JudgeHandler, problems: set<string>, j: JudgeHandler, id: Id)
    requires k in s.judges && StrandedOn(s, j) == Some(id)
    ensures StrandedOn(UpdateProblems(s, k, problems), j) == Some(id)
  {
    var s1 := s.(judges := s.judges[k := s.judges[k].(problems := problems)]);
    assert StrandedOn(s1, j) == Some(id);
    HandleIdleLeaves(s1, k, j, id);
  }

  lemma {:induction false} UpdateProblemsAllLeaves(s: State, problems: set<string>, order: seq<JudgeHandler>,
                                                   j: JudgeHandler, id: Id)
    requires (forall k <- order :: k in s.judges) && StrandedOn(s, j) == Some(id)
    ensures StrandedOn(UpdateProblemsAll(s, problems, order), j) == Some(id)
    decreases |order|
  {
    if order != [] {
      var s1 := UpdateProblems(s, order[0], problems);
      UpdateProblemsLeaves(s, order[0], problems, j, id);
      if !(s.minTier.None? && s.judges[order[0]].Idle()) {
        UpdateProblemsAllLeaves(s1, problems, order[1..], j, id);
      }
    }
  }

  /** A stranded judge stays so, with the same submission, exactly as long as the submission is not accepted again
      and the judge does not go.  Its own report of that submission in particular changes nothing. */
  lemma StrandedExact(s: State, e: Event, j: JudgeHandler, id: Id)
    requires Allowed(s, e) && StrandedOn(s, j) == Some(id)
    ensures StrandedOn(Step(s, e), j) == Some(id) <==> !Ends(e, j, id)
  {
    match e
    case Submitted(sub, priority, chosen) =>
      var s' := Submit(s, sub, priority, chosen);
      var q := s.queue;
      forall n
        ensures n in s'.queue ==> n in q || n == Entry(sub)
        ensures !Known(s, sub.id) && s'.queue != q ==> Entry(sub) in s'.queue
      {
        InsertedMembers(q, Position(q, Marker(priority)), Entry(sub), n);
        InsertedMembers(q, Position(q, Marker(priority)), Entry(sub), Entry(sub));
      }
    case Freed(k, id0) =>
      if id0 in s.running {
        var s1 := s.(running := s.running - {id0}, judges := s.judges[k := s.judges[k].(working := None)]);
        assert StrandedOn(s1, j) == Some(id);
        HandleFreeLeaves(s1, k, j, id);
      }
    case Registered(k, info, t, order) =>
      var s1 := s.(judges := s.judges[k := info]);
      assert StrandedOn(s1, j) == Some(id);
      UpdateMinTierLeaves(s1, t, order, j, id);
      HandleFreeLeaves(UpdateMinTier(s1, t, order), k, j, id);
    case Removed(k, working, t, order) =>
      if k != j {
        RemoveLeaves(s, k, working, t, order, j, id);
      }
    case Aborted(id0) => assert forall n <- Abort(s, id0).queue :: n in s.queue;
    case ProblemsUpdated(k, problems) => UpdateProblemsLeaves(s, k, problems, j, id);
    case AllProblemsUpdated(problems, order) => UpdateProblemsAllLeaves(s, problems, order, j, id);
    case DisabledSet(name, flag, t, order) =>
      var s1 := s.(judges := Flagged(s.judges, name, flag));
      assert StrandedOn(s1, j) == Some(id);
      UpdateMinTierLeaves(s1, t, order, j, id);
    case Loaded(k, load) =>
  }

  ghost predicate StrandedThroughout(s: State, events: seq<Event>, j: JudgeHandler, id: Id)
    decreases |events|
  {
    && StrandedOn(s, j) == Some(id)
    && (events != [] ==> Allowed(s, events[0]) && StrandedThroughout(Step(s, events[0]), events[1..], j, id))
  }

  /** The same for whole runs. */
  lemma {:induction false} StrandedRunExact(s: State, events: seq<Event>, j: JudgeHandler, id: Id)
    requires Possible(s, events) && StrandedOn(s, j) == Some(id)
    ensures StrandedThroughout(s, events, j, id) <==> forall e <- events :: !Ends(e, j, id)
    ensures StrandedThroughout(s, events, j, id) ==> StrandedOn(Run(s, events), j) == Some(id)
    decreases |events|
  {
    if events != [] {
      StrandedExact(s, events[0], j, id);
      assert events == [events[0]] + events[1..];
      if !Ends(events[0], j, id) {
        StrandedRunExact(Step(s, events[0]), events[1..], j, id);
      }
    }
  }

  /** Of two judges that work on one submission, the report of the first takes the entry away: the second is
      stranded, and the first is free of it. */
  lemma ReportPassesItOn(s: State, j: JudgeHandler, k: JudgeHandler, id: Id)
    requires {j, k} <= s.judges.Keys && j != k && s.judges[j].working == s.judges[k].working == Some(id)
    requires id in s.running && !Queued(s, id)
    ensures StrandedOn(Free(s, j, id), k) == Some(id) && Free(s, j, id).judges[j].working != Some(id)
  {
    var s1 := s.(running := s.running - {id}, judges := s.judges[j := s.judges[j].(working := None)]);
    assert StrandedOn(s1, k) == Some(id);
    HandleFreeLeaves(s1, j, k, id);
    var i := FirstEligible(s.queue, s1.judges[j]);
    assert i < |s.queue| ==> s.queue[i] in s.queue;
  }

  /** So when the submission of a stranded judge is accepted again and starts on another judge, the next report of
      the first frees it and strands the other one. */
  lemma ReacceptanceMovesIt(s: State, j: JudgeHandler, sub: Submission, priority: nat, k: JudgeHandler)
    requires StrandedOn(s, j) == Some(sub.id)
    requires Allowed(s, Submitted(sub, priority, Some(k))) && k in Available(s, sub)
    ensures var t := Step(s, Submitted(sub, priority, Some(k)));
            && Allowed(t, Freed(j, sub.id))
            && StrandedOn(Step(t, Freed(j, sub.id)), k) == Some(sub.id)
            && Step(t, Freed(j, sub.id)).judges[j].working != Some(sub.id)
  {
    var t := Step(s, Submitted(sub, priority, Some(k)));
    assert Queued(t, sub.id) <==> Queued(s, sub.id);
    ReportPassesItOn(t, j, k, sub.id);
  }

  // One submission is queued.  The first judge that comes fails to receive it and is dropped, a second one
  // takes it, and only then the connection of the first one closes.

  const SMALL := JudgeInfo("a", 1, {"p"}, {"c"}, None, false, 0.0)

  function Arrived(d: JudgeHandler): State {
    Waiting(d).(judges := map[d := SMALL], minTier := Some(1))
  }

  function Dropped(d: JudgeHandler): State {
    Waiting(d).(judges := map[], running := map[1 := d])
  }

  function TakenOver(d: JudgeHandler, k: JudgeHandler): State {
    Waiting(d).(queue := [Marker(0), Marker(1), Marker(2), Marker(3)], running := map[1 := k], minTier := Some(1),
                judges := map[k := SMALL.(working := Some(1))])
  }

  lemma FirstFails(d: JudgeHandler)
    ensures FailedDispatch(Arrived(d), d, None) == Dropped(d)
  {
    FirstIsEntry(Arrived(d), SMALL);
  }

  lemma SecondTakes(d: JudgeHandler, k: JudgeHandler)
    ensures Register(Dropped(d), k, SMALL, Some(1), []) == TakenOver(d, k)
  {
    var s1 := Dropped(d).(judges := map[k := SMALL], minTier := Some(1));
    FirstIsEntry(s1, SMALL);
    assert UpdateMinTier(Dropped(d).(judges := Dropped(d).judges[k := SMALL]), Some(1), []) == s1;
    assert Without(s1.queue, 1) == TakenOver(d, k).queue;
    assert s1.judges[k := SMALL.(working := Some(1))] == TakenOver(d, k).judges;
    assert s1.running[1 := k] == TakenOver(d, k).running;
  }

  lemma FirstCloses(d: JudgeHandler, k: JudgeHandler)
    requires d != k
    ensures Remove(TakenOver(d, k), d, Some(1), Some(1), []) == TakenOver(d, k).(running := map[])
  {
    var s1 := TakenOut(TakenOver(d, k), d, Some(1));
    assert s1.running == map[] && s1.judges == TakenOver(d, k).judges;
    assert UpdateMinTier(s1, Some(1), []) == s1;
    assert CurrentTier(s1) == {k};
  }

  /** That close strands the second judge. */
  lemma LateDisconnectStrands(d: JudgeHandler, k: JudgeHandler)
    requires d != k
    ensures var taken := Register(FailedDispatch(Arrived(d), d, None), k, SMALL, Some(1), []);
            && AgreeRegistered(taken) && taken.judges[k].working == Some(1)
            && StrandedOn(Remove(taken, d, Some(1), Some(1), []), k) == Some(1)
  {
    FirstFails(d);
    SecondTakes(d, k);
    FirstCloses(d, k);
    TakenOverAgrees(d, k);
  }

  lemma TakenOverAgrees(d: JudgeHandler, k: JudgeHandler)
    ensures AgreeRegistered(TakenOver(d, k)) && StrandedOn(TakenOver(d, k).(running := map[]), k) == Some(1)
  {
    assert forall n <- TakenOver(d, k).queue :: n.Marker?;
  }

  lemma FirstIsEntry(s: State, j: JudgeInfo)
    requires |s.queue| == 5 && s.queue[0].Marker? && s.queue[1].Entry? && Eligible(j, s.queue[1].sub)
    ensures FirstEligible(s.queue, j) == 1
  {
    assert s.queue[1..][0] == s.queue[1];
  }

  /** What is left after that close, with a third judge registered. */
  function Joined(d: JudgeHandler, j: JudgeHandler, k: JudgeHandler): State {
    TakenOver(d, j).(running := map[], judges := map[j := SMALL.(working := Some(1)), k := SMALL.(name := "b")])
  }

  /** It is reached from there. */
  lemma ThirdJoins(d: JudgeHandler, j: JudgeHandler, k: JudgeHandler)
    requires d != j && j != k
    ensures var s, e := TakenOver(d, j).(running := map[]), Registered(k, SMALL.(name := "b"), Some(1), [j, k]);
            Allowed(s, e) && Step(s, e) == Joined(d, j, k)
  {
    var s, info := TakenOver(d, j).(running := map[]), SMALL.(name := "b");
    var s1 := s.(judges := s.judges[k := info]);
    assert s1 == Joined(d, j, k) && CurrentTier(s1) == {j, k};
    NothingQueued(s1, info);
  }

  lemma NothingQueued(s: State, j: JudgeInfo)
    requires forall i :: 0 <= i < |s.queue| ==> s.queue[i].Marker?
    ensures FirstEligible(s.queue, j) == |s.queue|
  {}

  /** The second judge is stranded, the submission is accepted again and starts on the third, and the second one
      reports: now it is idle and the third one is stranded. */
  lemma StrandedMoves(d: JudgeHandler, j: JudgeHandler, k: JudgeHandler)
    requires d != j && j != k
    ensures var s := Joined(d, j, k);
            var again := Submitted(Submission(1, "p", "c", "", None, {}), 1, Some(k));
            && StrandedOn(s, j) == Some(1) && Allowed(s, again) && Allowed(Step(s, again), Freed(j, 1))
            && var u := Step(Step(s, again), Freed(j, 1));
               u.judges[j].working == None && StrandedOn(u, k) == Some(1)
  {
    var s, sub := Joined(d, j, k), Submission(1, "p", "c", "", None, {});
    assert StrandedOn(s, j) == Some(1) && Available(s, sub) == {k};
    ReacceptanceMovesIt(s, j, sub, 1, k);
    var t := Step(s, Submitted(sub, 1, Some(k)));
    NothingQueued(t, t.judges[j].(working := None));
  }
}
