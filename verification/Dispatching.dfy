/** Every step of the dispatcher keeps its invariant and, the enabling of a judge apart, leaves no idle
    judge of the minimum tier without work it could do. */
module Dispatching {
  import opened Judges
  import opened Options
  import opened Scheduling

  /** The part of the invariant that also holds while the minimum tier is being recomputed. */
  ghost predicate Core(s: State) {
    Ordered(s.queue, s.tickets, s.clock) && Agree(s)
  }

  /** If j may take work, nothing queued suits it. */
  ghost predicate Satisfied(s: State, j: JudgeHandler)
    requires j in s.judges
  {
    s.judges[j].Idle() && s.minTier.Some? && s.judges[j].tier <= s.minTier.value ==> NoWork(s, j)
  }

  /** What handing out work can change: idle judges start, the queue only loses entries. */
  ghost predicate Progress(s: State, s': State) {
    && s'.judges.Keys == s.judges.Keys
    && s'.minTier == s.minTier && s'.tickets == s.tickets && s'.clock == s.clock
    && (forall n <- s'.queue :: n in s.queue)
    && (forall j <- s.judges :: Started(s.judges[j], s'.judges[j]))
  }

  predicate Started(a: JudgeInfo, b: JudgeInfo) {
    a == b || (a.Idle() && b.working.Some? && b == a.(working := b.working))
  }

  lemma StartAgrees(s: State, j: JudgeHandler, id: Id)
    requires Agree(s) && j in s.judges && s.judges[j].Idle() && id !in s.running && !Queued(s, id)
    ensures Agree(Start(s, j, id))
  {
    var s' := Start(s, j, id);
    forall i <- s'.running
      ensures s'.running[i] in s'.judges && s'.judges[s'.running[i]].working == Some(i) && !Queued(s', i)
    {
      assert Queued(s', i) <==> Queued(s, i);
    }
  }

  lemma HandleFreeKeeps(s: State, j: JudgeHandler)
    requires Core(s) && j in s.judges && s.judges[j].Idle()
    ensures Core(HandleFree(s, j)) && Progress(s, HandleFree(s, j)) && Satisfied(HandleFree(s, j), j)
  {
    var s' := HandleFree(s, j);
    if s.minTier.Some? && s.judges[j].tier <= s.minTier.value {
      var k := FirstEligible(s.queue, s.judges[j]);
      if k < |s.queue| {
        var id := s.queue[k].sub.id;
        var rest := s.(queue := Without(s.queue, k));
        RemovalKeepsOrder(s, k);
        assert Agree(rest) by {
          forall i <- s.running
            ensures !Queued(rest, i)
          {
            RemovalTakesOne(s, k, i);
          }
        }
        RemovalTakesOne(s, k, id);
        assert Queued(s, id);
        StartAgrees(rest, j, id);
        assert s' == Start(rest, j, id);
        assert forall n <- s'.queue :: n in s.queue;
      }
    }
  }

  lemma HandleIdleKeeps(s: State, j: JudgeHandler)
    requires Core(s) && j in s.judges
    ensures Core(HandleIdle(s, j)) && Progress(s, HandleIdle(s, j)) && Satisfied(HandleIdle(s, j), j)
  {
    if s.judges[j].Idle() {
      HandleFreeKeeps(s, j);
    }
  }

  lemma {:induction false} HandleAllKeeps(s: State, order: seq<JudgeHandler>)
    requires Core(s) && forall j <- order :: j in s.judges
    ensures Core(HandleAll(s, order)) && Progress(s, HandleAll(s, order))
    ensures forall j <- order :: Satisfied(HandleAll(s, order), j)
    decreases |order|
  {
    if order != [] {
      var n := |order| - 1;
      var s1 := HandleAll(s, order[..n]);
      HandleAllKeeps(s, order[..n]);
      HandleIdleKeeps(s1, order[n]);
      forall j <- order
        ensures Satisfied(HandleAll(s, order), j)
      {
        if j != order[n] {
          assert j in order[..n];
        }
      }
    }
  }

  // ---- The minimum tier ----

  lemma ProgressKeepsMinTier(s: State, s': State)
    requires Progress(s, s') && IsMinTier(s.judges, s.minTier)
    ensures IsMinTier(s'.judges, s'.minTier)
    ensures CurrentTier(s') == CurrentTier(s)
  {
    forall j <- s.judges
      ensures s'.judges[j].disabled == s.judges[j].disabled && s'.judges[j].tier == s.judges[j].tier
    {
      assert Started(s.judges[j], s'.judges[j]);
    }
  }

  /** Recomputing the minimum tier after the judges changed: if the minimum rises, every judge of the new
      tier is served. */
  lemma UpdateMinTierKeeps(s: State, t: Option<nat>, order: seq<JudgeHandler>)
    requires Core(s) && IsMinTier(s.judges, t)
    requires Listing(order, CurrentTier(s.(minTier := t)))
    ensures var s' := UpdateMinTier(s, t, order);
            && Inv(s') && Progress(s.(minTier := t), s')
            && (Rises(s.minTier, t) ==> WorkConserving(s'))
  {
    var s1 := s.(minTier := t);
    var s' := UpdateMinTier(s, t, order);
    assert Agree(s1) by {
      forall id <- s.running
        ensures !Queued(s1, id)
      {
        assert !Queued(s, id);
      }
    }
    if Rises(s.minTier, t) {
      HandleAllKeeps(s1, order);
    }
    ProgressKeepsMinTier(s1, s');
  }

  // ---- The public steps ----

  lemma SubmitKeeps(s: State, sub: Submission, priority: nat, chosen: Option<JudgeHandler>)
    requires Inv(s) && priority < PRIORITIES
    requires !Known(s, sub.id) && Available(s, sub) != {} ==> chosen.Some? && chosen.value in Available(s, sub)
    ensures Inv(Submit(s, sub, priority, chosen))
    ensures WorkConserving(s) ==> WorkConserving(Submit(s, sub, priority, chosen))
  {
    var s' := Submit(s, sub, priority, chosen);
    if !Known(s, sub.id) {
      var a := Accept(s, sub.id, priority);
      AcceptKeepsOrder(s, sub.id, priority);
      assert forall id :: Queued(a, id) <==> Queued(s, id);
      if Available(s, sub) != {} {
        StartAgrees(a, chosen.value, sub.id);
      } else {
        InsertionKeepsOrder(s, sub, priority);
        var k := Position(s.queue, Marker(priority));
        QueueingAgrees(s, sub, priority, k);
        forall j <- CurrentTier(s') | WorkConserving(s) && s'.judges[j].Idle()
          ensures NoWork(s', j)
        {
          assert j in CurrentTier(s) && j !in Available(s, sub);
          forall n <- s'.queue | n.Entry?
            ensures !Eligible(s'.judges[j], n.sub)
          {
            InsertedMembers(s.queue, k, Entry(sub), n);
          }
        }
      }
    }
  }

  lemma QueueingAgrees(s: State, sub: Submission, priority: nat, k: nat)
    requires Agree(s) && sub.id !in s.running && k <= |s.queue|
    ensures Agree(Accept(s, sub.id, priority).(queue := Inserted(s.queue, k, Entry(sub))))
  {
    var s' := Accept(s, sub.id, priority).(queue := Inserted(s.queue, k, Entry(sub)));
    forall id <- s.running
      ensures !Queued(s', id)
    {
      assert !Queued(s, id);
      forall n <- s'.queue
        ensures n.Entry? ==> n.sub.id != id
      {
        InsertedMembers(s.queue, k, Entry(sub), n);
      }
    }
  }

  /** The protocol a judge follows: it reports the submission it is running. */
  lemma FreeKeeps(s: State, j: JudgeHandler, id: Id)
    requires Inv(s) && j in s.judges && s.judges[j].working == Some(id)
    ensures Inv(Free(s, j, id))
    ensures WorkConserving(s) ==> WorkConserving(Free(s, j, id))
  {
    var s1 := s.(running := s.running - {id}, judges := s.judges[j := s.judges[j].(working := None)]);
    assert Agree(s1) by {
      forall i <- s1.running
        ensures !Queued(s1, i)
      {
        assert !Queued(s, i);
      }
    }
    assert IsMinTier(s1.judges, s1.minTier) by {
      if s.minTier.Some? {
        var k :| k in s.judges && !s.judges[k].disabled && s.judges[k].tier == s.minTier.value;
        assert s1.judges[k].tier == s.judges[k].tier;
      }
    }
    HandleFreeKeeps(s1, j);
    var s' := Free(s, j, id);
    ProgressKeepsMinTier(s1, s');
    if WorkConserving(s) {
      forall k <- CurrentTier(s')
        ensures Satisfied(s', k)
      {
        if k != j {
          assert k in CurrentTier(s) && s1.judges[k] == s.judges[k];
          assert Satisfied(s1, k);
        }
      }
    }
  }

  /** The freed id comes from the judge's packet.  The books stay right exactly when it is the judge's own
      submission, or one that is not running at all, for which the call raises before it changes anything. */
  lemma FreeExact(s: State, j: JudgeHandler, id: Id)
    requires Inv(s) && j in s.judges
    ensures Agree(Free(s, j, id)) <==> id !in s.running || s.judges[j].working == Some(id)
  {
    if s.judges[j].working == Some(id) {
      FreeKeeps(s, j, id);
    } else if id in s.running {
      var k := s.running[id];
      assert k != j && !Queued(s, id);
      var s1 := s.(running := s.running - {id}, judges := s.judges[j := s.judges[j].(working := None)]);
      var s' := HandleFree(s1, j);
      assert id !in s'.running by {
        var i := FirstEligible(s1.queue, s1.judges[j]);
        if i < |s1.queue| {
          assert s1.queue[i] in s.queue;
        }
      }
      assert s'.judges[k].working == Some(id);
    }
  }

  lemma RegisterKeeps(s: State, j: JudgeHandler, info: JudgeInfo, t: Option<nat>, order: seq<JudgeHandler>)
    requires Inv(s) && j !in s.judges && info.Idle()
    requires var s1 := s.(judges := s.judges[j := info]);
             IsMinTier(s1.judges, t) && Listing(order, CurrentTier(s1.(minTier := t)))
    ensures Inv(Register(s, j, info, t, order))
    ensures WorkConserving(s) ==> WorkConserving(Register(s, j, info, t, order))
  {
    var s1 := s.(judges := s.judges[j := info]);
    AddedAgrees(s, j, info);
    NoRise(s, s1, t);
    UpdateMinTierKeeps(s1, t, order);
    var s2 := s1.(minTier := t);
    assert UpdateMinTier(s1, t, order) == s2;
    HandleFreeKeeps(s2, j);
    ProgressKeepsMinTier(s2, HandleFree(s2, j));
    if WorkConserving(s) {
      AddedConserves(s, s2, HandleFree(s2, j), j);
    }
  }

  lemma AddedAgrees(s: State, j: JudgeHandler, info: JudgeInfo)
    requires Agree(s) && j !in s.judges && info.Idle()
    ensures Agree(s.(judges := s.judges[j := info]))
  {
    var s1 := s.(judges := s.judges[j := info]);
    forall i <- s1.running
      ensures !Queued(s1, i)
    {
      assert !Queued(s, i);
    }
  }

  /** As long as every enabled judge stays, the minimum tier cannot rise. */
  lemma NoRise(s: State, s1: State, t: Option<nat>)
    requires IsMinTier(s.judges, s.minTier) && IsMinTier(s1.judges, t)
    requires forall k <- s.judges :: !s.judges[k].disabled ==> k in s1.judges && s1.judges[k] == s.judges[k]
    ensures !Rises(s.minTier, t)
  {
    if s.minTier.Some? {
      var k :| k in s.judges && !s.judges[k].disabled && s.judges[k].tier == s.minTier.value;
      assert k in s1.judges && s1.judges[k] == s.judges[k];
    }
  }

  lemma AddedConserves(s: State, s2: State, s': State, j: JudgeHandler)
    requires IsMinTier(s.judges, s.minTier) && IsMinTier(s2.judges, s2.minTier)
    requires forall k <- s.judges :: k in s2.judges && s2.judges[k] == s.judges[k]
    requires s2.judges.Keys == s.judges.Keys + {j} && s2.queue == s.queue
    requires WorkConserving(s) && Progress(s2, s') && Satisfied(s', j) && CurrentTier(s') == CurrentTier(s2)
    ensures WorkConserving(s')
  {
    forall k <- CurrentTier(s')
      ensures Satisfied(s', k)
    {
      if k != j {
        assert k in CurrentTier(s) && Satisfied(s2, k);
      }
    }
  }

  lemma HandleSoleKeeps(s: State)
    requires Inv(s)
    ensures Inv(HandleSole(s)) && Progress(s, HandleSole(s))
    ensures WorkConserving(s) ==> WorkConserving(HandleSole(s))
  {
    var tier := CurrentTier(s);
    if exists j <- tier :: tier == {j} {
      var j :| j in tier && tier == {j};
      HandleIdleKeeps(s, j);
      assert HandleSole(s) == HandleIdle(s, j);
      ProgressKeepsMinTier(s, HandleSole(s));
    }
  }

  /** A tier that was the minimum and still is keeps its satisfied judges; one that rose was served. */
  lemma TierChangeConserves(s: State, s1: State, t: Option<nat>, order: seq<JudgeHandler>)
    requires Core(s1) && IsMinTier(s.judges, s.minTier) && IsMinTier(s1.judges, t) && s1.minTier == s.minTier
    requires Listing(order, CurrentTier(s1.(minTier := t)))
    requires forall n <- s1.queue :: n in s.queue
    requires WorkConserving(s)
    requires forall j <- s1.judges :: !s1.judges[j].disabled ==> j in s.judges && s.judges[j] == s1.judges[j]
    ensures WorkConserving(UpdateMinTier(s1, t, order))
  {
    UpdateMinTierKeeps(s1, t, order);
    if !Rises(s.minTier, t) {
      forall j <- CurrentTier(s1.(minTier := t))
        ensures s.minTier == t
      {
        assert !s.judges[j].disabled;
      }
    }
  }

  /** The submission a registered judge says it is running; a judge that never registered runs none. */
  function WorkOf(s: State, j: JudgeHandler): Option<Id> {
    if j in s.judges then s.judges[j].working else None
  }

  lemma RemoveKeeps(s: State, j: JudgeHandler, t: Option<nat>, order: seq<JudgeHandler>)
    requires Inv(s)
    requires var s1 := s.(judges := s.judges - {j});
             IsMinTier(s1.judges, t) && Listing(order, CurrentTier(s1.(minTier := t)))
    ensures Inv(Remove(s, j, WorkOf(s, j), t, order))
    ensures WorkConserving(s) ==> WorkConserving(Remove(s, j, WorkOf(s, j), t, order))
  {
    var s1 := TakenOut(s, j, WorkOf(s, j));
    assert Agree(s1) by {
      forall i <- s1.running
        ensures s1.running[i] in s1.judges && !Queued(s1, i)
      {
        assert !Queued(s, i);
      }
    }
    assert CurrentTier(s1.(minTier := t)) == CurrentTier(s.(judges := s.judges - {j}, minTier := t));
    UpdateMinTierKeeps(s1, t, order);
    if WorkConserving(s) {
      TierChangeConserves(s, s1, t, order);
    }
    HandleSoleKeeps(UpdateMinTier(s1, t, order));
  }

  lemma AbortKeeps(s: State, id: Id)
    requires Inv(s)
    ensures Inv(Abort(s, id))
    ensures WorkConserving(s) ==> WorkConserving(Abort(s, id))
    ensures !Queued(Abort(s, id), id)
  {
    if id !in s.running && Queued(s, id) {
      var k := IndexOf(s, id);
      var s' := Abort(s, id);
      RemovalKeepsOrder(s, k);
      RemovalTakesOne(s, k, id);
      forall i <- s.running
        ensures !Queued(s', i)
      {
        RemovalTakesOne(s, k, i);
      }
      assert forall n <- s'.queue :: n in s.queue;
    }
  }

  lemma LoadKeeps(s: State, j: JudgeHandler, load: real)
    requires Inv(s) && j in s.judges
    ensures Inv(SetLoad(s, j, load)) && (WorkConserving(SetLoad(s, j, load)) <==> WorkConserving(s))
  {
    var s' := SetLoad(s, j, load);
    assert forall id :: Queued(s', id) <==> Queued(s, id);
    assert IsMinTier(s'.judges, s'.minTier) by {
      if s.minTier.Some? {
        var k :| k in s.judges && !s.judges[k].disabled && s.judges[k].tier == s.minTier.value;
        assert s'.judges[k].tier == s.judges[k].tier;
      }
    }
    assert CurrentTier(s') == CurrentTier(s);
    assert forall k <- s.judges, sub :: Eligible(s'.judges[k], sub) == Eligible(s.judges[k], sub);
  }

  lemma UpdateProblemsKeeps(s: State, j: JudgeHandler, problems: set<string>)
    requires Inv(s) && j in s.judges
    ensures Inv(UpdateProblems(s, j, problems))
    ensures UpdateProblems(s, j, problems).judges.Keys == s.judges.Keys
    ensures WorkConserving(s) ==> WorkConserving(UpdateProblems(s, j, problems))
  {
    var s1 := s.(judges := s.judges[j := s.judges[j].(problems := problems)]);
    assert Agree(s1) by {
      forall i <- s1.running
        ensures !Queued(s1, i)
      {
        assert !Queued(s, i);
      }
    }
    assert IsMinTier(s1.judges, s1.minTier) by {
      if s.minTier.Some? {
        var k :| k in s.judges && !s.judges[k].disabled && s.judges[k].tier == s.minTier.value;
        assert s1.judges[k].tier == s.judges[k].tier;
      }
    }
    HandleIdleKeeps(s1, j);
    var s' := HandleIdle(s1, j);
    ProgressKeepsMinTier(s1, s');
    if WorkConserving(s) {
      forall k <- CurrentTier(s')
        ensures Satisfied(s', k)
      {
        if k != j {
          assert k in CurrentTier(s) && s1.judges[k] == s.judges[k];
          assert Satisfied(s1, k);
        }
      }
    }
  }

  lemma {:induction false} UpdateProblemsAllKeeps(s: State, problems: set<string>, order: seq<JudgeHandler>)
    requires Inv(s) && forall j <- order :: j in s.judges
    ensures Inv(UpdateProblemsAll(s, problems, order))
    ensures WorkConserving(s) ==> WorkConserving(UpdateProblemsAll(s, problems, order))
    decreases |order|
  {
    if order != [] {
      UpdateProblemsKeeps(s, order[0], problems);
      if !(s.minTier.None? && s.judges[order[0]].Idle()) {
        UpdateProblemsAllKeeps(UpdateProblems(s, order[0], problems), problems, order[1..]);
      }
    }
  }

  lemma SetDisabledKeeps(s: State, name: string, flag: bool, t: Option<nat>, order: seq<JudgeHandler>)
    requires Inv(s)
    requires var s1 := s.(judges := Flagged(s.judges, name, flag));
             IsMinTier(s1.judges, t) && Listing(order, CurrentTier(s1.(minTier := t)))
    ensures Inv(SetDisabled(s, name, flag, t, order))
    ensures WorkConserving(s) && flag ==> WorkConserving(SetDisabled(s, name, flag, t, order))
  {
    var s1 := s.(judges := Flagged(s.judges, name, flag));
    assert Agree(s1) by {
      forall i <- s1.running
        ensures !Queued(s1, i)
      {
        assert !Queued(s, i);
      }
      forall j <- s1.judges
        ensures s1.judges[j].working == s.judges[j].working
      {}
    }
    UpdateMinTierKeeps(s1, t, order);
    if WorkConserving(s) && flag {
      TierChangeConserves(s, s1, t, order);
    }
  }

  /** Enabling hands out no work: afterwards work is conserved if and only if no idle judge that is being
      enabled, and will be of the minimum tier, has something suitable in the queue. */
  ghost predicate NothingForEnabled(s: State, name: string, t: Option<nat>) {
    forall j <- s.judges ::
      s.judges[j].name == name && s.judges[j].Idle() && t == Some(s.judges[j].tier) ==>
        forall n <- s.queue :: n.Entry? ==> !Eligible(s.judges[j].(disabled := false), n.sub)
  }

  lemma EnableExact(s: State, name: string, t: Option<nat>, order: seq<JudgeHandler>)
    requires Inv(s) && WorkConserving(s)
    requires var s1 := s.(judges := Flagged(s.judges, name, false));
             IsMinTier(s1.judges, t) && Listing(order, CurrentTier(s1.(minTier := t)))
    ensures WorkConserving(SetDisabled(s, name, false, t, order)) <==> NothingForEnabled(s, name, t)
  {
    var s1 := s.(judges := Flagged(s.judges, name, false));
    NoRise(s, s1, t);
    var s' := SetDisabled(s, name, false, t, order);
    assert s' == s1.(minTier := t);
    if NothingForEnabled(s, name, t) {
      forall j <- CurrentTier(s') | s'.judges[j].Idle()
        ensures NoWork(s', j)
      {
        if s.judges[j].name != name {
          EnabledTierOfOthers(s, s1, t, j);
          assert j in CurrentTier(s);
        }
      }
    }
    if WorkConserving(s') {
      forall j <- s.judges | s.judges[j].name == name && s.judges[j].Idle() && t == Some(s.judges[j].tier)
        ensures forall n <- s.queue :: n.Entry? ==> !Eligible(s.judges[j].(disabled := false), n.sub)
      {
        assert j in CurrentTier(s') && NoWork(s', j);
      }
    }
  }

  /** A judge not being enabled is of the new minimum tier only if that was the minimum before. */
  lemma EnabledTierOfOthers(s: State, s1: State, t: Option<nat>, j: JudgeHandler)
    requires IsMinTier(s.judges, s.minTier) && IsMinTier(s1.judges, t)
    requires s1.judges.Keys == s.judges.Keys
    requires forall k <- s.judges :: !s.judges[k].disabled ==> s1.judges[k] == s.judges[k]
    requires j in s.judges && s.judges[j] == s1.judges[j] && InTier(s.judges[j], t)
    ensures s.minTier == t
  {}

  /** One disabled judge, and one queued submission it could run. */
  function Waiting(j: JudgeHandler): State {
    State([Marker(0), Entry(Submission(1, "p", "c", "", None, {})), Marker(1), Marker(2), Marker(3)],
          map[j := JudgeInfo("a", 1, {"p"}, {"c"}, None, true, 0.0)], map[], None, map[1 := Ticket(1, 0)], 1)
  }

  lemma WaitingOrdered(j: JudgeHandler)
    ensures var s := Waiting(j); Ordered(s.queue, s.tickets, s.clock)
  {
    var q := Waiting(j).queue;
    assert q[0] == Marker(0) && q[2] == Marker(1) && q[3] == Marker(2) && q[4] == Marker(3);
  }

  lemma WaitingInv(j: JudgeHandler)
    ensures Inv(Waiting(j)) && WorkConserving(Waiting(j))
  {
    WaitingOrdered(j);
  }

  /** Enabling the only judge while a submission it could run is queued leaves it idle beside that submission. */
  lemma EnableCanStarve(j: JudgeHandler)
    ensures Inv(Waiting(j)) && WorkConserving(Waiting(j))
    ensures !WorkConserving(SetDisabled(Waiting(j), "a", false, Some(1), [j]))
  {
    var s := Waiting(j);
    WaitingInv(j);
    var s1 := s.(judges := Flagged(s.judges, "a", false));
    assert s1.judges[j] == s.judges[j].(disabled := false);
    assert CurrentTier(s1.(minTier := Some(1))) == {j};
    EnableExact(s, "a", Some(1), [j]);
    assert s.queue[1] in s.queue && Eligible(s.judges[j].(disabled := false), s.queue[1].sub);
  }
}
