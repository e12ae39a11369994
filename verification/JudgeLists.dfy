/** The dispatcher object (judge/bridge/judge_list.py): the linked queue with its index, the judge set and
    the running map, updated in place.  Each public method holds the lock, so it is one step. */
module JudgeLists {
  import opened Judges
  import opened Options
  import opened Scheduling
  import opened DispatchRuns
  import opened Lanes
  import Sets
  import Targets

  /** A node of the doubly linked list; its identity is what the index and the marker table keep. */
  class ListNode {
    const value: Node

    constructor (value: Node)
      ensures this.value == value
    {
      this.value := value;
    }
  }

  function Values(q: seq<ListNode>): (v: seq<Node>)
    ensures |v| == |q| && forall i :: 0 <= i < |q| ==> v[i] == q[i].value
  {
    seq(|q|, i requires 0 <= i < |q| => q[i].value)
  }

  function Table(js: set<JudgeHandler>): map<JudgeHandler, JudgeInfo>
    reads js
  {
    map j | j in js :: j.Info()
  }

  /** Judges above the minimum tier: what every further round of the recursion has fewer of. */
  function Above(js: set<JudgeHandler>, t: Option<nat>): set<JudgeHandler> {
    set j | j in js && t.Some? && j.tier > t.value
  }

  /** t is the least tier among the enabled of js; None when there is none. */
  ghost predicate MinOf(js: set<JudgeHandler>, t: Option<nat>)
    reads js`isDisabled
  {
    && (t.None? ==> forall j <- js :: j.isDisabled)
    && (t.Some? ==>
          && (exists j <- js :: !j.isDisabled && j.tier == t.value)
          && (forall j <- js :: !j.isDisabled ==> t.value <= j.tier))
  }

  lemma MinOfTable(js: set<JudgeHandler>, t: Option<nat>)
    ensures MinOf(js, t) <==> IsMinTier(Table(js), t)
  {
    var table := Table(js);
    assert forall j <- js :: table[j].disabled == j.isDisabled && table[j].tier == j.tier;
    if t.Some? && MinOf(js, t) {
      var j :| j in js && !j.isDisabled && j.tier == t.value;
      assert !table[j].disabled && table[j].tier == t.value;
    }
  }

  /** Fewer judges have no lower minimum. */
  lemma AboveShrinks(a: set<JudgeHandler>, t: Option<nat>, b: set<JudgeHandler>, u: Option<nat>)
    requires MinOf(a, t) && MinOf(b, u) && b <= a
    ensures |Above(b, u)| <= |Above(a, t)|
  {
    Sets.SubsetSize(Above(b, u), Above(a, t));
  }

  /** Only whether j is working changed. */
  ghost predicate OnlyWorking(a: map<JudgeHandler, JudgeInfo>, b: map<JudgeHandler, JudgeInfo>, j: JudgeHandler) {
    && a.Keys == b.Keys
    && (forall k <- a :: k != j ==> b[k] == a[k])
    && (j in a ==> b[j] == a[j].(working := b[j].working))
  }

  ghost predicate Distinct(q: seq<ListNode>) {
    forall i, k :: 0 <= i < k < |q| ==> q[i] != q[k]
  }

  /** `priority[p]` is the node of marker p. */
  ghost predicate Marked(q: seq<ListNode>, priority: seq<ListNode>) {
    |priority| == PRIORITIES && forall p :: 0 <= p < PRIORITIES ==> priority[p] in q && priority[p].value == Marker(p)
  }

  /** The index has exactly the entries of the list. */
  ghost predicate Indexed(q: seq<ListNode>, index: map<Id, ListNode>) {
    && (forall id <- index :: index[id] in q && index[id].value.Entry? && index[id].value.sub.id == id)
    && (forall n <- q :: n.value.Entry? ==> n.value.sub.id in index && index[n.value.sub.id] == n)
  }

  lemma DropDistinct(q: seq<ListNode>, k: nat, n: ListNode)
    requires Distinct(q) && k < |q|
    ensures Distinct(Without(q, k))
    ensures n in Without(q, k) <==> n in q && n != q[k]
  {}

  lemma DropIndexed(q: seq<ListNode>, index: map<Id, ListNode>, k: nat)
    requires Distinct(q) && Indexed(q, index) && k < |q| && q[k].value.Entry?
    ensures Indexed(Without(q, k), index - {q[k].value.sub.id})
  {}

  lemma DropStructure(q: seq<ListNode>, priority: seq<ListNode>, index: map<Id, ListNode>, k: nat)
    requires Distinct(q) && Marked(q, priority) && Indexed(q, index) && k < |q| && q[k].value.Entry?
    ensures Distinct(Without(q, k)) && Marked(Without(q, k), priority)
    ensures Indexed(Without(q, k), index - {q[k].value.sub.id})
    ensures Values(Without(q, k)) == Without(Values(q), k)
  {
    forall p | 0 <= p < PRIORITIES
      ensures priority[p] in Without(q, k)
    {
      DropDistinct(q, k, priority[p]);
    }
    DropDistinct(q, k, q[k]);
    DropIndexed(q, index, k);
  }

  lemma InsertStructure(q: seq<ListNode>, priority: seq<ListNode>, index: map<Id, ListNode>, k: nat, node: ListNode)
    requires Distinct(q) && Marked(q, priority) && Indexed(q, index) && k <= |q|
    requires node !in q && node.value.Entry? && node.value.sub.id !in index
    ensures Distinct(Inserted(q, k, node)) && Marked(Inserted(q, k, node), priority)
    ensures Indexed(Inserted(q, k, node), index[node.value.sub.id := node])
    ensures Values(Inserted(q, k, node)) == Inserted(Values(q), k, node.value)
  {}

  type Target = Targets.Target<JudgeHandler, string>

  ghost predicate DistinctNames(js: set<JudgeHandler>) {
    forall j, k :: j in js && k in js && j.name == k.name ==> j == k
  }

  /** Had `register` passed the name, names would stay distinct; as it is, they do exactly if the name is new. */
  lemma NamesAfterRegister(js: set<JudgeHandler>, judge: JudgeHandler)
    requires DistinctNames(js)
    ensures DistinctNames(js - Matching(js, Targets.ByName(judge.name)) + {judge})
    ensures DistinctNames(js - Matching(js, Targets.ByJudge(judge)) + {judge}) <==>
            forall j <- js :: j.name == judge.name ==> j == judge
  {
    assert Matching(js, Targets.ByJudge(judge)) == {};
  }

  function Matching(js: set<JudgeHandler>, target: Target): set<JudgeHandler> {
    set j | j in js && target.Matches(j.name)
  }

  datatype Outcome =
    | AlreadyKnown
    | StartedOn(judge: JudgeHandler)
    | Enqueued
    | DispatchFailed(judge: JudgeHandler)

  class JudgeList {
    var queue: seq<ListNode>
    const priority: seq<ListNode>
    var judges: set<JudgeHandler>
    var nodeMap: map<Id, ListNode>
    var submissionMap: map<Id, JudgeHandler>
    var minTier: Option<nat>
    /** Whether the environment lets every dispatch through. */
    const reliable: bool
    ghost var tickets: map<Id, Ticket>
    ghost var clock: nat

    ghost function View(): State
      reads this, judges
    {
      State(Values(queue), Table(judges), submissionMap, minTier, tickets, clock)
    }

    /** The list is in dispatch order with all its markers, and node_map is exactly the index of its
        entries; this holds whatever dispatches fail. */
    ghost predicate Valid()
      reads `queue, `nodeMap, `tickets, `clock
    {
      && Distinct(queue) && Marked(queue, priority) && Indexed(queue, nodeMap)
      && Ordered(Values(queue), tickets, clock)
    }

    /** The remembered minimum tier is the minimum. */
    ghost predicate Accurate()
      reads `judges, `minTier, judges`isDisabled
    {
      MinOf(judges, minTier)
    }

    /** A known minimum tier has an enabled judge among js, or a lower one has. */
    ghost predicate TierHeld(js: set<JudgeHandler>)
      reads `minTier, js`isDisabled
    {
      minTier.Some? ==> exists j <- js :: !j.isDisabled && j.tier <= minTier.value
    }

    /** The running map and the judges of js tell the same story, and what is queued runs on none of them. */
    ghost predicate Books(js: set<JudgeHandler>)
      reads `submissionMap, `nodeMap, js`working
    {
      BooksBeside(js, nodeMap.Keys)
    }

    ghost predicate BooksBeside(js: set<JudgeHandler>, queued: set<Id>)
      reads `submissionMap, js`working
    {
      && (forall id <- submissionMap :: submissionMap[id] in js ==> submissionMap[id].working == Some(id))
      && (forall j <- js :: j.working.Some? ==>
            j.working.value in submissionMap && submissionMap[j.working.value] == j)
      && (forall id <- queued :: id in submissionMap ==> submissionMap[id] !in js)
    }

    constructor (reliable: bool)
      ensures Valid() && Accurate() && this.reliable == reliable
      ensures judges == {} && nodeMap == map[] && submissionMap == map[] && minTier == None
      ensures Values(queue) == [Marker(0), Marker(1), Marker(2), Marker(3)] && clock == 0 && tickets == map[]
    {
      var m0 := new ListNode(Marker(0));
      var m1 := new ListNode(Marker(1));
      var m2 := new ListNode(Marker(2));
      var m3 := new ListNode(Marker(3));
      queue := [m0, m1, m2, m3];
      priority := [m0, m1, m2, m3];
      judges, nodeMap, submissionMap, minTier := {}, map[], map[], None;
      this.reliable := reliable;
      tickets, clock := map[], 0;
      new;
      assert queue[0] == m0 && queue[1] == m1 && queue[2] == m2 && queue[3] == m3;
      assert Values(queue) == [Marker(0), Marker(1), Marker(2), Marker(3)];
    }

    lemma QueuedIffIndexed(id: Id)
      requires Valid()
      ensures Queued(View(), id) <==> id in nodeMap
    {}

    /** In terms of the values. */
    lemma BooksAgree()
      requires Valid()
      ensures Books(judges) <==> AgreeRegistered(View())
      ensures Accurate() <==> IsMinTier(View().judges, View().minTier)
    {
      var s := View();
      forall id
        ensures Queued(s, id) <==> id in nodeMap
      {
        QueuedIffIndexed(id);
      }
      assert forall j <- judges :: s.judges[j].working == j.working;
      MinOfTable(judges, minTier);
    }

    /** `queue.remove` with the removal from the index. */
    method DropEntry(node: ListNode, ghost k: nat)
      requires Valid() && k < |queue| && queue[k] == node && node.value.Entry?
      modifies `queue, `nodeMap
      ensures Valid()
      ensures Values(queue) == Without(Values(old(queue)), k)
      ensures nodeMap == old(nodeMap) - {node.value.sub.id}
    {
      ghost var s := View();
      RemovalKeepsOrder(s, k);
      DropStructure(queue, priority, nodeMap, k);
      var i := 0;
      while queue[i] != node
        invariant i <= k
        decreases k - i
      {
        i := i + 1;
      }
      queue := Without(queue, i);
      nodeMap := nodeMap - {node.value.sub.id};
    }

    /** What any pattern of dispatch failures leaves true while work is handed out: the list stays in
        order and indexed, judges only go, and an id that leaves the queue is in the running map. */
    twostate predicate Shrunk()
      reads this
    {
      && judges <= old(judges)
      && nodeMap.Keys <= old(nodeMap.Keys) <= nodeMap.Keys + submissionMap.Keys
      && old(submissionMap.Keys) <= submissionMap.Keys <= old(submissionMap.Keys) + old(nodeMap.Keys)
      && (forall id <- old(submissionMap) :: id in old(nodeMap) || submissionMap[id] == old(submissionMap)[id])
    }

    /** The front-to-back scan of `_handle_free_judge`. */
    method FindWork(judge: JudgeHandler) returns (found: Option<ListNode>, ghost k: nat)
      requires Valid()
      ensures k == FirstEligible(Values(queue), judge.Info())
      ensures var first := FirstEligible(Values(queue), judge.Info());
              found == if first < |queue| then Some(queue[first]) else None
    {
      var i := 0;
      while i < |queue|
        invariant 0 <= i <= |queue|
        invariant forall m :: 0 <= m < i && queue[m].value.Entry? ==> !Eligible(judge.Info(), queue[m].value.sub)
      {
        var node := queue[i];
        match node.value {
          case Marker(_) =>
          case Entry(sub) =>
            if judge.name !in sub.banned && judge.Info().CanJudge(sub.problem, sub.language, sub.judgeId) {
              return Some(node), i;
            }
        }
        i := i + 1;
      }
      found, k := None, i;
    }

    /** `_handle_free_judge`.  It raises when there is no minimum tier to compare with.  `failed` is the submission
        whose dispatch failed: its judge is dropped.  Unless that raises the minimum tier, this is all, and the
        submission stays queued beside its entry for that judge. */
    method HandleFreeJudge(judge: JudgeHandler) returns (raised: bool, ghost failed: Option<Id>)
      requires Valid()
      modifies `queue, `nodeMap, `judges, `submissionMap, `minTier, judges`working, judge`working
      ensures Valid() && Shrunk() && (old(Accurate()) ==> Accurate())
      ensures old(Books(judges)) && old(judge.working).None? ==> Books(judges)
      ensures raised <==> old(minTier).None?
      ensures raised || judge.tier > old(minTier).value ==> failed.None? && unchanged(this) && unchanged(judge)
      ensures reliable ==> failed.None?
      ensures failed.None? ==>
                judges == old(judges) && (judge in judges ==> View() == HandleFree(old(View()), judge))
      ensures failed.Some? ==>
                var k := FirstEligible(Values(old(queue)), old(judge.Info()));
                && k < |old(queue)| && old(queue)[k].value.sub.id == failed.value
                && judge !in judges && failed.value in submissionMap
      ensures failed.Some? && old(TierHeld(judges - {judge})) ==>
                && judges == old(judges) - {judge} && queue == old(queue) && nodeMap == old(nodeMap)
                && submissionMap == old(submissionMap)[failed.value := judge]
      decreases |Above(judges, minTier)|, 2, 1
    {
      raised, failed := false, None;
      if minTier.None? {
        raised := true;
        return;
      }
      if judge.tier > minTier.value {
        return;
      }
      failed := ServeOrDrop(judge);
    }

    /** The rest of it, for a judge of the minimum tier or a lower one. */
    method ServeOrDrop(judge: JudgeHandler) returns (ghost failed: Option<Id>)
      requires Valid() && minTier.Some? && judge.tier <= minTier.value
      modifies `queue, `nodeMap, `judges, `submissionMap, `minTier, judges`working, judge`working
      ensures Valid() && Shrunk() && (old(Accurate()) ==> Accurate())
      ensures old(Books(judges)) && old(judge.working).None? ==> Books(judges)
      ensures reliable ==> failed.None?
      ensures failed.None? ==>
                judges == old(judges) && (judge in judges ==> View() == HandleFree(old(View()), judge))
      ensures failed.Some? ==>
                var k := FirstEligible(Values(old(queue)), old(judge.Info()));
                && k < |old(queue)| && old(queue)[k].value.sub.id == failed.value
                && judge !in judges && failed.value in submissionMap
      ensures failed.Some? && old(TierHeld(judges - {judge})) ==>
                && judges == old(judges) - {judge} && queue == old(queue) && nodeMap == old(nodeMap)
                && submissionMap == old(submissionMap)[failed.value := judge]
      decreases |Above(judges, minTier)|, 2, 0
    {
      ghost var k: nat;
      var ok;
      ok, k := Serve(judge);
      if ok {
        failed := None;
      } else {
        failed := Some(queue[k].value.sub.id);
        assert TierHeld(judges - {judge}) == old(TierHeld(judges - {judge}));
        DropBrokenJudge(judge);
      }
    }

    /** The scan and, if it finds something, the dispatch. */
    method Serve(judge: JudgeHandler) returns (ok: bool, ghost k: nat)
      requires Valid() && minTier.Some? && judge.tier <= minTier.value
      modifies `queue, `nodeMap, `submissionMap, judge`working
      ensures Valid() && Shrunk()
      ensures old(Books(judges)) && old(judge.working).None? ==> Books(if ok then judges else judges - {judge})
      ensures reliable ==> ok
      ensures ok ==> (judge in judges ==> View() == HandleFree(old(View()), judge))
      ensures !ok ==>
                && k == FirstEligible(Values(old(queue)), old(judge.Info())) && k < |old(queue)|
                && queue == old(queue) && nodeMap == old(nodeMap)
                && submissionMap == old(submissionMap)[queue[k].value.sub.id := judge]
    {
      ghost var a := View();
      ok, k := Dispatch(judge);
      ghost var b := View();
      if ok && judge in judges {
        ServedIsHandleFree(a, b, judge, k);
      }
    }

    lemma ServedIsHandleFree(a: State, b: State, j: JudgeHandler, k: nat)
      requires j in a.judges && a.minTier.Some? && a.judges[j].tier <= a.minTier.value
      requires k == FirstEligible(a.queue, a.judges[j])
      requires OnlyWorking(a.judges, b.judges, j)
      requires b.minTier == a.minTier && b.tickets == a.tickets && b.clock == a.clock
      requires if k == |a.queue|
               then b.queue == a.queue && b.running == a.running && b.judges[j] == a.judges[j]
               else var id := a.queue[k].sub.id;
                    b.queue == Without(a.queue, k) && b.running == a.running[id := j] && b.judges[j].working == Some(id)
      ensures b == HandleFree(a, j)
    {}

    /** Scan and dispatch, in terms of the list: k is where the scan stopped. */
    method Dispatch(judge: JudgeHandler) returns (ok: bool, ghost k: nat)
      requires Valid()
      modifies `queue, `nodeMap, `submissionMap, judge`working
      ensures Valid() && Shrunk() && (reliable ==> ok)
      ensures old(Books(judges)) && old(judge.working).None? ==> Books(if ok then judges else judges - {judge})
      ensures OnlyWorking(old(Table(judges)), Table(judges), judge)
      ensures k == FirstEligible(Values(old(queue)), old(judge.Info()))
      ensures k == |old(queue)| ==>
                queue == old(queue) && nodeMap == old(nodeMap) && submissionMap == old(submissionMap)
                && judge.working == old(judge.working) && ok
      ensures k < |old(queue)| ==>
                var id := old(queue)[k].value.sub.id;
                && submissionMap == old(submissionMap)[id := judge]
                && (ok ==> Values(queue) == Without(Values(old(queue)), k) && nodeMap == old(nodeMap) - {id}
                           && judge.working == Some(id))
                && (!ok ==> queue == old(queue) && nodeMap == old(nodeMap))
    {
      var found;
      found, k := FindWork(judge);
      if found.None? {
        ok := true;
      } else {
        ok := TryDispatch(judge, found.value, k);
      }
      assert forall j <- judges :: j != judge ==> j.Info() == old(j.Info());
    }

    /** Handing a queued submission to a judge: the running map is written first, the queue only after the
        dispatch went through. */
    method TryDispatch(judge: JudgeHandler, node: ListNode, ghost k: nat) returns (ok: bool)
      requires Valid() && k < |queue| && queue[k] == node && node.value.Entry?
      modifies `queue, `nodeMap, `submissionMap, judge`working
      ensures Valid() && (reliable ==> ok)
      ensures old(Books(judges)) && old(judge.working).None? ==> Books(if ok then judges else judges - {judge})
      ensures submissionMap == old(submissionMap)[node.value.sub.id := judge]
      ensures ok ==> Values(queue) == Without(Values(old(queue)), k) && nodeMap == old(nodeMap) - {node.value.sub.id}
                     && judge.working == Some(node.value.sub.id)
      ensures !ok ==> queue == old(queue) && nodeMap == old(nodeMap)
    {
      assert node in queue;
      ok := Attempt(judge, node.value.sub.id);
      if ok {
        DropEntry(node, k);
      }
    }

    /** An attempt at a dispatch: the entry in the running map, then the submission to the judge. */
    method Attempt(judge: JudgeHandler, id: Id) returns (ok: bool)
      requires Valid()
      modifies `submissionMap, judge`working
      ensures Valid() && (reliable ==> ok) && (ok ==> judge.working == Some(id))
      ensures submissionMap == old(submissionMap)[id := judge]
      ensures old(Books(judges)) && old(judge.working).None? && (id in nodeMap || id !in old(submissionMap)) ==>
                Books(judges - {judge}) && (ok ==> BooksBeside(judges, nodeMap.Keys - {id}))
    {
      submissionMap := submissionMap[id := judge];
      ok := judge.Submit(id, reliable);
    }

    /** `_drop_broken_judge`. */
    method DropBrokenJudge(judge: JudgeHandler)
      requires Valid()
      modifies `queue, `nodeMap, `judges, `submissionMap, `minTier, judges`working
      ensures Valid() && Shrunk() && Accurate()
      ensures old(Books(judges - {judge})) ==> Books(judges)
      ensures judge !in judges
      ensures old(TierHeld(judges - {judge})) ==>
                judges == old(judges) - {judge} && queue == old(queue) && nodeMap == old(nodeMap)
                && submissionMap == old(submissionMap)
      decreases |Above(judges, minTier)|, 1
    {
      Sets.SubsetSize(Above(judges - {judge}, minTier), Above(judges, minTier));
      judges := judges - {judge};
      var _ := UpdateMinTier();
    }

    method ComputeMinTier() returns (t: Option<nat>)
      ensures MinOf(judges, t)
    {
      t := None;
      var rest := judges;
      while rest != {}
        invariant rest <= judges
        invariant t.None? ==> forall j <- judges - rest :: j.isDisabled
        invariant t.Some? ==> (exists j <- judges - rest :: !j.isDisabled && j.tier == t.value)
        invariant t.Some? ==> (forall j <- judges - rest :: !j.isDisabled ==> t.value <= j.tier)
        decreases |rest|
      {
        var j :| j in rest;
        if !j.isDisabled && (t.None? || j.tier < t.value) {
          t := Some(j.tier);
        }
        rest := rest - {j};
      }
    }

    /** `_update_min_tier`: recompute the minimum; if a known minimum rose, hand out work to every judge of
        the new tier, in some order fixed before the first of them is served. */
    method UpdateMinTier() returns (order: seq<JudgeHandler>)
      requires Valid()
      modifies `queue, `nodeMap, `judges, `submissionMap, `minTier, judges`working
      ensures Valid() && Shrunk() && Accurate()
      ensures old(Books(judges)) ==> Books(judges)
      ensures old(TierHeld(judges)) ==>
                View() == old(View()).(minTier := minTier) && judges == old(judges) && queue == old(queue)
                && nodeMap == old(nodeMap)
      ensures reliable ==>
                && judges == old(judges)
                && Retiered(old(View()), minTier, order)
                && View() == Scheduling.UpdateMinTier(old(View()), minTier, order)
      decreases |Above(judges, minTier)|, 0
    {
      var old_ := minTier;
      order := Retier();
      ghost var start := View();
      if old_.Some? && minTier.Some? && minTier.value > old_.value {
        RiseShrinks(judges, old_.value, minTier.value);
        ServeTier(order);
        assert reliable ==> View() == HandleAll(start, order);
      }
    }

    /** The new minimum and the judges of its tier. */
    method Retier() returns (tier: seq<JudgeHandler>)
      modifies `minTier
      ensures Accurate()
      ensures View() == old(View()).(minTier := minTier)
      ensures Retiered(old(View()), minTier, tier)
      ensures forall j <- tier :: j in judges
    {
      minTier := ComputeMinTier();
      MinOfTable(judges, minTier);
      tier := CurrentTierJudges();
    }

    /** `current_tier_judges`: a list, in whatever order the set yields. */
    method CurrentTierJudges() returns (tier: seq<JudgeHandler>)
      ensures Listing(tier, CurrentTier(View()))
    {
      var current := set j | j in judges && minTier == Some(j.tier) && !j.isDisabled;
      assert current == CurrentTier(View());
      tier := Sets.ListOf(current);
    }

    /** The loop over a list of judges that was made before the first of them was served. */
    method ServeTier(tier: seq<JudgeHandler>)
      requires Valid() && Accurate() && forall j <- tier :: j in judges
      modifies `queue, `nodeMap, `judges, `submissionMap, `minTier, judges`working
      ensures Valid() && Shrunk() && Accurate()
      ensures old(Books(judges)) ==> Books(judges)
      ensures reliable ==> judges == old(judges) && View() == HandleAll(old(View()), tier)
      decreases |Above(judges, minTier)|, 3
    {
      ghost var start := View();
      for i := 0 to |tier|
        invariant Valid() && Shrunk() && Accurate()
        invariant old(Books(judges)) ==> Books(judges)
        invariant |Above(judges, minTier)| <= |Above(old(judges), old(minTier))|
        invariant reliable ==> judges == old(judges) && View() == HandleAll(start, tier[..i])
      {
        assert tier[..i + 1][..i] == tier[..i];
        ServeNext(tier[i]);
      }
      assert tier[..|tier|] == tier;
    }

    /** One round of that loop; the judge may have been dropped since the list was made. */
    method ServeNext(judge: JudgeHandler)
      requires Valid() && Accurate()
      modifies `queue, `nodeMap, `judges, `submissionMap, `minTier, judges`working, judge`working
      ensures Valid() && Shrunk() && Accurate()
      ensures old(Books(judges)) ==> Books(judges)
      ensures |Above(judges, minTier)| <= old(|Above(judges, minTier)|)
      ensures reliable && judge in old(judges) ==>
                judges == old(judges) && View() == HandleIdle(old(View()), judge)
      decreases |Above(judges, minTier)|, 2, 4
    {
      ghost var js, t := judges, minTier;
      ServeIfIdle(judge);
      AboveShrinks(js, t, judges, minTier);
    }

    lemma RiseShrinks(js: set<JudgeHandler>, a: nat, b: nat)
      requires a < b && exists j <- js :: j.tier == b
      ensures |Above(js, Some(b))| < |Above(js, Some(a))|
    {
      var j :| j in js && j.tier == b;
      assert j in Above(js, Some(a)) && j !in Above(js, Some(b));
      Sets.SubsetSize(Above(js, Some(b)), Above(js, Some(a)));
    }

    // ---- Public methods ----

    /** `disconnect`: closes the connections of the judges it names. */
    method Disconnect(target: Target) returns (closed: set<JudgeHandler>)
      ensures closed == Matching(judges, target)
    {
      closed := {};
      var list := Sets.ListOf(judges);
      for i := 0 to |list|
        invariant forall j :: j in closed <==> j in list[..i] && target.Matches(j.name)
      {
        if target.Matches(list[i].name) {
          closed := closed + {list[i]};
        }
      }
    }

    /** `register`.  It means to disconnect all judges with the same name first, but hands over the judge. */
    method Register(judge: JudgeHandler) returns (order: seq<JudgeHandler>, closed: set<JudgeHandler>)
      requires Valid()
      modifies `queue, `nodeMap, `judges, `submissionMap, `minTier, judges`working, judge`working
      ensures Valid() && Accurate() && closed == {}
      ensures old(Accurate()) && old(Books(judges)) && old(judge.working).None? &&
              judge !in old(submissionMap.Values) ==>
                Books(judges)
      ensures reliable ==>
                && judges == old(judges) + {judge}
                && Retiered(old(View()).(judges := old(View()).judges[judge := old(judge.Info())]), minTier, order)
                && View() == Scheduling.Register(old(View()), judge, old(judge.Info()), minTier, order)
    {
      closed := Disconnect(Targets.ByJudge(judge));
      Enrol(judge);
      order := Settle(judge);
    }

    method Enrol(judge: JudgeHandler)
      requires Valid()
      modifies `judges
      ensures Valid() && judges == old(judges) + {judge}
      ensures View() == old(View()).(judges := old(View()).judges[judge := judge.Info()])
      ensures old(Books(judges)) && judge.working.None? && judge !in submissionMap.Values ==> Books(judges)
      ensures old(Accurate()) ==> TierHeld(judges)
    {
      ghost var table := Table(judges);
      judges := judges + {judge};
      assert Table(judges) == table[judge := judge.Info()];
    }

    /** Retiering, then serving the judge, which is new: the minimum does not rise. */
    method Settle(judge: JudgeHandler) returns (order: seq<JudgeHandler>)
      requires Valid() && judge in judges
      modifies `queue, `nodeMap, `judges, `submissionMap, `minTier, judges`working, judge`working
      ensures Valid() && Accurate()
      ensures old(Books(judges)) && old(judge.working).None? && old(TierHeld(judges)) ==> Books(judges)
      ensures reliable ==>
                && judges == old(judges) && Retiered(old(View()), minTier, order)
                && View() == HandleFree(Scheduling.UpdateMinTier(old(View()), minTier, order), judge)
    {
      order := UpdateMinTier();
      var _ := ServeAnyhow(judge);
    }

    /** A call of `_handle_free_judge` whose failure is of no concern to the caller. */
    method ServeAnyhow(judge: JudgeHandler) returns (raised: bool)
      requires Valid()
      modifies `queue, `nodeMap, `judges, `submissionMap, `minTier, judges`working, judge`working
      ensures Valid() && Shrunk() && (old(Accurate()) ==> Accurate())
      ensures old(Books(judges)) && old(judge.working).None? ==> Books(judges)
      ensures raised <==> old(minTier).None?
      ensures reliable && judge in old(judges) ==>
                judges == old(judges) && View() == HandleFree(old(View()), judge)
      decreases |Above(judges, minTier)|, 2, 2
    {
      ghost var failed;
      raised, failed := HandleFreeJudge(judge);
    }

    /** "If not working, handle it as free". */
    method ServeIfIdle(judge: JudgeHandler)
      requires Valid()
      modifies `queue, `nodeMap, `judges, `submissionMap, `minTier, judges`working, judge`working
      ensures Valid() && Shrunk() && (old(Accurate()) ==> Accurate())
      ensures old(Books(judges)) ==> Books(judges)
      ensures reliable && judge in old(judges) ==>
                judges == old(judges) && View() == HandleIdle(old(View()), judge)
      decreases |Above(judges, minTier)|, 2, 3
    {
      if judge.working.None? {
        var _ := ServeAnyhow(judge);
      }
    }

    /** The judge names a submission that another registered judge runs: only one that a failed dispatch has
        dropped before can. */
    ghost predicate NamesAnothers(judge: JudgeHandler)
      reads this, judge
    {
      judge.working.Some? && judge.working.value in submissionMap
      && submissionMap[judge.working.value] in judges - {judge}
    }

    /** `remove`: a judge that goes takes the entry of the submission it says it was running with it, be it
        registered or dropped before. */
    method Remove(judge: JudgeHandler) returns (order: seq<JudgeHandler>)
      requires Valid()
      modifies `queue, `nodeMap, `judges, `submissionMap, `minTier, judges`working
      ensures Valid() && Accurate() && judge !in judges
      ensures old(Books(judges)) && !old(NamesAnothers(judge)) ==> Books(judges)
      ensures forall id <- old(submissionMap) :: old(judge.working) != Some(id) ==> id in submissionMap
      ensures forall id <- submissionMap :: old(judge.working) == Some(id) ==> id in old(nodeMap)
      ensures reliable ==>
                exists t ::
                  Retiered(old(View()).(judges := old(View()).judges - {judge}), t, order)
                  && View() == Scheduling.Remove(old(View()), judge, old(judge.working), t, order)
    {
      ghost var s, working := View(), judge.working;
      order := Depart(judge);
      ghost var t := minTier;
      HandleSoleJudge();
      if reliable {
        assert View() == Scheduling.Remove(s, judge, working, t, order);
      }
    }

    /** The entry and the judge go; afterwards the books of the registered judges are right exactly if no other
        one runs the submission that the judge named. */
    method TakeOut(judge: JudgeHandler)
      requires Valid()
      modifies `judges, `submissionMap
      ensures Valid() && judges == old(judges) - {judge}
      ensures submissionMap == if judge.working.Some? then old(submissionMap) - {judge.working.value}
                               else old(submissionMap)
      ensures View() == TakenOut(old(View()), judge, judge.working)
      ensures old(Books(judges)) ==> (Books(judges) <==> !old(NamesAnothers(judge)))
    {
      ghost var s := View();
      var sub := judge.working;
      if sub.Some? {
        submissionMap := submissionMap - {sub.value};
      }
      judges := judges - {judge};
      assert Table(judges) == s.judges - {judge};
      if old(Books(judges)) && old(NamesAnothers(judge)) {
        var k := old(submissionMap)[sub.value];
        assert k in judges && k.working == sub;
      }
    }

    /** The first half of `remove`. */
    method Depart(judge: JudgeHandler) returns (order: seq<JudgeHandler>)
      requires Valid()
      modifies `queue, `nodeMap, `judges, `submissionMap, `minTier, judges`working
      ensures Valid() && Accurate() && judges <= old(judges) - {judge} && nodeMap.Keys <= old(nodeMap.Keys)
      ensures old(Books(judges)) && !old(NamesAnothers(judge)) ==> Books(judges)
      ensures forall id <- old(submissionMap) :: old(judge.working) != Some(id) ==> id in submissionMap
      ensures forall id <- submissionMap :: old(judge.working) == Some(id) ==> id in old(nodeMap)
      ensures reliable ==>
                var s := old(View());
                Retiered(s.(judges := s.judges - {judge}), minTier, order)
                && View() == Scheduling.UpdateMinTier(TakenOut(s, judge, old(judge.working)), minTier, order)
    {
      ghost var s := View();
      TakeOut(judge);
      ghost var s1 := View();
      order := UpdateMinTier();
      assert CurrentTier(s1.(minTier := minTier)) == CurrentTier(s.(judges := s.judges - {judge}, minTier := minTier));
    }

    /** The second half: a judge left alone in its tier is served if it is idle. */
    method HandleSoleJudge()
      requires Valid()
      modifies `queue, `nodeMap, `judges, `submissionMap, `minTier, judges`working
      ensures Valid() && Shrunk() && (old(Accurate()) ==> Accurate())
      ensures reliable ==> View() == HandleSole(old(View()))
      ensures old(Books(judges)) ==> Books(judges)
    {
      var tier := CurrentTierJudges();
      ghost var s := View();
      SoleListing(tier, CurrentTier(s));
      if |tier| == 1 {
        ServeIfIdle(tier[0]);
      }
    }

    lemma {:induction false} ListingSize(order: seq<JudgeHandler>, js: set<JudgeHandler>)
      requires Listing(order, js)
      ensures |order| == |js|
    {
      if order == [] {
        assert js == {};
      } else {
        var n := |order| - 1;
        assert Listing(order[..n], js - {order[n]}) by {
          assert order == order[..n] + [order[n]];
        }
        ListingSize(order[..n], js - {order[n]});
      }
    }

    lemma SoleListing(order: seq<JudgeHandler>, js: set<JudgeHandler>)
      requires Listing(order, js)
      ensures (exists j <- js :: js == {j}) <==> |order| == 1
      ensures |order| == 1 ==> js == {order[0]}
    {
      ListingSize(order, js);
    }

    /** `on_judge_free`, also for the last packet of a judge that was dropped.  An id that is not running raises
        before anything changes. */
    method OnJudgeFree(judge: JudgeHandler, submission: Id) returns (raised: bool)
      requires Valid()
      modifies `queue, `nodeMap, `judges, `submissionMap, `minTier, judges`working, judge`working
      ensures Valid() && (old(Accurate()) ==> Accurate())
      ensures submission !in old(submissionMap) ==>
                raised && View() == old(View()) && judge.working == old(judge.working)
      ensures submission in old(submissionMap) ==> (raised <==> old(minTier).None?)
      ensures old(Books(judges)) && submission in old(submissionMap) && old(ReportsOwn(judge, submission)) ==>
                Books(judges)
      ensures reliable && judge in old(judges) ==> View() == Free(old(View()), judge, submission)
    {
      if submission !in submissionMap {
        return true;
      }
      Release(judge, submission);
      raised := ServeAnyhow(judge);
    }

    /** No other registered judge runs the submission, and a registered judge reports no other than its own. */
    ghost predicate ReportsOwn(judge: JudgeHandler, submission: Id)
      requires submission in submissionMap
      reads this, judge
    {
      && submissionMap[submission] !in judges - {judge}
      && (judge in judges ==> judge.working.None? || judge.working == Some(submission))
    }

    /** The entry goes and the judge is idle; afterwards the books of the registered judges are right exactly if the
        judge reported its own submission. */
    method Release(judge: JudgeHandler, submission: Id)
      requires Valid() && submission in submissionMap
      modifies `submissionMap, judge`working
      ensures Valid() && judge.working == None && submissionMap == old(submissionMap) - {submission}
      ensures judge in judges ==>
                View() == old(View()).(running := submissionMap,
                                       judges := old(View()).judges[judge := old(judge.Info()).(working := None)])
      ensures old(Books(judges)) ==> (Books(judges) <==> old(ReportsOwn(judge, submission)))
    {
      ghost var s := View();
      submissionMap := submissionMap - {submission};
      judge.working := None;
      assert judge in judges ==> Table(judges) == s.judges[judge := s.judges[judge].(working := None)];
      if old(Books(judges)) && !old(ReportsOwn(judge, submission)) {
        assert submission !in submissionMap;
        if old(submissionMap)[submission] in judges - {judge} {
          assert old(submissionMap)[submission].working == Some(submission);
        } else {
          assert old(judge.working).value in submissionMap;
        }
      }
    }

    /** A ping response. */
    method OnPingResponse(judge: JudgeHandler, load: real)
      requires Valid()
      modifies judge`load
      ensures Valid()
      ensures View() == if judge in judges then Step(old(View()), Loaded(judge, load)) else old(View())
      ensures (old(Accurate()) ==> Accurate()) && (old(Books(judges)) ==> Books(judges))
    {
      ghost var s := View();
      judge.load := load;
      assert Table(judges) ==
             if judge in judges then s.judges[judge := s.judges[judge].(load := load)] else s.judges;
    }

    /** `abort`; the answer says whether the submission was running. */
    method Abort(submission: Id) returns (aborted: bool)
      requires Valid()
      modifies `queue, `nodeMap
      ensures Valid()
      ensures old(Books(judges)) ==> Books(judges)
      ensures aborted <==> submission in submissionMap
      ensures View() == Step(old(View()), Aborted(submission))
    {
      QueuedIffIndexed(submission);
      ghost var s := View();
      if submission in submissionMap {
        return true;
      }
      if submission in nodeMap {
        ghost var k := IndexOf(s, submission);
        assert queue[k] in queue;
        DropEntry(nodeMap[submission], k);
      }
      aborted := false;
    }

    /** `judge`.  A submission that cannot be started at once is queued.  If its direct dispatch fails, the
        retry finds the id already in the running map and returns: the submission is then neither queued
        nor on any registered judge, and later requests for it are ignored while that entry stays. */
    method Judge(sub: Submission, priority: nat) returns (outcome: Outcome)
      requires Valid() && priority < PRIORITIES
      modifies `queue, `nodeMap, `judges, `submissionMap, `minTier, `tickets, `clock, judges`working
      ensures Valid() && (old(Accurate()) ==> Accurate())
      ensures old(Books(judges)) ==> Books(judges)
      ensures outcome.AlreadyKnown? <==> sub.id in old(submissionMap) || sub.id in old(nodeMap)
      ensures outcome.AlreadyKnown? ==> unchanged(this) && View() == old(View())
      ensures outcome.StartedOn? ==>
                && outcome.judge in judges && outcome.judge.working == Some(sub.id)
                && sub.id in submissionMap && submissionMap[sub.id] == outcome.judge && sub.id !in nodeMap
      ensures outcome.Enqueued? ==> sub.id in nodeMap && sub.id !in submissionMap
      ensures outcome.DispatchFailed? ==>
                sub.id in submissionMap && submissionMap[sub.id] !in judges && sub.id !in nodeMap
      ensures reliable ==>
                !outcome.DispatchFailed? &&
                var e := Submitted(sub, priority, if outcome.StartedOn? then Some(outcome.judge) else None);
                Allowed(old(View()), e) && View() == Step(old(View()), e)
      decreases if sub.id in submissionMap then 0 else 1, 0
    {
      if sub.id in submissionMap || sub.id in nodeMap {
        return AlreadyKnown;
      }
      outcome := Place(sub, priority);
    }

    /** A submission that is not known yet. */
    method Place(sub: Submission, priority: nat) returns (outcome: Outcome)
      requires Valid() && priority < PRIORITIES && sub.id !in submissionMap && sub.id !in nodeMap
      modifies `queue, `nodeMap, `judges, `submissionMap, `minTier, `tickets, `clock, judges`working
      ensures Valid() && (old(Accurate()) ==> Accurate())
      ensures old(Books(judges)) ==> Books(judges)
      ensures !outcome.AlreadyKnown?
      ensures outcome.StartedOn? ==>
                && outcome.judge in judges && outcome.judge.working == Some(sub.id)
                && sub.id in submissionMap && submissionMap[sub.id] == outcome.judge && sub.id !in nodeMap
      ensures outcome.Enqueued? ==> sub.id in nodeMap && sub.id !in submissionMap
      ensures outcome.DispatchFailed? ==>
                sub.id in submissionMap && submissionMap[sub.id] !in judges && sub.id !in nodeMap
      ensures reliable ==>
                !outcome.DispatchFailed? &&
                var e := Submitted(sub, priority, if outcome.StartedOn? then Some(outcome.judge) else None);
                Allowed(old(View()), e) && View() == Step(old(View()), e)
      decreases 0, 3
    {
      QueuedIffIndexed(sub.id);
      ghost var s := View();
      var judge := ChooseJudge(sub);
      if judge.Some? {
        SubmitStarts(s, sub, priority, judge.value);
        outcome := StartOrDrop(sub, priority, judge.value);
      } else {
        SubmitQueues(s, sub, priority);
        QueueUp(sub, priority);
        outcome := Enqueued;
      }
    }

    method QueueUp(sub: Submission, priority: nat)
      requires Valid() && priority < PRIORITIES && sub.id !in nodeMap && sub.id !in submissionMap
      modifies `queue, `nodeMap, `tickets, `clock
      ensures Valid() && (old(Books(judges)) ==> Books(judges))
      ensures nodeMap.Keys == old(nodeMap.Keys) + {sub.id}
      ensures View() == Accept(old(View()), sub.id, priority).(queue :=
                          Inserted(old(View()).queue, Position(old(View()).queue, Marker(priority)), Entry(sub)))
    {
      var node := new ListNode(Entry(sub));
      assert node !in queue;
      Enqueue(node, sub, priority);
    }

    /** The available judges, and the least loaded of them. */
    method ChooseJudge(sub: Submission) returns (judge: Option<JudgeHandler>)
      ensures judge.None? <==> Available(View(), sub) == {}
      ensures judge.Some? ==> judge.value in Available(View(), sub) &&
                              forall k <- Available(View(), sub) :: judge.value.load <= k.load
    {
      var available := set j | j in judges && minTier == Some(j.tier) && !j.isDisabled
                               && j.name !in sub.banned && j.Info().CanJudge(sub.problem, sub.language, sub.judgeId)
                               && j.working.None?;
      assert available == Available(View(), sub);
      if available == {} {
        judge := None;
      } else {
        var least := LeastLoaded(available);
        judge := Some(least);
      }
    }

    static lemma SubmitStarts(s: State, sub: Submission, priority: nat, j: JudgeHandler)
      requires !Known(s, sub.id) && priority < PRIORITIES && j in Available(s, sub)
      requires forall k <- Available(s, sub) :: s.judges[j].load <= s.judges[k].load
      ensures Allowed(s, Submitted(sub, priority, Some(j)))
      ensures Step(s, Submitted(sub, priority, Some(j))) == Start(Accept(s, sub.id, priority), j, sub.id)
    {}

    static lemma SubmitQueues(s: State, sub: Submission, priority: nat)
      requires !Known(s, sub.id) && priority < PRIORITIES && Available(s, sub) == {}
      ensures Allowed(s, Submitted(sub, priority, None))
      ensures Step(s, Submitted(sub, priority, None)) ==
              Accept(s, sub.id, priority).(queue :=
                Inserted(s.queue, Position(s.queue, Marker(priority)), Entry(sub)))
    {}

    /** The direct dispatch. */
    method StartOrDrop(sub: Submission, priority: nat, judge: JudgeHandler) returns (outcome: Outcome)
      requires Valid() && priority < PRIORITIES && judge in judges && judge.working.None?
      requires sub.id !in submissionMap && sub.id !in nodeMap
      modifies `queue, `nodeMap, `judges, `submissionMap, `minTier, `tickets, `clock, judges`working
      ensures Valid() && (old(Accurate()) ==> Accurate())
      ensures old(Books(judges)) ==> Books(judges)
      ensures outcome == StartedOn(judge) || outcome == DispatchFailed(judge)
      ensures sub.id in submissionMap && sub.id !in nodeMap
      ensures outcome.StartedOn? ==>
                && judges == old(judges) && judge.working == Some(sub.id) && submissionMap[sub.id] == judge
                && View() == Start(Accept(old(View()), sub.id, priority), judge, sub.id)
      ensures outcome.DispatchFailed? ==> submissionMap[sub.id] !in judges
      ensures reliable ==> outcome.StartedOn?
      decreases 0, 2
    {
      var ok := StartAtOnce(sub, priority, judge);
      if ok {
        outcome := StartedOn(judge);
      } else {
        DropAndRetry(sub, priority, judge);
        outcome := DispatchFailed(judge);
      }
    }

    /** The handler of a failed direct dispatch.  Its retry never gets past the first test. */
    method DropAndRetry(sub: Submission, priority: nat, judge: JudgeHandler)
      requires Valid() && priority < PRIORITIES
      requires sub.id in submissionMap && submissionMap[sub.id] == judge && sub.id !in nodeMap
      modifies `queue, `nodeMap, `judges, `submissionMap, `minTier, `tickets, `clock, judges`working, judge`working
      ensures Valid() && Accurate()
      ensures old(Books(judges - {judge})) ==> Books(judges)
      ensures sub.id in submissionMap && submissionMap[sub.id] !in judges && sub.id !in nodeMap
      decreases 0, 1
    {
      DropBrokenJudge(judge);
      var retried := Judge(sub, priority);
      assert retried.AlreadyKnown?;
    }

    method LeastLoaded(available: set<JudgeHandler>) returns (judge: JudgeHandler)
      requires available != {}
      ensures judge in available && forall j <- available :: judge.load <= j.load
    {
      judge :| judge in available;
      var rest := available - {judge};
      while rest != {}
        invariant rest <= available && judge in available
        invariant forall j <- available - rest :: judge.load <= j.load
        decreases |rest|
      {
        var j :| j in rest;
        if j.load < judge.load {
          judge := j;
        }
        rest := rest - {j};
      }
    }

    method StartAtOnce(sub: Submission, priority: nat, judge: JudgeHandler) returns (ok: bool)
      requires Valid() && priority < PRIORITIES && judge in judges
      requires sub.id !in submissionMap && sub.id !in nodeMap
      modifies `submissionMap, `tickets, `clock, judge`working
      ensures Valid() && (reliable ==> ok)
      ensures old(Books(judges)) && old(judge.working).None? ==> Books(if ok then judges else judges - {judge})
      ensures submissionMap == old(submissionMap)[sub.id := judge]
      ensures ok ==> judge.working == Some(sub.id)
                     && View() == Start(Accept(old(View()), sub.id, priority), judge, sub.id)
    {
      Note(sub, priority);
      ghost var s := View();
      ok := Attempt(judge, sub.id);
      if ok {
        assert forall j <- judges :: j != judge ==> j.Info() == old(j.Info());
        assert Table(judges) == s.judges[judge := s.judges[judge].(working := Some(sub.id))];
        assert nodeMap.Keys - {sub.id} == nodeMap.Keys;
      }
    }

    /** The acceptance is noted. */
    ghost method Note(sub: Submission, priority: nat)
      requires Valid() && priority < PRIORITIES && sub.id !in nodeMap
      modifies `tickets, `clock
      ensures Valid() && View() == Accept(old(View()), sub.id, priority)
    {
      ghost var a := AcceptedOrder(sub, priority);
      tickets, clock := a.tickets, a.clock;
    }

    /** Following the marker table into the list. */
    method MarkerIndex(p: nat) returns (k: nat)
      requires Valid() && p < PRIORITIES
      ensures k == Position(Values(queue), Marker(p)) < |queue|
    {
      ghost var place :| 0 <= place < |queue| && queue[place] == priority[p];
      k := 0;
      while queue[k] != priority[p]
        invariant k <= place
        decreases place - k
      {
        k := k + 1;
      }
      MarkerPlace(Values(queue), tickets, clock, p);
      assert Values(queue)[k] == Marker(p);
    }

    method Enqueue(node: ListNode, sub: Submission, priority: nat)
      requires Valid() && priority < PRIORITIES && sub.id !in nodeMap
      requires node.value == Entry(sub) && node !in queue
      modifies `queue, `nodeMap, `tickets, `clock
      ensures Valid() && nodeMap.Keys == old(nodeMap.Keys) + {sub.id}
      ensures View() == Accept(old(View()), sub.id, priority).(queue :=
                          Inserted(old(View()).queue, Position(old(View()).queue, Marker(priority)), Entry(sub)))
    {
      InsertBefore(node, sub, priority);
    }

    /** The same in terms of the list and its order. */
    method InsertBefore(node: ListNode, sub: Submission, priority: nat)
      requires Valid() && priority < PRIORITIES && sub.id !in nodeMap
      requires node.value == Entry(sub) && node !in queue
      modifies `queue, `nodeMap, `tickets, `clock
      ensures Valid() && nodeMap.Keys == old(nodeMap.Keys) + {sub.id}
      ensures var q := Values(old(queue)); Values(queue) == Inserted(q, Position(q, Marker(priority)), Entry(sub))
      ensures tickets == old(tickets)[sub.id := Ticket(priority, old(clock))] && clock == old(clock) + 1
    {
      ghost var target := AcceptedOrder(sub, priority);
      var k := MarkerIndex(priority);
      Insert(node, sub, k);
      tickets, clock := target.tickets, target.clock;
    }

    /** The queue with the submission in its place is in order under the tickets with its ticket added. */
    lemma AcceptedOrder(sub: Submission, priority: nat) returns (a: State)
      requires Valid() && priority < PRIORITIES && sub.id !in nodeMap
      ensures a == Accept(View(), sub.id, priority)
      ensures Ordered(Values(queue), a.tickets, a.clock)
      ensures var q := Values(queue);
              Ordered(Inserted(q, Position(q, Marker(priority)), Entry(sub)), a.tickets, a.clock)
    {
      a := Accept(View(), sub.id, priority);
      QueuedIffIndexed(sub.id);
      InsertionKeepsOrder(View(), sub, priority);
      AcceptKeepsOrder(View(), sub.id, priority);
    }

    /** `queue.insert` with the entry in the index. */
    method Insert(node: ListNode, sub: Submission, k: nat)
      requires Distinct(queue) && Marked(queue, priority) && Indexed(queue, nodeMap) && k <= |queue|
      requires sub.id !in nodeMap && node.value == Entry(sub) && node !in queue
      modifies `queue, `nodeMap
      ensures Distinct(queue) && Marked(queue, priority) && Indexed(queue, nodeMap)
      ensures Values(queue) == Inserted(Values(old(queue)), k, Entry(sub))
      ensures nodeMap.Keys == old(nodeMap.Keys) + {sub.id}
    {
      InsertStructure(queue, priority, nodeMap, k, node);
      queue := Inserted(queue, k, node);
      nodeMap := nodeMap[sub.id := node];
    }

    /** `update_problems`. */
    method UpdateProblems(judge: JudgeHandler, problems: set<string>)
      requires Valid()
      modifies `queue, `nodeMap, `judges, `submissionMap, `minTier, judges`working, judge`problems, judge`working
      ensures Valid() && Shrunk() && (old(Accurate()) ==> Accurate())
      ensures old(Books(judges)) ==> Books(judges)
      ensures reliable && judge in old(judges) ==>
                judges == old(judges) && View() == Scheduling.UpdateProblems(old(View()), judge, problems)
    {
      ghost var s := View();
      judge.problems := problems;
      assert judge in judges ==> Table(judges) == s.judges[judge := s.judges[judge].(problems := problems)];
      ServeIfIdle(judge);
    }

    /** `update_problems_all`.  Iterating over the judge set raises if a failed dispatch shrank it, or if an
        idle judge meets no minimum tier; the judges not yet reached then keep their problems. */
    method UpdateProblemsAll(problems: set<string>) returns (order: seq<JudgeHandler>, raised: bool)
      requires Valid()
      modifies `queue, `nodeMap, `judges, `submissionMap, `minTier, judges`working, judges`problems
      ensures Valid() && (old(Accurate()) ==> Accurate()) && (old(Books(judges)) ==> Books(judges))
      ensures reliable ==>
                var e := AllProblemsUpdated(problems, order); Allowed(old(View()), e) && View() == Step(old(View()), e)
    {
      order := Sets.ListOf(judges);
      raised := UpdateProblemsFrom(problems, order);
    }

    method UpdateProblemsFrom(problems: set<string>, order: seq<JudgeHandler>) returns (raised: bool)
      requires Valid() && forall j <- order :: j in judges
      modifies `queue, `nodeMap, `judges, `submissionMap, `minTier, judges`working, judges`problems
      ensures Valid() && (old(Accurate()) ==> Accurate()) && (old(Books(judges)) ==> Books(judges))
      ensures reliable ==> View() == Scheduling.UpdateProblemsAll(old(View()), problems, order)
    {
      raised := false;
      var i := 0;
      var all := judges;
      while i < |order|
        invariant 0 <= i <= |order|
        invariant Valid() && judges == all
        invariant (old(Accurate()) ==> Accurate()) && (old(Books(judges)) ==> Books(judges))
        invariant reliable ==>
                    Scheduling.UpdateProblemsAll(View(), problems, order[i..])
                    == Scheduling.UpdateProblemsAll(old(View()), problems, order)
      {
        var judge := order[i];
        var raises := minTier.None? && judge.working.None?;
        ghost var s := View();
        assert order[i..][0] == judge && order[i..][1..] == order[i + 1..];
        UpdateProblems(judge, problems);
        if raises || judges != all {
          return true;
        }
        i := i + 1;
      }
    }

    /** `update_disable_judge`.  Enabling only recomputes the minimum tier. */
    method UpdateDisableJudge(name: string, isDisabled: bool) returns (order: seq<JudgeHandler>)
      requires Valid()
      modifies `queue, `nodeMap, `judges, `submissionMap, `minTier, judges`working, judges`isDisabled
      ensures Valid() && Accurate() && (old(Books(judges)) ==> Books(judges))
      ensures reliable ==>
                && Retiered(old(View()).(judges := Flagged(old(View()).judges, name, isDisabled)), minTier, order)
                && View() == SetDisabled(old(View()), name, isDisabled, minTier, order)
    {
      ghost var s := View();
      Flag(name, isDisabled);
      assert Table(judges) == Flagged(s.judges, name, isDisabled);
      order := UpdateMinTier();
    }

    method Flag(name: string, isDisabled: bool)
      modifies judges`isDisabled
      ensures forall j <- judges :: j.isDisabled == if j.name == name then isDisabled else old(j.isDisabled)
    {
      var rest := judges;
      while rest != {}
        invariant rest <= judges
        invariant forall j <- judges ::
                    j.isDisabled == if j !in rest && j.name == name then isDisabled else old(j.isDisabled)
        decreases |rest|
      {
        var judge :| judge in rest;
        if judge.name == name {
          judge.isDisabled := isDisabled;
        }
        rest := rest - {judge};
      }
    }
  }

  /** Two judges of one name, both registered. */
  method TwoOfOneName(name: string) returns (list: JudgeList, a: JudgeHandler, b: JudgeHandler)
    ensures a != b && a.name == b.name == name && {a, b} <= list.judges && !DistinctNames(list.judges)
  {
    list := new JudgeList(true);
    a := new JudgeHandler(name, 1, {}, {});
    b := new JudgeHandler(name, 1, {}, {});
    var _, _ := list.Register(a);
    var _, _ := list.Register(b);
    assert a in list.judges && b in list.judges;
  }
}
