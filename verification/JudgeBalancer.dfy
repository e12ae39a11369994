/** The judge balancer and its judge handlers as objects (judge/balancer/balancer.py,
    judge/balancer/judge_handler.py), proved against the state machine of `Pairing` in every state, also where
    the dictionaries are not each other's inverse and methods raise. */
module JudgeBalancing {
  import opened BalancerJudges
  import opened Options
  import P = Pairing
  import R = PairingSteps
  import Sets
  import Targets

  /** What each judge is working on. */
  ghost function Current(judges: set<JudgeHandler>): map<JudgeHandler, Option<int>>
    reads judges
  {
    map j | j in judges :: j.currentSubmissionId
  }

  type Target = Targets.Target<JudgeHandler, Name>

  class JudgeBalancer {
    var judges: set<JudgeHandler>
    var queue: seq<P.Request>
    var judgeToBridge: map<Name, nat>
    var bridgeToJudge: map<nat, JudgeHandler>

    constructor ()
      ensures View() == P.State(map[], [], map[], map[])
    {
      judges, queue, judgeToBridge, bridgeToJudge := {}, [], map[], map[];
    }

    ghost function View(): P.State
      reads this, judges
    {
      P.State(Current(judges), queue, judgeToBridge, bridgeToJudge)
    }

    method GetPairedBridge(name: Name) returns (bridge: Option<nat>)
      ensures bridge == if name in judgeToBridge then Some(judgeToBridge[name]) else None
    {
      bridge := if name in judgeToBridge then Some(judgeToBridge[name]) else None;
    }

    /** Raises KeyError before anything is deleted when the judge's name is not paired. */
    method ResetBridge(b: nat) returns (raised: bool)
      modifies `judgeToBridge, `bridgeToJudge
      ensures raised <==> P.ResetRaises(old(View()), b)
      ensures View() == P.ResetBridge(old(View()), b)
    {
      if b in bridgeToJudge {
        var judge := bridgeToJudge[b];
        if judge.name !in judgeToBridge {
          return true;
        }
        judgeToBridge := judgeToBridge - {judge.name};
        bridgeToJudge := bridgeToJudge - {b};
      }
      return false;
    }

    method TryJudge() returns (ghost order: seq<JudgeHandler>)
      modifies this, judges
      ensures judges == old(judges)
      ensures P.Lists(order, old(View())) && View() == P.TryJudge(old(View()), order)
    {
      var available := Sets.ListOf(set j | j in judges && !j.Working());
      order := available;
      while available != [] && queue != []
        invariant judges == old(judges)
        invariant forall j <- available :: j in judges
        invariant P.TryJudge(View(), available) == P.TryJudge(old(View()), order)
        decreases |queue|
      {
        var n := |available| - 1;
        HandOut(available[n]);
        available := available[..n];
      }
    }

    /** The body of the loop: the first of the queue for this judge. */
    method HandOut(judge: JudgeHandler)
      requires judge in judges && queue != []
      modifies this, judge
      ensures judges == old(judges)
      ensures View() == P.Pair(old(View()).(queue := old(queue)[1..]), judge, old(queue)[0])
    {
      var r := queue[0];
      queue := queue[1..];
      judgeToBridge := judgeToBridge[judge.name := r.bridge];
      bridgeToJudge := bridgeToJudge[r.bridge := judge];
      judge.Submit(r.id);
      assert Current(judges) == old(Current(judges))[judge := Some(r.id)];
    }

    /** Both deletions; the second raises KeyError when the bridge has no judge. */
    method Unpair(name: Name) returns (raised: bool)
      requires name in judgeToBridge
      modifies `judgeToBridge, `bridgeToJudge
      ensures raised <==> P.Torn(old(View()), name)
      ensures View() == P.Unpaired(old(View()), name)
    {
      var b := judgeToBridge[name];
      judgeToBridge := judgeToBridge - {name};
      raised := b !in bridgeToJudge;
      if raised {
        assert bridgeToJudge - {b} == bridgeToJudge;
      } else {
        bridgeToJudge := bridgeToJudge - {b};
      }
    }

    /** Raises KeyError when the judge's bridge was reset meanwhile, and hands out no work then. */
    method FreeJudge(judge: JudgeHandler) returns (raised: bool, ghost order: seq<JudgeHandler>)
      modifies this, judges
      ensures judges == old(judges)
      ensures raised <==> P.FreeRaises(old(View()), judge.name)
      ensures raised ==> View() == P.Unpaired(old(View()), judge.name)
      ensures !raised ==> P.Lists(order, P.Unpaired(old(View()), judge.name)) &&
                          View() == P.TryJudge(P.Unpaired(old(View()), judge.name), order)
    {
      order := [];
      if judge.name !in judgeToBridge {
        return true, order;
      }
      raised := Unpair(judge.name);
      if !raised {
        order := TryJudge();
      }
    }

    /** `disconnect`: closes the connections of the judges it names. */
    method Disconnect(target: Target) returns (closed: set<JudgeHandler>)
      ensures closed == set j | j in judges && target.Matches(j.name)
    {
      closed := {};
      var list := Sets.ListOf(judges);
      for i := 0 to |list|
        invariant closed == set j | j in list[..i] && target.Matches(j.name)
      {
        if target.Matches(list[i].name) {
          closed := closed + {list[i]};
        }
        assert list[..i + 1] == list[..i] + [list[i]];
      }
      assert list[..|list|] == list;
    }

    /** `register_judge`.  It means to disconnect the judges with the same name first, but hands over the judge, so
        that names stay distinct exactly if the name is new. */
    method RegisterJudge(judge: JudgeHandler) returns (ghost order: seq<JudgeHandler>, closed: set<JudgeHandler>)
      modifies this, judges, judge
      ensures judges == old(judges) + {judge} && closed == {}
      ensures P.Lists(order, P.Added(old(View()), judge, old(judge.currentSubmissionId)))
      ensures View() == P.RegisterJudge(old(View()), judge, old(judge.currentSubmissionId), order)
      ensures judge.name.Some? && P.Distinct(old(View())) ==>
                (P.Distinct(View()) <==> P.NewName(old(View()), judge))
    {
      closed := Disconnect(Targets.ByJudge(judge));
      ghost var before := View();
      judges := judges + {judge};
      assert View() == P.Added(before, judge, judge.currentSubmissionId);
      order := TryJudge();
    }

    /** `remove_judge`.  A judge that is not registered and whose name is not paired, as before its handshake,
        changes nothing. */
    method RemoveJudge(judge: JudgeHandler) returns (raised: bool)
      modifies this
      ensures raised <==> P.Torn(old(View()), judge.name)
      ensures judges == if raised then old(judges) else old(judges) - {judge}
      ensures View() == P.RemoveJudge(old(View()), judge)
      ensures judge !in old(judges) && judge.name !in old(judgeToBridge) ==> View() == old(View())
    {
      var bridge := GetPairedBridge(judge.name);
      raised := false;
      if bridge.Some? {
        raised := Unpair(judge.name);
      }
      if !raised {
        judges := judges - {judge};
      }
    }

    method QueueSubmission(r: P.Request) returns (ghost order: seq<JudgeHandler>)
      modifies this, judges
      ensures judges == old(judges)
      ensures P.Lists(order, P.Enqueued(old(View()), r))
      ensures View() == P.QueueSubmission(old(View()), r, order)
    {
      queue := queue + [r];
      assert View() == P.Enqueued(old(View()), r);
      order := TryJudge();
    }

    /** The KeyError of a name that is not paired is swallowed. */
    method ForwardPacketToBridge(name: Name, id: Option<int>) returns (delivery: Option<P.Packet>)
      ensures delivery == P.Delivery(View(), name, id)
    {
      if name in judgeToBridge {
        delivery := Some(P.Packet(judgeToBridge[name], id));
      } else {
        delivery := None;
      }
    }
  }

  // ---- The judge handler's side ----

  /** The objects stand for the balancer's part of w, and whoever is not registered has no work. */
  ghost predicate Stands(balancer: JudgeBalancer, judge: JudgeHandler, w: R.World)
    reads balancer, balancer.judges, judge
  {
    balancer.View() == w.s && (judge in balancer.judges || !judge.Working())
  }

  /** `forward_packet`: what is sent in the step, and by `EveryPacketIsExpected` what its bridge waits for. */
  method ForwardPacket(judge: JudgeHandler, balancer: JudgeBalancer, ghost w: R.World)
      returns (delivery: Option<P.Packet>)
    requires Stands(balancer, judge, w)
    ensures delivery == R.Sent(w, R.Forwarded(judge))
    ensures R.Sound(w) && judge in balancer.judges ==>
              (delivery.Some? <==> exists b <- balancer.bridgeToJudge :: balancer.bridgeToJudge[b] == judge)
    ensures R.Sound(w) && judge in balancer.judges && delivery.Some? ==>
              && balancer.bridgeToJudge[delivery.value.bridge] == judge
              && delivery.value.id == Some(w.waiting[delivery.value.bridge])
  {
    delivery := balancer.ForwardPacketToBridge(judge.name, judge.currentSubmissionId);
  }

  /** `forward_packet_and_free_self`: the judge stops working whether or not freeing it raises. */
  method FreeSelf(judge: JudgeHandler, balancer: JudgeBalancer, ghost w: R.World)
      returns (delivery: Option<P.Packet>, raised: bool, ghost order: seq<JudgeHandler>)
    requires Stands(balancer, judge, w)
    modifies judge, balancer, balancer.judges
    ensures balancer.judges == old(balancer.judges)
    ensures delivery == R.Sent(w, R.Finished(judge, order))
    ensures raised <==> P.FreeRaises(w.s, judge.name)
    ensures !raised ==> P.Lists(order, P.Freed(w.s, judge))
    ensures balancer.View() == R.Step(w, R.Finished(judge, order)).s
  {
    delivery := ForwardPacket(judge, balancer, w);
    judge.currentSubmissionId := None;
    assert balancer.View() == P.Idled(w.s, judge);
    raised, order := balancer.FreeJudge(judge);
  }

  /** `on_disconnect`, up to the first method that raises. */
  method OnDisconnect(judge: JudgeHandler, balancer: JudgeBalancer, ghost w: R.World)
      returns (delivery: Option<P.Packet>, raised: bool)
    requires Stands(balancer, judge, w)
    modifies balancer
    ensures delivery == R.Sent(w, R.Disconnected(judge))
    ensures balancer.View() == R.Step(w, R.Disconnected(judge)).s
    ensures R.Sound(w) ==> !raised && balancer.judges == old(balancer.judges) - {judge}
  {
    delivery, raised := None, false;
    if judge.Working() {
      delivery := ForwardPacket(judge, balancer, w);
      var bridge := balancer.GetPairedBridge(judge.name);
      if bridge.Some? {
        raised := balancer.ResetBridge(bridge.value);
      }
    }
    if !raised {
      raised := balancer.RemoveJudge(judge);
    }
  }
}
