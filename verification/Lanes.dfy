/** The dispatcher's one list with markers stands for four queues, one per priority. */
module Lanes {
  import opened Judges
  import opened Options
  import opened Scheduling

  ghost function Low(q: seq<Node>, p: nat): nat {
    if p == 0 then 0 else Position(q, Marker(p - 1)) + 1
  }

  ghost function High(q: seq<Node>, p: nat): nat {
    Position(q, Marker(p))
  }

  /** The nodes between the marker of the priority before and its own. */
  ghost function Lane(q: seq<Node>, p: nat): seq<Node>
    requires Low(q, p) <= High(q, p)
  {
    q[Low(q, p)..High(q, p)]
  }

  lemma MarkerPlace(q: seq<Node>, tickets: map<Id, Ticket>, clock: nat, p: nat)
    requires Ordered(q, tickets, clock) && p < PRIORITIES
    ensures High(q, p) < |q| && q[High(q, p)] == Marker(p)
    ensures forall i :: 0 <= i < |q| && q[i] == Marker(p) ==> i == High(q, p)
  {}

  lemma MarkersInOrder(q: seq<Node>, tickets: map<Id, Ticket>, clock: nat, p: nat)
    requires Ordered(q, tickets, clock) && p < PRIORITIES
    ensures Low(q, p) <= High(q, p) < |q| && q[High(q, p)] == Marker(p)
    ensures p == PRIORITIES - 1 ==> High(q, p) == |q| - 1
  {
    MarkerPlace(q, tickets, clock, p);
    if p > 0 {
      MarkerPlace(q, tickets, clock, p - 1);
    }
    assert Tagged(q[|q| - 1], tickets, clock);
  }

  /** The list is its four queues, each closed by its marker, with the last marker at the end. */
  lemma ListIsLanes(q: seq<Node>, tickets: map<Id, Ticket>, clock: nat)
    requires Ordered(q, tickets, clock)
    ensures Low(q, 0) <= High(q, 0) < Low(q, 1) <= High(q, 1) < Low(q, 2) <= High(q, 2) < Low(q, 3) <= High(q, 3) < |q|
    ensures q == Lane(q, 0) + [Marker(0)] + Lane(q, 1) + [Marker(1)] + Lane(q, 2) + [Marker(2)]
                 + Lane(q, 3) + [Marker(3)]
  {
    var a, b, c, d := High(q, 0), High(q, 1), High(q, 2), High(q, 3);
    assert 0 <= a < |q| && q[a] == Marker(0) by { MarkersInOrder(q, tickets, clock, 0); }
    assert a < b < |q| && q[b] == Marker(1) by { MarkersInOrder(q, tickets, clock, 1); }
    assert b < c < |q| && q[c] == Marker(2) by { MarkersInOrder(q, tickets, clock, 2); }
    assert c < d == |q| - 1 && q[d] == Marker(3) by { MarkersInOrder(q, tickets, clock, 3); }
    assert Lane(q, 0) == q[..a] && Lane(q, 1) == q[a + 1..b] && Lane(q, 2) == q[b + 1..c] && Lane(q, 3) == q[c + 1..d];
    FourCuts(q, a, b, c, d);
  }

  lemma FourCuts<T>(q: seq<T>, a: nat, b: nat, c: nat, d: nat)
    requires a < b < c < d == |q| - 1
    ensures q == q[..a] + [q[a]] + q[a + 1..b] + [q[b]] + q[b + 1..c] + [q[c]] + q[c + 1..d] + [q[d]]
  {}

  /** What lies in lane p was accepted at priority p, and in the order in which it lies there. */
  lemma LaneIsFifo(q: seq<Node>, tickets: map<Id, Ticket>, clock: nat, p: nat, i: nat)
    requires Ordered(q, tickets, clock) && p < PRIORITIES && Low(q, p) <= i < High(q, p)
    ensures i < |q| && q[i].Entry? && tickets[q[i].sub.id].priority == p
    ensures forall k :: i < k < High(q, p) && q[k].Entry? && q[k].sub.id in tickets ==>
              tickets[q[i].sub.id].stamp < tickets[q[k].sub.id].stamp
  {}

  lemma InsertedMarkers(q: seq<Node>, tickets: map<Id, Ticket>, clock: nat, p: nat, e: Submission, r: nat)
    requires Ordered(q, tickets, clock) && p < PRIORITIES && r < PRIORITIES
    ensures High(q, p) < |q|
    ensures High(Inserted(q, High(q, p), Entry(e)), r) == High(q, r) + if r < p then 0 else 1
  {
    var k, i := High(q, p), High(q, r);
    assert k < |q| && q[k] == Marker(p) by { MarkerPlace(q, tickets, clock, p); }
    assert i < |q| && q[i] == Marker(r) by { MarkerPlace(q, tickets, clock, r); }
    InsertedPosition(q, k, Entry(e), Marker(r), i);
  }

  lemma InsertedPosition(q: seq<Node>, k: nat, e: Node, m: Node, i: nat)
    requires k < |q| && i < |q| && q[i] == m && i == Position(q, m) && e != m
    ensures Position(Inserted(q, k, e), m) == i + if i < k then 0 else 1
  {
    var q' := Inserted(q, k, e);
    if i < k {
      assert q'[..i] == q[..i];
      PositionUnique(q', m, i);
    } else {
      assert q[..i] == q[..k] + q[k..i];
      assert q'[..i + 1] == q[..k] + [e] + q[k..i];
      PositionUnique(q', m, i + 1);
    }
  }

  lemma SliceOfInserted<T>(q: seq<T>, k: nat, x: T, lo: nat, hi: nat)
    requires lo <= hi <= |q| && k <= |q|
    ensures hi < k ==> Inserted(q, k, x)[lo..hi] == q[lo..hi]
    ensures hi == k ==> Inserted(q, k, x)[lo..hi + 1] == q[lo..hi] + [x]
    ensures k <= lo ==> Inserted(q, k, x)[lo + 1..hi + 1] == q[lo..hi]
  {}

  lemma InsertedBounds(q: seq<Node>, tickets: map<Id, Ticket>, clock: nat, p: nat, e: Submission, r: nat)
    requires Ordered(q, tickets, clock) && p < PRIORITIES && r < PRIORITIES
    ensures Low(q, r) <= High(q, r) < |q|
    ensures High(q, p) < |q|
    ensures var q' := Inserted(q, Position(q, Marker(p)), Entry(e));
            && Low(q', r) == Low(q, r) + (if r <= p then 0 else 1)
            && High(q', r) == High(q, r) + (if r < p then 0 else 1)
    ensures if r < p then High(q, r) < High(q, p)
            else if r == p then High(q, r) == High(q, p)
            else High(q, p) <= Low(q, r)
  {
    var q' := Inserted(q, Position(q, Marker(p)), Entry(e));
    assert Low(q, r) <= High(q, r) < |q| by { MarkersInOrder(q, tickets, clock, r); }
    assert High(q', r) == High(q, r) + (if r < p then 0 else 1) by { InsertedMarkers(q, tickets, clock, p, e, r); }
    assert r > 0 ==> High(q', r - 1) == High(q, r - 1) + (if r - 1 < p then 0 else 1) by {
      if r > 0 {
        InsertedMarkers(q, tickets, clock, p, e, r - 1);
      }
    }
  }

  /** Inserting before the marker of p appends to queue p and leaves the other three alone. */
  lemma InsertionAppends(q: seq<Node>, tickets: map<Id, Ticket>, clock: nat, p: nat, e: Submission, r: nat)
    requires Ordered(q, tickets, clock) && p < PRIORITIES && r < PRIORITIES
    ensures Low(q, r) <= High(q, r) < |q|
    ensures var q' := Inserted(q, Position(q, Marker(p)), Entry(e));
            && Low(q', r) <= High(q', r) < |q'|
            && Lane(q', r) == if r == p then Lane(q, r) + [Entry(e)] else Lane(q, r)
  {
    InsertedBounds(q, tickets, clock, p, e, r);
    SliceOfInserted(q, Position(q, Marker(p)), Entry(e), Low(q, r), High(q, r));
  }
}
