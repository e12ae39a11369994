/** Messages of the event server, and what a reader with a given position has not seen yet. */
module EventLog {
  datatype Message = Message(id: int, channel: string, message: string)

  type Filter = set<string>

  predicate Wanted(m: Message, filter: Filter, last: int) {
    m.id > last && m.channel in filter
  }

  /** The messages of log after position `last` on the channels of filter, in order. */
  function Missed(log: seq<Message>, filter: Filter, last: int): seq<Message> {
    if log == [] then []
    else
      var n := |log| - 1;
      Missed(log[..n], filter, last) + if Wanted(log[n], filter, last) then [log[n]] else []
  }

  ghost predicate Numbered(log: seq<Message>, base: int) {
    forall i :: 0 <= i < |log| ==> log[i].id == base + 1 + i
  }

  /** What a buffer of the given capacity still holds, and what it has dropped. */
  function Kept(log: seq<Message>, capacity: nat): seq<Message> {
    if |log| <= capacity then log else log[|log| - capacity..]
  }

  function Evicted(log: seq<Message>, capacity: nat): seq<Message> {
    if |log| <= capacity then [] else log[..|log| - capacity]
  }

  /** A reader's position after being shown everything in log. */
  function Advanced(log: seq<Message>, last: int): int {
    if log != [] && log[|log| - 1].id > last then log[|log| - 1].id else last
  }

  lemma MissedSnoc(log: seq<Message>, m: Message, filter: Filter, last: int)
    ensures Missed(log + [m], filter, last) ==
            Missed(log, filter, last) + if Wanted(m, filter, last) then [m] else []
  {}

  lemma {:induction false} MissedSplit(a: seq<Message>, b: seq<Message>, filter: Filter, last: int)
    ensures Missed(a + b, filter, last) == Missed(a, filter, last) + Missed(b, filter, last)
  {
    if b == [] {
      assert a + b == a;
    } else {
      var n := |b| - 1;
      MissedSplit(a, b[..n], filter, last);
      assert a + b == (a + b[..n]) + [b[n]] && b == b[..n] + [b[n]];
      MissedSnoc(a + b[..n], b[n], filter, last);
      MissedSnoc(b[..n], b[n], filter, last);
    }
  }

  lemma KeptSplit(log: seq<Message>, capacity: nat)
    ensures Evicted(log, capacity) + Kept(log, capacity) == log
  {}

  /** One more message, and one fewer at the front once the buffer is over capacity. */
  lemma KeptSnoc(log: seq<Message>, m: Message, capacity: nat)
    requires 0 < capacity
    ensures var full := Kept(log, capacity) + [m];
            Kept(log + [m], capacity) == if |full| > capacity then full[1..] else full
  {}

  lemma {:induction false} MissedInLog(log: seq<Message>, filter: Filter, last: int, base: int)
    requires Numbered(log, base)
    ensures forall m <- Missed(log, filter, last) :: last < m.id <= base + |log|
    ensures base + |log| <= last ==> Missed(log, filter, last) == []
  {
    if log != [] {
      MissedInLog(log[..|log| - 1], filter, last, base);
    }
  }

  /** Having read the k-th missed message, a reader misses exactly the ones after it. */
  lemma {:induction false} MissedAdvance(log: seq<Message>, filter: Filter, last: int, base: int, k: nat)
    requires Numbered(log, base) && k < |Missed(log, filter, last)|
    ensures Missed(log, filter, Missed(log, filter, last)[k].id) == Missed(log, filter, last)[k + 1..]
  {
    var n := |log| - 1;
    var before, m := Missed(log[..n], filter, last), Missed(log, filter, last)[k];
    MissedInLog(log[..n], filter, last, base);
    if k < |before| {
      assert m == before[k];
      MissedAdvance(log[..n], filter, last, base, k);
    } else {
      MissedInLog(log, filter, m.id, base);
    }
  }

  lemma {:induction false} MissedIsPart(log: seq<Message>, filter: Filter, last: int, m: Message)
    ensures m in Missed(log, filter, last) <==> m in log && Wanted(m, filter, last)
  {
    if log != [] {
      var n := |log| - 1;
      MissedIsPart(log[..n], filter, last, m);
      assert log == log[..n] + [log[n]];
    }
  }

  /** No message occurs twice among the missed ones. */
  lemma NoRepeat(log: seq<Message>, filter: Filter, last: int, base: int, a: seq<Message>, b: seq<Message>, m: Message)
    requires Numbered(log, base) && a + b == Missed(log, filter, last)
    ensures !(m in a && m in b)
  {
    MissedIncreases(log, filter, last, base);
    var s := a + b;
    forall i, k | 0 <= i < |a| && 0 <= k < |b|
      ensures a[i].id < b[k].id
    {
      assert s[i] == a[i] && s[|a| + k] == b[k];
    }
  }

  ghost predicate Increasing(s: seq<Message>) {
    forall i, k :: 0 <= i < k < |s| ==> s[i].id < s[k].id
  }

  lemma {:induction false} MissedIncreases(log: seq<Message>, filter: Filter, last: int, base: int)
    requires Numbered(log, base)
    ensures Increasing(Missed(log, filter, last))
  {
    if log != [] {
      var n := |log| - 1;
      MissedIncreases(log[..n], filter, last, base);
      MissedInLog(log[..n], filter, last, base);
      assert forall m <- Missed(log[..n], filter, last) :: m.id < log[n].id;
    }
  }
}
