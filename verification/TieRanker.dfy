/** `tie_ranker` (judge/ratings.py): every maximal run of equal keys shares the mean of its 1-based positions. */
module TieRanker {
  import opened Options

  /** First position of the run i lies in. */
  function RunStart<K(==)>(keys: seq<K>, i: nat): (s: nat)
    requires i < |keys|
    ensures s <= i && (s == 0 || keys[s - 1] != keys[s])
    ensures forall k :: s <= k <= i ==> keys[k] == keys[i]
  {
    if i == 0 || keys[i - 1] != keys[i] then i else RunStart(keys, i - 1)
  }

  /** Last position of the run i lies in. */
  function RunEnd<K(==)>(keys: seq<K>, i: nat): (e: nat)
    requires i < |keys|
    ensures i <= e < |keys| && (e + 1 == |keys| || keys[e + 1] != keys[e])
    ensures forall k :: i <= k <= e ==> keys[k] == keys[i]
    decreases |keys| - i
  {
    if i + 1 == |keys| || keys[i + 1] != keys[i] then i else RunEnd(keys, i + 1)
  }

  function MeanPosition<K(==)>(keys: seq<K>, i: nat): real
    requires i < |keys|
  {
    ((RunStart(keys, i) + 1) + (RunEnd(keys, i) + 1)) as real / 2.0
  }

  /** The generator: a run is held in buf until the key changes or the input ends. */
  method Rank<T, K(==)>(items: seq<T>, key: T -> K) returns (out: seq<real>)
    ensures |out| == |items|
    ensures var keys := seq(|items|, i requires 0 <= i < |items| => key(items[i]));
            forall i :: 0 <= i < |items| ==> out[i] == MeanPosition(keys, i)
  {
    var rank, delta := 0, 1;
    var last: Option<K> := None;
    var buf: seq<T> := [];
    out := [];
    ghost var keys := seq(|items|, i requires 0 <= i < |items| => key(items[i]));
    for k := 0 to |items|
      invariant k == 0 ==> last.None? && rank == 0 && delta == 1 && buf == [] && out == []
      invariant k > 0 ==>
        var s := RunStart(keys, k - 1);
        last == Some(keys[k - 1]) && rank == s + 1 && delta == |buf| == k - s && |out| == s
      invariant |out| <= |keys|
      invariant forall i :: 0 <= i < |out| ==> out[i] == MeanPosition(keys, i)
    {
      var new_ := key(items[k]);
      if last != Some(new_) {
        if k > 0 {
          RunClosed(keys, k - 1);
        }
        out := Flush(out, buf, rank, delta);
        rank := rank + delta;
        delta := 0;
        buf := [];
      }
      delta := delta + 1;
      buf := buf + [items[k]];
      last := Some(key(items[k]));
    }
    if items != [] {
      RunClosed(keys, |items| - 1);
    }
    out := Flush(out, buf, rank, delta);
  }

  method Flush<T>(out: seq<real>, buf: seq<T>, rank: int, delta: int) returns (out': seq<real>)
    ensures out' == out + seq(|buf|, _ => rank as real + (delta - 1) as real / 2.0)
  {
    out' := out;
    for i := 0 to |buf|
      invariant out' == out + seq(i, _ => rank as real + (delta - 1) as real / 2.0)
    {
      out' := out' + [rank as real + (delta - 1) as real / 2.0];
    }
  }

  /** All positions of a closed run share its ends. */
  lemma RunClosed<K>(keys: seq<K>, e: nat)
    requires e < |keys| && (e + 1 == |keys| || keys[e + 1] != keys[e])
    ensures forall i :: RunStart(keys, e) <= i <= e ==>
              RunStart(keys, i) == RunStart(keys, e) && RunEnd(keys, i) == e
  {
    forall i | RunStart(keys, e) <= i <= e
      ensures RunStart(keys, i) == RunStart(keys, e) && RunEnd(keys, i) == e
    {
      SameRun(keys, i, e);
    }
  }

  lemma {:induction false} SameRun<K>(keys: seq<K>, i: nat, j: nat)
    requires i <= j < |keys| && forall k :: i <= k <= j ==> keys[k] == keys[i]
    ensures RunStart(keys, i) == RunStart(keys, j) && RunEnd(keys, i) == RunEnd(keys, j)
  {
    if i < j {
      SameRun(keys, i, j - 1);
    }
  }

  lemma {:induction false} RunsApart<K>(keys: seq<K>, i: nat, j: nat)
    requires i < |keys| && RunEnd(keys, i) < j < |keys|
    ensures RunEnd(keys, i) < RunStart(keys, j)
  {
    if RunEnd(keys, i) + 1 < j {
      RunsApart(keys, i, j - 1);
    }
  }

  /** Ranks never fall along the input; they are equal exactly inside one run. */
  lemma RanksFollowRuns<K>(keys: seq<K>, i: nat, j: nat)
    requires i < j < |keys|
    ensures MeanPosition(keys, i) <= MeanPosition(keys, j)
    ensures MeanPosition(keys, i) == MeanPosition(keys, j) <==> forall k :: i <= k <= j ==> keys[k] == keys[i]
  {
    if forall k :: i <= k <= j ==> keys[k] == keys[i] {
      SameRun(keys, i, j);
    } else {
      RunsApart(keys, i, j);
    }
  }

  /** The ranks handed out to the first n items, added up. */
  function Total<K(==)>(keys: seq<K>, n: nat): real
    requires n <= |keys|
  {
    if n == 0 then 0.0 else Total(keys, n - 1) + MeanPosition(keys, n - 1)
  }

  function TwiceTotal<K(==)>(keys: seq<K>, n: nat): int
    requires n <= |keys|
  {
    if n == 0 then 0 else TwiceTotal(keys, n - 1) + RunStart(keys, n - 1) + RunEnd(keys, n - 1) + 2
  }

  lemma {:induction false} TotalTwice<K>(keys: seq<K>, n: nat)
    requires n <= |keys|
    ensures 2.0 * Total(keys, n) == TwiceTotal(keys, n) as real
  {
    if n > 0 {
      TotalTwice(keys, n - 1);
    }
  }

  /** Ranks handed out before position k, which lies in a run from s to e. */
  function TwiceBefore(s: int, e: int, k: int): int {
    s * (s + 1) + (k - s) * (s + e + 2)
  }

  lemma ExtendRun(s: int, e: int, k: int)
    ensures TwiceBefore(s, e, k - 1) + s + e + 2 == TwiceBefore(s, e, k)
    ensures TwiceBefore(s, k - 1, k) == k * (k + 1) == TwiceBefore(k, e, k)
  {
    assert (k - s) * (s + e + 2) == (k - 1 - s) * (s + e + 2) + (s + e + 2);
  }

  lemma {:induction false} TotalInside<K>(keys: seq<K>, k: nat)
    requires k < |keys|
    ensures TwiceTotal(keys, k) == TwiceBefore(RunStart(keys, k), RunEnd(keys, k), k)
  {
    if k == 0 {
      assert TwiceBefore(0, RunEnd(keys, 0), 0) == 0;
    } else {
      TotalInside(keys, k - 1);
      TotalInsideStep(keys, k);
    }
  }

  lemma TotalInsideStep<K>(keys: seq<K>, k: nat)
    requires 0 < k < |keys|
    requires TwiceTotal(keys, k - 1) == TwiceBefore(RunStart(keys, k - 1), RunEnd(keys, k - 1), k - 1)
    ensures TwiceTotal(keys, k) == TwiceBefore(RunStart(keys, k), RunEnd(keys, k), k)
  {
    ExtendRun(RunStart(keys, k - 1), RunEnd(keys, k - 1), k);
    if keys[k - 1] == keys[k] {
      SameRun(keys, k - 1, k);
    } else {
      assert RunEnd(keys, k - 1) == k - 1 && RunStart(keys, k) == k;
      ExtendRun(k, RunEnd(keys, k), k);
    }
  }

  /** The ranks always add up to 1 + 2 + ... + n. */
  lemma RanksAddUp<K>(keys: seq<K>)
    ensures 2.0 * Total(keys, |keys|) == (|keys| * (|keys| + 1)) as real
  {
    var n := |keys|;
    TotalTwice(keys, n);
    if n > 0 {
      TotalInside(keys, n - 1);
      ExtendRun(RunStart(keys, n - 1), n - 1, n);
    }
  }
}
