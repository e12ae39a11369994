/** The New IOI contest format (judge/contest_format/new_ioi.py): best score of every subtask over all
    submissions, with hidden subtasks kept apart, live and frozen. */
module NewIoi {
  import CD = ContestData
  import opened Options
  import opened ScoreMaps

  /** One graded test case; points are missing until it ran. */
  datatype TestCase = TestCase(number: int, batch: Option<int>, points: Option<real>)

  datatype Bucket = Single(number: int) | Batch(number: int)

  datatype Submission = Submission(date: real, caseTotal: real, weight: real, cases: seq<TestCase>) {
    /** Contest points for one raw point. */
    function Scale(): real {
      if caseTotal > 0.0 then weight / caseTotal else 0.0
    }
  }

  function BucketOf(c: TestCase): Bucket {
    if c.batch.None? then Single(c.number) else Batch(c.batch.value)
  }

  function Scaled(points: real, scale: real): real { points * scale }

  /** The scaled points of the cases of one bucket, in order. */
  function PointsIn(cases: seq<TestCase>, scale: real, b: Bucket): seq<real> {
    if cases == [] then []
    else
      var n := |cases| - 1;
      var rest := PointsIn(cases[..n], scale, b);
      if cases[n].points.Some? && BucketOf(cases[n]) == b then rest + [Scaled(cases[n].points.value, scale)] else rest
  }

  /** What a submission scores on a bucket: the least of its cases. */
  function Score(s: Submission, b: Bucket): Option<real> {
    var points := PointsIn(s.cases, s.Scale(), b);
    if points == [] then None else Some(CD.Min(points))
  }

  predicate IsHidden(b: Bucket, hidden: set<int>) {
    b.Batch? && b.number in hidden
  }

  function Raise(x: real, score: Option<real>): real {
    if score.Some? && score.value > x then score.value else x
  }

  /** Seconds into the participation, never negative. */
  function Elapsed(s: Submission, start: real): real {
    if s.date < start then 0.0 else s.date - start
  }

  // ---- Specification ----

  /** The best score on a bucket over all submissions, at least 0. */
  function Best(subs: seq<Submission>, b: Bucket): real {
    if subs == [] then 0.0
    else
      var n := |subs| - 1;
      Raise(Best(subs[..n], b), Score(subs[n], b))
  }

  function VisibleBest(subs: seq<Submission>, hidden: set<int>, b: Bucket): real {
    if IsHidden(b, hidden) then 0.0 else Best(subs, b)
  }

  function Buckets(subs: seq<Submission>): set<Bucket> {
    set s, c | s in subs && c in s.cases :: BucketOf(c)
  }

  function BestMap(subs: seq<Submission>): map<Bucket, real> {
    map b | b in Buckets(subs) :: Best(subs, b)
  }

  function VisibleMap(subs: seq<Submission>, hidden: set<int>): map<Bucket, real> {
    map b | b in Buckets(subs) :: VisibleBest(subs, hidden, b)
  }

  ghost function AdminTotal(subs: seq<Submission>): real {
    Sum(BestMap(subs))
  }

  ghost function VisibleTotal(subs: seq<Submission>, hidden: set<int>): real {
    Sum(VisibleMap(subs, hidden))
  }

  ghost function VisibleBy(hidden: set<int>): seq<Submission> -> real {
    (subs: seq<Submission>) => VisibleTotal(subs, hidden)
  }

  /** When a growing total last rose. */
  ghost function LastRise(subs: seq<Submission>, start: real, total: seq<Submission> -> real): real {
    if subs == [] then 0.0
    else
      var n := |subs| - 1;
      if total(subs) > total(subs[..n]) then Elapsed(subs[n], start) else LastRise(subs[..n], start, total)
  }

  lemma {:induction false} NoCasesNoPoints(cases: seq<TestCase>, scale: real, b: Bucket)
    requires forall c <- cases :: BucketOf(c) != b
    ensures PointsIn(cases, scale, b) == []
  {
    if cases != [] {
      NoCasesNoPoints(cases[..|cases| - 1], scale, b);
    }
  }

  lemma {:induction false} UntouchedBucket(subs: seq<Submission>, b: Bucket)
    requires b !in Buckets(subs)
    ensures Best(subs, b) == 0.0
  {
    if subs != [] {
      var n := |subs| - 1;
      forall s <- subs
        ensures forall c <- s.cases :: BucketOf(c) != b
      {}
      UntouchedBucket(subs[..n], b);
      NoCasesNoPoints(subs[n].cases, subs[n].Scale(), b);
    }
  }

  lemma BestMapAt(subs: seq<Submission>, hidden: set<int>, b: Bucket)
    ensures At(BestMap(subs), b) == Best(subs, b)
    ensures At(VisibleMap(subs, hidden), b) == VisibleBest(subs, hidden, b)
  {
    if b !in Buckets(subs) {
      UntouchedBucket(subs, b);
    }
  }

  // ---- The state dictionaries ----

  class ProblemState {
    var maxVisible: map<Bucket, real>
    var maxAll: map<Bucket, real>
    var bestVisible: real
    var bestAdmin: real
    var bestVisibleTime: real
    var bestAdminTime: real
    var hasSubmission: bool

    constructor ()
      ensures forall hidden, start :: Represents([], hidden, start)
    {
      maxVisible, maxAll := map[], map[];
      bestVisible, bestAdmin, bestVisibleTime, bestAdminTime := 0.0, 0.0, 0.0, 0.0;
      hasSubmission := false;
    }

    ghost predicate ScoresHold(subs: seq<Submission>, hidden: set<int>)
      reads `maxAll, `maxVisible
    {
      && (forall b :: At(maxAll, b) == Best(subs, b))
      && (forall b :: At(maxVisible, b) == VisibleBest(subs, hidden, b))
    }

    ghost predicate AdminHolds(subs: seq<Submission>, start: real)
      reads `bestAdmin, `bestAdminTime
    {
      bestAdmin == AdminTotal(subs) && bestAdminTime == LastRise(subs, start, AdminTotal)
    }

    ghost predicate VisibleHolds(subs: seq<Submission>, hidden: set<int>, start: real)
      reads `bestVisible, `bestVisibleTime
    {
      bestVisible == VisibleTotal(subs, hidden) && bestVisibleTime == LastRise(subs, start, VisibleBy(hidden))
    }

    /** The state holds what the specification says of these submissions. */
    ghost predicate Represents(subs: seq<Submission>, hidden: set<int>, start: real)
      reads this
    {
      && ScoresHold(subs, hidden) && AdminHolds(subs, start) && VisibleHolds(subs, hidden, start)
      && (hasSubmission <==> subs != [])
    }

    /** `_apply_submission_state`. */
    method Apply(s: Submission, hidden: set<int>, start: real, ghost subs: seq<Submission>)
      requires Represents(subs, hidden, start)
      modifies this
      ensures Represents(subs + [s], hidden, start)
    {
      hasSubmission := true;
      ApplyScores(s, hidden, subs);
      KeepBest(s, hidden, start, subs);
    }

    /** The dictionaries. */
    method ApplyScores(s: Submission, hidden: set<int>, ghost subs: seq<Submission>)
      requires ScoresHold(subs, hidden)
      modifies `maxAll, `maxVisible
      ensures ScoresHold(subs + [s], hidden)
      ensures Sum(maxAll) == AdminTotal(subs + [s]) && Sum(maxVisible) == VisibleTotal(subs + [s], hidden)
    {
      ghost var all, visible := maxAll, maxVisible;
      maxAll, maxVisible := RaiseScores(s, hidden, maxAll, maxVisible);
      RaisedIsBest(subs, s, hidden, all, visible, maxAll, maxVisible);
    }

    /** The comparisons at the end: a total that rose is kept with its time. */
    method KeepBest(s: Submission, hidden: set<int>, start: real, ghost subs: seq<Submission>)
      requires AdminHolds(subs, start) && VisibleHolds(subs, hidden, start)
      requires Sum(maxAll) == AdminTotal(subs + [s]) && Sum(maxVisible) == VisibleTotal(subs + [s], hidden)
      modifies `bestVisible, `bestVisibleTime, `bestAdmin, `bestAdminTime
      ensures AdminHolds(subs + [s], start) && VisibleHolds(subs + [s], hidden, start)
    {
      TotalsGrow(subs, s, hidden);
      KeepVisible(s, hidden, start, subs);
      KeepAdmin(s, start, subs);
    }

    method KeepVisible(s: Submission, hidden: set<int>, start: real, ghost subs: seq<Submission>)
      requires VisibleHolds(subs, hidden, start)
      requires VisibleTotal(subs, hidden) <= Sum(maxVisible) == VisibleTotal(subs + [s], hidden)
      modifies `bestVisible, `bestVisibleTime
      ensures VisibleHolds(subs + [s], hidden, start)
    {
      var currentVisible := SumValues(maxVisible);
      if currentVisible > bestVisible {
        bestVisible, bestVisibleTime := currentVisible, Elapsed(s, start);
      }
    }

    method KeepAdmin(s: Submission, start: real, ghost subs: seq<Submission>)
      requires AdminHolds(subs, start)
      requires AdminTotal(subs) <= Sum(maxAll) == AdminTotal(subs + [s])
      modifies `bestAdmin, `bestAdminTime
      ensures AdminHolds(subs + [s], start)
    {
      var currentAdmin := SumValues(maxAll);
      if currentAdmin > bestAdmin {
        bestAdmin, bestAdminTime := currentAdmin, Elapsed(s, start);
      }
    }
  }

  /** The loop over the buckets of one submission. */
  method RaiseScores(s: Submission, hidden: set<int>, all: map<Bucket, real>, visible: map<Bucket, real>)
    returns (all': map<Bucket, real>, visible': map<Bucket, real>)
    ensures forall b :: At(all', b) == Raise(At(all, b), Score(s, b))
    ensures forall b ::
              At(visible', b) == if IsHidden(b, hidden) then At(visible, b) else Raise(At(visible, b), Score(s, b))
  {
    var batchPoints := GroupCases(s.cases, s.Scale());
    var rest := batchPoints.Keys;
    all', visible' := all, visible;
    while rest != {}
      invariant rest <= batchPoints.Keys
      invariant forall b :: At(all', b) == if b in rest then At(all, b) else Raise(At(all, b), Score(s, b))
      invariant forall b ::
                  At(visible', b) ==
                  if b in rest || IsHidden(b, hidden) then At(visible, b) else Raise(At(visible, b), Score(s, b))
      decreases |rest|
    {
      var b :| b in rest;
      var score := CD.Min(batchPoints[b]);
      assert Score(s, b) == Some(score);
      all' := RaiseEntry(all', b, score);
      if !IsHidden(b, hidden) {
        visible' := RaiseEntry(visible', b, score);
      }
      rest := rest - {b};
    }
  }

  /** Entries raised by one more submission are the best over one more submission. */
  lemma RaisedIsBest(subs: seq<Submission>, s: Submission, hidden: set<int>, all: map<Bucket, real>,
                     visible: map<Bucket, real>, all': map<Bucket, real>, visible': map<Bucket, real>)
    requires forall b :: At(all, b) == Best(subs, b) && At(all', b) == Raise(At(all, b), Score(s, b))
    requires forall b :: At(visible, b) == VisibleBest(subs, hidden, b)
    requires forall b ::
               At(visible', b) == if IsHidden(b, hidden) then At(visible, b) else Raise(At(visible, b), Score(s, b))
    ensures forall b :: At(all', b) == Best(subs + [s], b)
    ensures forall b :: At(visible', b) == VisibleBest(subs + [s], hidden, b)
    ensures Sum(all') == AdminTotal(subs + [s]) && Sum(visible') == VisibleTotal(subs + [s], hidden)
  {
    forall b
      ensures At(all', b) == Best(subs + [s], b)
    {
      assert At(all, b) == Best(subs, b);
    }
    forall b
      ensures At(visible', b) == VisibleBest(subs + [s], hidden, b)
    {
      assert At(visible, b) == VisibleBest(subs, hidden, b);
    }
    SumIsTotal(subs + [s], hidden, all', visible');
  }

  /** Reading a missing entry of the dictionary creates it with 0. */
  function RaiseEntry(m: map<Bucket, real>, b: Bucket, score: real): map<Bucket, real> {
    if score > At(m, b) then m[b := score] else m[b := At(m, b)]
  }

  lemma SumIsTotal(subs: seq<Submission>, hidden: set<int>, all: map<Bucket, real>, visible: map<Bucket, real>)
    requires forall b :: At(all, b) == Best(subs, b)
    requires forall b :: At(visible, b) == VisibleBest(subs, hidden, b)
    ensures Sum(all) == AdminTotal(subs) && Sum(visible) == VisibleTotal(subs, hidden)
  {
    forall b {:trigger At(all, b)} {:trigger At(visible, b)}
      ensures At(all, b) == At(BestMap(subs), b) && At(visible, b) == At(VisibleMap(subs, hidden), b)
    {
      BestMapAt(subs, hidden, b);
    }
    SumEqual(all, BestMap(subs));
    SumEqual(visible, VisibleMap(subs, hidden));
  }

  /** Another submission never lowers a total. */
  lemma TotalsGrow(subs: seq<Submission>, s: Submission, hidden: set<int>)
    ensures AdminTotal(subs) <= AdminTotal(subs + [s])
    ensures VisibleTotal(subs, hidden) <= VisibleTotal(subs + [s], hidden)
  {
    assert (subs + [s])[..|subs|] == subs;
    forall b
      ensures At(BestMap(subs), b) <= At(BestMap(subs + [s]), b)
    {
      BestMapAt(subs, hidden, b);
      BestMapAt(subs + [s], hidden, b);
    }
    forall b
      ensures At(VisibleMap(subs, hidden), b) <= At(VisibleMap(subs + [s], hidden), b)
    {
      BestMapAt(subs, hidden, b);
      BestMapAt(subs + [s], hidden, b);
    }
    SumMonotone(BestMap(subs), BestMap(subs + [s]));
    SumMonotone(VisibleMap(subs, hidden), VisibleMap(subs + [s], hidden));
  }

  /** The first loop of `_apply_submission_state`: cases gathered by bucket. */
  method GroupCases(cases: seq<TestCase>, scale: real) returns (m: map<Bucket, seq<real>>)
    ensures forall b :: b in m <==> PointsIn(cases, scale, b) != []
    ensures forall b <- m :: m[b] == PointsIn(cases, scale, b)
  {
    m := map[];
    for i := 0 to |cases|
      invariant forall b :: b in m <==> PointsIn(cases[..i], scale, b) != []
      invariant forall b <- m :: m[b] == PointsIn(cases[..i], scale, b)
    {
      assert cases[..i + 1][..i] == cases[..i];
      var c := cases[i];
      if c.points.Some? {
        var b := BucketOf(c);
        var points := Scaled(c.points.value, scale);
        m := m[b := if b in m then m[b] + [points] else [points]];
      }
    }
    assert cases[..|cases|] == cases;
  }

  // ---- What the figures mean ----

  lemma {:induction false} BestNonnegative(subs: seq<Submission>, b: Bucket)
    ensures 0.0 <= Best(subs, b)
  {
    if subs != [] {
      BestNonnegative(subs[..|subs| - 1], b);
    }
  }

  /** A bucket ends at the maximum, over all submissions that have points on it, of the least of those
      points, and at 0 if none is positive. */
  lemma {:induction false} BestIsMaxOfMin(subs: seq<Submission>, b: Bucket)
    ensures forall s <- subs :: Score(s, b).Some? ==> Score(s, b).value <= Best(subs, b)
    ensures 0.0 <= Best(subs, b)
    ensures Best(subs, b) == 0.0 || exists s <- subs :: Score(s, b) == Some(Best(subs, b))
  {
    if subs != [] {
      var n := |subs| - 1;
      BestIsMaxOfMin(subs[..n], b);
      assert subs == subs[..n] + [subs[n]];
      if Best(subs, b) != 0.0 {
        if Best(subs, b) == Best(subs[..n], b) {
          var s :| s in subs[..n] && Score(s, b) == Some(Best(subs, b));
          assert s in subs;
        } else {
          assert subs[n] in subs && Score(subs[n], b) == Some(Best(subs, b));
        }
      }
    }
  }

  lemma {:induction false} ScoreIsLeastCase(cases: seq<TestCase>, scale: real, b: Bucket, x: real)
    ensures x in PointsIn(cases, scale, b) <==>
            exists c <- cases :: BucketOf(c) == b && c.points.Some? && x == Scaled(c.points.value, scale)
  {
    if cases != [] {
      var n := |cases| - 1;
      ScoreIsLeastCase(cases[..n], scale, b, x);
      assert cases == cases[..n] + [cases[n]];
    }
  }

  // ---- What a problem is worth ----

  /** Contest points for raw points. */
  function Worth(points: real, weight: real, caseTotal: real): real
    requires caseTotal > 0.0
  {
    points * (weight / caseTotal)
  }

  function WorthBy(weight: real, caseTotal: real): real -> real
    requires caseTotal > 0.0
  {
    x => Worth(x, weight, caseTotal)
  }

  lemma WorthAdds(weight: real, caseTotal: real)
    requires caseTotal > 0.0
    ensures Additive(WorthBy(weight, caseTotal))
  {
    var q, f := weight / caseTotal, WorthBy(weight, caseTotal);
    forall x, y
      ensures Adds(f, x, y)
    {
      assert (x + y) * q == x * q + y * q;
    }
  }

  lemma WorthOrder(x: real, y: real, weight: real, caseTotal: real)
    requires caseTotal > 0.0 && weight >= 0.0 && x <= y
    ensures Worth(x, weight, caseTotal) <= Worth(y, weight, caseTotal)
  {
    var q := weight / caseTotal;
    assert 0.0 <= q && 0.0 <= (y - x) * q;
  }

  lemma WorthEnds(weight: real, caseTotal: real)
    requires caseTotal > 0.0
    ensures Worth(0.0, weight, caseTotal) == 0.0 && Worth(caseTotal, weight, caseTotal) == weight
  {}

  /** The case c of bucket b has points and is worth x. */
  predicate Gives(s: Submission, b: Bucket, c: TestCase, x: real)
    requires s.caseTotal > 0.0
  {
    BucketOf(c) == b && c.points.Some? && x == Worth(c.points.value, s.weight, s.caseTotal)
  }

  lemma PointsAreGiven(s: Submission, b: Bucket, x: real)
    requires s.caseTotal > 0.0
    ensures x in PointsIn(s.cases, s.Scale(), b) <==> exists c <- s.cases :: Gives(s, b, c, x)
  {
    ScoreIsLeastCase(s.cases, s.Scale(), b, x);
  }

  /** A submission scores x on a bucket exactly if x is the least of what its cases with points are worth there. */
  lemma ScoreExact(s: Submission, b: Bucket, x: real)
    requires s.caseTotal > 0.0
    ensures Score(s, b) == Some(x) <==>
              && (exists c <- s.cases :: Gives(s, b, c, x))
              && (forall c <- s.cases, y :: Gives(s, b, c, y) ==> x <= y)
  {
    var points := PointsIn(s.cases, s.Scale(), b);
    forall y
      ensures y in points <==> exists c <- s.cases :: Gives(s, b, c, y)
    {
      PointsAreGiven(s, b, y);
    }
    assert x in points <==> exists c <- s.cases :: Gives(s, b, c, x);
    if points != [] {
      var least := CD.Min(points);
      assert least in points;
      forall c <- s.cases, y | Gives(s, b, c, y)
        ensures least <= y
      {
        assert y in points;
      }
    }
  }

  predicate OwnBuckets(cases: seq<TestCase>) {
    forall i, k :: 0 <= i < k < |cases| ==> BucketOf(cases[i]) != BucketOf(cases[k])
  }

  function RawPoints(c: TestCase): real {
    if c.points.Some? then c.points.value else 0.0
  }

  /** The points of the first case of a bucket. */
  function RawOf(cases: seq<TestCase>, b: Bucket): real {
    if cases == [] then 0.0
    else if BucketOf(cases[0]) == b then RawPoints(cases[0])
    else RawOf(cases[1..], b)
  }

  lemma {:induction false} RawOfCase(cases: seq<TestCase>, i: nat)
    requires i < |cases| && OwnBuckets(cases)
    ensures RawOf(cases, BucketOf(cases[i])) == RawPoints(cases[i])
  {
    if i != 0 {
      RawOfCase(cases[1..], i - 1);
    }
  }

  lemma OwnBucketBest(s: Submission, i: nat)
    requires i < |s.cases| && OwnBuckets(s.cases) && s.caseTotal > 0.0 && s.weight >= 0.0
    requires 0.0 <= RawPoints(s.cases[i])
    ensures Best([s], BucketOf(s.cases[i])) == Worth(RawPoints(s.cases[i]), s.weight, s.caseTotal)
  {
    var c, b := s.cases[i], BucketOf(s.cases[i]);
    var x := Worth(RawPoints(c), s.weight, s.caseTotal);
    WorthEnds(s.weight, s.caseTotal);
    WorthOrder(0.0, RawPoints(c), s.weight, s.caseTotal);
    forall d <- s.cases | BucketOf(d) == b
      ensures d == c
    {}
    assert Best([s], b) == Raise(0.0, Score(s, b)) by { assert [s][..0] == []; }
    if c.points.Some? {
      assert Gives(s, b, c, x);
      ScoreExact(s, b, x);
    } else {
      forall y
        ensures y !in PointsIn(s.cases, s.Scale(), b)
      {
        PointsAreGiven(s, b, y);
      }
    }
  }

  /** A submission with the full case total, each case counting by itself, is worth the contest weight. */
  lemma FullScoreIsWeight(s: Submission)
    requires s.caseTotal > 0.0 && s.weight >= 0.0 && OwnBuckets(s.cases)
    requires forall c <- s.cases :: 0.0 <= RawPoints(c)
    requires CD.Sum(s.cases, RawPoints) == s.caseTotal
    ensures AdminTotal([s]) == s.weight
  {
    var raw := map b | b in Buckets([s]) :: RawOf(s.cases, b);
    forall i | 0 <= i < |s.cases|
      ensures At(raw, BucketOf(s.cases[i])) == RawPoints(s.cases[i])
    {
      RawOfCase(s.cases, i);
      assert s in [s] && s.cases[i] in s.cases;
    }
    SumOfItems(s.cases, BucketOf, RawPoints, raw);
    forall b <- raw
      ensures BestMap([s])[b] == Worth(raw[b], s.weight, s.caseTotal)
    {
      var i :| 0 <= i < |s.cases| && BucketOf(s.cases[i]) == b;
      OwnBucketBest(s, i);
    }
    WorthAdds(s.weight, s.caseTotal);
    WorthEnds(s.weight, s.caseTotal);
    SumMapped(raw, BestMap([s]), WorthBy(s.weight, s.caseTotal));
  }

  /** Some case of the bucket has at most this many points. */
  ghost predicate Limited(cases: seq<TestCase>, b: Bucket, cap: real) {
    exists c <- cases :: BucketOf(c) == b && c.points.Some? && c.points.value <= cap
  }

  ghost predicate Within(cases: seq<TestCase>, caps: map<Bucket, real>) {
    forall c <- cases :: c.points.Some? ==> Limited(cases, BucketOf(c), At(caps, BucketOf(c)))
  }

  lemma ScoreWithin(s: Submission, caps: map<Bucket, real>, b: Bucket, x: real)
    requires s.caseTotal > 0.0 && s.weight >= 0.0 && Within(s.cases, caps) && Score(s, b) == Some(x)
    ensures x <= Worth(At(caps, b), s.weight, s.caseTotal)
  {
    ScoreExact(s, b, x);
    var c :| c in s.cases && Gives(s, b, c, x);
    assert Limited(s.cases, b, At(caps, b));
    var d :| d in s.cases && BucketOf(d) == b && d.points.Some? && d.points.value <= At(caps, b);
    WorthOrder(d.points.value, At(caps, b), s.weight, s.caseTotal);
    assert Gives(s, b, d, Worth(d.points.value, s.weight, s.caseTotal));
  }

  lemma BestWithin(subs: seq<Submission>, weight: real, caseTotal: real, caps: map<Bucket, real>, b: Bucket)
    requires caseTotal > 0.0 && weight >= 0.0 && forall s <- subs :: s.weight == weight && s.caseTotal == caseTotal
    requires forall s <- subs :: Within(s.cases, caps)
    requires 0.0 <= At(caps, b)
    ensures Best(subs, b) <= Worth(At(caps, b), weight, caseTotal)
  {
    BestIsMaxOfMin(subs, b);
    if Best(subs, b) == 0.0 {
      WorthEnds(weight, caseTotal);
      WorthOrder(0.0, At(caps, b), weight, caseTotal);
    } else {
      var s :| s in subs && Score(s, b) == Some(Best(subs, b));
      ScoreWithin(s, caps, b, Best(subs, b));
    }
  }

  /** No list of submissions is worth more than the weight, if what the buckets can give adds up to no more
      than the case total. */
  lemma WeightIsMaximum(subs: seq<Submission>, weight: real, caseTotal: real, caps: map<Bucket, real>)
    requires caseTotal > 0.0 && weight >= 0.0 && forall s <- subs :: s.weight == weight && s.caseTotal == caseTotal
    requires forall s <- subs :: Within(s.cases, caps)
    requires (forall b <- caps :: 0.0 <= caps[b]) && Sum(caps) <= caseTotal
    ensures 0.0 <= AdminTotal(subs) <= weight
  {
    var worth := map b | b in caps :: WorthBy(weight, caseTotal)(caps[b]);
    WorthAdds(weight, caseTotal);
    SumMapped(caps, worth, WorthBy(weight, caseTotal));
    WorthOrder(Sum(caps), caseTotal, weight, caseTotal);
    WorthEnds(weight, caseTotal);
    forall b
      ensures At(BestMap(subs), b) <= At(worth, b)
    {
      BestMapAt(subs, {}, b);
      BestWithin(subs, weight, caseTotal, caps, b);
    }
    SumMonotone(BestMap(subs), worth);
    VisibleBelowAdmin(subs, {});
  }

  /** Without a case total there are no points. */
  lemma NoTotalNoPoints(subs: seq<Submission>)
    requires forall s <- subs :: s.caseTotal <= 0.0
    ensures AdminTotal(subs) == 0.0
  {
    var none: map<Bucket, real> := map[];
    forall b
      ensures At(BestMap(subs), b) == At(none, b)
    {
      BestMapAt(subs, {}, b);
      BestIsMaxOfMin(subs, b);
      if Best(subs, b) != 0.0 {
        var s :| s in subs && Score(s, b) == Some(Best(subs, b));
        ScoreIsLeastCase(s.cases, s.Scale(), b, Best(subs, b));
      }
    }
    SumEqual(BestMap(subs), none);
  }

  /** Only which submissions there are matters to the points, not their order. */
  lemma PointsAnyOrder(a: seq<Submission>, c: seq<Submission>, hidden: set<int>)
    requires forall s :: s in a <==> s in c
    ensures AdminTotal(a) == AdminTotal(c) && VisibleTotal(a, hidden) == VisibleTotal(c, hidden)
  {
    forall b
      ensures At(BestMap(a), b) == At(BestMap(c), b) && At(VisibleMap(a, hidden), b) == At(VisibleMap(c, hidden), b)
    {
      BestMapAt(a, hidden, b);
      BestMapAt(c, hidden, b);
      BestOfSubset(a, c, b);
      BestOfSubset(c, a, b);
    }
    SumEqual(BestMap(a), BestMap(c));
    SumEqual(VisibleMap(a, hidden), VisibleMap(c, hidden));
  }

  lemma BestOfSubset(a: seq<Submission>, c: seq<Submission>, b: Bucket)
    requires forall s <- a :: s in c
    ensures Best(a, b) <= Best(c, b)
  {
    BestIsMaxOfMin(a, b);
    BestIsMaxOfMin(c, b);
  }

  /** Fewer submissions, and so the ones before a freeze, never have more points. */
  lemma SubsetScoresLess(a: seq<Submission>, c: seq<Submission>, hidden: set<int>)
    requires forall s <- a :: s in c
    ensures AdminTotal(a) <= AdminTotal(c) && VisibleTotal(a, hidden) <= VisibleTotal(c, hidden)
  {
    forall b
      ensures At(BestMap(a), b) <= At(BestMap(c), b) && At(VisibleMap(a, hidden), b) <= At(VisibleMap(c, hidden), b)
    {
      BestMapAt(a, hidden, b);
      BestMapAt(c, hidden, b);
      BestOfSubset(a, c, b);
    }
    SumMonotone(BestMap(a), BestMap(c));
    SumMonotone(VisibleMap(a, hidden), VisibleMap(c, hidden));
  }

  function UnhiddenMap(subs: seq<Submission>, hidden: set<int>): map<Bucket, real> {
    map b | b in Buckets(subs) && (b.Batch? ==> b.number !in hidden) :: Best(subs, b)
  }

  /** The visible points are the points of the buckets that are not hidden batches. */
  lemma VisibleIsTheUnhidden(subs: seq<Submission>, hidden: set<int>)
    ensures VisibleTotal(subs, hidden) == Sum(UnhiddenMap(subs, hidden))
  {
    forall b
      ensures At(VisibleMap(subs, hidden), b) == At(UnhiddenMap(subs, hidden), b)
    {
      assert b in VisibleMap(subs, hidden) <==> b in Buckets(subs);
    }
    SumEqual(VisibleMap(subs, hidden), UnhiddenMap(subs, hidden));
  }

  /** Hidden points, the difference of the two totals, are never negative. */
  lemma VisibleBelowAdmin(subs: seq<Submission>, hidden: set<int>)
    ensures 0.0 <= VisibleTotal(subs, hidden) <= AdminTotal(subs)
  {
    forall b
      ensures 0.0 <= At(VisibleMap(subs, hidden), b) <= At(BestMap(subs), b)
    {
      BestMapAt(subs, hidden, b);
      BestNonnegative(subs, b);
    }
    SumNonnegative(VisibleMap(subs, hidden));
    SumMonotone(VisibleMap(subs, hidden), BestMap(subs));
  }

  ghost predicate Grows(total: seq<Submission> -> real) {
    && total([]) == 0.0
    && forall subs, s :: total(subs) <= total(subs + [s])
  }

  lemma BothTotalsGrow(hidden: set<int>)
    ensures Grows(AdminTotal) && Grows(VisibleBy(hidden))
  {
    forall subs: seq<Submission>, s: Submission
      ensures AdminTotal(subs) <= AdminTotal(subs + [s])
      ensures VisibleTotal(subs, hidden) <= VisibleTotal(subs + [s], hidden)
    {
      TotalsGrow(subs, s, hidden);
    }
    assert Buckets([]) == {};
  }

  /** The best time is when the final total was first reached: the time of the first submission after which
      the total was what it is at the end; 0 if the total never left 0. */
  lemma {:induction false} LastRiseIsFirstReach(subs: seq<Submission>, start: real, total: seq<Submission> -> real)
    returns (k: nat)
    requires Grows(total)
    ensures k <= |subs| && total(subs[..k]) == total(subs)
    ensures forall i :: 0 <= i < k ==> total(subs[..i]) < total(subs)
    ensures k == 0 ==> LastRise(subs, start, total) == 0.0
    ensures k > 0 ==>
              var date := subs[k - 1].date;
              LastRise(subs, start, total) == if date < start then 0.0 else date - start
    ensures total(subs) == 0.0 <==> k == 0
  {
    if subs == [] {
      k := 0;
      assert subs[..0] == subs;
    } else {
      var n := |subs| - 1;
      var j := LastRiseIsFirstReach(subs[..n], start, total);
      assert subs == subs[..n] + [subs[n]];
      assert total(subs[..n]) <= total(subs[..n] + [subs[n]]);
      forall i | 0 <= i <= n
        ensures subs[..n][..i] == subs[..i]
      {}
      assert subs[..0] == [];
      if total(subs) > total(subs[..n]) {
        k := |subs|;
        assert subs[..|subs|] == subs;
        PrefixBelow(subs, n, total);
      } else {
        k := j;
      }
    }
  }

  lemma {:induction false} PrefixBelow(subs: seq<Submission>, n: nat, total: seq<Submission> -> real)
    requires Grows(total) && n <= |subs|
    ensures forall i :: 0 <= i <= n ==> 0.0 <= total(subs[..i]) <= total(subs[..n])
  {
    if n == 0 {
      assert subs[..0] == [];
    } else {
      PrefixBelow(subs, n - 1, total);
      assert subs[..n] == subs[..n - 1] + [subs[n - 1]];
      assert total(subs[..n - 1]) <= total(subs[..n - 1] + [subs[n - 1]]);
    }
  }
}
