/** `recalculate_ratings` (judge/ratings.py): performances, new means from the weighted history, and the
    displayed ratings; with the fairness and convergence results the scheme is built for. */
module Ratings {
  import opened Numerics
  import opened Solver
  import opened Variance
  import opened History
  import P = Performance
  import TieRanker

  /** The terms of one contestant's posterior; ps is the new performance followed by the old ones, newest first. */
  function HistoryTerms(m: Numerics, times: nat, ps: seq<real>): seq<Term>
    requires m.pi != 0.0 && |ps| <= times + 1
  {
    seq(|ps|, j requires 0 <= j < |ps| => Term(ps[j], m.sqrt(BETA2) * P.TanhC(m), Weight(times, j)))
  }

  /** The logistic law of a past performance has the variance of one measurement, whatever its age. */
  lemma HistoryTermIsLogistic(m: Numerics, times: nat, ps: seq<real>, j: nat)
    requires Lawful(m) && j < |ps| <= times + 1
    ensures var sd := HistoryTerms(m, times, ps)[j].sd; sd * sd * (m.pi * m.pi) == 3.0 * BETA2
  {
    assert m.sqrt(BETA2) * m.sqrt(BETA2) == BETA2 && m.sqrt(3.0) * m.sqrt(3.0) == 3.0;
    P.SquareUp(P.TanhC(m), m.pi, m.sqrt(3.0), m.sqrt(BETA2), HistoryTerms(m, times, ps)[j].sd);
  }

  /** The level sought: w0 * p0, where p0 is the old mean shifted by the pull of the old performances. */
  function PriorTarget(m: Numerics, terms: seq<Term>, w0: real, oldMean: real): real
    requires terms != [] && w0 != 0.0
  {
    w0 * (EvalTanhs(m, terms[1..], oldMean) / w0 + oldMean)
  }

  function MeanFrom(m: Numerics, terms: seq<Term>, w0: real, oldMean: real): real
    requires terms != [] && w0 != 0.0
  {
    Solve(Objective(m, terms, w0), PriorTarget(m, terms, w0, oldMean), P.RangeLow(m), P.RangeHigh(m))
  }

  function NewMean(m: Numerics, times: nat, oldMean: real, ps: seq<real>): real
    requires m.pi != 0.0 && 0 < |ps| <= times + 1
  {
    PriorWeightPositive(times, |ps| - 1);
    MeanFrom(m, HistoryTerms(m, times, ps), PriorWeight(times, |ps|), oldMean)
  }

  function Penalty(m: Numerics, times: nat): real {
    m.sqrt(Var(times + 1)) - m.sqrt(VarLim(m))
  }

  function Max(x: int, y: int): int { if x < y then y else x }

  function Displayed(m: Numerics, times: nat, mean: real): int {
    Max(1, m.round(mean - Penalty(m, times)))
  }

  /** The weight computed in one round of that loop. */
  method NextWeight(cache: VarCache, times: nat, j: nat, wPrev: real) returns (w: real)
    requires cache.Valid() && j <= times
    requires wPrev == if j == 0 then 1.0 else Weight(times, j - 1)
    modifies cache
    ensures cache.Valid() && w == Weight(times, j)
  {
    var gamma2 := if j > 0 then VAR_PER_CONTEST else 0.0;
    var hVar := cache.GetVar(times + 1 - j);
    var k := hVar / (hVar + gamma2);
    w := wPrev * (k * k);
    WeightStep(times, j, wPrev, w);
  }

  /** The inner loop over one contestant's history: the terms and what they leave for the prior. */
  method WeighHistory(m: Numerics, cache: VarCache, times: nat, ps: seq<real>)
    returns (tanhTerms: seq<Term>, w0: real)
    requires m.pi != 0.0 && cache.Valid() && |ps| <= times + 1
    modifies cache
    ensures cache.Valid()
    ensures tanhTerms == HistoryTerms(m, times, ps) && w0 == PriorWeight(times, |ps|)
  {
    tanhTerms := [];
    var wPrev, wSum := 1.0, 0.0;
    for j := 0 to |ps|
      invariant cache.Valid()
      invariant |tanhTerms| == j
      invariant forall i :: 0 <= i < j ==> tanhTerms[i] == HistoryTerms(m, times, ps)[i]
      invariant wPrev == if j == 0 then 1.0 else Weight(times, j - 1)
      invariant wSum == WeightSum(times, j)
    {
      var w := NextWeight(cache, times, j, wPrev);
      tanhTerms := tanhTerms + [Term(ps[j], m.sqrt(BETA2) * P.TanhC(m), w)];
      wPrev := w;
      wSum := wSum + w / BETA2;
    }
    assert tanhTerms == HistoryTerms(m, times, ps);
    var v := cache.GetVar(times + 1);
    w0 := 1.0 / v - wSum;
  }

  /** The newest performance diffuses by nothing (gamma2 = 0), so its weight is 1. */
  lemma WeightStep(times: nat, j: nat, wPrev: real, w: real)
    requires j <= times && wPrev == (if j == 0 then 1.0 else Weight(times, j - 1))
    requires var v := Var(times + 1 - j);
             var k := v / (v + if j > 0 then VAR_PER_CONTEST else 0.0);
             w == wPrev * (k * k)
    ensures w == Weight(times, j)
  {
    if j == 0 {
      SelfQuotient(Var(times + 1));
    }
  }

  lemma SelfQuotient(v: real)
    requires 0.0 < v
    ensures v / (v + 0.0) == 1.0
  {}

  /** The newest performance, ps[0], is the old mean, and that mean is one the search can find. */
  ghost predicate AtLevel(m: Numerics, oldMean: real, ps: seq<real>) {
    Lawful(m) && ps != [] && ps[0] == oldMean && P.RangeLow(m) <= oldMean <= P.RangeHigh(m)
  }

  method ComputeMean(m: Numerics, cache: VarCache, times: nat, oldMean: real, ps: seq<real>) returns (mean: real)
    requires m.pi != 0.0 && cache.Valid() && 0 < |ps| <= times + 1
    modifies cache
    ensures cache.Valid()
    ensures mean == NewMean(m, times, oldMean, ps)
    ensures AtLevel(m, oldMean, ps) ==> -2.0 <= mean - oldMean <= 2.0
  {
    var tanhTerms, w0 := WeighHistory(m, cache, times, ps);
    PriorWeightPositive(times, |ps| - 1);
    var p0 := EvalTanhs(m, tanhTerms[1..], oldMean) / w0 + oldMean;
    var target := w0 * p0;
    assert target == PriorTarget(m, tanhTerms, w0, oldMean);
    mean := SolveLoop(Objective(m, tanhTerms, w0), target, (P.RangeLow(m), P.RangeHigh(m)));
    assert mean == NewMean(m, times, oldMean, ps);
    if AtLevel(m, oldMean, ps) {
      MeanStays(m, times, oldMean, ps);
    }
  }

  /** What the source asks of its arguments: parallel lists in rank order, and no contestant with a longer
      history than the number of contests counted for them. */
  ghost predicate Consistent(ranking: seq<real>, oldMean: seq<real>, times: seq<nat>, history: seq<seq<real>>) {
    && |ranking| == |oldMean| == |times| == |history|
    && P.Nondecreasing(ranking)
    && forall i :: 0 <= i < |history| ==> |history[i]| <= times[i]
  }

  function Widths(m: Numerics, times: seq<nat>): seq<real>
    requires m.pi != 0.0
  {
    seq(|times|, i requires 0 <= i < |times| => P.Delta(m, times[i]))
  }

  function FieldOf(m: Numerics, ranking: seq<real>, oldMean: seq<real>, times: seq<nat>): P.Field
    requires m.pi != 0.0
  {
    P.Field(m, ranking, Widths(m, times), oldMean)
  }

  lemma FieldValid(m: Numerics, ranking: seq<real>, oldMean: seq<real>, times: seq<nat>)
    requires Lawful(m) && |ranking| == |oldMean| == |times| && P.Nondecreasing(ranking)
    ensures FieldOf(m, ranking, oldMean, times).Valid()
  {
    forall i | 0 <= i < |times|
      ensures 0.0 < P.Delta(m, times[i])
    {
      P.DeltaPositive(m, times[i]);
    }
  }

  method ComputeWidths(m: Numerics, cache: VarCache, times: seq<nat>) returns (delta: seq<real>)
    requires Lawful(m) && cache.Valid()
    modifies cache
    ensures cache.Valid() && delta == Widths(m, times)
  {
    delta := [];
    for i := 0 to |times|
      invariant cache.Valid() && delta == Widths(m, times)[..i]
    {
      var v := cache.GetVar(times[i]);
      assert P.Delta(m, times[i]) == P.TanhC(m) * m.sqrt(v + VAR_PER_CONTEST + BETA2);
      delta := delta + [P.TanhC(m) * m.sqrt(v + VAR_PER_CONTEST + BETA2)];
      assert Widths(m, times)[..i + 1] == Widths(m, times)[..i] + [P.Delta(m, times[i])];
    }
  }

  function NewMeans(m: Numerics, oldMean: seq<real>, times: seq<nat>, newP: seq<real>, history: seq<seq<real>>)
    : seq<real>
    requires m.pi != 0.0 && |oldMean| == |times| == |newP| == |history|
    requires forall i :: 0 <= i < |history| ==> |history[i]| <= times[i]
  {
    seq(|newP|, i requires 0 <= i < |newP| => NewMean(m, times[i], oldMean[i], [newP[i]] + history[i]))
  }

  method ComputeMeans(m: Numerics, cache: VarCache, oldMean: seq<real>, times: seq<nat>, newP: seq<real>,
                      history: seq<seq<real>>)
    returns (newMean: seq<real>)
    requires m.pi != 0.0 && cache.Valid()
    requires |oldMean| == |times| == |newP| == |history|
    requires forall i :: 0 <= i < |history| ==> |history[i]| <= times[i]
    modifies cache
    ensures cache.Valid() && newMean == NewMeans(m, oldMean, times, newP, history)
  {
    newMean := [];
    ghost var target := NewMeans(m, oldMean, times, newP, history);
    for i := 0 to |newP|
      invariant cache.Valid() && newMean == target[..i]
    {
      var mean := ComputeMean(m, cache, times[i], oldMean[i], [newP[i]] + history[i]);
      assert mean == target[i];
      newMean := newMean + [mean];
      assert target[..i + 1] == target[..i] + [target[i]];
    }
  }

  method ComputeDisplayed(m: Numerics, cache: VarCache, times: seq<nat>, mean: seq<real>) returns (rating: seq<int>)
    requires cache.Valid() && |times| == |mean|
    modifies cache
    ensures cache.Valid() && |rating| == |mean|
    ensures forall i :: 0 <= i < |mean| ==> rating[i] == Displayed(m, times[i], mean[i])
  {
    rating := [];
    for i := 0 to |mean|
      invariant cache.Valid() && |rating| == i
      invariant forall k :: 0 <= k < i ==> rating[k] == Displayed(m, times[k], mean[k])
    {
      var v := cache.GetVar(times[i] + 1);
      rating := rating + [Max(1, m.round(mean[i] - (m.sqrt(v) - m.sqrt(VarLim(m)))))];
    }
  }

  method RecalculateRatings(m: Numerics, cache: VarCache, ranking: seq<real>, oldMean: seq<real>,
                            times: seq<nat>, history: seq<seq<real>>)
    returns (newRating: seq<int>, newMean: seq<real>, newP: seq<real>)
    requires Lawful(m) && cache.Valid() && Consistent(ranking, oldMean, times, history)
    modifies cache
    ensures cache.Valid()
    ensures |newRating| == |newMean| == |newP| == |ranking|
    ensures |ranking| < 2 ==> newP == newMean == oldMean
    ensures 2 <= |ranking| ==>
      FieldOf(m, ranking, oldMean, times).Valid() &&
      P.Filled(FieldOf(m, ranking, oldMean, times), newP, 0, |ranking| - 1)
    ensures 2 <= |ranking| ==> forall i :: 0 <= i < |ranking| ==>
      newMean[i] == NewMean(m, times[i], oldMean[i], [newP[i]] + history[i])
    ensures forall i :: 0 <= i < |ranking| ==> newRating[i] == Displayed(m, times[i], newMean[i])
  {
    var n := |ranking|;
    FieldValid(m, ranking, oldMean, times);
    var delta := ComputeWidths(m, cache, times);
    if |ranking| < 2 {
      newP, newMean := oldMean, oldMean;
    } else {
      var performance := P.Performances(P.Field(m, ranking, delta, oldMean));
      newP := performance[..];
      newMean := ComputeMeans(m, cache, oldMean, times, newP, history);
    }
    newRating := ComputeDisplayed(m, cache, times, newMean);
  }

  // ---- Fairness ----

  lemma TermsProper(m: Numerics, times: nat, ps: seq<real>)
    requires Lawful(m) && |ps| <= times + 1
    ensures Proper(HistoryTerms(m, times, ps))
  {
    P.DeltaPositive(m, times);
    SqrtPositive(m.sqrt, BETA2);
    ProductPositive(m.sqrt(BETA2), P.TanhC(m));
    forall j | 0 <= j < |ps|
      ensures 0.0 < Weight(times, j)
    {
      WeightPositive(times, j);
    }
  }

  /** The search for a mean answers its question: in range, and within 2 of the prior's pull. */
  lemma MeanFromSolves(m: Numerics, terms: seq<Term>, w0: real, oldMean: real)
    requires Lawful(m) && Proper(terms) && terms != [] && 0.0 < w0
    ensures StrictlyIncreasing(Objective(m, terms, w0))
    ensures P.RangeLow(m) <= MeanFrom(m, terms, w0, oldMean) <= P.RangeHigh(m)
    ensures Near(Objective(m, terms, w0), PriorTarget(m, terms, w0, oldMean),
                 P.RangeLow(m), P.RangeHigh(m), MeanFrom(m, terms, w0, oldMean))
  {
    ObjectiveIncreasing(m, terms, w0);
    SolveAnswers(Objective(m, terms, w0), PriorTarget(m, terms, w0, oldMean), P.RangeLow(m), P.RangeHigh(m));
  }

  /** For every number of contests and every history that is no longer, the new mean is well defined: the
      prior keeps positive weight, the posterior increases strictly, and the mean found is in range and
      within 2 of where the posterior reaches the prior's pull. */
  lemma NewMeanSolves(m: Numerics, times: nat, oldMean: real, ps: seq<real>)
    requires Lawful(m) && 0 < |ps| <= times + 1
    ensures var terms, w0 := HistoryTerms(m, times, ps), PriorWeight(times, |ps|);
            && 0.0 < w0
            && StrictlyIncreasing(Objective(m, terms, w0))
            && P.RangeLow(m) <= NewMean(m, times, oldMean, ps) <= P.RangeHigh(m)
            && Near(Objective(m, terms, w0), PriorTarget(m, terms, w0, oldMean),
                    P.RangeLow(m), P.RangeHigh(m), NewMean(m, times, oldMean, ps))
  {
    TermsProper(m, times, ps);
    PriorWeightPositive(times, |ps| - 1);
    MeanFromSolves(m, HistoryTerms(m, times, ps), PriorWeight(times, |ps|), oldMean);
  }

  /** Someone who performs at their old mean keeps it, to within 2, whatever their past performances were:
      the prior is placed where it balances them. */
  lemma MeanStays(m: Numerics, times: nat, oldMean: real, ps: seq<real>)
    requires |ps| <= times + 1 && AtLevel(m, oldMean, ps)
    ensures -2.0 <= NewMean(m, times, oldMean, ps) - oldMean <= 2.0
  {
    TermsProper(m, times, ps);
    PriorWeightPositive(times, |ps| - 1);
    MeanFromStays(m, HistoryTerms(m, times, ps), PriorWeight(times, |ps|), oldMean);
  }

  lemma MeanFromStays(m: Numerics, terms: seq<Term>, w0: real, oldMean: real)
    requires Lawful(m) && Proper(terms) && terms != [] && 0.0 < w0
    requires terms[0].mu == oldMean && P.RangeLow(m) <= oldMean <= P.RangeHigh(m)
    ensures -2.0 <= MeanFrom(m, terms, w0, oldMean) - oldMean <= 2.0
  {
    var pull := EvalTanhs(m, terms[1..], oldMean);
    assert EvalTanhs(m, terms, oldMean) == pull by { TermAtCentre(m, terms[0]); }
    PriorBalances(w0, pull, oldMean);
    MeanFromSolves(m, terms, w0, oldMean);
    NearCrossing(Objective(m, terms, w0), PriorTarget(m, terms, w0, oldMean), P.RangeLow(m), P.RangeHigh(m),
                 MeanFrom(m, terms, w0, oldMean), oldMean);
  }

  lemma PriorBalances(w0: real, pull: real, oldMean: real)
    requires w0 != 0.0
    ensures w0 * (pull / w0 + oldMean) == Affine(w0, oldMean, pull)
  {
    assert w0 * (pull / w0) == pull;
  }

  lemma BetterFirstTermLowerObjective(m: Numerics, t: Term, mu: real, rest: seq<Term>, w0: real)
    requires Lawful(m) && 0.0 < t.sd && 0.0 < t.wt && t.mu <= mu
    ensures forall x :: Objective(m, [t.(mu := mu)] + rest, w0)(x) <= Objective(m, [t] + rest, w0)(x)
  {
    forall x {
      ObjectiveAntitoneInCentre(m, t, mu, rest, w0, x);
    }
  }

  lemma BetterFirstTermBetterMean(m: Numerics, t: Term, mu: real, rest: seq<Term>, w0: real, oldMean: real)
    requires Lawful(m) && 0.0 < t.sd && 0.0 < t.wt && 0.0 < w0 && t.mu <= mu
    ensures MeanFrom(m, [t] + rest, w0, oldMean) <= MeanFrom(m, [t.(mu := mu)] + rest, w0, oldMean)
  {
    var lower, upper := [t] + rest, [t.(mu := mu)] + rest;
    assert lower[1..] == rest == upper[1..];
    BetterFirstTermLowerObjective(m, t, mu, rest, w0);
    SolveAntitoneInFunction(Objective(m, upper, w0), Objective(m, lower, w0), PriorTarget(m, lower, w0, oldMean),
                            P.RangeLow(m), P.RangeHigh(m));
  }

  /** With everything else equal, a better performance never gives a lower mean. */
  lemma BetterPerformanceBetterMean(m: Numerics, times: nat, oldMean: real, p: real, p': real, past: seq<real>)
    requires Lawful(m) && |past| <= times && p' <= p
    ensures NewMean(m, times, oldMean, [p'] + past) <= NewMean(m, times, oldMean, [p] + past)
  {
    var low, high := HistoryTerms(m, times, [p'] + past), HistoryTerms(m, times, [p] + past);
    assert low == [low[0]] + low[1..];
    assert high == [low[0].(mu := p)] + low[1..];
    TermsProper(m, times, [p'] + past);
    PriorWeightPositive(times, |past|);
    BetterFirstTermBetterMean(m, low[0], p, low[1..], PriorWeight(times, |past| + 1), oldMean);
  }

  /** Order fairness: of two entrants with the same past, the better placed never ends up rated lower. */
  lemma OrderFair(m: Numerics, ranking: seq<real>, oldMean: seq<real>, times: seq<nat>, history: seq<seq<real>>,
                  newP: seq<real>, i: nat, j: nat)
    requires Lawful(m) && Consistent(ranking, oldMean, times, history)
    requires 2 <= |ranking| == |newP| && FieldOf(m, ranking, oldMean, times).Valid()
    requires P.Filled(FieldOf(m, ranking, oldMean, times), newP, 0, |ranking| - 1)
    requires i < j < |ranking|
    requires oldMean[i] == oldMean[j] && times[i] == times[j] && history[i] == history[j]
    ensures newP[j] <= newP[i]
    ensures var a, b := NewMean(m, times[i], oldMean[i], [newP[i]] + history[i]),
                        NewMean(m, times[j], oldMean[j], [newP[j]] + history[j]);
            b <= a && Displayed(m, times[j], b) <= Displayed(m, times[i], a)
  {
    BetterPerformanceBetterMean(m, times[i], oldMean[i], newP[i], newP[j], history[i]);
  }

  /** The computing part of `rate_contest`: users come in standings order and are ranked by their key. */
  method RateContest<T, K(==)>(m: Numerics, cache: VarCache, users: seq<T>, key: T -> K, oldMean: seq<real>,
                               times: seq<nat>, history: seq<seq<real>>)
    returns (ranking: seq<real>, newRating: seq<int>, newMean: seq<real>, newP: seq<real>)
    requires Lawful(m) && cache.Valid()
    requires |users| == |oldMean| == |times| == |history|
    requires forall i :: 0 <= i < |history| ==> |history[i]| <= times[i]
    modifies cache
    ensures cache.Valid()
    ensures |ranking| == |newRating| == |newMean| == |newP| == |users|
    ensures 2 <= |users| ==>
      FieldOf(m, ranking, oldMean, times).Valid() &&
      P.Filled(FieldOf(m, ranking, oldMean, times), newP, 0, |users| - 1)
    ensures forall i, j :: 0 <= i < j < |users| && oldMean[i] == oldMean[j] && times[i] == times[j]
                           && history[i] == history[j] ==>
              newP[j] <= newP[i] && newMean[j] <= newMean[i] && newRating[j] <= newRating[i]
  {
    ghost var keys := seq(|users|, i requires 0 <= i < |users| => key(users[i]));
    ranking := TieRanker.Rank(users, key);
    newRating, newMean, newP := RecalculateRatings(m, cache, ranking, oldMean, times, history);
    forall i, j | 0 <= i < j < |users| && oldMean[i] == oldMean[j] && times[i] == times[j] && history[i] == history[j]
      ensures newP[j] <= newP[i] && newMean[j] <= newMean[i] && newRating[j] <= newRating[i]
    {
      OrderFair(m, ranking, oldMean, times, history, newP, i, j);
    }
  }

  // ---- The displayed rating ----

  /** What is taken off for display is positive, shrinks with every contest, and vanishes: after t
      contests it is at most a fixed multiple of 1 / (BETA2 + t VAR_PER_CONTEST). */
  lemma PenaltyVanishes(m: Numerics, times: nat)
    requires Lawful(m)
    ensures 0.0 < Penalty(m, times + 1) < Penalty(m, times)
    ensures (Penalty(m, times) * m.sqrt(VarLim(m))) * Horizon(times + 1)
            <= (VAR_INIT - VarLim(m)) * BETA2
  {
    VarDescends(m, times);
    VarDescends(m, times + 1);
    var l := VarLim(m);
    SqrtOrder(m.sqrt, Var(times + 2), Var(times + 1));
    SqrtOrder(m.sqrt, l, Var(times + 2));
    SqrtOrder(m.sqrt, l, Var(times + 1));
    PenaltyBound(m, times);
  }

  lemma PenaltyBound(m: Numerics, times: nat)
    requires Lawful(m)
    ensures (Penalty(m, times) * m.sqrt(VarLim(m))) * Horizon(times + 1)
            <= (VAR_INIT - VarLim(m)) * BETA2
  {
    var v, l := Var(times + 1), VarLim(m);
    VarDescends(m, times);
    SqrtOrder(m.sqrt, l, v);
    VarConverges(m, times + 1);
    DifferenceOfRoots(m.sqrt(v), m.sqrt(l), v, l, Horizon(times + 1), (VAR_INIT - l) * BETA2);
  }

  lemma DifferenceOfRoots(r: real, s: real, v: real, l: real, k: real, bound: real)
    requires 0.0 <= s < r && 0.0 <= k && r * r == v && s * s == l
    requires (v - l) * k <= bound
    ensures ((r - s) * s) * k <= bound
  {
    ProductPositive(r - s, r);
    assert v - l == (r - s) * s + (r - s) * r;
    RaiseLeft((r - s) * s, v - l, k);
  }

  /** What is taken off for display is the posterior deviation above its limit: the same precision that
      the prior and the weighted history share out between them in the update, for any length of history. */
  lemma PenaltyIsPosteriorDeviation(m: Numerics, times: nat, n: nat)
    requires Lawful(m) && n <= times + 1
    ensures var sd := Penalty(m, times) + m.sqrt(VarLim(m));
            0.0 < sd && sd * sd * (PriorWeight(times, n) + WeightSum(times, n)) == 1.0
  {
    var v := Var(times + 1);
    SqrtPositive(m.sqrt, v);
    assert m.sqrt(v) * m.sqrt(v) == v;
    ReciprocalPositive(v);
  }

  /** The displayed rating never exceeds the rounded mean (or 1), and undershoots a mean that is not
      floored by at most the penalty and a half. */
  lemma DisplayedBelowMean(m: Numerics, times: nat, mean: real)
    requires Lawful(m)
    ensures 1 <= Displayed(m, times, mean) <= Max(1, m.round(mean))
    ensures mean - Penalty(m, times) - 0.5 <= Displayed(m, times, mean) as real
    ensures 1.5 <= mean - Penalty(m, times) ==>
              Displayed(m, times, mean) as real <= mean - Penalty(m, times) + 0.5
  {
    PenaltyVanishes(m, times);
    assert -0.5 <= m.round(mean - Penalty(m, times)) as real - (mean - Penalty(m, times)) <= 0.5;
  }
}
