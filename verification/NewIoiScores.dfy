/** What `update_participation` of the New IOI format stores (judge/contest_format/new_ioi.py:163-229): a cell
    per problem, the totals over problems, live and frozen, and the participation's score and times. */
module NewIoiScores {
  import CD = ContestData
  import opened ScoreMaps
  import opened NewIoi
  import opened NewIoiParticipation
  import Sets

  /** The result of `_effective_points_and_time`, with the admin time. */
  datatype Figures =
    Figures(points: real, time: real, visible: real, admin: real, hidden: real, adminTime: real)

  /** The running totals of one side, live or frozen. */
  datatype Tally = Tally(points: real, admin: real, time: real, adminTime: real)

  /** The `__new_ioi__` entry. */
  datatype Summary =
    Summary(visible: real, hidden: real, admin: real, effective: real, adminTime: real, effectiveTime: real,
            frozenAdmin: real, frozenEffective: real, frozenAdminTime: real, frozenEffectiveTime: real,
            liveMasking: bool)

  /** `format_data` as two dictionaries with the same keys, the live and the frozen figures of every problem, and
      the problems with `has_frozen_submission`. */
  datatype Row =
    Row(score: real, cumtime: real, tiebreaker: real, frozenScore: real, frozenCumtime: real,
        frozenTiebreaker: real, live: map<int, Figures>, frozen: map<int, Figures>, hasFrozen: set<int>,
        summary: Summary)

  // ---- Specification ----

  ghost function FiguresOf(setup: Setup, subs: seq<Submission>, p: int): Figures {
    var visible := VisibleTotal(subs, setup.hidden(p));
    var visibleTime := LastRise(subs, setup.start, VisibleBy(setup.hidden(p)));
    var admin := AdminTotal(subs);
    var adminTime := LastRise(subs, setup.start, AdminTotal);
    if setup.liveMasking then Figures(visible, visibleTime, visible, admin, admin - visible, adminTime)
    else Figures(admin, adminTime, visible, admin, admin - visible, adminTime)
  }

  ghost function FiguresBy(setup: Setup, subs: int -> seq<Submission>): int -> Figures {
    p => FiguresOf(setup, subs(p), p)
  }

  function Over(problems: set<int>, figuresOf: int -> Figures): map<int, Figures> {
    map p | p in problems :: figuresOf(p)
  }

  ghost function FiguresOver(setup: Setup, problems: set<int>, subs: int -> seq<Submission>): map<int, Figures> {
    Over(problems, FiguresBy(setup, subs))
  }

  function Attempted(subs: int -> seq<Submission>): int -> bool {
    p => subs(p) != []
  }

  function Where(problems: set<int>, has: int -> bool): set<int> {
    set p | p in problems && has(p)
  }

  function Tried(problems: set<int>, subs: int -> seq<Submission>): set<int> {
    Where(problems, Attempted(subs))
  }

  /** What the frozen states have seen; without a freeze they are the live ones. */
  function Frozen(setup: Setup, attempts: seq<Attempt>): int -> seq<Submission> {
    if setup.freezing then Early(setup, attempts) else Live(attempts)
  }

  function Points(f: Figures): real { f.points }
  function Admin(f: Figures): real { f.admin }
  function Visible(f: Figures): real { f.visible }
  function Hidden(f: Figures): real { f.hidden }

  /** Only problems with points add their time, and only with `cumtime` configured. */
  function Time(setup: Setup): Figures -> real {
    (f: Figures) => if setup.cumtime && f.points > 0.0 then setup.truncate(f.time) else 0.0
  }
  function AdminTime(setup: Setup): Figures -> real {
    (f: Figures) => if setup.cumtime && f.admin > 0.0 then setup.truncate(f.adminTime) else 0.0
  }

  function Column(figures: map<int, Figures>, f: Figures -> real): map<int, real> {
    map p | p in figures :: f(figures[p])
  }

  ghost function Total(figures: map<int, Figures>, f: Figures -> real): real {
    Sum(Column(figures, f))
  }

  ghost function TallyOf(setup: Setup, figures: map<int, Figures>): Tally {
    Tally(Total(figures, Points), Total(figures, Admin), Total(figures, Time(setup)), Total(figures, AdminTime(setup)))
  }

  function NotNegative(x: real): real { if x < 0.0 then 0.0 else x }

  function Summarize(setup: Setup, live: Tally, frozen: Tally, visible: real, hidden: real): Summary {
    Summary(setup.round(visible), setup.round(hidden), setup.round(live.admin), setup.round(live.points),
            NotNegative(live.adminTime), NotNegative(live.time),
            setup.round(frozen.admin), setup.round(frozen.points),
            NotNegative(frozen.adminTime), NotNegative(frozen.time), setup.liveMasking)
  }

  ghost function RowOf(setup: Setup, attempts: seq<Attempt>): Row {
    RowFrom(setup, FiguresOver(setup, Problems(attempts), Live(attempts)),
            FiguresOver(setup, Problems(attempts), Frozen(setup, attempts)),
            Tried(Problems(attempts), Frozen(setup, attempts)))
  }

  ghost function RowFrom(setup: Setup, live: map<int, Figures>, frozen: map<int, Figures>, hasFrozen: set<int>): Row {
    var tally, frozenTally := TallyOf(setup, live), TallyOf(setup, frozen);
    var time := if setup.cumtime then NotNegative(tally.time) else 0.0;
    var frozenTime := if setup.cumtime then NotNegative(frozenTally.time) else 0.0;
    Row(setup.round(tally.points), time, time, setup.round(frozenTally.points), frozenTime, frozenTime,
        live, frozen, hasFrozen,
        Summarize(setup, tally, frozenTally, Total(live, Visible), Total(live, Hidden)))
  }

  // ---- The second half of update_participation ----

  lemma TotalAdd(figures: map<int, Figures>, p: int, x: Figures, f: Figures -> real)
    requires p !in figures
    ensures Total(figures[p := x], f) == Total(figures, f) + f(x)
  {
    SumPick(Column(figures[p := x], f), p);
    assert Column(figures[p := x], f) - {p} == Column(figures, f);
  }

  /** The state has these figures. */
  ghost predicate Shows(setup: Setup, state: ProblemState, f: Figures)
    reads state
  {
    && f.visible == Sum(state.maxVisible) && f.admin == Sum(state.maxAll)
    && f.hidden == f.admin - f.visible && f.adminTime == state.bestAdminTime
    && f.points == (if setup.liveMasking then f.visible else f.admin)
    && f.time == if setup.liveMasking then state.bestVisibleTime else state.bestAdminTime
  }

  ghost predicate AllShow(setup: Setup, table: Table, figuresOf: int -> Figures, has: int -> bool)
    reads table.Values
  {
    forall p <- table :: Shows(setup, table[p], figuresOf(p)) && (table[p].hasSubmission <==> has(p))
  }

  lemma RepresentsShows(setup: Setup, state: ProblemState, subs: seq<Submission>, p: int)
    requires state.Represents(subs, setup.hidden(p), setup.start)
    ensures Shows(setup, state, FiguresOf(setup, subs, p))
  {
    SumIsTotal(subs, setup.hidden(p), state.maxAll, state.maxVisible);
  }

  lemma HoldsShows(setup: Setup, table: Table, subs: int -> seq<Submission>)
    requires Holds(setup, table, subs)
    ensures AllShow(setup, table, FiguresBy(setup, subs), Attempted(subs))
  {
    forall p <- table
      ensures Shows(setup, table[p], FiguresBy(setup, subs)(p))
    {
      RepresentsShows(setup, table[p], subs(p), p);
    }
  }

  /** `_effective_points_and_time`. */
  method Effective(setup: Setup, state: ProblemState, ghost figures: Figures) returns (f: Figures)
    requires Shows(setup, state, figures)
    ensures f == figures
  {
    var visible := SumValues(state.maxVisible);
    var admin := SumValues(state.maxAll);
    var hidden := admin - visible;
    if setup.liveMasking {
      f := Figures(visible, state.bestVisibleTime, visible, admin, hidden, state.bestAdminTime);
    } else {
      f := Figures(admin, state.bestAdminTime, visible, admin, hidden, state.bestAdminTime);
    }
  }

  /** The body of the loop over the problems, for one side. */
  function Added(setup: Setup, t: Tally, f: Figures): Tally {
    Tally(t.points + f.points, t.admin + f.admin,
          if setup.cumtime && f.points > 0.0 then t.time + setup.truncate(f.time) else t.time,
          if setup.cumtime && f.admin > 0.0 then t.adminTime + setup.truncate(f.adminTime) else t.adminTime)
  }

  lemma TallyAdd(setup: Setup, figures: map<int, Figures>, p: int, x: Figures)
    requires p !in figures
    ensures TallyOf(setup, figures[p := x]) == Added(setup, TallyOf(setup, figures), x)
  {
    TotalAdd(figures, p, x, Points);
    TotalAdd(figures, p, x, Admin);
    TotalAdd(figures, p, x, Time(setup));
    TotalAdd(figures, p, x, AdminTime(setup));
  }

  /** `tallyOf` follows figures as they are added. */
  ghost predicate Follows(setup: Setup, tallyOf: map<int, Figures> -> Tally) {
    && tallyOf(map[]) == Tally(0.0, 0.0, 0.0, 0.0)
    && forall figures, p, x :: p !in figures ==> tallyOf(figures[p := x]) == Added(setup, tallyOf(figures), x)
  }

  ghost function TallyBy(setup: Setup): map<int, Figures> -> Tally {
    (figures: map<int, Figures>) => TallyOf(setup, figures)
  }

  lemma TallyFollows(setup: Setup)
    ensures Follows(setup, TallyBy(setup))
  {
    forall figures: map<int, Figures>, p, x | p !in figures
      ensures TallyOf(setup, figures[p := x]) == Added(setup, TallyOf(setup, figures), x)
    {
      TallyAdd(setup, figures, p, x);
    }
  }

  /** What one side comes to over these problems. */
  ghost predicate Sided(figuresOf: int -> Figures, has: int -> bool, tallyOf: map<int, Figures> -> Tally,
                        problems: set<int>, figures: map<int, Figures>, tally: Tally, tried: set<int>)
  {
    figures == Over(problems, figuresOf) && tally == tallyOf(figures) && tried == Where(problems, has)
  }

  lemma SidedAdd(setup: Setup, figuresOf: int -> Figures, has: int -> bool, tallyOf: map<int, Figures> -> Tally,
                 problems: set<int>, figures: map<int, Figures>, tally: Tally, tried: set<int>, p: int, f: Figures)
    requires Follows(setup, tallyOf) && p !in problems && f == figuresOf(p)
    requires Sided(figuresOf, has, tallyOf, problems, figures, tally, tried)
    ensures Sided(figuresOf, has, tallyOf, problems + {p}, figures[p := f], Added(setup, tally, f),
                  tried + if has(p) then {p} else {})
  {
    assert p !in figures;
    assert figures[p := f] == Over(problems + {p}, figuresOf);
  }

  /** The body of the loop over the problems, for one side. */
  method AddProblem(setup: Setup, state: ProblemState, p: int, ghost problems: set<int>,
                    ghost figuresOf: int -> Figures, ghost has: int -> bool,
                    ghost tallyOf: map<int, Figures> -> Tally,
                    figures: map<int, Figures>, tally: Tally, tried: set<int>)
    returns (figures': map<int, Figures>, tally': Tally, tried': set<int>)
    requires Shows(setup, state, figuresOf(p)) && (state.hasSubmission <==> has(p)) && p !in problems
    requires Follows(setup, tallyOf) && Sided(figuresOf, has, tallyOf, problems, figures, tally, tried)
    ensures Sided(figuresOf, has, tallyOf, problems + {p}, figures', tally', tried')
  {
    var f := Effective(setup, state, figuresOf(p));
    SidedAdd(setup, figuresOf, has, tallyOf, problems, figures, tally, tried, p, f);
    figures', tally' := figures[p := f], Added(setup, tally, f);
    tried' := tried + if state.hasSubmission then {p} else {};
  }

  /** The loop over the problems, for one side. */
  method MakeSide(setup: Setup, table: Table, ghost figuresOf: int -> Figures, ghost has: int -> bool,
                  ghost tallyOf: map<int, Figures> -> Tally)
    returns (figures: map<int, Figures>, tally: Tally, tried: set<int>)
    requires AllShow(setup, table, figuresOf, has) && Follows(setup, tallyOf)
    ensures Sided(figuresOf, has, tallyOf, table.Keys, figures, tally, tried)
  {
    figures, tally, tried := map[], Tally(0.0, 0.0, 0.0, 0.0), {};
    var rest: set<int> := table.Keys;
    ghost var done: set<int> := {};
    while rest != {}
      invariant done + rest == table.Keys && done !! rest
      invariant Sided(figuresOf, has, tallyOf, done, figures, tally, tried)
      decreases rest
    {
      var p := Sets.Pick(rest);
      figures, tally, tried :=
        AddProblem(setup, table[p], p, done, figuresOf, has, tallyOf, figures, tally, tried);
      done, rest := done + {p}, rest - {p};
    }
    assert done == table.Keys;
  }

  method TotalOf(figures: map<int, Figures>, f: Figures -> real) returns (s: real)
    ensures s == Total(figures, f)
  {
    s := SumValues(Column(figures, f));
  }

  // The row's figures, read off its cells: with `cumtime`, a problem adds its time only if it has points.

  function CountedTimes(figures: map<int, Figures>, truncate: real -> real): map<int, real> {
    map p | p in figures && figures[p].points > 0.0 :: truncate(figures[p].time)
  }

  function CountedAdminTimes(figures: map<int, Figures>, truncate: real -> real): map<int, real> {
    map p | p in figures && figures[p].admin > 0.0 :: truncate(figures[p].adminTime)
  }

  ghost predicate Floored(x: real, y: real) {
    x == if y < 0.0 then 0.0 else y
  }

  ghost predicate AddsUp(setup: Setup, figures: map<int, Figures>, score: real, cumtime: real, tiebreaker: real) {
    && score == setup.round(Sum(map p | p in figures :: figures[p].points))
    && Floored(cumtime, if setup.cumtime then Sum(CountedTimes(figures, setup.truncate)) else 0.0)
    && tiebreaker == cumtime
  }

  ghost predicate Summarizes(setup: Setup, live: map<int, Figures>, frozen: map<int, Figures>, s: Summary) {
    && s.visible == setup.round(Sum(map p | p in live :: live[p].visible))
    && s.hidden == setup.round(Sum(map p | p in live :: live[p].hidden))
    && s.admin == setup.round(Sum(map p | p in live :: live[p].admin))
    && s.frozenAdmin == setup.round(Sum(map p | p in frozen :: frozen[p].admin))
    && AddsUp(setup, live, s.effective, s.effectiveTime, s.effectiveTime)
    && AddsUp(setup, frozen, s.frozenEffective, s.frozenEffectiveTime, s.frozenEffectiveTime)
    && Floored(s.adminTime, if setup.cumtime then Sum(CountedAdminTimes(live, setup.truncate)) else 0.0)
    && Floored(s.frozenAdminTime, if setup.cumtime then Sum(CountedAdminTimes(frozen, setup.truncate)) else 0.0)
    && s.liveMasking == setup.liveMasking
  }

  /** The totals of one side, read off its cells. */
  lemma TallyOfCells(setup: Setup, figures: map<int, Figures>)
    ensures var t := TallyOf(setup, figures);
            && t.points == Sum(map p | p in figures :: figures[p].points)
            && t.admin == Sum(map p | p in figures :: figures[p].admin)
            && t.time == (if setup.cumtime then Sum(CountedTimes(figures, setup.truncate)) else 0.0)
            && t.adminTime == if setup.cumtime then Sum(CountedAdminTimes(figures, setup.truncate)) else 0.0
    ensures Total(figures, Visible) == Sum(map p | p in figures :: figures[p].visible)
    ensures Total(figures, Hidden) == Sum(map p | p in figures :: figures[p].hidden)
  {
    ColumnSums(figures);
    TimeSums(setup, figures);
  }

  lemma ColumnSums(figures: map<int, Figures>)
    ensures Total(figures, Points) == Sum(map p | p in figures :: figures[p].points)
    ensures Total(figures, Admin) == Sum(map p | p in figures :: figures[p].admin)
    ensures Total(figures, Visible) == Sum(map p | p in figures :: figures[p].visible)
    ensures Total(figures, Hidden) == Sum(map p | p in figures :: figures[p].hidden)
  {
    ColumnSum(figures, Points, map p | p in figures :: figures[p].points);
    ColumnSum(figures, Admin, map p | p in figures :: figures[p].admin);
    ColumnSum(figures, Visible, map p | p in figures :: figures[p].visible);
    ColumnSum(figures, Hidden, map p | p in figures :: figures[p].hidden);
  }

  lemma ColumnSum(figures: map<int, Figures>, f: Figures -> real, m: map<int, real>)
    requires m.Keys == figures.Keys && forall p <- figures :: m[p] == f(figures[p])
    ensures Total(figures, f) == Sum(m)
  {
    var column := Column(figures, f);
    assert column.Keys == m.Keys;
    forall p <- m
      ensures column[p] == m[p]
    {}
    assert column == m;
  }

  lemma TimeSums(setup: Setup, figures: map<int, Figures>)
    ensures Total(figures, Time(setup)) == if setup.cumtime then Sum(CountedTimes(figures, setup.truncate)) else 0.0
    ensures Total(figures, AdminTime(setup)) ==
            if setup.cumtime then Sum(CountedAdminTimes(figures, setup.truncate)) else 0.0
  {
    var none: map<int, real> := map[];
    SameSum(Column(figures, Time(setup)), if setup.cumtime then CountedTimes(figures, setup.truncate) else none);
    SameSum(Column(figures, AdminTime(setup)),
            if setup.cumtime then CountedAdminTimes(figures, setup.truncate) else none);
  }

  lemma SameSum(a: map<int, real>, b: map<int, real>)
    requires forall p <- a :: a[p] == At(b, p)
    requires forall p <- b :: p in a
    ensures Sum(a) == Sum(b)
  {
    forall p
      ensures At(a, p) == At(b, p)
    {}
    SumEqual(a, b);
  }

  lemma RowAddsUp(setup: Setup, live: map<int, Figures>, frozen: map<int, Figures>, hasFrozen: set<int>)
    ensures var row := RowFrom(setup, live, frozen, hasFrozen);
            && AddsUp(setup, live, row.score, row.cumtime, row.tiebreaker)
            && AddsUp(setup, frozen, row.frozenScore, row.frozenCumtime, row.frozenTiebreaker)
            && Summarizes(setup, live, frozen, row.summary)
  {
    TallyOfCells(setup, live);
    TallyOfCells(setup, frozen);
  }

  class Participation {
    var score: real
    var cumtime: real
    var tiebreaker: real
    var frozenScore: real
    var frozenCumtime: real
    var frozenTiebreaker: real
    var live: map<int, Figures>
    var frozen: map<int, Figures>
    var hasFrozen: set<int>
    var summary: Summary

    function View(): Row
      reads this
    {
      Row(score, cumtime, tiebreaker, frozenScore, frozenCumtime, frozenTiebreaker, live, frozen, hasFrozen, summary)
    }

    /** `update_participation`. */
    method Update(setup: Setup, attempts: seq<Attempt>)
      modifies this
      ensures View() == RowOf(setup, attempts)
      ensures AddsUp(setup, live, score, cumtime, tiebreaker)
      ensures AddsUp(setup, frozen, frozenScore, frozenCumtime, frozenTiebreaker)
      ensures Summarizes(setup, live, frozen, summary)
    {
      var states, frozenStates := BuildStates(setup, attempts);
      if !setup.freezing {
        frozenStates := states;
      }
      TallyFollows(setup);
      var subs, frozenSubs := Live(attempts), Frozen(setup, attempts);
      HoldsShows(setup, states, subs);
      HoldsShows(setup, frozenStates, frozenSubs);
      var figures, tally, _ := MakeSide(setup, states, FiguresBy(setup, subs), Attempted(subs), TallyBy(setup));
      var frozenFigures, frozenTally, tried :=
        MakeSide(setup, frozenStates, FiguresBy(setup, frozenSubs), Attempted(frozenSubs), TallyBy(setup));
      Assign(setup, figures, tally, frozenFigures, frozenTally, tried);
      RowAddsUp(setup, figures, frozenFigures, tried);
    }

    /** The assignments at the end of it. */
    method Assign(setup: Setup, figures: map<int, Figures>, tally: Tally, frozenFigures: map<int, Figures>,
                  frozenTally: Tally, tried: set<int>)
      requires tally == TallyOf(setup, figures) && frozenTally == TallyOf(setup, frozenFigures)
      modifies this
      ensures View() == RowFrom(setup, figures, frozenFigures, tried)
    {
      var visible := TotalOf(figures, Visible);
      var hidden := TotalOf(figures, Hidden);
      live, frozen, hasFrozen := figures, frozenFigures, tried;
      summary := Summarize(setup, tally, frozenTally, visible, hidden);
      score := setup.round(tally.points);
      cumtime := if setup.cumtime then NotNegative(tally.time) else 0.0;
      tiebreaker := if setup.cumtime then cumtime else 0.0;
      frozenScore := setup.round(frozenTally.points);
      frozenCumtime := if setup.cumtime then NotNegative(frozenTally.time) else 0.0;
      frozenTiebreaker := if setup.cumtime then frozenCumtime else 0.0;
    }
  }

  // ---- Hidden and visible points ----

  /** Columns that agree, apart from zeros on one side only, have the same total. */
  lemma TotalSame(a: map<int, Figures>, b: map<int, Figures>, f: Figures -> real, g: Figures -> real)
    requires forall p :: p in a && p in b ==> f(a[p]) == g(b[p])
    requires forall p :: p in a && p !in b ==> f(a[p]) == 0.0
    requires forall p :: p !in a && p in b ==> g(b[p]) == 0.0
    ensures Total(a, f) == Total(b, g)
  {
    var x, y := Column(a, f), Column(b, g);
    forall p
      ensures At(x, p) == At(y, p)
    {}
    SumEqual(x, y);
  }

  ghost predicate Split(f: Figures, masking: bool) {
    && f.visible + f.hidden == f.admin && 0.0 <= f.visible && 0.0 <= f.hidden
    && f.points == if masking then f.visible else f.admin
  }

  lemma FiguresSplit(setup: Setup, subs: seq<Submission>, p: int)
    ensures Split(FiguresOf(setup, subs, p), setup.liveMasking)
  {
    VisibleBelowAdmin(subs, setup.hidden(p));
  }

  ghost predicate AllSplit(figures: map<int, Figures>, masking: bool) {
    forall p <- figures :: Split(figures[p], masking)
  }

  ghost predicate TotalsSplit(figures: map<int, Figures>, masking: bool) {
    && Total(figures, Visible) + Total(figures, Hidden) == Total(figures, Admin)
    && Total(figures, Points) == if masking then Total(figures, Visible) else Total(figures, Admin)
  }

  lemma TotalsFollow(figures: map<int, Figures>, masking: bool)
    requires AllSplit(figures, masking)
    ensures TotalsSplit(figures, masking)
  {
    var visible, hidden, admin := Column(figures, Visible), Column(figures, Hidden), Column(figures, Admin);
    forall p <- visible
      ensures visible[p] + hidden[p] == admin[p]
    {
      assert Split(figures[p], masking);
    }
    SumAdd(visible, hidden, admin);
    TotalSame(figures, figures, Points, if masking then Visible else Admin);
  }

  /** Visible and hidden points make up the admin points, neither is negative, and what counts is the visible
      points while hidden subtasks are masked and the admin points otherwise; for every problem and in total,
      for the live and for the frozen side. */
  lemma PointsSplit(setup: Setup, problems: set<int>, subs: int -> seq<Submission>)
    ensures AllSplit(FiguresOver(setup, problems, subs), setup.liveMasking)
    ensures TotalsSplit(FiguresOver(setup, problems, subs), setup.liveMasking)
  {
    var figures := FiguresOver(setup, problems, subs);
    forall p <- figures
      ensures Split(figures[p], setup.liveMasking)
    {
      FiguresSplit(setup, subs(p), p);
    }
    TotalsFollow(figures, setup.liveMasking);
  }

  ghost predicate Monotone(round: real -> real) {
    forall x, y :: x <= y ==> round(x) <= round(y)
  }

  lemma TotalBelow(a: map<int, Figures>, b: map<int, Figures>, f: Figures -> real)
    requires a.Keys == b.Keys && forall p <- a :: f(a[p]) <= f(b[p])
    ensures Total(a, f) <= Total(b, f)
  {
    var x, y := Column(a, f), Column(b, f);
    forall p
      ensures At(x, p) <= At(y, p)
    {}
    SumMonotone(x, y);
  }

  /** Revealing the hidden subtasks after the contest never lowers a total, live or frozen. */
  lemma RevealingOnlyAdds(masked: Setup, open: Setup, problems: set<int>, subs: int -> seq<Submission>)
    requires masked.liveMasking && open == masked.(liveMasking := false) && Monotone(masked.round)
    ensures masked.round(Total(FiguresOver(masked, problems, subs), Points))
         <= open.round(Total(FiguresOver(open, problems, subs), Points))
  {
    var a, b := FiguresOver(masked, problems, subs), FiguresOver(open, problems, subs);
    forall p <- a
      ensures a[p].points <= b[p].points
    {
      VisibleBelowAdmin(subs(p), masked.hidden(p));
    }
    TotalBelow(a, b, Points);
  }

  /** What problem p can be worth: all its submissions have the contest weight and a case total, and what their
      buckets can give adds up to no more than that. */
  ghost predicate Rated(subs: seq<Submission>, weight: real, caseTotal: real, caps: map<Bucket, real>) {
    && caseTotal > 0.0 && weight >= 0.0
    && (forall s <- subs :: s.weight == weight && s.caseTotal == caseTotal && Within(s.cases, caps))
    && (forall b <- caps :: 0.0 <= caps[b]) && Sum(caps) <= caseTotal
  }

  /** No row scores more than the weights of its problems together. */
  lemma ScoreWithinWeights(setup: Setup, attempts: seq<Attempt>, weights: map<int, real>, caseTotals: int -> real,
                           caps: int -> map<Bucket, real>)
    requires Monotone(setup.round) && weights.Keys == Problems(attempts)
    requires forall p <- weights :: Rated(SubsOf(attempts, p), weights[p], caseTotals(p), caps(p))
    ensures var row := RowOf(setup, attempts);
            && (forall p <- row.live :: p in weights && 0.0 <= row.live[p].points <= row.live[p].admin <= weights[p])
            && row.score <= setup.round(Sum(weights))
  {
    var live := FiguresOver(setup, Problems(attempts), Live(attempts));
    forall p <- live
      ensures 0.0 <= live[p].points <= live[p].admin <= weights[p]
    {
      assert Rated(SubsOf(attempts, p), weights[p], caseTotals(p), caps(p));
      FiguresWithinWeight(setup, SubsOf(attempts, p), p, weights[p], caseTotals(p), caps(p));
    }
    TotalWithin(live, weights);
  }

  lemma FiguresWithinWeight(setup: Setup, subs: seq<Submission>, p: int, weight: real, caseTotal: real,
                            caps: map<Bucket, real>)
    requires Rated(subs, weight, caseTotal, caps)
    ensures var f := FiguresOf(setup, subs, p); 0.0 <= f.points <= f.admin <= weight
  {
    WeightIsMaximum(subs, weight, caseTotal, caps);
    VisibleBelowAdmin(subs, setup.hidden(p));
  }

  lemma TotalWithin(figures: map<int, Figures>, weights: map<int, real>)
    requires figures.Keys == weights.Keys && forall p <- figures :: figures[p].points <= weights[p]
    ensures Total(figures, Points) <= Sum(weights)
  {
    var points := Column(figures, Points);
    forall p
      ensures At(points, p) <= At(weights, p)
    {}
    SumMonotone(points, weights);
  }

  // ---- The freeze ----

  lemma SubsOfSubset(a: seq<Attempt>, b: seq<Attempt>, p: int)
    requires forall x <- a :: x in b
    ensures forall s <- SubsOf(a, p) :: s in SubsOf(b, p)
  {
    forall s
      ensures s in SubsOf(a, p) <==> Attempt(p, s) in a
      ensures s in SubsOf(b, p) <==> Attempt(p, s) in b
    {
      InSubsOf(a, p, s);
      InSubsOf(b, p, s);
    }
  }

  lemma {:induction false} InSubsOf(attempts: seq<Attempt>, p: int, s: Submission)
    ensures s in SubsOf(attempts, p) <==> Attempt(p, s) in attempts
  {
    if attempts != [] {
      var n := |attempts| - 1;
      assert attempts == attempts[..n] + [attempts[n]];
      InSubsOf(attempts[..n], p, s);
    }
  }

  /** The frozen points are never more than the live ones, for a problem and in total. */
  lemma FrozenNeverMore(setup: Setup, attempts: seq<Attempt>)
    requires Monotone(setup.round)
    ensures var row := RowOf(setup, attempts);
            && row.live.Keys == row.frozen.Keys
            && (forall p <- row.live ::
                  row.frozen[p].points <= row.live[p].points && row.frozen[p].admin <= row.live[p].admin)
            && row.frozenScore <= row.score
  {
    FrozenFiguresBelow(setup, attempts);
    TotalBelow(FiguresOver(setup, Problems(attempts), Frozen(setup, attempts)),
               FiguresOver(setup, Problems(attempts), Live(attempts)), Points);
  }

  lemma FrozenFiguresBelow(setup: Setup, attempts: seq<Attempt>)
    ensures var live := FiguresOver(setup, Problems(attempts), Live(attempts));
            var frozen := FiguresOver(setup, Problems(attempts), Frozen(setup, attempts));
            live.Keys == frozen.Keys &&
            forall p <- live :: frozen[p].points <= live[p].points && frozen[p].admin <= live[p].admin
  {
    forall p <- Problems(attempts)
      ensures var f, g := FiguresOf(setup, Frozen(setup, attempts)(p), p), FiguresOf(setup, SubsOf(attempts, p), p);
              f.points <= g.points && f.admin <= g.admin
    {
      SubsOfSubset(EarlyAttempts(setup, attempts), attempts, p);
      SubsetScoresLess(Frozen(setup, attempts)(p), SubsOf(attempts, p), setup.hidden(p));
    }
  }

  lemma NoPointsWithoutSubmissions(setup: Setup, p: int)
    ensures FiguresOf(setup, [], p) == Figures(0.0, 0.0, 0.0, 0.0, 0.0, 0.0)
  {}

  lemma TallySame(setup: Setup, a: map<int, Figures>, b: map<int, Figures>)
    requires forall p :: p in a && p in b ==> a[p] == b[p]
    requires forall p <- a :: p !in b ==> a[p] == Figures(0.0, 0.0, 0.0, 0.0, 0.0, 0.0)
    requires forall p <- b :: p !in a ==> b[p] == Figures(0.0, 0.0, 0.0, 0.0, 0.0, 0.0)
    ensures TallyOf(setup, a) == TallyOf(setup, b)
  {
    TotalSame(a, b, Points, Points);
    TotalSame(a, b, Admin, Admin);
    TotalSame(a, b, Time(setup), Time(setup));
    TotalSame(a, b, AdminTime(setup), AdminTime(setup));
  }

  lemma EarlyFigures(setup: Setup, attempts: seq<Attempt>, p: int)
    requires setup.freezing
    ensures var early := EarlyAttempts(setup, attempts);
            && (p in Problems(early) <==> Frozen(setup, attempts)(p) != [])
            && (p in Problems(early) ==> p in Problems(attempts))
  {
    var early := EarlyAttempts(setup, attempts);
    if p in Problems(early) {
      var a :| a in early && a.problem == p;
      InSubsOf(early, p, a.sub);
    } else {
      NothingFor(early, p);
    }
  }

  /** The frozen half of the row is the live half of the row of the submissions before the freeze; a problem
      first tried after the freeze has an entry, but an empty frozen half. */
  lemma FrozenRowIsEarlyRow(setup: Setup, attempts: seq<Attempt>)
    requires setup.freezing
    ensures var row, early := RowOf(setup, attempts), RowOf(setup, EarlyAttempts(setup, attempts));
            && row.frozenScore == early.score && row.frozenCumtime == early.cumtime
            && row.frozenTiebreaker == early.tiebreaker
            && row.summary.frozenAdmin == early.summary.admin
            && row.summary.frozenAdminTime == early.summary.adminTime
            && row.hasFrozen == early.live.Keys
            && (forall p <- early.live :: p in row.frozen && row.frozen[p] == early.live[p])
            && forall p <- row.frozen :: p !in early.live ==> row.frozen[p] == Figures(0.0, 0.0, 0.0, 0.0, 0.0, 0.0)
  {
    var early := EarlyAttempts(setup, attempts);
    var frozen := FiguresOver(setup, Problems(attempts), Frozen(setup, attempts));
    var earlyLive := FiguresOver(setup, Problems(early), Live(early));
    forall p
      ensures p in earlyLive ==> p in frozen && frozen[p] == earlyLive[p]
      ensures p in earlyLive <==> p in Tried(Problems(attempts), Frozen(setup, attempts))
      ensures p in frozen && p !in earlyLive ==> frozen[p] == Figures(0.0, 0.0, 0.0, 0.0, 0.0, 0.0)
    {
      EarlyFigures(setup, attempts, p);
      NoPointsWithoutSubmissions(setup, p);
    }
    TallySame(setup, frozen, earlyLive);
  }

  /** Nothing submitted after the freeze shows in the frozen figures. */
  lemma FrozenRowRevealsNothing(setup: Setup, a: seq<Attempt>, b: seq<Attempt>)
    requires setup.freezing && EarlyAttempts(setup, a) == EarlyAttempts(setup, b)
    ensures var x, y := RowOf(setup, a), RowOf(setup, b);
            && x.frozenScore == y.frozenScore && x.frozenCumtime == y.frozenCumtime
            && x.frozenTiebreaker == y.frozenTiebreaker && x.hasFrozen == y.hasFrozen
            && forall p <- x.hasFrozen ::
                 p in x.frozen && p in y.frozen && x.frozen[p] == y.frozen[p]
  {
    FrozenRowIsEarlyRow(setup, a);
    FrozenRowIsEarlyRow(setup, b);
  }

  /** The submissions before the freeze are a prefix, since they come in date order. */
  lemma {:induction false} EarlyIsPrefix(setup: Setup, attempts: seq<Attempt>) returns (k: nat)
    requires forall i, j :: 0 <= i < j < |attempts| ==> attempts[i].sub.date <= attempts[j].sub.date
    ensures k <= |attempts| && EarlyAttempts(setup, attempts) == attempts[..k]
  {
    if attempts == [] {
      k := 0;
    } else if attempts[0].sub.date < setup.frozenTime {
      var j := EarlyIsPrefix(setup, attempts[1..]);
      k := j + 1;
      assert attempts[..k] == [attempts[0]] + attempts[1..][..j];
    } else {
      k := 0;
      assert forall i :: 0 <= i < |attempts| ==> attempts[0].sub.date <= attempts[i].sub.date;
      NoneEarly(setup, attempts);
    }
  }

  lemma {:induction false} NoneEarly(setup: Setup, attempts: seq<Attempt>)
    requires forall i :: 0 <= i < |attempts| ==> attempts[i].sub.date >= setup.frozenTime
    ensures EarlyAttempts(setup, attempts) == []
  {
    if attempts != [] {
      NoneEarly(setup, attempts[1..]);
    }
  }

  // ---- Masking ----

  /** The same submission but for what its hidden cases scored. */
  ghost predicate VisiblySame(s: Submission, t: Submission, hidden: set<int>) {
    && s.date == t.date
    && forall b :: !IsHidden(b, hidden) ==> Score(s, b) == Score(t, b)
  }

  /** The same case but for the points of a hidden batch. */
  predicate SameCase(c: TestCase, d: TestCase, hidden: set<int>) {
    c.number == d.number && c.batch == d.batch && (c.points == d.points || (c.batch.Some? && c.batch.value in hidden))
  }

  /** Submissions whose results differ only in points of hidden batches are visibly the same. */
  lemma SameCasesVisiblySame(s: Submission, t: Submission, hidden: set<int>)
    requires s.date == t.date && s.weight == t.weight && s.caseTotal == t.caseTotal && |s.cases| == |t.cases|
    requires forall i :: 0 <= i < |s.cases| ==> SameCase(s.cases[i], t.cases[i], hidden)
    ensures VisiblySame(s, t, hidden)
  {
    forall b | !IsHidden(b, hidden)
      ensures Score(s, b) == Score(t, b)
    {
      SameCasesSamePoints(s.cases, t.cases, s.Scale(), hidden, b);
    }
  }

  lemma {:induction false} SameCasesSamePoints(a: seq<TestCase>, c: seq<TestCase>, scale: real, hidden: set<int>,
                                               b: Bucket)
    requires |a| == |c| && forall i :: 0 <= i < |a| ==> SameCase(a[i], c[i], hidden)
    requires !IsHidden(b, hidden)
    ensures PointsIn(a, scale, b) == PointsIn(c, scale, b)
  {
    if a != [] {
      SameCasesSamePoints(a[..|a| - 1], c[..|c| - 1], scale, hidden, b);
    }
  }

  lemma {:induction false} VisibleBestSame(a: seq<Submission>, c: seq<Submission>, hidden: set<int>, b: Bucket)
    requires |a| == |c| && forall i :: 0 <= i < |a| ==> VisiblySame(a[i], c[i], hidden)
    ensures VisibleBest(a, hidden, b) == VisibleBest(c, hidden, b)
  {
    if a != [] {
      var n := |a| - 1;
      VisibleBestSame(a[..n], c[..n], hidden, b);
      assert VisiblySame(a[n], c[n], hidden);
    }
  }

  lemma VisibleTotalSame(a: seq<Submission>, c: seq<Submission>, hidden: set<int>)
    requires |a| == |c| && forall i :: 0 <= i < |a| ==> VisiblySame(a[i], c[i], hidden)
    ensures VisibleTotal(a, hidden) == VisibleTotal(c, hidden)
  {
    forall b
      ensures At(VisibleMap(a, hidden), b) == At(VisibleMap(c, hidden), b)
    {
      BestMapAt(a, hidden, b);
      BestMapAt(c, hidden, b);
      VisibleBestSame(a, c, hidden, b);
    }
    SumEqual(VisibleMap(a, hidden), VisibleMap(c, hidden));
  }

  lemma {:induction false} LastRiseSame(a: seq<Submission>, c: seq<Submission>, start: real,
                                        total: seq<Submission> -> real)
    requires |a| == |c| && forall i :: 0 <= i < |a| ==> a[i].date == c[i].date
    requires forall i :: 0 <= i <= |a| ==> total(a[..i]) == total(c[..i])
    ensures LastRise(a, start, total) == LastRise(c, start, total)
  {
    if a != [] {
      var n := |a| - 1;
      forall i | 0 <= i <= n
        ensures total(a[..n][..i]) == total(c[..n][..i])
      {
        assert a[..n][..i] == a[..i] && c[..n][..i] == c[..i];
      }
      LastRiseSame(a[..n], c[..n], start, total);
      assert a[..|a|] == a && c[..|c|] == c;
      assert total(a[..n]) == total(c[..n]);
    }
  }

  lemma VisibleTimeSame(a: seq<Submission>, c: seq<Submission>, hidden: set<int>, start: real)
    requires |a| == |c| && forall i :: 0 <= i < |a| ==> VisiblySame(a[i], c[i], hidden)
    ensures LastRise(a, start, VisibleBy(hidden)) == LastRise(c, start, VisibleBy(hidden))
  {
    forall i | 0 <= i <= |a|
      ensures VisibleBy(hidden)(a[..i]) == VisibleBy(hidden)(c[..i])
    {
      VisibleTotalSame(a[..i], c[..i], hidden);
    }
    assert forall i :: 0 <= i < |a| ==> VisiblySame(a[i], c[i], hidden);
    LastRiseSame(a, c, start, VisibleBy(hidden));
  }

  /** Two lists of attempts that a contestant cannot tell apart while hidden subtasks are masked. */
  ghost predicate Indistinguishable(setup: Setup, a: seq<Attempt>, b: seq<Attempt>) {
    && |a| == |b|
    && forall i :: 0 <= i < |a| ==>
         a[i].problem == b[i].problem && VisiblySame(a[i].sub, b[i].sub, setup.hidden(a[i].problem))
  }

  lemma {:induction false} SubsVisiblySame(setup: Setup, a: seq<Attempt>, b: seq<Attempt>, p: int)
    requires Indistinguishable(setup, a, b)
    ensures |SubsOf(a, p)| == |SubsOf(b, p)|
    ensures forall i :: 0 <= i < |SubsOf(a, p)| ==> VisiblySame(SubsOf(a, p)[i], SubsOf(b, p)[i], setup.hidden(p))
  {
    if a != [] {
      var n := |a| - 1;
      SubsVisiblySame(setup, a[..n], b[..n], p);
      assert VisiblySame(a[n].sub, b[n].sub, setup.hidden(a[n].problem));
    }
  }

  lemma {:induction false} EarlyIndistinguishable(setup: Setup, a: seq<Attempt>, b: seq<Attempt>)
    requires Indistinguishable(setup, a, b)
    ensures Indistinguishable(setup, EarlyAttempts(setup, a), EarlyAttempts(setup, b))
  {
    if a != [] {
      assert VisiblySame(a[0].sub, b[0].sub, setup.hidden(a[0].problem));
      EarlyIndistinguishable(setup, a[1..], b[1..]);
    }
  }

  lemma MaskedFiguresSame(setup: Setup, a: seq<Submission>, c: seq<Submission>, p: int)
    requires setup.liveMasking
    requires |a| == |c| && forall i :: 0 <= i < |a| ==> VisiblySame(a[i], c[i], setup.hidden(p))
    ensures FiguresOf(setup, a, p).points == FiguresOf(setup, c, p).points
    ensures FiguresOf(setup, a, p).time == FiguresOf(setup, c, p).time
    ensures FiguresOf(setup, a, p).visible == FiguresOf(setup, c, p).visible
  {
    VisibleTotalSame(a, c, setup.hidden(p));
    VisibleTimeSame(a, c, setup.hidden(p), setup.start);
  }

  lemma SameProblems(setup: Setup, a: seq<Attempt>, b: seq<Attempt>)
    requires Indistinguishable(setup, a, b)
    ensures Problems(a) == Problems(b)
  {}

  /** The figures a contestant is ranked by and shown. */
  predicate ShowsSame(f: Figures, g: Figures) {
    f.points == g.points && f.time == g.time && f.visible == g.visible
  }

  lemma ShownTotalsSame(setup: Setup, a: map<int, Figures>, b: map<int, Figures>)
    requires a.Keys == b.Keys && forall p <- a :: ShowsSame(a[p], b[p])
    ensures Total(a, Points) == Total(b, Points) && Total(a, Visible) == Total(b, Visible)
    ensures TallyOf(setup, a).time == TallyOf(setup, b).time
  {
    TotalSame(a, b, Points, Points);
    TotalSame(a, b, Visible, Visible);
    TotalSame(a, b, Time(setup), Time(setup));
  }

  lemma MaskedFrozenSame(setup: Setup, a: seq<Attempt>, b: seq<Attempt>, p: int)
    requires setup.liveMasking && Indistinguishable(setup, a, b)
    ensures ShowsSame(FiguresOf(setup, Frozen(setup, a)(p), p), FiguresOf(setup, Frozen(setup, b)(p), p))
  {
    EarlyIndistinguishable(setup, a, b);
    SubsVisiblySame(setup, a, b, p);
    SubsVisiblySame(setup, EarlyAttempts(setup, a), EarlyAttempts(setup, b), p);
    MaskedFiguresSame(setup, Frozen(setup, a)(p), Frozen(setup, b)(p), p);
  }

  /** While hidden subtasks are masked, what the hidden cases scored does not show in the score, the times or
      the visible points, live or frozen. */
  lemma MaskedRowHidesHidden(setup: Setup, a: seq<Attempt>, b: seq<Attempt>)
    requires setup.liveMasking && Indistinguishable(setup, a, b)
    ensures var x, y := RowOf(setup, a), RowOf(setup, b);
            && x.score == y.score && x.cumtime == y.cumtime && x.tiebreaker == y.tiebreaker
            && x.frozenScore == y.frozenScore && x.frozenCumtime == y.frozenCumtime
            && x.frozenTiebreaker == y.frozenTiebreaker && x.summary.visible == y.summary.visible
            && x.live.Keys == y.live.Keys
            && (forall p <- x.live :: ShowsSame(x.live[p], y.live[p]))
  {
    SameProblems(setup, a, b);
    var problems := Problems(a);
    var x, y := FiguresOver(setup, problems, Live(a)), FiguresOver(setup, problems, Live(b));
    forall p <- x
      ensures ShowsSame(x[p], y[p])
    {
      SubsVisiblySame(setup, a, b, p);
      MaskedFiguresSame(setup, SubsOf(a, p), SubsOf(b, p), p);
    }
    ShownTotalsSame(setup, x, y);
    var u, v := FiguresOver(setup, problems, Frozen(setup, a)), FiguresOver(setup, problems, Frozen(setup, b));
    forall p <- u
      ensures ShowsSame(u[p], v[p])
    {
      MaskedFrozenSame(setup, a, b, p);
    }
    ShownTotalsSame(setup, u, v);
  }
}
