/** The VNOJ contest format (judge/contest_format/vnoj.py): participation figures, live and frozen, and
    first solves.  Dates are in seconds. */
module Vnoj {
  import opened ContestData
  import opened Options
  import S = ScoreMaps

  datatype Verdict = Unjudged | InternalError | CompileError | Graded

  datatype Submission = Submission(problem: int, points: real, date: real, verdict: Verdict) {
    /** Neither unjudged nor IE nor CE: what counts as an attempt. */
    predicate Counts() { verdict == Graded }
  }

  datatype Config = Config(penalty: nat, lso: bool)

  datatype Cell = Cell(time: real, points: real, penalty: int, pending: Option<nat>)

  datatype Info = Info(cumtime: real, score: real, tiebreaker: real, cells: map<int, Cell>)

  /** What a computation looks at: the contest's settings and one participant's submissions. */
  datatype Entry = Entry(config: Config, freezing: bool, frozenTime: real, start: real,
                         round: real -> real, subs: seq<Submission>)

  function Before(e: Entry): Entry {
    e.(subs := Filter(e.subs, (s: Submission) => s.date < e.frozenTime))
  }

  // ---- The queries ----

  /** The rows that a ranking query groups for a problem. */
  function Rows(e: Entry, p: int, frozen: bool): seq<Submission> {
    Filter(e.subs, (s: Submission) => s.problem == p && (frozen ==> s.date < e.frozenTime))
  }

  predicate HasRows(e: Entry, p: int, frozen: bool) {
    Rows(e, p, frozen) != []
  }

  function BestPoints(e: Entry, p: int, frozen: bool): real
    requires HasRows(e, p, frozen)
  {
    Max(Map(Rows(e, p, frozen), (s: Submission) => s.points))
  }

  /** The subquery: submissions that reach the best points. */
  function BestRows(e: Entry, p: int, frozen: bool, points: real): seq<Submission> {
    Filter(e.subs, (s: Submission) => s.problem == p && s.points == points && (frozen ==> s.date < e.frozenTime))
  }

  lemma BestRowsExist(e: Entry, p: int, frozen: bool)
    requires HasRows(e, p, frozen)
    ensures BestRows(e, p, frozen, BestPoints(e, p, frozen)) != []
  {
    var rows := Rows(e, p, frozen);
    var points := Map(rows, (s: Submission) => s.points);
    var i :| 0 <= i < |points| && points[i] == BestPoints(e, p, frozen);
    assert rows[i] in rows && rows[i].points == points[i];
    assert rows[i] in BestRows(e, p, frozen, BestPoints(e, p, frozen));
  }

  function BestDate(e: Entry, p: int, frozen: bool): real
    requires HasRows(e, p, frozen)
  {
    BestRowsExist(e, p, frozen);
    Min(Map(BestRows(e, p, frozen, BestPoints(e, p, frozen)), (s: Submission) => s.date))
  }

  function Attempts(e: Entry, p: int, frozen: bool): nat {
    |Filter(e.subs, (s: Submission) => s.Counts() && s.problem == p && (frozen ==> s.date < e.frozenTime))|
  }

  function AttemptsUpTo(e: Entry, p: int, frozen: bool, time: real): nat {
    |Filter(e.subs, (s: Submission) =>
       s.Counts() && s.problem == p && (frozen ==> s.date < e.frozenTime) && s.date <= time)|
  }

  function Pending(e: Entry, p: int): nat {
    |Filter(e.subs, (s: Submission) => s.Counts() && s.problem == p && s.date >= e.frozenTime)|
  }

  // ---- The figures ----

  function Wrong(e: Entry, p: int, frozen: bool): int
    requires HasRows(e, p, frozen)
  {
    if e.config.penalty == 0 then 0
    else if BestPoints(e, p, frozen) != 0.0 then AttemptsUpTo(e, p, frozen, BestDate(e, p, frozen)) - 1
    else Attempts(e, p, frozen)
  }

  function CellOf(e: Entry, p: int, frozen: bool): Cell
    requires HasRows(e, p, frozen)
  {
    Cell(BestDate(e, p, frozen) - e.start, BestPoints(e, p, frozen), Wrong(e, p, frozen),
         if !frozen && e.freezing then Some(Pending(e, p)) else None)
  }

  function PenaltySeconds(config: Config, wrong: int): real {
    (wrong * config.penalty * 60) as real
  }

  /** A problem's cell, if it has rows. */
  function CellAt(e: Entry, frozen: bool): int -> Option<Cell> {
    p => if HasRows(e, p, frozen) then Some(CellOf(e, p, frozen)) else None
  }

  /** What a problem adds to the time, the penalty and the score; time and penalty only where it scored. */
  function TimeIn(cell: Option<Cell>): real {
    if cell.Some? && cell.value.points != 0.0 then cell.value.time else 0.0
  }

  function PenaltyIn(config: Config, cell: Option<Cell>): real {
    if cell.Some? && cell.value.points != 0.0 then PenaltySeconds(config, cell.value.penalty) else 0.0
  }

  function PointsIn(cell: Option<Cell>): real {
    if cell.Some? then cell.value.points else 0.0
  }

  function LaterOf(last: real, cell: Option<Cell>): real {
    if cell.Some? && cell.value.points != 0.0 then AtLeast(last, cell.value.time) else last
  }

  function AtLeast(x: real, y: real): real { if x < y then y else x }

  function Collect(at: int -> Option<Cell>, order: seq<int>): map<int, Cell> {
    map p | p in order && at(p).Some? :: at(p).value
  }

  /** The loop's running figures. */
  datatype Totals = Totals(cumtime: real, last: real, penalty: real, score: real, cells: map<int, Cell>)

  function Add(config: Config, t: Totals, prob: int, cell: Cell): Totals {
    Totals(t.cumtime + TimeIn(Some(cell)), LaterOf(t.last, Some(cell)), t.penalty + PenaltyIn(config, Some(cell)),
           t.score + cell.points, t.cells[prob := cell])
  }

  function TotalsOf(config: Config, at: int -> Option<Cell>, order: seq<int>): Totals {
    if order == [] then Totals(0.0, 0.0, 0.0, 0.0, map[])
    else
      var n := |order| - 1;
      var t := TotalsOf(config, at, order[..n]);
      if at(order[n]).Some? then Add(config, t, order[n], at(order[n]).value) else t
  }

  function Finish(e: Entry, t: Totals): Info {
    Info(AtLeast((if e.config.lso then t.last else t.cumtime) + t.penalty, 0.0), e.round(t.score), t.last, t.cells)
  }

  function InfoOf(e: Entry, frozen: bool, order: seq<int>): Info {
    Finish(e, TotalsOf(e.config, CellAt(e, frozen), order))
  }

  /** order lists the problems that have rows, each once: the result set in some order. */
  ghost predicate ResultSet(e: Entry, frozen: bool, order: seq<int>) {
    && (forall p {:trigger p in order} :: p in order <==> HasRows(e, p, frozen))
    && (forall i, k :: 0 <= i < k < |order| ==> order[i] != order[k])
  }

  method CalculateParticipationInfo(e: Entry, frozen: bool, order: seq<int>) returns (info: Info)
    requires ResultSet(e, frozen, order)
    ensures info == InfoOf(e, frozen, order)
    ensures forall p :: Lookup(info.cells, p) == CellAt(e, frozen)(p)
    ensures info.score == e.round(S.Sum(PointsOf(info.cells)))
    ensures IsLatest(ScoredTimes(info.cells), info.tiebreaker)
    ensures var base := if e.config.lso then info.tiebreaker else S.Sum(ScoredTimes(info.cells));
            var total := base + S.Sum(ScoredPenalties(e.config, info.cells));
            info.cumtime == if total < 0.0 then 0.0 else total
  {
    forall i | 0 <= i < |order|
      ensures HasRows(e, order[i], frozen)
    {
      assert order[i] in order;
    }
    var t := AddRows(e, frozen, order);
    info := Finish(e, t);
    ResultSetLists(e, frozen, order);
    CollectsAll(e.config, CellAt(e, frozen), order);
    FiguresOfCells(e.config, CellAt(e, frozen), order);
  }

  // The figures of a participation, read off its cells: a problem without points adds no time and no penalty.

  function ScoredTimes(cells: map<int, Cell>): map<int, real> {
    map p | p in cells && cells[p].points != 0.0 :: cells[p].time
  }

  function ScoredPenalties(config: Config, cells: map<int, Cell>): map<int, real> {
    map p | p in cells && cells[p].points != 0.0 :: (60 * (config.penalty * cells[p].penalty)) as real
  }

  function PointsOf(cells: map<int, Cell>): map<int, real> {
    map p | p in cells :: cells[p].points
  }

  /** t is the latest of these times, or 0 if none of them is later. */
  ghost predicate IsLatest(times: map<int, real>, t: real) {
    0.0 <= t && (forall p <- times :: times[p] <= t) && (t == 0.0 || exists p <- times :: times[p] == t)
  }

  lemma FiguresOfCells(config: Config, at: int -> Option<Cell>, order: seq<int>)
    requires Lists(at, order)
    ensures var t := TotalsOf(config, at, order);
            && t == t.(cumtime := S.Sum(ScoredTimes(t.cells)), penalty := S.Sum(ScoredPenalties(config, t.cells)),
                       score := S.Sum(PointsOf(t.cells)))
            && IsLatest(ScoredTimes(t.cells), t.last)
  {
    var t := TotalsOf(config, at, order);
    TotalsAreSums(config, at, order);
    TotalsLatest(config, at, order);
    CollectsAll(config, at, order);
    forall p
      ensures S.At(ScoredTimes(t.cells), p) == if p in order then TimeIn(at(p)) else 0.0
      ensures S.At(ScoredPenalties(config, t.cells), p) == if p in order then PenaltyIn(config, at(p)) else 0.0
      ensures S.At(PointsOf(t.cells), p) == if p in order then PointsIn(at(p)) else 0.0
    {
      assert Lookup(t.cells, p) == at(p);
    }
    S.SumOfItems(order, p => p, p => TimeIn(at(p)), ScoredTimes(t.cells));
    S.SumOfItems(order, p => p, p => PenaltyIn(config, at(p)), ScoredPenalties(config, t.cells));
    S.SumOfItems(order, p => p, p => PointsIn(at(p)), PointsOf(t.cells));
  }

  function Lookup<K, V>(m: map<K, V>, k: K): Option<V> {
    if k in m then Some(m[k]) else None
  }

  /** order lists exactly the problems that have a cell, each once. */
  ghost predicate Lists(at: int -> Option<Cell>, order: seq<int>) {
    && (forall p :: p in order <==> at(p).Some?)
    && (forall i, k :: 0 <= i < k < |order| ==> order[i] != order[k])
  }

  lemma ResultSetLists(e: Entry, frozen: bool, order: seq<int>)
    requires ResultSet(e, frozen, order)
    ensures Lists(CellAt(e, frozen), order)
  {}

  lemma CollectsAll(config: Config, at: int -> Option<Cell>, order: seq<int>)
    requires Lists(at, order)
    ensures forall p :: Lookup(TotalsOf(config, at, order).cells, p) == at(p)
  {
    TotalsCollect(config, at, order);
  }

  /** The loop over the result set. */
  method AddRows(e: Entry, frozen: bool, order: seq<int>) returns (t: Totals)
    requires forall i :: 0 <= i < |order| ==> HasRows(e, order[i], frozen)
    ensures t == TotalsOf(e.config, CellAt(e, frozen), order)
  {
    t := Totals(0.0, 0.0, 0.0, 0.0, map[]);
    for i := 0 to |order|
      invariant t == TotalsOf(e.config, CellAt(e, frozen), order[..i])
    {
      assert order[..i + 1][..i] == order[..i];
      var cell := ComputeCell(e, order[i], frozen);
      t := AddRow(e.config, t, order[i], cell);
    }
    assert order[..|order|] == order;
  }

  /** The updates of one round. */
  method AddRow(config: Config, t: Totals, prob: int, cell: Cell) returns (t': Totals)
    ensures t' == Add(config, t, prob, cell)
  {
    var cumtime, last, penalty := t.cumtime, t.last, t.penalty;
    if cell.points != 0.0 {
      penalty := penalty + PenaltySeconds(config, cell.penalty);
      cumtime := cumtime + cell.time;
      last := AtLeast(last, cell.time);
    }
    t' := Totals(cumtime, last, penalty, t.score + cell.points, t.cells[prob := cell]);
  }

  /** What one row contributes. */
  method ComputeCell(e: Entry, prob: int, frozen: bool) returns (cell: Cell)
    requires HasRows(e, prob, frozen)
    ensures cell == CellOf(e, prob, frozen)
  {
    var points, time := BestPoints(e, prob, frozen), BestDate(e, prob, frozen);
    var prev := 0;
    if e.config.penalty != 0 {
      prev := if points != 0.0 then AttemptsUpTo(e, prob, frozen, time) - 1 else Attempts(e, prob, frozen);
    }
    cell := Cell(time - e.start, points, prev, None);
    if !frozen && e.freezing {
      cell := cell.(pending := Some(Pending(e, prob)));
    }
  }

  // ---- The freeze ----

  /** The best figures of a problem on the submissions before the freeze, looked at live. */
  lemma FrozenCellIsLiveCell(e: Entry, p: int)
    ensures HasRows(e, p, true) <==> HasRows(Before(e), p, false)
    ensures HasRows(e, p, true) ==> CellOf(e, p, true) == CellOf(Before(e), p, false).(pending := None)
  {
    var b := Before(e);
    var before := (s: Submission) => s.date < e.frozenTime;
    FilterTwice(e.subs, before, (s: Submission) => s.problem == p && (false ==> s.date < b.frozenTime),
                (s: Submission) => s.problem == p && (true ==> s.date < e.frozenTime));
    assert Rows(b, p, false) == Rows(e, p, true);
    if HasRows(e, p, true) {
      var points := BestPoints(e, p, true);
      FilterTwice(e.subs, before,
                  (s: Submission) => s.problem == p && s.points == points && (false ==> s.date < b.frozenTime),
                  (s: Submission) => s.problem == p && s.points == points && (true ==> s.date < e.frozenTime));
      assert BestRows(b, p, false, points) == BestRows(e, p, true, points);
      FilterTwice(e.subs, before, (s: Submission) => s.Counts() && s.problem == p && (false ==> s.date < b.frozenTime),
                  (s: Submission) => s.Counts() && s.problem == p && (true ==> s.date < e.frozenTime));
      assert Attempts(b, p, false) == Attempts(e, p, true);
      var time := BestDate(e, p, true);
      FilterTwice(e.subs, before,
                  (s: Submission) =>
                    s.Counts() && s.problem == p && (false ==> s.date < b.frozenTime) && s.date <= time,
                  (s: Submission) =>
                    s.Counts() && s.problem == p && (true ==> s.date < e.frozenTime) && s.date <= time);
      assert AttemptsUpTo(b, p, false, time) == AttemptsUpTo(e, p, true, time);
    }
  }

  // ---- What a cell means ----

  /** What a frozen or live computation looks at for a problem. */
  predicate Visible(e: Entry, p: int, frozen: bool, s: Submission) {
    s.problem == p && (frozen ==> s.date < e.frozenTime)
  }

  /** How many of the graded submissions to a problem that the computation looks at were made when it says. */
  function GradedWhen(e: Entry, p: int, frozen: bool, when: real -> bool): nat {
    |Filter(e.subs, (s: Submission) => s.Counts() && Visible(e, p, frozen, s) && when(s.date))|
  }

  /** The first submission to reach the best points. */
  ghost predicate FirstBest(e: Entry, p: int, frozen: bool, best: Submission) {
    && best in e.subs && Visible(e, p, frozen, best)
    && forall s <- e.subs :: Visible(e, p, frozen, s) ==>
         s.points <= best.points && (s.points == best.points ==> best.date <= s.date)
  }

  lemma {:induction false} FilterSplit<T>(s: seq<T>, p: T -> bool, q: T -> bool, r: T -> bool)
    requires forall x <- s :: (p(x) <==> q(x) || r(x)) && !(q(x) && r(x))
    ensures |Filter(s, p)| == |Filter(s, q)| + |Filter(s, r)|
  {
    if s != [] {
      FilterSplit(s[1..], p, q, r);
    }
  }

  lemma {:induction false} FilterSame<T>(s: seq<T>, p: T -> bool, q: T -> bool)
    requires forall x <- s :: p(x) <==> q(x)
    ensures Filter(s, p) == Filter(s, q)
  {
    if s != [] {
      FilterSame(s[1..], p, q);
    }
  }

  lemma BestIsReached(e: Entry, p: int, frozen: bool) returns (s: Submission)
    requires HasRows(e, p, frozen)
    ensures s in Rows(e, p, frozen) && s.points == BestPoints(e, p, frozen) && s.date == BestDate(e, p, frozen)
    ensures forall t <- Rows(e, p, frozen) ::
              t.points <= s.points && (t.points == s.points ==> s.date <= t.date)
  {
    BestRowsExist(e, p, frozen);
    var points := BestPoints(e, p, frozen);
    var best := BestRows(e, p, frozen, points);
    var dates := Map(best, (s: Submission) => s.date);
    var i :| 0 <= i < |dates| && dates[i] == BestDate(e, p, frozen);
    s := best[i];
    assert s in best && BestDate(e, p, frozen) == Min(dates);
    forall t <- Rows(e, p, frozen)
      ensures t.points <= s.points && (t.points == s.points ==> s.date <= t.date)
    {
      assert t.points in Map(Rows(e, p, frozen), (s: Submission) => s.points);
      if t.points == s.points {
        assert t in best && t.date in dates;
      }
    }
  }

  /** A cell tells of the first submission that reached the best points: its points, its time, and as the
      penalty the graded submissions made before it.  Those made at the very same moment are counted too,
      less one, so the count is of the earlier ones exactly if one graded submission was made at that moment.
      Without points all graded submissions are counted. */
  lemma CellIsFirstBest(e: Entry, p: int, frozen: bool) returns (best: Submission)
    requires HasRows(e, p, frozen)
    ensures FirstBest(e, p, frozen, best)
    ensures var c := CellOf(e, p, frozen);
            && c.points == best.points && c.time == best.date - e.start
            && (e.config.penalty == 0 ==> c.penalty == 0)
            && (e.config.penalty != 0 && c.points == 0.0 ==> c.penalty == GradedWhen(e, p, frozen, d => true))
            && (e.config.penalty != 0 && c.points != 0.0 ==>
                  c.penalty == GradedWhen(e, p, frozen, d => d < best.date)
                               + GradedWhen(e, p, frozen, d => d == best.date) - 1)
  {
    best := BestIsReached(e, p, frozen);
    var date := best.date;
    forall s <- e.subs
      ensures Visible(e, p, frozen, s) <==> s in Rows(e, p, frozen)
    {}
    FilterSplit(e.subs, (s: Submission) =>
                  s.Counts() && s.problem == p && (frozen ==> s.date < e.frozenTime) && s.date <= date,
                (s: Submission) => s.Counts() && Visible(e, p, frozen, s) && (d => d < date)(s.date),
                (s: Submission) => s.Counts() && Visible(e, p, frozen, s) && (d => d == date)(s.date));
    FilterSame(e.subs, (s: Submission) => s.Counts() && s.problem == p && (frozen ==> s.date < e.frozenTime),
               (s: Submission) => s.Counts() && Visible(e, p, frozen, s) && ((d: real) => true)(s.date));
  }

  /** A live cell of a contest that freezes also counts the graded submissions that the frozen one does not see. */
  lemma PendingIsTheRest(e: Entry, p: int, frozen: bool)
    requires HasRows(e, p, frozen)
    ensures CellOf(e, p, frozen).pending ==
            if frozen || !e.freezing then None
            else Some(GradedWhen(e, p, false, d => true) - GradedWhen(e, p, true, d => true))
  {
    forall s <- e.subs
      ensures Visible(e, p, false, s) <==> s.problem == p
      ensures Visible(e, p, true, s) <==> s.problem == p && s.date < e.frozenTime
    {}
    FilterSplit(e.subs, (s: Submission) => s.Counts() && Visible(e, p, false, s) && ((d: real) => true)(s.date),
                (s: Submission) => s.Counts() && Visible(e, p, true, s) && ((d: real) => true)(s.date),
                (s: Submission) => s.Counts() && s.problem == p && s.date >= e.frozenTime);
  }

  // ---- Row order does not matter ----

  lemma {:induction false} TotalsAreSums(config: Config, at: int -> Option<Cell>, order: seq<int>)
    ensures var t := TotalsOf(config, at, order);
            t == t.(cumtime := Sum(order, p => TimeIn(at(p))),
                    penalty := Sum(order, p => PenaltyIn(config, at(p))),
                    score := Sum(order, p => PointsIn(at(p))))
  {
    if order != [] {
      var n := |order| - 1;
      TotalsAreSums(config, at, order[..n]);
      assert order == order[..n] + [order[n]];
      SumSnoc(order[..n], order[n], p => TimeIn(at(p)));
      SumSnoc(order[..n], order[n], p => PenaltyIn(config, at(p)));
      SumSnoc(order[..n], order[n], p => PointsIn(at(p)));
    }
  }

  lemma {:induction false} TotalsCollect(config: Config, at: int -> Option<Cell>, order: seq<int>)
    ensures TotalsOf(config, at, order).cells == Collect(at, order)
  {
    if order != [] {
      var n := |order| - 1;
      TotalsCollect(config, at, order[..n]);
      assert order == order[..n] + [order[n]];
    }
  }

  /** The tiebreaker is the latest scored time, or 0. */
  lemma {:induction false} TotalsLatest(config: Config, at: int -> Option<Cell>, order: seq<int>)
    ensures var last := TotalsOf(config, at, order).last;
            && 0.0 <= last
            && (forall p <- order :: at(p).Some? && at(p).value.points != 0.0 ==> at(p).value.time <= last)
            && (last == 0.0 ||
                exists p <- order :: at(p).Some? && at(p).value.points != 0.0 && at(p).value.time == last)
  {
    if order != [] {
      var n := |order| - 1;
      TotalsLatest(config, at, order[..n]);
      assert order == order[..n] + [order[n]];
      var before, last := TotalsOf(config, at, order[..n]).last, TotalsOf(config, at, order).last;
      if last != 0.0 {
        if last == before {
          var p :| p in order[..n] && at(p).Some? && at(p).value.points != 0.0 && at(p).value.time == last;
          assert p in order;
        } else {
          assert order[n] in order && at(order[n]).value.time == last;
        }
      }
    }
  }

  predicate SameFigures(a: Option<Cell>, b: Option<Cell>) {
    (a.None? && b.None?) || (a.Some? && b.Some? && a.value == b.value.(pending := a.value.pending))
  }

  /** Equal cells, listed in any order, give equal figures. */
  lemma SameCellsSameTotals(config: Config, at: int -> Option<Cell>, at': int -> Option<Cell>,
                            order: seq<int>, order': seq<int>)
    requires multiset(order) == multiset(order')
    requires forall p :: SameFigures(at(p), at'(p))
    ensures var t, t' := TotalsOf(config, at, order), TotalsOf(config, at', order');
            t == t'.(cells := t.cells)
  {
    TotalsAreSums(config, at, order);
    TotalsAreSums(config, at', order');
    SumAnyOrder(order, order', p => TimeIn(at(p)));
    SumAnyOrder(order, order', p => PenaltyIn(config, at(p)));
    SumAnyOrder(order, order', p => PointsIn(at(p)));
    forall p <- order'
      ensures TimeIn(at(p)) == TimeIn(at'(p)) && PointsIn(at(p)) == PointsIn(at'(p))
      ensures PenaltyIn(config, at(p)) == PenaltyIn(config, at'(p))
    {
      assert SameFigures(at(p), at'(p));
    }
    SumSame(order', p => TimeIn(at(p)), p => TimeIn(at'(p)));
    SumSame(order', p => PenaltyIn(config, at(p)), p => PenaltyIn(config, at'(p)));
    SumSame(order', p => PointsIn(at(p)), p => PointsIn(at'(p)));
    SameLatest(config, at, at', order, order');
  }

  lemma SameLatest(config: Config, at: int -> Option<Cell>, at': int -> Option<Cell>,
                   order: seq<int>, order': seq<int>)
    requires multiset(order) == multiset(order')
    requires forall p :: SameFigures(at(p), at'(p))
    ensures TotalsOf(config, at, order).last == TotalsOf(config, at', order').last
  {
    TotalsLatest(config, at, order);
    TotalsLatest(config, at', order');
    forall p
      ensures p in order <==> p in order'
    {
      assert p in multiset(order) <==> p in multiset(order');
    }
  }

  lemma {:induction false} DistinctOnce(s: seq<int>)
    requires forall i, k :: 0 <= i < k < |s| ==> s[i] != s[k]
    ensures forall x :: multiset(s)[x] == if x in s then 1 else 0
  {
    if s != [] {
      var n := |s| - 1;
      DistinctOnce(s[..n]);
      assert s == s[..n] + [s[n]];
    }
  }

  /** The frozen figures are what the live computation gives on the submissions made before the freeze, in
      whatever order the two queries return their rows; only the pending counters differ. */
  lemma FrozenInfoIsLiveInfo(e: Entry, order: seq<int>, order': seq<int>)
    requires ResultSet(e, true, order) && ResultSet(Before(e), false, order')
    ensures var f, l := InfoOf(e, true, order), InfoOf(Before(e), false, order');
            && f == l.(cells := f.cells) && f.cells.Keys == l.cells.Keys
            && forall p <- f.cells :: f.cells[p].pending == None && f.cells[p] == l.cells[p].(pending := None)
  {
    var at, at' := CellAt(e, true), CellAt(Before(e), false);
    forall p
      ensures SameFigures(at(p), at'(p)) && (at(p).Some? ==> at(p).value.pending == None)
    {
      FrozenCellIsLiveCell(e, p);
    }
    ResultSetLists(e, true, order);
    ResultSetLists(Before(e), false, order');
    SameListing(at, at', order, order');
    SameCellsSameTotals(e.config, at, at', order, order');
    SameCellsCollected(e.config, at, at', order, order');
  }

  lemma SameListing(at: int -> Option<Cell>, at': int -> Option<Cell>, order: seq<int>, order': seq<int>)
    requires Lists(at, order) && Lists(at', order') && forall p :: SameFigures(at(p), at'(p))
    ensures multiset(order) == multiset(order')
  {
    DistinctOnce(order);
    DistinctOnce(order');
    forall p
      ensures multiset(order)[p] == multiset(order')[p]
    {
      assert SameFigures(at(p), at'(p));
      assert p in order <==> p in order';
    }
  }

  lemma SameCellsCollected(config: Config, at: int -> Option<Cell>, at': int -> Option<Cell>,
                           order: seq<int>, order': seq<int>)
    requires Lists(at, order) && Lists(at', order') && forall p :: SameFigures(at(p), at'(p))
    ensures var c, c' := TotalsOf(config, at, order).cells, TotalsOf(config, at', order').cells;
            c.Keys == c'.Keys && forall p <- c :: c[p] == c'[p].(pending := c[p].pending)
    ensures forall p <- TotalsOf(config, at, order).cells :: at(p) == Some(TotalsOf(config, at, order).cells[p])
  {
    CollectsAll(config, at, order);
    CollectsAll(config, at', order');
    var c, c' := TotalsOf(config, at, order).cells, TotalsOf(config, at', order').cells;
    forall p
      ensures Lookup(c, p) == at(p) && Lookup(c', p) == at'(p) && SameFigures(Lookup(c, p), Lookup(c', p))
    {
      assert SameFigures(at(p), at'(p));
    }
    forall p
      ensures p in c <==> p in c'
      ensures p in c ==> c[p] == c'[p].(pending := c[p].pending)
    {
      assert SameFigures(Lookup(c, p), Lookup(c', p));
    }
  }

  // ---- Standings ----

  datatype Figures = Figures(time: real, points: real, penalty: int)

  /** A problem's entry in format_data; the frozen figures are merged in when the contest freezes. */
  datatype FullCell = FullCell(live: Cell, frozen: Option<Figures>)

  function FrozenFigures(cell: Option<Cell>): Figures {
    if cell.Some? then Figures(cell.value.time, cell.value.points, cell.value.penalty) else Figures(0.0, 0.0, 0)
  }

  function FullCellOf(e: Entry, live: Option<Cell>, frozen: Option<Cell>): Option<FullCell> {
    if live.None? then None
    else Some(FullCell(live.value, if e.freezing then Some(FrozenFigures(frozen)) else None))
  }

  function FullCellAt(e: Entry, p: int): Option<FullCell> {
    FullCellOf(e, CellAt(e, false)(p), CellAt(e, true)(p))
  }

  function Merge(e: Entry, live: map<int, Cell>, frozen: map<int, Cell>): (m: map<int, FullCell>)
    ensures forall p :: Lookup(m, p) == FullCellOf(e, Lookup(live, p), Lookup(frozen, p))
  {
    map p | p in live :: FullCellOf(e, Some(live[p]), Lookup(frozen, p)).value
  }

  /** The fields that `update_participation` assigns. */
  class Participation {
    const id: int
    const virtual_: int
    var cumtime: real
    var score: real
    var tiebreaker: real
    var frozenCumtime: real
    var frozenScore: real
    var frozenTiebreaker: real
    var formatData: map<int, FullCell>

    constructor (id: int, virtual_: int)
      ensures this.id == id && this.virtual_ == virtual_ && formatData == map[]
    {
      this.id, this.virtual_ := id, virtual_;
      cumtime, score, tiebreaker, frozenCumtime, frozenScore, frozenTiebreaker := 0.0, 0.0, 0.0, 0.0, 0.0, 0.0;
      formatData := map[];
    }

    method Update(e: Entry, order: seq<int>, frozenOrder: seq<int>)
      requires ResultSet(e, false, order) && ResultSet(e, true, frozenOrder)
      modifies this
      ensures var a := InfoOf(e, false, order); cumtime == a.cumtime && score == a.score && tiebreaker == a.tiebreaker
      ensures e.freezing ==>
                var f := InfoOf(e, true, frozenOrder);
                frozenCumtime == f.cumtime && frozenScore == f.score && frozenTiebreaker == f.tiebreaker
      ensures !e.freezing ==>
                frozenCumtime == old(frozenCumtime) && frozenScore == old(frozenScore)
                && frozenTiebreaker == old(frozenTiebreaker)
      ensures forall p :: Lookup(formatData, p) == FullCellAt(e, p)
    {
      var actual, frozen, cells := ComputeAll(e, order, frozenOrder);
      cumtime, score, tiebreaker := actual.cumtime, actual.score, actual.tiebreaker;
      if e.freezing {
        frozenCumtime, frozenScore, frozenTiebreaker := frozen.cumtime, frozen.score, frozen.tiebreaker;
      }
      formatData := cells;
    }
  }

  /** Both computations, the frozen one only if the contest freezes, and the merged cells. */
  method ComputeAll(e: Entry, order: seq<int>, frozenOrder: seq<int>)
    returns (actual: Info, frozen: Info, cells: map<int, FullCell>)
    requires ResultSet(e, false, order) && ResultSet(e, true, frozenOrder)
    ensures actual == InfoOf(e, false, order)
    ensures e.freezing ==> frozen == InfoOf(e, true, frozenOrder)
    ensures forall p :: Lookup(cells, p) == FullCellAt(e, p)
  {
    actual := CalculateParticipationInfo(e, false, order);
    frozen := Info(0.0, 0.0, 0.0, map[]);
    if e.freezing {
      frozen := CalculateParticipationInfo(e, true, frozenOrder);
    }
    cells := Merge(e, actual.cells, frozen.cells);
  }

  // ---- First solves ----

  datatype Problem = Problem(id: int, points: real)

  /** One participant as the ranking reads it; virtual is 0 for a live participation. */
  datatype Standing = Standing(id: int, virtual_: int, formatData: map<int, FullCell>)

  /** The time at which a cell counts as solved, if it does: a frozen ranking reads the frozen figures only
      where submissions are pending, and the live ones elsewhere. */
  function SolvedIn(cell: Option<FullCell>, full: real, frozen: bool): Option<real> {
    if cell.None? then None
    else
      var c := cell.value;
      var hidden := frozen && c.live.pending.Some? && c.live.pending.value > 0 && c.frozen.Some?;
      var points := if hidden then c.frozen.value.points else c.live.points;
      var time := if hidden then c.frozen.value.time else c.live.time;
      if points == full then Some(time) else None
  }

  function Solved(s: Standing, p: Problem, frozen: bool): Option<real> {
    SolvedIn(Lookup(s.formatData, p.id), p.points, frozen)
  }

  /** Only live participations can be first. */
  function LiveTime(s: Standing, p: Problem, frozen: bool): Option<real> {
    if s.virtual_ == 0 then Solved(s, p, frozen) else None
  }

  function CountSolved(standings: seq<Standing>, p: Problem, frozen: bool): nat {
    |Filter(standings, (s: Standing) => Solved(s, p, frozen).Some?)|
  }

  function LiveTimes(standings: seq<Standing>, p: Problem, frozen: bool): seq<Option<real>> {
    seq(|standings|, i requires 0 <= i < |standings| => LiveTime(standings[i], p, frozen))
  }

  /** i holds the least time of the first n, and no earlier one equals it. */
  ghost predicate Leads(times: seq<Option<real>>, n: nat, i: nat) {
    && i < n <= |times| && times[i].Some?
    && forall k :: 0 <= k < n && times[k].Some? ==>
         times[i].value <= times[k].value && (k < i ==> times[i].value < times[k].value)
  }

  /** Who solved first: nobody live, or the earliest, and in a tie the first listed, live solver. */
  ghost predicate IsFirstSolve(standings: seq<Standing>, p: Problem, frozen: bool, first: Option<int>) {
    var times := LiveTimes(standings, p, frozen);
    if first.None? then forall i :: 0 <= i < |times| ==> times[i].None?
    else exists i :: 0 <= i < |standings| && Leads(times, |times|, i) && standings[i].id == first.value
  }

  method GetFirstSolvesAndTotalAc(problems: seq<Problem>, standings: seq<Standing>, frozen: bool)
    returns (firstSolves: map<int, Option<int>>, totalAc: map<int, nat>)
    requires forall i, k :: 0 <= i < k < |problems| ==> problems[i].id != problems[k].id
    ensures forall p <- problems ::
              p.id in firstSolves && p.id in totalAc
              && totalAc[p.id] == CountSolved(standings, p, frozen)
              && IsFirstSolve(standings, p, frozen, firstSolves[p.id])
  {
    firstSolves, totalAc := map[], map[];
    for i := 0 to |problems|
      invariant forall k :: 0 <= k < i ==>
                  var p := problems[k];
                  p.id in firstSolves && p.id in totalAc
                  && totalAc[p.id] == CountSolved(standings, p, frozen)
                  && IsFirstSolve(standings, p, frozen, firstSolves[p.id])
    {
      var first, total := FirstSolve(standings, problems[i], frozen);
      firstSolves, totalAc := firstSolves[problems[i].id := first], totalAc[problems[i].id := total];
    }
  }

  /** The inner loop over participations. */
  method FirstSolve(standings: seq<Standing>, p: Problem, frozen: bool) returns (first: Option<int>, total: nat)
    ensures total == CountSolved(standings, p, frozen)
    ensures IsFirstSolve(standings, p, frozen, first)
  {
    var minTime: Option<real> := None;
    first, total := None, 0;
    ghost var best: nat := 0;
    ghost var times := LiveTimes(standings, p, frozen);
    for i := 0 to |standings|
      invariant total == CountSolved(standings[..i], p, frozen)
      invariant first.None? <==> minTime.None?
      invariant first.None? ==> forall k :: 0 <= k < i ==> times[k].None?
      invariant first.Some? ==>
                  best < i && Leads(times, i, best) && first == Some(standings[best].id) && minTime == times[best]
    {
      var s := standings[i];
      CountSnoc(standings, i, p, frozen);
      var time := Solved(s, p, frozen);
      if time.Some? {
        total := total + 1;
        if s.virtual_ == 0 && (minTime.None? || minTime.value > time.value) {
          minTime := time;
          first := Some(s.id);
          best := i;
        }
      }
    }
    assert standings[..|standings|] == standings;
  }

  lemma CountSnoc(standings: seq<Standing>, i: nat, p: Problem, frozen: bool)
    requires i < |standings|
    ensures CountSolved(standings[..i + 1], p, frozen) ==
            CountSolved(standings[..i], p, frozen) + if Solved(standings[i], p, frozen).Some? then 1 else 0
  {
    assert standings[..i + 1] == standings[..i] + [standings[i]];
    FilterAppend(standings[..i], [standings[i]], (s: Standing) => Solved(s, p, frozen).Some?);
    assert [standings[i]][1..] == [];
  }

  // ---- What a live ranking counts ----

  /** The live ranking counts a problem as solved exactly if the best submission to it has full points, and at
      the time of the first of those: pending or not, and whatever the frozen figures are. */
  lemma LiveSolveExact(e: Entry, p: int, full: real, t: real)
    ensures SolvedIn(FullCellAt(e, p), full, false) == Some(t) <==>
            exists s <- e.subs :: FirstBest(e, p, false, s) && s.points == full && t == s.date - e.start
  {
    if HasRows(e, p, false) {
      var best := CellIsFirstBest(e, p, false);
    } else {
      forall s <- e.subs
        ensures !Visible(e, p, false, s)
      {
        RowsSplit(e, p, s);
      }
    }
  }

  // ---- What a frozen ranking reveals ----

  /** Submissions that are not graded carry no points. */
  ghost predicate UngradedAreWorthless(e: Entry) {
    forall s <- e.subs :: !s.Counts() ==> s.points == 0.0
  }

  lemma RowsSplit(e: Entry, p: int, s: Submission)
    ensures s in Rows(e, p, false) <==> s in e.subs && s.problem == p
    ensures s in Rows(e, p, true) <==> s in e.subs && s.problem == p && s.date < e.frozenTime
  {}

  /** Where nothing is pending, the live figures of a solved problem are the frozen ones. */
  lemma LiveFiguresArePreFreeze(e: Entry, p: int, full: real)
    requires UngradedAreWorthless(e) && 0.0 < full && Pending(e, p) == 0
    ensures HasRows(e, p, false) && BestPoints(e, p, false) == full <==>
            HasRows(e, p, true) && BestPoints(e, p, true) == full
    ensures HasRows(e, p, true) && BestPoints(e, p, true) == full ==> BestDate(e, p, false) == BestDate(e, p, true)
  {
    forall s <- e.subs
      ensures s in Rows(e, p, false) && s.points >= full ==> s in Rows(e, p, true)
      ensures s in Rows(e, p, true) ==> s in Rows(e, p, false)
    {
      RowsSplit(e, p, s);
    }
    if HasRows(e, p, false) {
      var s := BestIsReached(e, p, false);
      assert s.points == full ==> s in Rows(e, p, true);
    }
    if HasRows(e, p, true) {
      var t := BestIsReached(e, p, true);
      assert t in Rows(e, p, false);
    }
  }

  /** A problem as the submissions before the freeze leave it. */
  function PreFreezeSolve(e: Entry, p: int, full: real): Option<real> {
    var cell := CellAt(e, true)(p);
    if cell.Some? && cell.value.points == full then Some(cell.value.time) else None
  }

  lemma OpenSolve(e: Entry, p: int, full: real)
    requires e.freezing && Pending(e, p) == 0
    requires HasRows(e, p, false) && BestPoints(e, p, false) == full <==>
             HasRows(e, p, true) && BestPoints(e, p, true) == full
    requires HasRows(e, p, true) && BestPoints(e, p, true) == full ==> BestDate(e, p, false) == BestDate(e, p, true)
    ensures SolvedIn(FullCellAt(e, p), full, true) == PreFreezeSolve(e, p, full)
  {}

  /** What a frozen ranking shows of a problem is decided by the submissions before the freeze, even where
      it reads live figures. */
  lemma FrozenSolveIsPreFreeze(e: Entry, p: int, full: real)
    requires e.freezing && UngradedAreWorthless(e) && 0.0 < full
    ensures SolvedIn(FullCellAt(e, p), full, true) == PreFreezeSolve(e, p, full)
  {
    if Pending(e, p) == 0 {
      LiveFiguresArePreFreeze(e, p, full);
      OpenSolve(e, p, full);
    } else if HasRows(e, p, true) {
      RowsSplit(e, p, Rows(e, p, true)[0]);
    }
  }

  /** Two contests that agree before the freeze. */
  lemma PreFreezeSolveSame(e: Entry, e': Entry, p: int, full: real)
    requires Before(e) == Before(e')
    ensures PreFreezeSolve(e, p, full) == PreFreezeSolve(e', p, full)
  {
    FrozenCellIsLiveCell(e, p);
    FrozenCellIsLiveCell(e', p);
    assert CellAt(e, true)(p) == CellAt(e', true)(p);
  }

  /** Whether the standing was built from these submissions. */
  ghost predicate BuiltFrom(s: Standing, e: Entry) {
    forall p :: Lookup(s.formatData, p) == FullCellAt(e, p)
  }

  /** Non-interference: two rankings whose participants agree on everything submitted before the freeze
      show the same numbers of solvers and, with them, the same first solves. */
  lemma FrozenRankingRevealsNothing(a: seq<Standing>, ea: seq<Entry>, b: seq<Standing>, eb: seq<Entry>,
                                    p: Problem, first: Option<int>)
    requires |a| == |ea| == |b| == |eb| && 0.0 < p.points
    requires forall i :: 0 <= i < |a| ==>
               && a[i].id == b[i].id && a[i].virtual_ == b[i].virtual_
               && BuiltFrom(a[i], ea[i]) && BuiltFrom(b[i], eb[i])
               && ea[i].freezing && eb[i].freezing && Before(ea[i]) == Before(eb[i])
               && UngradedAreWorthless(ea[i]) && UngradedAreWorthless(eb[i])
    ensures CountSolved(a, p, true) == CountSolved(b, p, true)
    ensures IsFirstSolve(a, p, true, first) <==> IsFirstSolve(b, p, true, first)
  {
    forall i | 0 <= i < |a|
      ensures Solved(a[i], p, true) == Solved(b[i], p, true)
    {
      assert Solved(a[i], p, true) == SolvedIn(FullCellAt(ea[i], p.id), p.points, true);
      assert Solved(b[i], p, true) == SolvedIn(FullCellAt(eb[i], p.id), p.points, true);
      FrozenSolveIsPreFreeze(ea[i], p.id, p.points);
      FrozenSolveIsPreFreeze(eb[i], p.id, p.points);
      PreFreezeSolveSame(ea[i], eb[i], p.id, p.points);
    }
    SameSolvedSameCount(a, b, p);
    assert LiveTimes(a, p, true) == LiveTimes(b, p, true);
  }

  lemma {:induction false} SameSolvedSameCount(a: seq<Standing>, b: seq<Standing>, p: Problem)
    requires |a| == |b| && forall i :: 0 <= i < |a| ==> Solved(a[i], p, true) == Solved(b[i], p, true)
    ensures CountSolved(a, p, true) == CountSolved(b, p, true)
  {
    if a != [] {
      var n := |a| - 1;
      SameSolvedSameCount(a[..n], b[..n], p);
      CountSnoc(a, n, p, true);
      CountSnoc(b, n, p, true);
      assert a[..n + 1] == a && b[..n + 1] == b;
    }
  }

  /** An ungraded submission after the freeze that reaches the full points. */
  ghost predicate UngradedSolve(e: Entry, p: int, full: real) {
    exists s <- e.subs :: s.problem == p && !s.Counts() && s.date >= e.frozenTime && s.points == full
  }

  lemma UngradedSolveIsOpen(e: Entry, p: int, full: real)
    requires UngradedSolve(e, p, full) && forall s <- e.subs :: s.problem == p ==> s.points <= full
    ensures HasRows(e, p, false) && BestPoints(e, p, false) == full
  {}

  /** Where nothing is pending and nothing ungraded reaches the full points, solved means solved before. */
  lemma OpenSolveIsEarly(e: Entry, p: int, full: real)
    requires Pending(e, p) == 0 && forall s <- e.subs :: s.problem == p ==> s.points <= full
    requires !UngradedSolve(e, p, full) || (HasRows(e, p, true) && BestPoints(e, p, true) == full)
    ensures HasRows(e, p, false) && BestPoints(e, p, false) == full <==>
            HasRows(e, p, true) && BestPoints(e, p, true) == full
    ensures HasRows(e, p, true) && BestPoints(e, p, true) == full ==> BestDate(e, p, false) == BestDate(e, p, true)
  {
    forall s
      ensures s in Rows(e, p, false) <==> s in e.subs && s.problem == p
      ensures s in Rows(e, p, true) <==> s in e.subs && s.problem == p && s.date < e.frozenTime
    {
      RowsSplit(e, p, s);
    }
    if HasRows(e, p, false) {
      var s := BestIsReached(e, p, false);
      if s.points == full && s.date >= e.frozenTime {
        assert UngradedSolve(e, p, full);
      }
    }
    if HasRows(e, p, true) {
      var t := BestIsReached(e, p, true);
      assert t in Rows(e, p, false);
    }
  }

  /** The exact condition, with no submission above the full points: a frozen ranking shows what the
      submissions before the freeze say unless the problem has nothing pending, was not solved before the
      freeze, and an ungraded submission after it carries the full points. */
  lemma FrozenSolveExact(e: Entry, p: int, full: real)
    requires e.freezing && 0.0 < full && forall s <- e.subs :: s.problem == p ==> s.points <= full
    ensures SolvedIn(FullCellAt(e, p), full, true) == PreFreezeSolve(e, p, full) <==>
            Pending(e, p) > 0 || PreFreezeSolve(e, p, full).Some? || !UngradedSolve(e, p, full)
  {
    if Pending(e, p) > 0 {
      if HasRows(e, p, true) {
        RowsSplit(e, p, Rows(e, p, true)[0]);
      }
    } else if PreFreezeSolve(e, p, full).Some? || !UngradedSolve(e, p, full) {
      OpenSolveIsEarly(e, p, full);
      OpenSolve(e, p, full);
    } else {
      UngradedSolveIsOpen(e, p, full);
    }
  }

  /** One internal error after the freeze that carries full points shows up in the frozen ranking as a
      solve. */
  lemma UngradedPointsLeak(round: real -> real)
    ensures var s := Submission(1, 100.0, 60.0, InternalError);
            var e := Entry(Config(5, false), true, 50.0, 0.0, round, [s]);
            && Before(e) == e.(subs := [])
            && SolvedIn(FullCellAt(e, 1), 100.0, true) == Some(60.0)
            && SolvedIn(FullCellAt(Before(e), 1), 100.0, true) == None
  {}
}
