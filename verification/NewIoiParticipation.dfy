/** `update_participation` of the New IOI format (judge/contest_format/new_ioi.py): one state per problem,
    live and frozen, folded over the submissions in date order, and the totals over problems. */
module NewIoiParticipation {
  import CD = ContestData
  import ScoreMaps
  import opened NewIoi

  /** A contest submission: its contest problem and the graded submission. */
  datatype Attempt = Attempt(problem: int, sub: Submission)

  /** `hidden` gives a problem's hidden batches; `liveMasking` says whether they are masked now; `round` is
      rounding to the contest's precision and `truncate` is `int` of a number of seconds. */
  datatype Setup = Setup(hidden: int -> set<int>, start: real, freezing: bool, frozenTime: real,
                         liveMasking: bool, cumtime: bool, round: real -> real, truncate: real -> real)

  function SubsOf(attempts: seq<Attempt>, p: int): seq<Submission> {
    if attempts == [] then []
    else
      var n := |attempts| - 1;
      SubsOf(attempts[..n], p) + if attempts[n].problem == p then [attempts[n].sub] else []
  }

  function EarlyAttempts(setup: Setup, attempts: seq<Attempt>): seq<Attempt> {
    CD.Filter(attempts, (a: Attempt) => a.sub.date < setup.frozenTime)
  }

  function EarlySubs(setup: Setup, attempts: seq<Attempt>, p: int): seq<Submission> {
    SubsOf(EarlyAttempts(setup, attempts), p)
  }

  function Problems(attempts: seq<Attempt>): set<int> {
    set a | a in attempts :: a.problem
  }

  // ---- Building the states ----

  type Table = map<int, ProblemState>

  /** Every problem of the table has the state of its submissions. */
  ghost predicate Holds(setup: Setup, m: Table, subs: int -> seq<Submission>)
    reads m.Values
  {
    forall p <- m :: m[p].Represents(subs(p), setup.hidden(p), setup.start)
  }

  ghost predicate Injective(m: Table) {
    forall p, q :: p in m && q in m && p != q ==> m[p] != m[q]
  }

  /** The live table after these attempts. */
  ghost predicate BuiltLive(setup: Setup, m: Table, attempts: seq<Attempt>)
    reads m.Values
  {
    Holds(setup, m, Live(attempts)) && Injective(m) && m.Keys == Problems(attempts)
  }

  ghost predicate BuiltFrozen(setup: Setup, m: Table, attempts: seq<Attempt>)
    reads m.Values
  {
    Holds(setup, m, Early(setup, attempts)) && Injective(m) && m.Keys == Problems(attempts)
  }

  function Extended(subs: int -> seq<Submission>, p: int, s: Submission): int -> seq<Submission> {
    q => if q == p then subs(p) + [s] else subs(q)
  }

  function Live(attempts: seq<Attempt>): int -> seq<Submission> {
    p => SubsOf(attempts, p)
  }

  function Early(setup: Setup, attempts: seq<Attempt>): int -> seq<Submission> {
    p => EarlySubs(setup, attempts, p)
  }

  /** One more submission for the state of its problem. */
  method Feed(setup: Setup, m: Table, p: int, s: Submission, ghost subs: int -> seq<Submission>)
    requires Holds(setup, m, subs) && Injective(m) && p in m
    modifies m[p]
    ensures Holds(setup, m, Extended(subs, p, s))
  {
    m[p].Apply(s, setup.hidden(p), setup.start, subs(p));
  }

  /** `setdefault` with a new state. */
  method SetDefault(setup: Setup, m: Table, p: int, ghost subs: int -> seq<Submission>) returns (m': Table)
    requires Holds(setup, m, subs) && Injective(m)
    requires p !in m ==> subs(p) == []
    ensures Holds(setup, m', subs) && Injective(m')
    ensures m'.Keys == m.Keys + {p}
    ensures forall q <- m' :: (q in m && m'[q] == m[q]) || fresh(m'[q])
  {
    m' := m;
    if p !in m {
      var state := new ProblemState();
      m' := m[p := state];
    }
  }

  lemma SameSubsHold(setup: Setup, m: Table, subs: int -> seq<Submission>, subs': int -> seq<Submission>)
    requires Holds(setup, m, subs) && forall p :: subs(p) == subs'(p)
    ensures Holds(setup, m, subs')
  {}

  lemma LiveSnoc(attempts: seq<Attempt>, a: Attempt, p: int)
    ensures SubsOf(attempts + [a], p) == Extended(Live(attempts), a.problem, a.sub)(p)
  {}

  lemma EarlySnoc(setup: Setup, attempts: seq<Attempt>, a: Attempt, p: int)
    ensures EarlySubs(setup, attempts + [a], p) ==
            if a.sub.date < setup.frozenTime then Extended(Early(setup, attempts), a.problem, a.sub)(p)
            else EarlySubs(setup, attempts, p)
  {
    var early := (a: Attempt) => a.sub.date < setup.frozenTime;
    CD.FilterAppend(attempts, [a], early);
    var before := EarlyAttempts(setup, attempts);
    if early(a) {
      LiveSnoc(before, a, p);
    } else {
      assert before + [] == before;
    }
  }

  lemma NoAttempts(setup: Setup, attempts: seq<Attempt>, p: int)
    requires forall a <- attempts :: a.problem != p
    ensures SubsOf(attempts, p) == [] && EarlySubs(setup, attempts, p) == []
  {
    NothingFor(attempts, p);
    NothingFor(EarlyAttempts(setup, attempts), p);
  }

  lemma {:induction false} NothingFor(attempts: seq<Attempt>, p: int)
    requires forall a <- attempts :: a.problem != p
    ensures SubsOf(attempts, p) == []
  {
    if attempts != [] {
      NothingFor(attempts[..|attempts| - 1], p);
    }
  }

  /** One attempt for the live table. */
  method AbsorbLive(setup: Setup, m: Table, a: Attempt, ghost before: seq<Attempt>) returns (m': Table)
    requires BuiltLive(setup, m, before)
    modifies m.Values
    ensures BuiltLive(setup, m', before + [a])
    ensures fresh(m'.Values - m.Values)
  {
    ProblemsSnoc(before, a);
    if a.problem !in m {
      NoAttempts(setup, before, a.problem);
    }
    m' := SetDefault(setup, m, a.problem, Live(before));
    Feed(setup, m', a.problem, a.sub, Live(before));
    forall p
      ensures Extended(Live(before), a.problem, a.sub)(p) == Live(before + [a])(p)
    {
      LiveSnoc(before, a, p);
    }
    SameSubsHold(setup, m', Extended(Live(before), a.problem, a.sub), Live(before + [a]));
  }

  /** One attempt for the frozen table: the state is created in any case, but fed only before the freeze. */
  method AbsorbFrozen(setup: Setup, m: Table, a: Attempt, ghost before: seq<Attempt>) returns (m': Table)
    requires BuiltFrozen(setup, m, before)
    modifies m.Values
    ensures BuiltFrozen(setup, m', before + [a])
    ensures fresh(m'.Values - m.Values)
  {
    ProblemsSnoc(before, a);
    if a.problem !in m {
      NoAttempts(setup, before, a.problem);
    }
    ghost var subs := Early(setup, before);
    m' := SetDefault(setup, m, a.problem, subs);
    if a.sub.date < setup.frozenTime {
      Feed(setup, m', a.problem, a.sub, subs);
      subs := Extended(subs, a.problem, a.sub);
    }
    forall p
      ensures subs(p) == Early(setup, before + [a])(p)
    {
      EarlySnoc(setup, before, a, p);
    }
    SameSubsHold(setup, m', subs, Early(setup, before + [a]));
  }

  lemma ProblemsSnoc(before: seq<Attempt>, a: Attempt)
    ensures Problems(before + [a]) == Problems(before) + {a.problem}
    ensures forall b <- before :: b.problem in Problems(before)
  {}

  /** One attempt for both tables. */
  method AbsorbBoth(setup: Setup, live: Table, frozen: Table, a: Attempt, ghost before: seq<Attempt>)
    returns (live': Table, frozen': Table)
    requires BuiltLive(setup, live, before) && (setup.freezing ==> BuiltFrozen(setup, frozen, before))
    requires live.Values !! frozen.Values
    modifies live.Values, frozen.Values
    ensures BuiltLive(setup, live', before + [a])
    ensures setup.freezing ==> BuiltFrozen(setup, frozen', before + [a])
    ensures live'.Values !! frozen'.Values
    ensures fresh(live'.Values - live.Values) && fresh(frozen'.Values - frozen.Values)
  {
    live' := AbsorbLive(setup, live, a, before);
    assert live'.Values !! frozen.Values;
    frozen' := frozen;
    if setup.freezing {
      assert BuiltFrozen(setup, frozen, before);
      frozen' := AbsorbFrozen(setup, frozen, a, before);
      assert live'.Values !! frozen'.Values;
    }
  }

  /** The loop over the submissions. */
  method BuildStates(setup: Setup, attempts: seq<Attempt>) returns (live: Table, frozen: Table)
    ensures BuiltLive(setup, live, attempts)
    ensures setup.freezing ==> BuiltFrozen(setup, frozen, attempts)
  {
    live, frozen := map[], map[];
    assert attempts[..0] == [];
    for i := 0 to |attempts|
      invariant BuiltLive(setup, live, attempts[..i])
      invariant setup.freezing ==> BuiltFrozen(setup, frozen, attempts[..i])
      invariant live.Values !! frozen.Values
      invariant fresh(live.Values) && fresh(frozen.Values)
    {
      assert attempts[..i + 1] == attempts[..i] + [attempts[i]];
      live, frozen := AbsorbBoth(setup, live, frozen, attempts[i], attempts[..i]);
    }
    assert attempts[..|attempts|] == attempts;
  }
}
