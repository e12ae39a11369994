/** A connected judge as the dispatcher sees it (judge/bridge/judge_handler.py). */
module Judges {
  import opened Options

  /** Submission ids are database ids, so a judge's current id is never taken for "not working". */
  type Id = n: int | 0 < n witness 1

  /** What the dispatcher reads of a judge. */
  datatype JudgeInfo = JudgeInfo(
    name: string,
    tier: nat,
    problems: set<string>,
    executors: set<string>,
    working: Option<Id>,
    disabled: bool,
    load: real)
  {
    /** `can_judge`: a judge asked for by name serves even while disabled. */
    predicate CanJudge(problem: string, executor: string, judgeId: Option<string>) {
      && problem in problems
      && executor in executors
      && ((Unspecified(judgeId) && !disabled) || judgeId == Some(name))
    }

    predicate Idle() { working.None? }
  }

  /** `not judge_id`: absent or empty. */
  predicate Unspecified(judgeId: Option<string>) {
    judgeId.None? || judgeId.value == ""
  }

  class JudgeHandler {
    const name: string
    const tier: nat
    const executors: set<string>
    var problems: set<string>
    var working: Option<Id>
    var isDisabled: bool
    var load: real

    constructor (name: string, tier: nat, problems: set<string>, executors: set<string>)
      ensures Info() == JudgeInfo(name, tier, problems, executors, None, false, 1e100)
    {
      this.name, this.tier, this.problems, this.executors := name, tier, problems, executors;
      working, isDisabled, load := None, false, 1e100;
    }

    function Info(): JudgeInfo
      reads this
    {
      JudgeInfo(name, tier, problems, executors, working, isDisabled, load)
    }

    /** `submit`.  It can fail before or after the judge is marked as working; when `reliable` it succeeds. */
    method Submit(id: Id, reliable: bool) returns (ok: bool)
      modifies `working
      ensures reliable ==> ok
      ensures ok ==> working == Some(id)
      ensures !ok ==> working == old(working) || working == Some(id)
    {
      var begun, sent: bool := *, *;
      if reliable || begun {
        working := Some(id);
      }
      ok := reliable || (begun && sent);
    }
  }
}
