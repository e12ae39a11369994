/** A judge's connection as the balancer sees it (judge/balancer/judge_handler.py). */
module BalancerJudges {
  import opened Options

  /** The name a connection logs in with, and None if it never does. */
  type Name = Option<string>

  /** Submission ids are database ids, so a judge's current id is never taken for "not working". */
  class JudgeHandler {
    const name: Name
    var currentSubmissionId: Option<int>

    constructor (name: Name)
      ensures this.name == name && currentSubmissionId == None
    {
      this.name := name;
      currentSubmissionId := None;
    }

    predicate Working()
      reads this
    {
      currentSubmissionId.Some?
    }

    method Submit(id: int)
      modifies this
      ensures currentSubmissionId == Some(id)
    {
      currentSubmissionId := Some(id);
    }
  }
}
