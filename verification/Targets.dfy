/** What `disconnect` is called with, in the dispatcher and in the balancer.  It compares judges' names with it,
    so a judge object matches nothing. */
module Targets {
  datatype Target<J, N(==)> = ByName(name: N) | ByJudge(judge: J) {
    predicate Matches(n: N) { ByName? && n == name }
  }
}
