# Verified models of an online judge

This project models the parts of the VNOJ site that are easy to get subtly wrong, and proves what they are
meant to do. It has six parts.

* **Ratings** (`Numerics`, `Solver`, `Variance`, `History`, `Performance`, `TieRanker`, `Ratings`): the Elo-MMR
  update of judge/ratings.py over the real numbers. The main results: the pruned divide and conquer answers
  every contestant as well as a search of the whole range does; two entrants with the same past are never
  rated against their ranks; who performs at their mean keeps it; the prior always keeps positive weight; the
  variance and the penalty on the displayed rating converge at a stated rate.
* **Dispatcher** (`Judges`, `Scheduling`, `Dispatching`, `DispatchRuns`, `Stranding`, `Lanes`, `JudgeLists`): the
  bridge's JudgeList, once as a step function on values with its run theorems, once as an object with linked nodes, an
  index and failing dispatches, proved to carry out those steps. The main results: agreement of the running map
  with the judges and an account of every accepted submission over all runs, work conservation and no
  overtaking with their exact conditions, submissions started only on judges of the lowest tier that they suit,
  four FIFO queues in one list, and termination and right books for any pattern of failures.
* **Events** (`LinkedQueue`, `EventLog`, `EventProtocol`, `PollProtocol`, `JsonText`, `Daemon`, `EventClient`): the
  replay protocol between websocket/daemon.js and resources/event.js, as two state machines, and the objects that
  carry them out. The main result: exactly-once, in-order delivery over any number of reconnects, with the
  exact condition under which it holds; what is missed otherwise is missed for good.
* **Contest formats** (`ContestData`, `Vnoj`, `ScoreMaps`, `NewIoi`, `NewIoiParticipation`, `NewIoiScores`): the
  VNOJ and New IOI formats. The main results: what a frozen ranking shows does not depend on submissions after
  the freeze, what a masked score shows does not depend on hidden cases, the incremental New IOI fold is the
  maximum over submissions of the minimum over cases and never worth more than the weights, and what a row's
  figures are made of.
* **Balancer** (`BalancerJudges`, `Pairing`, `PairingSteps`, `PairingRuns`, `JudgeBalancing`): the pairing of judges
  with bridges in judge/balancer, in every state, also where names are shared and methods raise. The main results:
  the two dictionaries stay inverse to each other and in step with what the bridges wait for exactly as long as
  three kinds of events do not happen, and then every packet reaches the bridge that waits for it; and what goes
  wrong after each of the three.
* **Contest categories** (`CategorySlugs`, `CategoryTree`, `CategoryAccess`): the form of judge/forms.py and the
  access closure of judge/models/contest.py. The main results: saves keep a forest with distinct, valid slugs;
  a move is accepted exactly when it makes no cycle.

`Options` and `Sets` hold an option type and the iteration over sets that all parts use, `Targets` what the two
`disconnect` methods compare names with. Code that updates an
object is a class whose methods are proved equal to functions on values; loops are loops; the theorems are about
those functions.

## How things are modelled

* Floating-point numbers are reals. tanh is any strictly increasing function that is 0 at 0, sqrt any function that
  is a square root, rounding any monotone rounding to the nearest; pi is any positive number. Two lemmas say what the
  terms mean for the real tanh and take the laws they need as requirements. VAR_LIM is computed by its formula and
  shown to be the positive root of x^2 + c x - c b.
* Orders that the program leaves open (iteration over a set, rows of a query, the random choice among equally
  loaded judges) are parameters; the results hold for every order.
* Queries are comprehensions over a participant's submissions. Clocks are parameters. Locks make each public
  method of the dispatcher one step; the daemon is single-threaded.
* The dispatcher theorems about runs are for dispatches that succeed (`reliable`); structure, minimum tier, books
  and termination of the dispatcher object are proved whatever dispatches fail.
* A judge's name is a constant of its connection, None for one that never logs in; connections are objects.

## What the models show about the code

* A direct dispatch that fails loses its submission: the id is put in submission_map before the attempt
  (judge/bridge/judge_list.py:216), so the retry at line 222 returns at line 193 (`JudgeLists.JudgeList.Judge`).
* When a dispatch from the queue fails, the judge is dropped and the submission stays queued, beside an entry for
  that judge in submission_map (judge/bridge/judge_list.py:59-65). If another judge takes it over before the
  connection of the first one closes, `remove` deletes the entry of the second (lines 145-150), which is stranded:
  its report raises at line 168, and it stays marked as working (`Stranding.LateDisconnectStrands`).
  `Stranding.RemovalExact` says exactly when a removal is harmless. A stranded judge stays so exactly until the
  submission is accepted again or the judge goes (`Stranding.StrandedRunExact`). If the submission then starts on
  another judge, the next report of the first one frees it and strands the other (`Stranding.ReacceptanceMovesIt`,
  with the instance `Stranding.StrandedMoves`).
* `register` means to disconnect judges of the same name, but passes the judge object where `disconnect`
  compares names (judge/bridge/judge_list.py:110, 118; the same in judge/balancer/balancer.py:92, 99). Nothing is
  ever disconnected, and names stay distinct exactly if no registered judge has the name
  (`JudgeLists.JudgeList.Register`, `JudgeLists.NamesAfterRegister`, `JudgeLists.TwoOfOneName`). At the balancer two
  judges of one name lead to packets that reach the wrong bridge (`PairingRuns.NamesakeMisdelivers`).
* Enabling a judge hands it no work (judge/bridge/judge_list.py:136-141). `Dispatching.EnableExact` says when
  that leaves an idle judge beside work it could do, `Dispatching.EnableCanStarve` is an instance. After that a
  direct start can overtake what is queued: `DispatchRuns.DirectStartExact` says exactly when one does,
  `DispatchRuns.EnabledJudgeOvertakes` is an instance, and `DispatchRuns.WaitingIsReachable` a run that leads there.
  Work handed out from the queue never overtakes.
* A judge is freed of the id its packet names (judge/bridge/judge_handler.py:643-644). `Dispatching.FreeExact`:
  the books stay right exactly when that is its own submission or one that is not running.
* `pop` on an empty queue returns nothing but still lowers the length (websocket/queue.js:89-97). The daemon
  only pops a queue that is over capacity.
* A client whose needed messages were evicted before it asks again skips them for good, whatever happens later
  (`EventProtocol.CompleteIffNoGap`, `EventProtocol.EvictedNeverDispatched`; `EventProtocol.LateClientSkips` is an
  instance).
* A set-filter request of more than max_filter channels or more than max_body_size characters is refused
  (websocket/daemon.js:109-112, 149-151; `EventClient.SendFilter` says exactly when, `EventClient.OneLongChannel` is
  an instance). The client does not ask again, and the error frame, which has no id, makes it forget its position
  (resources/event.js:64; `EventClient.RefuseFilter`).
* The balancer does not take a queued submission out of its queue when the bridge is reset
  (judge/balancer/balancer.py:51-56). If the bridge then sends another one, two judges can work for it and the
  dictionaries stop being inverse to each other (`PairingRuns.ResetWhileQueuedBreaks`); `free_judge` raises
  KeyError for a judge whose bridge was reset and hands out no work (`Pairing.FreeSelfKeeps`).
* A connection takes its name before it registers (judge/balancer/judge_handler.py:69-74). If the handshake fails
  in between, for want of "executors", closing it takes away the pairing of the registered judge of that name
  (`PairingSteps.ImpostorUnpairs`).
* The penalty of a VNOJ problem counts the graded submissions up to the moment of the first best one and takes one
  off for that one, also when it is not graded itself or others were made at the same moment
  (`Vnoj.CellIsFirstBest`).
* A frozen VNOJ ranking reads live figures where nothing is pending, and an internal error does not count as
  pending. `Vnoj.FrozenSolveExact` says exactly when that shows.
* `save` puts a slug under its parent's and adds a suffix after the form has checked the length, so an accepted form
  can fail at the column's 128 characters (`CategoryTree.TooLongExact`, with the instance
  `CategoryTree.PrefixMakesTooLong`).
* Saving a category does not touch its children's slugs. They go on beginning with their parent's when its slug
  stays the same (`CategoryTree.SameSlugKeepsPrefixes`), and do not when it gets one off the old path
  (`CategoryTree.OtherSlugBreaksPrefixes`, with the instance `CategoryTree.RenamedParentLeavesChild`).

## Model

| member | source | states |
|---|---|---|
| Solver.SolveLoop | judge/ratings.py:47-69 | the loop with remembered end values computes the recursive search `Solve`; and where the function is a rising straight line over a bracket that holds the target, the answer meets the target exactly |
| Solver.SolveInside | judge/ratings.py:47-69 | the answer lies in the bracket |
| Solver.SolveMonotoneInTarget | judge/ratings.py:47-69 | raising the target never lowers the answer, for any function, interpolation included |
| Solver.SolveAntitoneInFunction | judge/ratings.py:47-69 | a pointwise larger function never has a larger answer, though the two searches may take different halves |
| Solver.SolveNear | judge/ratings.py:47-69 | for an increasing function the answer is within 2 of every crossing in the bracket, and an end is returned only for a target that is not inside it |
| Solver.PrunedSolveNear | judge/ratings.py:47-69 | searching between two approximate answers, to a smaller and a larger target, still answers within 2 over the whole range |
| Solver.NearUnique | judge/ratings.py:47-69 | two answers to one question are at most 4 apart |
| Solver.TermIsExpectedResult | judge/ratings.py:43-44 | a term is wt / sd times the expected result, chance of a win less chance of a loss, of the logistic law with centre mu and scale sd |
| Solver.ObjectiveIncreasing | judge/ratings.py:43-44 | the function searched is strictly increasing for positive weights and widths |
| Solver.ObjectiveAntitoneInCentre | judge/ratings.py:43-44 | moving a term's centre up lowers the function everywhere |
| Variance.VarLimIsLimit | judge/ratings.py:18 | VAR_LIM is the positive root of x^2 + c x = c b |
| Variance.VarDescends | judge/ratings.py:72-76 | the variance strictly falls with every contest and stays above VAR_LIM |
| Variance.VarConverges | judge/ratings.py:72-76 | the distance to VAR_LIM after t contests is at most (VAR_INIT - VAR_LIM) BETA2 / (BETA2 + t VAR_PER_CONTEST) |
| Variance.VarCache.GetVar | judge/ratings.py:72-76 | for every call history the shared cache only grows and the answer is t steps of the recurrence |
| History.PriorWeightBound | judge/ratings.py:118-131 | the prior keeps at least the precision of a measurement as old as the oldest performance used |
| History.PriorWeightPositive | judge/ratings.py:118-132 | w0 > 0 for every number of contests and every history no longer than it |
| History.SharesMakeUpPrecision | judge/ratings.py:118-131 | with unsquared weights the newest performances and what was known before them make up the precision after the contest, nothing left over |
| History.WeightIsSquaredShare | judge/ratings.py:123-127 | the weights of the update are the squares of those shares |
| Performance.WinsAntitone | judge/ratings.py:89-97 | a better rank has at least as high a target |
| Performance.ComputeTarget | judge/ratings.py:89-97 | the loop adds up wins and losses against the whole field, ties counting nothing |
| Performance.SolveIdx | judge/ratings.py:89-98 | writes the answer of the bounded search for one contestant and nothing else |
| Performance.FullSearchAnswers | judge/ratings.py:113-114 | a search of the whole range answers its contestant |
| Performance.PrunedSearchAnswers | judge/ratings.py:101-106 | a search between the answers of a contestant ranked no lower and one ranked no higher is in between and answers its contestant over the whole range |
| Performance.DivConq | judge/ratings.py:101-106 | fills every index in between with an answer, nonincreasing, and changes nothing else |
| Performance.Performances | judge/ratings.py:112-115 | every contestant is answered within 2 over VALID_RANGE, and performances are nonincreasing |
| Performance.PrunedCloseToFull | judge/ratings.py:101-115 | the pruned answer is within 4 of a full search, for each contestant |
| Performance.TiesClose | judge/ratings.py:97-106 | tied contestants differ by at most 4 in performance |
| Performance.EqualsTied | judge/ratings.py:86-98 | in a contest of equals that nobody wins every performance is the common old mean, to within 2 |
| Performance.WinIsTheLimit | judge/ratings.py:91-97 | a win counts for exactly the least value that the expected result against that opponent never reaches, a loss for as much negated |
| Performance.DeltaIsLogisticScale | judge/ratings.py:85 | the logistic law of a width has as its variance the strength's, one contest's drift and a performance's together |
| TieRanker.Rank | judge/ratings.py:23-40 | one rank for each item: the mean of the 1-based positions of its maximal run of equal keys |
| TieRanker.RanksFollowRuns | judge/ratings.py:23-40 | ranks never fall, and are equal exactly within a run |
| TieRanker.RanksAddUp | judge/ratings.py:23-40 | the ranks sum to n(n+1)/2 for every input |
| Ratings.WeighHistory | judge/ratings.py:119-131 | the loop over a history computes the squared-decay weights and what they leave for the prior |
| Ratings.HistoryTermIsLogistic | judge/ratings.py:128 | the logistic law of a past performance has the variance of one measurement, whatever its age |
| Ratings.ComputeMean | judge/ratings.py:118-133 | a contestant's new mean is the specified one, and the division by w0 is defined; someone who performs at their old mean keeps it to within 2, whatever their past performances were |
| Ratings.NewMeanSolves | judge/ratings.py:131-133 | the posterior is strictly increasing and the mean found is in range and within 2 of where it meets the prior's pull |
| Ratings.BetterPerformanceBetterMean | judge/ratings.py:118-133 | with the same past, a better performance never gives a lower mean |
| Ratings.OrderFair | judge/ratings.py:79-139 | two entrants with the same past never get performances, means or displayed ratings against their ranks |
| Ratings.RecalculateRatings | judge/ratings.py:79-139 | performances, means and displayed ratings of a whole contest, with fewer than two entrants left as they are |
| Ratings.RateContest | judge/ratings.py:162-177 | end to end from the standings: of two users with the same past the later one never gets more |
| Ratings.PenaltyVanishes | judge/ratings.py:135-137 | the penalty is positive, shrinks with every contest and vanishes at a stated rate |
| Ratings.PenaltyIsPosteriorDeviation | judge/ratings.py:131-137 | the penalty is the posterior's deviation above its limit, for the same precision that prior and history share out in the update |
| Ratings.DisplayedBelowMean | judge/ratings.py:137 | the displayed rating is between 1 and max(1, round(mean)), and below the mean by at most the penalty and a half |
| Judges.JudgeHandler.Submit | judge/bridge/judge_handler.py:236-257 | a dispatch that succeeds leaves the judge working on the id; one that fails leaves it so or as it was |
| Scheduling.RemovalKeepsOrder | judge/bridge/judge_list.py:67-68 | taking an entry out keeps the list sorted by (priority, arrival) with all markers |
| Scheduling.InsertionKeepsOrder | judge/bridge/judge_list.py:224-227 | inserting before the marker of its priority keeps the list sorted by (priority, arrival) |
| Dispatching.SubmitKeeps | judge/bridge/judge_list.py:191-230 | accepting a submission keeps the invariant and work conservation |
| Dispatching.FreeKeeps | judge/bridge/judge_list.py:165-170 | freeing a judge of its own submission keeps the invariant and work conservation |
| Dispatching.FreeExact | judge/bridge/judge_list.py:165-170 | the running map and the judges agree afterwards exactly if the id is the judge's own or not running |
| Dispatching.RegisterKeeps | judge/bridge/judge_list.py:107-113 | a new idle judge keeps the invariant and work conservation |
| Dispatching.RemoveKeeps | judge/bridge/judge_list.py:143-160 | removing a judge keeps the invariant and work conservation, also when the minimum tier rises |
| Dispatching.AbortKeeps | judge/bridge/judge_list.py:172-186 | an abort keeps the invariant and work conservation |
| Dispatching.UpdateProblemsKeeps | judge/bridge/judge_list.py:130-134 | new problems for one judge keep the invariant and work conservation |
| Dispatching.UpdateProblemsAllKeeps | judge/bridge/judge_list.py:121-128 | new problems for all judges keep them too, in any order, including when it stops early |
| Dispatching.SetDisabledKeeps | judge/bridge/judge_list.py:136-141 | disabling keeps the invariant and work conservation; enabling keeps the invariant |
| Dispatching.EnableExact | judge/bridge/judge_list.py:136-141 | enabling conserves work exactly if no idle judge enabled into the minimum tier has something suitable queued |
| Dispatching.EnableCanStarve | judge/bridge/judge_list.py:136-141 | an instance in which enabling the only judge leaves it idle beside work it could do |
| Stranding.FailedDispatchKeeps | judge/bridge/judge_list.py:59-65 | a failed dispatch that drops its judge keeps the books of the judges that are left |
| Stranding.RemovalExact | judge/bridge/judge_list.py:143-151 | removing a judge, registered or dropped before, keeps the books of the registered judges exactly if no other one runs the submission it names |
| Stranding.UnsafeRemovalStrands | judge/bridge/judge_list.py:145-151 | otherwise that other judge ends up working on a submission that is neither running nor queued |
| Stranding.StrandedExact | judge/bridge/judge_list.py:107-230 | every operation leaves a stranded judge stranded with its submission, its own report included, except exactly an acceptance of that submission and the removal of the judge |
| Stranding.StrandedRunExact | judge/bridge/judge_list.py:107-230 | the same for whole runs |
| Stranding.ReportPassesItOn | judge/bridge/judge_list.py:165-170 | of two judges that work on one submission, the report of the first frees it and strands the second |
| Stranding.ReacceptanceMovesIt | judge/bridge/judge_list.py:165-222 | so when the submission of a stranded judge is accepted again and starts elsewhere, the next report of the first strands the other |
| Stranding.ThirdJoins | judge/bridge/judge_list.py:107-113 | a third judge registers in the state that LateDisconnectStrands ends in |
| Stranding.StrandedMoves | judge/bridge/judge_list.py:165-222 | the instance goes on: the submission is accepted again, starts on the third judge, and the second one reports |
| Stranding.LateDisconnectStrands | judge/bridge/judge_list.py:35-151 | an instance: a dispatch fails, a second judge takes the submission over, the first connection closes |
| Dispatching.LoadKeeps | judge/bridge/judge_handler.py:634-641 | a new load keeps the invariant and changes nothing about work conservation |
| DispatchRuns.StepConserves | judge/bridge/judge_list.py:107-230 | every operation keeps the invariant, and from a state that conserves work it leads to one, except exactly an enabling of an idle judge beside work it could do |
| DispatchRuns.QueueNeverOvertakes | judge/bridge/judge_list.py:44-70 | in any state with the invariant, whatever an operation hands out from the queue suits its judge, which is of the minimum tier or below, and comes before everything still queued that the judge could run, in (priority, arrival) order |
| DispatchRuns.StartsWhereItBelongs | judge/bridge/judge_list.py:44-222 | whatever starts, from the queue or directly, starts on a judge that has its problem and its executor, is not banned, and was asked for by name if it is disabled or any judge was; and no enabled judge is of a lower tier |
| DispatchRuns.IdleOnlyWithoutWork | judge/bridge/judge_handler.py:181-183 | where work is conserved, nothing queued suits, in the same terms, an idle enabled judge of the lowest tier |
| DispatchRuns.ServedJudgeIsSatisfied | judge/bridge/judge_list.py:107-170 | even where work was not conserved before: a judge that reports, registers or gets new problems, and after a removal one left alone in its tier, has nothing suitable left in the queue if it is idle afterwards |
| DispatchRuns.StepOnlyHandsOut | judge/bridge/judge_list.py:107-230 | apart from the change it is asked for (a judge added, removed or freed, its problems, flag or load; a submission accepted under its priority), an operation does nothing to the judges but start submissions from the queue on idle ones |
| DispatchRuns.DirectStartExact | judge/bridge/judge_list.py:198-217 | a direct start overtakes nothing exactly if all that is queued and suits its judge is of a later priority |
| DispatchRuns.NoOvertaking | judge/bridge/judge_list.py:49-217 | where work is conserved, nothing overtakes, direct start included |
| DispatchRuns.EnabledJudgeOvertakes | judge/bridge/judge_list.py:136-217 | an instance: a judge is enabled beside a queued submission, and an equal one submitted next starts first |
| DispatchRuns.WaitingIsReachable | judge/bridge/judge_list.py:107-227 | a run from the empty dispatcher to the state before that enabling |
| DispatchRuns.EveryReachableState | judge/bridge/judge_list.py:44-230 | over all runs, with any enabling: the list is in order, the running map and the judges agree, nothing is queued and running, the minimum tier is right; the next operation overtakes nothing from the queue, and its direct start exactly as above |
| DispatchRuns.ConservesIffGuarded | judge/bridge/judge_list.py:44-230 | a run conserves work throughout exactly if no enabling in it meets an idle judge with suitable work queued |
| DispatchRuns.EveryGuardedState | judge/bridge/judge_list.py:44-230 | in such runs nothing ever overtakes |
| DispatchRuns.EveryAcceptanceAccountedFor | judge/bridge/judge_list.py:143-230 | over all runs, with any enabling, every acceptance of an id is exactly one of queued, running, finished, cancelled while queued, lost with its judge |
| Lanes.ListIsLanes | judge/bridge/judge_list.py:24-28 | the list is four queues each closed by its marker, the last marker at the end |
| Lanes.LaneIsFifo | judge/bridge/judge_list.py:224-227 | a queue holds exactly its own priority, in order of arrival |
| Lanes.InsertionAppends | judge/bridge/judge_list.py:224-227 | inserting before marker p appends to queue p and leaves the other three alone |
| JudgeLists.JudgeList.constructor | judge/bridge/judge_list.py:24-33 | the empty dispatcher: four markers, nothing indexed |
| JudgeLists.JudgeList.FindWork | judge/bridge/judge_list.py:49-58 | the scan stops at the first entry the judge may run |
| JudgeLists.JudgeList.HandleFreeJudge | judge/bridge/judge_list.py:44-70 | keeps list, markers, index and books right and terminates whatever fails; equals the specified step when nothing fails; a failure drops the judge and, unless that raises the minimum tier, leaves the submission queued beside an entry for that judge; raises exactly without a minimum tier; does nothing for a judge above it |
| JudgeLists.JudgeList.DropBrokenJudge | judge/bridge/judge_list.py:35-42 | removes the judge, keeps the structure and the minimum tier right, and terminates through any chain of further failures |
| JudgeLists.JudgeList.UpdateMinTier | judge/bridge/judge_list.py:72-94 | recomputes the minimum; a rise serves every judge of the new tier from a list that may have gone stale |
| JudgeLists.JudgeList.BooksAgree | judge/bridge/judge_list.py:24-33 | what the object's methods keep whatever fails is the agreement and the minimum of the specification |
| JudgeLists.JudgeList.Disconnect | judge/bridge/judge_list.py:115-119 | closes the judges whose name equals what it is given |
| JudgeLists.JudgeList.Register | judge/bridge/judge_list.py:107-113 | carries out the specified step, also for a judge that is registered already; disconnects nobody |
| JudgeLists.NamesAfterRegister | judge/bridge/judge_list.py:107-119 | names stay distinct exactly if the name is new; with the name passed to `disconnect` they always would |
| JudgeLists.TwoOfOneName | judge/bridge/judge_list.py:107-113 | an instance: two judges of one name, both registered |
| JudgeLists.JudgeList.TakeOut | judge/bridge/judge_list.py:145-151 | the entry of the submission the judge names goes with it, and the books of the others stay right exactly if none of them runs it |
| JudgeLists.JudgeList.Remove | judge/bridge/judge_list.py:143-160 | carries out the specified step for any judge, registered or dropped before, whatever fails on the way keeps structure and minimum tier; the running map loses the entry the judge names and keeps all others |
| JudgeLists.JudgeList.OnJudgeFree | judge/bridge/judge_list.py:165-170 | carries out the specified step; keeps structure whatever fails, and books too for registered and dropped judges that report their own submission; raises, changing nothing, for an id that is not running |
| JudgeLists.JudgeList.Release | judge/bridge/judge_list.py:168-169 | the entry goes and the judge is idle; the books of the registered judges stay right exactly if no other one runs the submission and a registered judge reports no other than its own |
| JudgeLists.JudgeList.OnPingResponse | judge/bridge/judge_handler.py:634-641 | carries out the load step of the model |
| JudgeLists.JudgeList.Abort | judge/bridge/judge_list.py:172-186 | tells whether the id was running; a queued one is dropped from list and index, nothing else changes |
| JudgeLists.JudgeList.Judge | judge/bridge/judge_list.py:191-230 | starts on the least loaded available judge or queues, exactly once; after a failed direct dispatch the id is in the running map of no registered judge |
| JudgeLists.JudgeList.DropAndRetry | judge/bridge/judge_list.py:219-222 | the retry after a failed direct dispatch always returns without effect |
| JudgeLists.JudgeList.LeastLoaded | judge/bridge/judge_list.py:214 | picks an available judge of least load |
| JudgeLists.JudgeList.UpdateProblems | judge/bridge/judge_list.py:130-134 | carries out the specified step; structure, books and minimum tier also for a judge dropped before and whatever fails |
| JudgeLists.JudgeList.UpdateProblemsAll | judge/bridge/judge_list.py:121-128 | carries out the specified step, in the order the set gives |
| JudgeLists.JudgeList.UpdateDisableJudge | judge/bridge/judge_list.py:136-141 | carries out the specified step for all judges of the name |
| LinkedQueue.Queue.Push | websocket/queue.js:75-85 | appends; head, tail, links and length stay consistent |
| LinkedQueue.Queue.Pop | websocket/queue.js:89-97 | removes and returns the first element; the length stays true exactly if there was one |
| LinkedQueue.Queue.Unshift | websocket/queue.js:103-110 | prepends; head, tail, links and length stay consistent |
| LinkedQueue.Queue.ToArray | websocket/queue.js:63-69 | the elements in order |
| LinkedQueue.Queue.FromArray | websocket/queue.js:56-62 | a queue of exactly these elements |
| Daemon.Server.MessagesPost | websocket/daemon.js:59-79 | ids count up without gaps, the buffer holds the last maxQueue messages, each follower is shown the message once if it wants it, exactly the waiting polls that want it are answered |
| Daemon.Server.MessagesCatchUp | websocket/daemon.js:45-51 | shows a client exactly the buffered messages past its position on its channels, in order |
| Daemon.Server.StartMsg | websocket/daemon.js:87-99 | sets the position and nothing else |
| Daemon.Server.SetFilter | websocket/daemon.js:103-136 | one to maxFilter strings make the socket a follower and show it what it missed; anything else changes nothing but earns an error |
| Daemon.Server.OnMessage | websocket/daemon.js:146-169 | refuses requests that are too long, make no sense or set no acceptable filter with an error and no other change, and carries out the others |
| Daemon.Socket.GotMessage | websocket/daemon.js:139-144 | sends what the filter wants and moves the position in any case |
| Daemon.Server.Poll | websocket/daemon.js:246-282 | answers with the first buffered message the request wants, or keeps it waiting |
| EventLog.MissedAdvance | websocket/daemon.js:45-51 | having read the k-th missed message, a reader misses exactly the ones after it |
| EventProtocol.CatchUpExact | websocket/daemon.js:45-51 | a catch-up gives the client all it needs exactly if nothing it needs was evicted |
| EventProtocol.StepKeeps | websocket/daemon.js:45-144 | every step of server, client and network keeps delivered plus on the way plus buffered equal to what the client should get |
| EventProtocol.ExactlyOnceInOrder | resources/event.js:52-112 | over any number of reconnects the dispatched messages are a prefix of the wanted posted ones, no gap, no duplicate, and all of them once the link is drained, if no needed message was evicted before a catch-up |
| EventProtocol.TimelyHasNoGap | websocket/daemon.js:45-136 | that is so if at most maxQueue messages were posted past the client's last id at each first set-filter |
| EventProtocol.OnTrackIffNoGap | websocket/daemon.js:45-136 | a run stays on track from end to end exactly if no needed message was evicted before a catch-up |
| EventProtocol.EvictedNeverDispatched | websocket/daemon.js:45-71 | a message that leaves the buffer before it is dispatched or on its way is never dispatched, over any further run |
| EventProtocol.CompleteIffNoGap | websocket/daemon.js:45-136 | once its link follows and is drained, the client has dispatched all it wants exactly if no needed message was evicted before a catch-up; with such a gap some wanted message is missed for good |
| EventProtocol.LateClientSkips | websocket/daemon.js:69-71 | an instance: two posts against a buffer of one |
| PollProtocol.AnswerExact | websocket/daemon.js:269-282 | a poll's answer is the right one exactly if nothing the client needs was evicted |
| PollProtocol.OnTrackIffNoGap | websocket/daemon.js:269-282 | the same exact condition for whole runs of a long-polling client |
| PollProtocol.ExactlyOnceInOrder | resources/event.js:27-50 | the long-polling client dispatches a prefix of the same sequence |
| PollProtocol.TimelyHasNoGap | websocket/daemon.js:269-282 | nothing is evicted too early if at most maxQueue messages were posted past the client's last id at each request |
| PollProtocol.EvictedNeverDispatched | websocket/daemon.js:59-71 | a message that leaves the buffer before it is dispatched or written is never dispatched |
| PollProtocol.CompleteIffNoGap | websocket/daemon.js:269-282 | while a poll waits, the client has dispatched all it wants exactly if no needed message was evicted before a poll was answered |
| EventClient.EventDispatcher.On | resources/event.js:121-134 | each event name becomes one channel, however many callbacks it has; the first opens the connection, and each new one has all channels asked for again, by the timer or by another poll |
| EventClient.EventDispatcher.OnOpen | resources/event.js:54-60 | every connection begins with start-msg from the last id |
| EventClient.EventDispatcher.FilterTimeout | resources/event.js:90-103 | sends all channels once the connection is ready and is due again before; whenever nothing is due, the last filter sent on an open connection is all channels |
| EventClient.EventDispatcher.OnClose | resources/event.js:66-78 | a lost connection is followed by another one that is told the channels again, exactly if reconnecting was asked for |
| EventClient.EventDispatcher.OnMessage | resources/event.js:61-65 | dispatches, then remembers the id |
| EventClient.Connect | resources/event.js:52-60 | a new socket and the client's onopen carry out the protocol's connect step |
| EventClient.EventDispatcher.OnError | resources/event.js:61-65 | an error frame dispatches nothing and takes the position away |
| EventClient.SendFilter | resources/event.js:90-103 | the timer asks for all channels; the server refuses exactly if they are more than maxFilter or their text is longer than maxBodySize, and takes the protocol's filter otherwise |
| EventClient.OneLongChannel | websocket/daemon.js:149-151 | an instance: one channel of 163 plain characters makes a request of 201 |
| EventClient.RefuseFilter | websocket/daemon.js:146-169 | a refused filter is no step of the protocol, but the client considers it sent and loses its position |
| EventClient.ReadFilter | websocket/daemon.js:103-136 | the server object carries out the protocol's set-filter step |
| EventClient.Post | websocket/daemon.js:59-79 | the server object carries out the protocol's post step |
| EventClient.Receive | resources/event.js:61-65 | the client object carries out the protocol's receive step |
| ContestData.SumAnyOrder | judge/contest_format/vnoj.py:96-130 | totals do not depend on the order of the rows |
| Vnoj.CalculateParticipationInfo | judge/contest_format/vnoj.py:79-137 | the figures, live or frozen, from the cells: the score is the rounded sum of the points, the tiebreaker the latest time with points, and the time the sum of the times with points (with LSO the tiebreaker) plus a penalty in minutes for each counted attempt of a problem with points, at least 0 |
| Vnoj.CellIsFirstBest | judge/contest_format/vnoj.py:96-121 | a cell has points and time of the first submission that reached the best points; its penalty is the graded ones made before it, and those made at the same moment less one; all graded ones without points |
| Vnoj.PendingIsTheRest | judge/contest_format/vnoj.py:125-128 | a live cell of a freezing contest counts as pending the graded submissions that the frozen one does not see |
| Vnoj.FrozenCellIsLiveCell | judge/contest_format/vnoj.py:32-44 | a problem's frozen figures are its live figures on the submissions before the freeze |
| Vnoj.TotalsLatest | judge/contest_format/vnoj.py:119-121 | the tiebreaker is the latest time of a scored problem, or 0 |
| Vnoj.FrozenInfoIsLiveInfo | judge/contest_format/vnoj.py:79-137 | the frozen info equals the live computation on the submissions before the freeze, pending counters apart, in any row order |
| Vnoj.Participation.Update | judge/contest_format/vnoj.py:139-164 | assigns the live figures, the frozen ones if the contest freezes, and merges the cells |
| Vnoj.GetFirstSolvesAndTotalAc | judge/contest_format/vnoj.py:166-192 | counts solvers and names the earliest live one, the first listed in a tie |
| Vnoj.LiveSolveExact | judge/contest_format/vnoj.py:179-184 | the live ranking counts a problem as solved exactly if the best submission to it has full points, and at the time of the first of those |
| Vnoj.LiveFiguresArePreFreeze | judge/contest_format/vnoj.py:179-184 | where nothing is pending and ungraded submissions are worth nothing, live figures of a solved problem are the frozen ones |
| Vnoj.FrozenSolveIsPreFreeze | judge/contest_format/vnoj.py:166-192 | what a frozen ranking shows of a problem is decided by the submissions before the freeze |
| Vnoj.FrozenRankingRevealsNothing | judge/contest_format/vnoj.py:166-192 | two contests that agree before the freeze have the same frozen solver counts and first solves |
| Vnoj.FrozenSolveExact | judge/contest_format/vnoj.py:179-184 | without the assumption on ungraded submissions: the exact condition for each problem |
| Vnoj.UngradedPointsLeak | judge/contest_format/vnoj.py:179-184 | an instance in which an internal error after the freeze shows as a solve |
| ScoreMaps.SumMonotone | judge/contest_format/new_ioi.py:82-83 | larger entries, missing ones counting 0, have larger sums |
| NewIoi.GroupCases | judge/contest_format/new_ioi.py:63-69 | scaled points by bucket, cases without points left out |
| NewIoi.RaiseScores | judge/contest_format/new_ioi.py:71-79 | every bucket is raised to the least of its cases if that is more, hidden ones only in the full dictionary |
| NewIoi.ProblemState.Apply | judge/contest_format/new_ioi.py:61-91 | after any submissions the state's dictionaries, best totals and times are the specified ones |
| NewIoi.BestIsMaxOfMin | judge/contest_format/new_ioi.py:71-79 | a bucket ends at the maximum over submissions of its score, and at 0 if none is positive |
| NewIoi.ScoreIsLeastCase | judge/contest_format/new_ioi.py:65-73 | a bucket's points are exactly the scaled points of its cases that have any |
| NewIoi.ScoreExact | judge/contest_format/new_ioi.py:65-73 | a submission's score on a bucket is exactly the least of what its cases with points are worth there, a raw point being worth contest weight / case total |
| NewIoi.FullScoreIsWeight | judge/contest_format/new_ioi.py:139-145 | a submission with the full case total, each case a bucket of its own, is worth exactly the contest weight |
| NewIoi.WeightIsMaximum | judge/contest_format/new_ioi.py:61-145 | no list of submissions is worth more than the contest weight if what the buckets can give adds up to no more than the case total |
| NewIoi.NoTotalNoPoints | judge/contest_format/new_ioi.py:145 | without a case total a problem gives no points |
| NewIoi.VisibleIsTheUnhidden | judge/contest_format/new_ioi.py:77-82 | the visible points are the points of the buckets that are not hidden batches |
| NewIoi.PointsAnyOrder | judge/contest_format/new_ioi.py:61-91 | the points do not depend on the order of the submissions |
| NewIoi.SubsetScoresLess | judge/contest_format/new_ioi.py:61-91 | fewer submissions never have more points |
| NewIoi.VisibleBelowAdmin | judge/contest_format/new_ioi.py:94-100 | hidden points are never negative |
| NewIoi.BothTotalsGrow | judge/contest_format/new_ioi.py:81-91 | neither total ever falls |
| NewIoi.LastRiseIsFirstReach | judge/contest_format/new_ioi.py:85-91 | the best time is when the final total was first reached, in seconds from the start and never negative, 0 if it never left 0 |
| NewIoiParticipation.BuildStates | judge/contest_format/new_ioi.py:135-161 | one state for each tried problem holding the fold of its submissions, the frozen one of those before the freeze |
| NewIoiScores.Effective | judge/contest_format/new_ioi.py:94-100 | a state's figures: visible ones while hidden subtasks are masked, all otherwise |
| NewIoiScores.MakeSide | judge/contest_format/new_ioi.py:163-202 | the figures of every problem and their totals, each problem once in any order |
| NewIoiScores.Participation.Update | judge/contest_format/new_ioi.py:102-230 | all fields assigned are the specified ones; live and frozen, the score is the rounded sum of the cells' points and the time, if counted, the sum of the times of the cells with points, at least 0; the summary adds up in the same way |
| NewIoiScores.ScoreWithinWeights | judge/contest_format/new_ioi.py:135-223 | no row scores more than the weights of its problems together, and no problem more than its weight |
| NewIoiScores.PointsSplit | judge/contest_format/new_ioi.py:94-100 | visible and hidden points make up the admin points, per problem and in total |
| NewIoiScores.RevealingOnlyAdds | judge/contest_format/new_ioi.py:93-100 | revealing hidden subtasks after the contest never lowers a total |
| NewIoiScores.FrozenNeverMore | judge/contest_format/new_ioi.py:156-171 | frozen points are never more than live ones, per problem and in total |
| NewIoiScores.EarlyIsPrefix | judge/contest_format/new_ioi.py:129-161 | the submissions before the freeze are a prefix of the submissions in date order |
| NewIoiScores.FrozenRowIsEarlyRow | judge/contest_format/new_ioi.py:156-228 | the frozen half is the live half computed on the submissions before the freeze |
| NewIoiScores.FrozenRowRevealsNothing | judge/contest_format/new_ioi.py:156-228 | nothing submitted after the freeze shows in the frozen half |
| NewIoiScores.MaskedRowHidesHidden | judge/contest_format/new_ioi.py:93-228 | while hidden subtasks are masked, what hidden cases scored shows neither in points nor in times |
| NewIoiScores.SameCasesVisiblySame | judge/contest_format/new_ioi.py:65-79 | two submissions whose cases differ only in points of hidden batches are the same for that result |
| Pairing.TryJudgeKeeps | judge/balancer/balancer.py:58-68 | handing out work keeps the dictionaries inverse to each other and leaves no judge idle beside a waiting submission |
| Pairing.FreeSelfKeeps | judge/balancer/balancer.py:70-76 | freeing a judge keeps the invariant, and work is conserved exactly if the judge was paired or nothing waits |
| Pairing.DisconnectKeeps | judge/balancer/judge_handler.py:44-52 | losing a judge keeps the invariant; the reset before the removal changes nothing more; a connection that never logged in changes nothing |
| Pairing.RegisterKeepsExact | judge/balancer/balancer.py:89-100 | a new judge keeps the invariant, and then work conservation, exactly if no other judge of its name is registered |
| Pairing.TryJudgeKeepsLoad | judge/balancer/balancer.py:58-68 | handing out work neither adds nor loses a submission of any bridge |
| Pairing.TryJudgeTakesFirst | judge/balancer/balancer.py:58-68 | as many requests as there are idle judges leave the queue, from its front, and the rest stays as it is |
| Pairing.TryJudgeServes | judge/balancer/balancer.py:58-68 | each of them goes to a judge of its own, whose packets then go to its bridge |
| Pairing.QueueKeepsExact | judge/balancer/balancer.py:118-121 | queueing keeps the invariant exactly if the bridge has no submission waiting or being judged |
| PairingSteps.StepExact | judge/balancer/balancer.py:51-135 | a step keeps bridges and balancer in step exactly if it is no reset of a bridge with its submission still queued, no registration under another judge's name and no closing of an unregistered connection with a paired name; and a packet that is delivered concerns what its bridge waits for |
| PairingSteps.ResetExact | judge/balancer/balancer.py:51-56 | a reset keeps them in step exactly if the bridge's submission is not in the queue |
| PairingRuns.RunExact | judge/balancer/balancer.py:51-135 | the same exact condition for whole runs, and every packet delivered in a run that meets it is expected |
| PairingRuns.EveryPacketIsExpected | judge/balancer/judge_handler.py:135-147 | over all runs from an empty balancer: dictionaries inverse, names distinct, paired judges working and bridges in step exactly under that condition, and every packet expected |
| PairingRuns.ServedInArrivalOrder | judge/balancer/balancer.py:51-121 | over any run, calm or not, requests leave the queue in the order in which they came: what waits is the newest part of all that waited or came |
| PairingRuns.ResetOrphans | judge/balancer/balancer.py:51-56 | the judge of a reset bridge goes on with its job, unpaired |
| PairingRuns.OrphanedJobIsSilent | judge/balancer/balancer.py:130-135 | whatever happens meanwhile, as long as no other judge takes its name, the old job of a reset bridge stays with its judge and its packets are dropped |
| PairingSteps.ImpostorUnpairs | judge/balancer/judge_handler.py:44-74 | closing a connection that took the name of a paired judge and did not register leaves a bridge waiting that no judge works for |
| PairingRuns.NamesakeMisdelivers | judge/balancer/balancer.py:58-135 | a run in which two judges of one name work for two bridges and the packets of the first reach the bridge of the second |
| PairingRuns.ResetWhileQueuedBreaks | judge/balancer/balancer.py:51-68 | a run in which a reset meets a queued submission and two judges end up working for one bridge |
| JudgeBalancing.JudgeBalancer.TryJudge | judge/balancer/balancer.py:58-68 | carries out the specified step for some order of the idle judges |
| JudgeBalancing.JudgeBalancer.FreeJudge | judge/balancer/balancer.py:70-76 | unpairs and hands out work; raises exactly if the name is not paired or its bridge has no judge, and hands out none then |
| JudgeBalancing.JudgeBalancer.ResetBridge | judge/balancer/balancer.py:51-56 | carries out the specified step, and raises exactly where it says so |
| JudgeBalancing.JudgeBalancer.Disconnect | judge/balancer/balancer.py:96-100 | closes the judges whose name equals what it is given |
| JudgeBalancing.JudgeBalancer.RegisterJudge | judge/balancer/balancer.py:89-94 | carries out the specified step under any name and disconnects nobody; names stay distinct exactly if the name is new |
| JudgeBalancing.JudgeBalancer.RemoveJudge | judge/balancer/balancer.py:102-108 | carries out the specified step, and changes nothing for a connection that did not log in |
| JudgeBalancing.JudgeBalancer.QueueSubmission | judge/balancer/balancer.py:118-121 | carries out the specified step |
| JudgeBalancing.ForwardPacket | judge/balancer/judge_handler.py:135-136 | what the run theorems call sent: in a sound state a judge's packet reaches a bridge exactly if the judge is paired, and then its own bridge, about the submission that bridge waits for |
| JudgeBalancing.FreeSelf | judge/balancer/judge_handler.py:138-141 | sends and changes what the step of the runs does; the judge stops working whether or not freeing it raises |
| JudgeBalancing.OnDisconnect | judge/balancer/judge_handler.py:44-52 | sends and changes what the step of the runs does, for connections that never logged in too; in a sound state it never raises |
| CategorySlugs.SlugifyCleans | judge/forms.py:1162-1166 | any name's slug is words joined by single underscores, and they are the words of the name in order; the default only for a name without any |
| CategorySlugs.SlugifyFixed | judge/forms.py:1162-1166 | a slug of a slug is the slug |
| CategorySlugs.PrefixIsPath | judge/forms.py:1168-1177 | the slug begins with the parent's, is accepted by the model's validator, and is prefixed only once |
| CategorySlugs.UnusedSlug | judge/forms.py:1184-1197 | the loop ends after at most as many candidates as there are slugs in use, with the first unused one |
| CategoryTree.ForestIffNoCycle | judge/forms.py:1205-1216 | every chain of parents ends exactly if parents exist and there is no cycle |
| CategoryTree.MoveKeepsExact | judge/forms.py:1205-1216 | a move keeps the forest exactly if the category is not the new parent or above it |
| CategoryTree.CleanParent | judge/forms.py:1205-1216 | the walk terminates and accepts exactly the forms after which there is no cycle |
| CategoryTree.SaveKeeps | judge/forms.py:1179-1203 | a save keeps the forest, distinct slugs and valid slugs, and the saved slug begins with its parent's |
| CategoryTree.EveryRunKeepsTree | judge/forms.py:1179-1216 | so does any number of saves, accepted or refused, and no slug grows beyond 128 characters |
| CategoryTree.Categories.Save | judge/forms.py:1179-1216 | refuses exactly the forms with a cycle or a typed slug in use; saves the others under the first unused slug exactly if that has at most 128 characters, and changes nothing otherwise |
| CategoryTree.TooLongExact | judge/models/contest.py:88 | a slug is too long exactly if it is with what the parent's slug and the suffix add to it |
| CategoryTree.PrefixMakesTooLong | judge/forms.py:1168-1203 | an instance: an accepted form whose slug is one character too long under its parent's |
| CategoryTree.PrefixesKeptExact | judge/forms.py:1179-1203 | all slugs go on beginning with their parents' exactly if the slug the form gets covers those of the category's children |
| CategoryTree.CoverByPath | judge/forms.py:1168-1203 | a slug that is the old one or above it in its path covers the children, one neither above nor below covers none |
| CategoryTree.SameSlugKeepsPrefixes | judge/forms.py:1179-1203 | a save that leaves the slug as it was keeps all prefixes |
| CategoryTree.OtherSlugBreaksPrefixes | judge/forms.py:1179-1203 | a category with children that gets a slug neither above nor below its old one always breaks a prefix |
| CategoryTree.RenamedParentLeavesChild | judge/forms.py:1179-1203 | an instance |
| CategoryAccess.AccessibleIds | judge/models/contest.py:171-197 | exactly the categories with a grant on themselves or above, cycles or not, and the walk terminates |

## Left out

- Floating-point rounding, the real tanh and Python's `round` of ties: numbers are reals, functions are taken by their laws.
- Ratings of users whose history is longer than their number of rated contests: the callers pass equal ones.
- Rows, transactions, caches, sockets, pings, timers, JSON and logging: only the state they gate is kept.
- The choice of users to rate, floors, ceilings and the profile update (judge/ratings.py:142-160, 179-188): queries.
- Changes a judge handler makes to its own executors and disabled flag after registration (judge/bridge/judge_handler.py:130-137, 369-374).
- DispatchRuns.EveryReachableState: a failing dispatch is no event of these runs; its effects are proved on the object (`JudgeLists`) and, for removals, in `Stranding.RemovalExact`.
- JudgeLists.JudgeList.Judge: the alert on a long queue and the unused reservation of a judge are left out.
- Thread interleavings inside one public method: the lock excludes them, and the balancer's free step is taken as one.
- LinkedQueue.Queue.ToArray: `forEach` with its callback is modelled by the walks of its callers.
- Server restarts, a filter changed during a connection and a second start-msg on one socket (websocket/daemon.js).
- What the server does with a start position that is not a number, channels named like properties every object has, and callbacks that throw.
- The timeout of a long poll and its abort are one event that loses the request.
- The retry of a failed poll after two seconds (resources/event.js:43): a name first used meanwhile starts another chain of polls beside it.
- The callbacks of a connection that was given up (resources/event.js:75-77, 136-141).
- A second handshake of one connection under another name (judge/balancer/judge_handler.py:58-75).
- Hidden batches are a fixed set for each problem and masking a boolean (judge/contest_format/new_ioi.py:104, 147-151).
- NewIoiScores.MakeSide: the one loop over problems is modelled as the same loop run once for each side.
- `get_first_solves_and_total_ac` of New IOI reads only the frozen halves when frozen, which `FrozenRowRevealsNothing` covers.
- The ICPC format: a later improvement after the freeze changes its frozen figures.
- HTML display and the validation of format configurations.
- Packets between bridges and judges other than their submission and whether they end it; aborts, which change no pairing.
- Trimming and lower-casing of a category name, and a trailing newline in a slug.
- The form requires its slug field; the fallback to the name is modelled for callers of `save` that do not.
- The database is taken to refuse values longer than their column.
- Form fields other than name, slug and parent, and deletion of categories.
