/**
 * The web-search sub-task graph run end to end: each step executes the node the last
 * command routed to, and a send fans out one execute_search per query whose updates go
 * through the search_results reducer in dispatch order. The outside answers every step
 * consumes come from an Oracle value.
 */
module SubtaskController {
  import opened Wrappers
  import opened TaskState
  import opened SearchState
  import opened WebSearchNodes

  /** The payload plan_tasks sends to each sub-task. */
  datatype Dispatch = Dispatch(taskId: string, taskDescription: string, attempt: int, completed: bool)

  /** The sub-task's state when it starts: only the dispatched keys are set. */
  function InitialState(d: Dispatch): SubtaskState {
    SubtaskState(d.taskId, d.taskDescription, None, [], None, None, Some(d.attempt), d.completed, [])
  }

  /**
   * The outside answers one step may consume: the query model, the search provider for the
   * i-th branch of a fan-out, the drafting model and the evaluator.
   */
  datatype Oracle = Oracle(
    queries: Reply<seq<string>>,
    searches: nat -> ProviderOutcome,
    draft: Reply<string>,
    verdict: Reply<Evaluation>)

  /** A running sub-task with the route it takes next, or one that raised. */
  datatype Config = Running(s: SubtaskState, next: Goto) | Aborted(error: Failure)

  predicate Finished(c: Config) {
    c.Running? && c.next == GoToEnd
  }

  predicate Halted(c: Config) {
    c.Aborted? || Finished(c)
  }

  predicate Evaluating(c: Config) {
    c.Running? && c.next == GoTo(EvaluateTaskResult)
  }

  /** What each execute_search branch of a fan-out writes, in dispatch order. */
  function BranchRecords(queries: seq<string>, searches: nat -> ProviderOutcome): (r: seq<seq<SearchResult>>)
    ensures |r| == |queries| && forall i :: 0 <= i < |queries| ==> r[i] == SearchRecords(queries[i], searches(i))
  {
    seq(|queries|, i requires 0 <= i < |queries| => SearchRecords(queries[i], searches(i)))
  }

  function ResultUpdates(rs: seq<seq<SearchResult>>): (r: seq<Update>)
    ensures |r| == |rs| && forall i :: 0 <= i < |rs| ==> r[i] == NoUpdate.(searchResults := Some(rs[i]))
  {
    seq(|rs|, i requires 0 <= i < |rs| => NoUpdate.(searchResults := Some(rs[i])))
  }

  function Wrap(rs: seq<seq<SearchResult>>): (r: seq<Option<seq<SearchResult>>>)
    ensures |r| == |rs| && forall i :: 0 <= i < |rs| ==> r[i] == Some(rs[i])
  {
    seq(|rs|, i requires 0 <= i < |rs| => Some(rs[i]))
  }

  /** Several updates applied one after another. */
  function ApplyUpdates(s: SubtaskState, us: seq<Update>): SubtaskState
    decreases |us|
  {
    if us == [] then s else ApplyUpdates(ApplyUpdate(s, us[0]), us[1..])
  }

  function Resume(s: SubtaskState, r: Result<Command>): Config {
    match r
    case Err(e) => Aborted(e)
    case Ok(cmd) => Running(ApplyUpdate(s, cmd.update), cmd.goto)
  }

  /** One superstep of the sub-task graph. */
  function Step(c: Config, o: Oracle): Config {
    match c
    case Aborted(_) => c
    case Running(s, next) =>
      match next
      case GoToEnd => c
      case SendSearches(qs) =>
        Running(ApplyUpdates(s, ResultUpdates(BranchRecords(qs, o.searches))), GoTo(GenerateTaskResult))
      case GoTo(node) =>
        match node
        case GenerateSearchQueries => Resume(s, GenerateSearchQueriesNode(o.queries))
        case GenerateTaskResult => Resume(s, GenerateTaskResultNode(o.draft))
        case EvaluateTaskResult => Resume(s, EvaluateTaskResultNode(s, o.verdict))
  }

  function Run(c: Config, oracles: seq<Oracle>): Config
    decreases |oracles|
  {
    if oracles == [] then c else Run(Step(c, oracles[0]), oracles[1..])
  }

  /** How many times evaluate_task_result runs along the way. */
  function Evaluations(c: Config, oracles: seq<Oracle>): nat
    decreases |oracles|
  {
    if oracles == [] then 0
    else (if Evaluating(c) then 1 else 0) + Evaluations(Step(c, oracles[0]), oracles[1..])
  }

  // ---------------------------------------------------------------- the fan-out round

  /** A round of search branches sets search_results to the reducer's fold and touches nothing else. */
  lemma {:induction false} ApplyResultUpdates(s: SubtaskState, rs: seq<seq<SearchResult>>)
    requires |rs| >= 1
    ensures ApplyUpdates(s, ResultUpdates(rs)) == s.(searchResults := Some(MergeAll(s.searchResults, Wrap(rs))))
    decreases |rs|
  {
    var us := ResultUpdates(rs);
    var s1 := ApplyUpdate(s, us[0]);
    assert s1 == s.(searchResults := Some(MergeSearchResults(s.searchResults, Some(rs[0]))));
    assert Wrap(rs)[1..] == Wrap(rs[1..]);
    if |rs| > 1 {
      assert us[1..] == ResultUpdates(rs[1..]);
      ApplyResultUpdates(s1, rs[1..]);
    }
  }

  lemma RoundState(s: SubtaskState, queries: seq<string>, searches: nat -> ProviderOutcome)
    requires |queries| >= 1
    ensures ApplyUpdates(s, ResultUpdates(BranchRecords(queries, searches)))
         == s.(searchResults := Some(MergeAll(s.searchResults, Wrap(BranchRecords(queries, searches)))))
  {
    ApplyResultUpdates(s, BranchRecords(queries, searches));
  }

  /** When no branch comes back empty, the round appends every branch's records in dispatch order. */
  lemma RoundAppends(s: SubtaskState, queries: seq<string>, searches: nat -> ProviderOutcome)
    requires |queries| >= 1
    requires forall i :: 0 <= i < |queries| ==> SearchRecords(queries[i], searches(i)) != []
    ensures ApplyUpdates(s, ResultUpdates(BranchRecords(queries, searches))).searchResults
         == Some(s.searchResults.GetOr([]) + Contributions(Wrap(BranchRecords(queries, searches))))
  {
    var ws := Wrap(BranchRecords(queries, searches));
    RoundState(s, queries, searches);
    assert forall k :: 0 <= k < |ws| ==> ws[k] != Some([]);
    MergeAllAppends(s.searchResults, ws);
  }

  /**
   * A branch that comes back empty (empty query, provider failure, a hit without a link or
   * title) wipes the records of every branch applied before it.
   */
  lemma RoundClears(s: SubtaskState, queries: seq<string>, searches: nat -> ProviderOutcome, k: nat)
    requires k < |queries| && SearchRecords(queries[k], searches(k)) == []
    ensures ApplyUpdates(s, ResultUpdates(BranchRecords(queries, searches))).searchResults
         == Some(MergeAll(Some([]), Wrap(BranchRecords(queries, searches))[k + 1..]))
  {
    RoundState(s, queries, searches);
    MergeAllClears(s.searchResults, Wrap(BranchRecords(queries, searches)), k);
  }

  /** Two queries: the first finds a page, the provider fails on the second; the round ends with no record at all. */
  lemma RoundWipeExample(s: SubtaskState, page: Hit)
    requires HasKeys(page)
    ensures var searches := (i: nat) => if i == 0 then Hits([page]) else ProviderFailed;
      SearchRecords("a", searches(0)) != []
      && ApplyUpdates(s, ResultUpdates(BranchRecords(["a", "b"], searches))).searchResults == Some([])
  {
    var searches := (i: nat) => if i == 0 then Hits([page]) else ProviderFailed;
    assert |SearchRecords("a", searches(0))| == 1;
    RoundClears(s, ["a", "b"], searches, 1);
    assert Wrap(BranchRecords(["a", "b"], searches))[2..] == [];
  }

  // ---------------------------------------------------------------- progress

  /** Evaluation rounds still possible after the pending one, given the attempt count so far. */
  function Rounds(s: SubtaskState): nat {
    if PriorAttempt(s) >= AttemptCap - 1 then 0 else AttemptCap - 1 - PriorAttempt(s)
  }

  /** Steps from a route to the next evaluation, at most. */
  function Dist(g: Goto): nat {
    match g
    case GoToEnd => 0
    case SendSearches(_) => 3
    case GoTo(node) =>
      match node
      case GenerateSearchQueries => 4
      case GenerateTaskResult => 2
      case EvaluateTaskResult => 1
  }

  function StepsLeft(c: Config): nat {
    if Halted(c) then 0 else 4 * Rounds(c.s) + Dist(c.next)
  }

  function EvaluationsLeft(c: Config): nat {
    if Halted(c) then 0 else 1 + Rounds(c.s)
  }

  lemma RoundKeepsAttempt(s: SubtaskState, rs: seq<seq<SearchResult>>)
    ensures var t := ApplyUpdates(s, ResultUpdates(rs));
      t.attempt == s.attempt && t.completed == s.completed && t.tasks == s.tasks
      && t.taskResult == s.taskResult && t.searchQueries == s.searchQueries
      && t.taskId == s.taskId && t.taskDescription == s.taskDescription
  {
    if rs != [] {
      ApplyResultUpdates(s, rs);
    }
  }

  /** Every step either halts the sub-task or brings it strictly closer to its end. */
  lemma StepProgress(c: Config, o: Oracle)
    requires !Halted(c)
    ensures Halted(Step(c, o)) || StepsLeft(Step(c, o)) < StepsLeft(c)
    ensures EvaluationsLeft(Step(c, o)) + (if Evaluating(c) then 1 else 0) <= EvaluationsLeft(c)
  {
    if c.next.SendSearches? {
      RoundKeepsAttempt(c.s, BranchRecords(c.next.queries, o.searches));
    }
  }

  lemma {:induction false} HaltedStays(c: Config, oracles: seq<Oracle>)
    requires Halted(c)
    ensures Run(c, oracles) == c && Evaluations(c, oracles) == 0
    decreases |oracles|
  {
    if oracles != [] {
      HaltedStays(Step(c, oracles[0]), oracles[1..]);
    }
  }

  lemma {:induction false} RunHalts(c: Config, oracles: seq<Oracle>)
    requires |oracles| >= StepsLeft(c)
    ensures Halted(Run(c, oracles))
    ensures Evaluations(c, oracles) <= EvaluationsLeft(c)
    decreases |oracles|
  {
    if Halted(c) {
      HaltedStays(c, oracles);
    } else {
      StepProgress(c, oracles[0]);
      RunHalts(Step(c, oracles[0]), oracles[1..]);
    }
  }

  /** Every run, whatever the outside answers, evaluates at most as often as the budget says. */
  lemma {:induction false} EvaluationsBound(c: Config, oracles: seq<Oracle>)
    ensures Evaluations(c, oracles) <= EvaluationsLeft(c)
    decreases |oracles|
  {
    if oracles != [] {
      if Halted(c) {
        HaltedStays(c, oracles);
      } else {
        StepProgress(c, oracles[0]);
        EvaluationsBound(Step(c, oracles[0]), oracles[1..]);
      }
    }
  }

  // ---------------------------------------------------------------- the sub-task's promise

  /** What holds of a sub-task dispatched by the planner (attempt 0, not completed). */
  predicate Inv(d: Dispatch, c: Config) {
    c.Running? ==>
      c.s.taskId == d.taskId && c.s.taskDescription == d.taskDescription
      && (c.next == GoToEnd || c.next == GoTo(EvaluateTaskResult) ==> c.s.taskResult.Some?)
      && (c.next != GoToEnd ==>
            (c.s.attempt == Some(0) || c.s.attempt == Some(1)) && !c.s.completed && c.s.tasks == [])
      && (c.next == GoToEnd ==>
            (c.s.attempt == Some(1) || c.s.attempt == Some(2)) && c.s.completed
            && c.s.tasks == [Task(d.taskId, d.taskDescription, c.s.taskResult)])
  }

  lemma StepInv(d: Dispatch, c: Config, o: Oracle)
    requires Inv(d, c)
    ensures Inv(d, Step(c, o))
  {
    match c
    case Aborted(_) =>
    case Running(s, next) =>
      match next
      case GoToEnd =>
      case SendSearches(qs) =>
        RoundKeepsAttempt(s, BranchRecords(qs, o.searches));
      case GoTo(node) =>
        match node
        case GenerateSearchQueries =>
          assert Step(c, o) == Resume(s, GenerateSearchQueriesNode(o.queries));
        case GenerateTaskResult =>
          assert Step(c, o) == Resume(s, GenerateTaskResultNode(o.draft));
        case EvaluateTaskResult =>
          assert Step(c, o) == Resume(s, EvaluateTaskResultNode(s, o.verdict));
          EvaluateInv(d, s, o.verdict);
  }

  /** An evaluation either keeps the sub-task open at attempt 1 or completes it, publishing its result. */
  lemma EvaluateInv(d: Dispatch, s: SubtaskState, verdict: Reply<Evaluation>)
    requires Inv(d, Running(s, GoTo(EvaluateTaskResult)))
    ensures Inv(d, Resume(s, EvaluateTaskResultNode(s, verdict)))
  {
    var r := EvaluateTaskResultNode(s, verdict);
    if r.Ok? && r.value.goto == GoToEnd {
      assert Published(s) == Task(d.taskId, d.taskDescription, s.taskResult);
      assert UpdateTask([], [Published(s)]) == [Published(s)];
    }
  }

  lemma {:induction false} RunInv(d: Dispatch, c: Config, oracles: seq<Oracle>)
    requires Inv(d, c)
    ensures Inv(d, Run(c, oracles))
    decreases |oracles|
  {
    if oracles != [] {
      StepInv(d, c, oracles[0]);
      RunInv(d, Step(c, oracles[0]), oracles[1..]);
    }
  }

  /**
   * A dispatched sub-task evaluates at most twice; given eight steps it has either raised or
   * finished, and a finished one is marked completed, counted one or two attempts, and
   * publishes exactly one task entry carrying its id, its description and a result.
   */
  lemma SubtaskLifecycle(d: Dispatch, oracles: seq<Oracle>)
    requires d.attempt == 0 && !d.completed
    ensures var start := Running(InitialState(d), GoTo(GenerateSearchQueries));
      Evaluations(start, oracles) <= 2
      && (|oracles| >= 8 ==> Halted(Run(start, oracles)))
      && (Finished(Run(start, oracles)) ==>
            var s := Run(start, oracles).s;
            s.completed && (s.attempt == Some(1) || s.attempt == Some(2))
            && s.taskResult.Some? && s.tasks == [Task(d.taskId, d.taskDescription, s.taskResult)])
  {
    var start := Running(InitialState(d), GoTo(GenerateSearchQueries));
    assert StepsLeft(start) == 8 && EvaluationsLeft(start) == 2;
    EvaluationsBound(start, oracles);
    if |oracles| >= 8 {
      RunHalts(start, oracles);
    }
    RunInv(d, start, oracles);
  }

  /** search_queries only ever grows: each step keeps every query issued so far, in order. */
  lemma StepKeepsQueries(c: Config, o: Oracle)
    requires c.Running? && Step(c, o).Running?
    ensures |c.s.searchQueries| <= |Step(c, o).s.searchQueries|
    ensures Step(c, o).s.searchQueries[..|c.s.searchQueries|] == c.s.searchQueries
  {
    if c.next.SendSearches? {
      RoundKeepsAttempt(c.s, BranchRecords(c.next.queries, o.searches));
    }
  }

  /**
   * A "search" verdict empties search_results, so the next round holds only the new
   * branches' records when none of them comes back empty.
   */
  lemma SearchRetryStartsFresh(c: Config, o: Oracle, queries: seq<string>, searches: nat -> ProviderOutcome)
    requires Evaluating(c) && o.verdict.Replied?
    requires Step(c, o).Running? && Step(c, o).next == GoTo(GenerateSearchQueries)
    requires |queries| >= 1
    requires forall i :: 0 <= i < |queries| ==> SearchRecords(queries[i], searches(i)) != []
    ensures Step(c, o).s.searchResults == Some([])
    ensures ApplyUpdates(Step(c, o).s, ResultUpdates(BranchRecords(queries, searches))).searchResults
         == Some(Contributions(Wrap(BranchRecords(queries, searches))))
  {
    var ws := Wrap(BranchRecords(queries, searches));
    RoundAppends(Step(c, o).s, queries, searches);
    assert [] + Contributions(ws) == Contributions(ws);
  }
}
