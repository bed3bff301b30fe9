/**
 * The planner graph's two nodes: plan_tasks splits the request into sub-tasks and fans them
 * out; generate_final_answer folds the published task results into one prompt section and
 * hands the model's reply back as the final answer.
 */
module PlannerNodes {
  import opened Wrappers
  import opened Text
  import opened TaskState
  import opened SubtaskController

  /** What plan_tasks writes (the `tasks` update) and where it sends (one dispatch per task). */
  datatype PlanCommand = PlanCommand(tasks: seq<Task>, dispatches: seq<Dispatch>)

  /** The entry and the payload for the i-th planned task. */
  function Entry(i: nat, description: string): Task {
    Task(NatToString(i), description, None)
  }

  function Payload(i: nat, description: string): Dispatch {
    Dispatch(NatToString(i), description, 0, false)
  }

  /**
   * plan_tasks, given the planner model's reply (the task descriptions). Ids are the
   * positions in decimal; each sub-task starts at attempt 0, not completed.
   */
  function PlanTasks(reply: Reply<seq<string>>): (r: Result<PlanCommand>)
    ensures r.Err? <==> reply.CallFailed? || reply.value == []
    ensures reply.Replied? && reply.value == [] ==> r == Err(EmptyPlan)
    ensures reply.CallFailed? ==> r == Err(ModelCallFailed)
    ensures r.Ok? ==>
      |r.value.tasks| == |reply.value| && |r.value.dispatches| == |reply.value|
      && forall i :: 0 <= i < |reply.value| ==>
           r.value.tasks[i].taskDescription == reply.value[i] && r.value.tasks[i].taskResult.None?
           && r.value.tasks[i].taskId == NatToString(i)
           && r.value.dispatches[i].taskId == r.value.tasks[i].taskId
           && r.value.dispatches[i].taskDescription == reply.value[i]
           && r.value.dispatches[i].attempt == 0 && !r.value.dispatches[i].completed
  {
    match reply
    case CallFailed => Err(ModelCallFailed)
    case Replied(descriptions) =>
      if descriptions == [] then Err(EmptyPlan)
      else
        var n := |descriptions|;
        Ok(PlanCommand(seq(n, i requires 0 <= i < n => Entry(i, descriptions[i])),
                       seq(n, i requires 0 <= i < n => Payload(i, descriptions[i]))))
  }

  /** Every planned id reads back as its own position, so no two planned tasks share an id. */
  lemma PlanIds(reply: Reply<seq<string>>)
    requires PlanTasks(reply).Ok?
    ensures var ts := PlanTasks(reply).value.tasks;
      UniqueIds(ts)
      && forall i :: 0 <= i < |ts| ==>
           ts[i].taskId == NatToString(i)
           && (forall k :: 0 <= k < |ts[i].taskId| ==> IsDigit(ts[i].taskId[k]))
           && ParseDecimal(ts[i].taskId) == i
  {
    var ts := PlanTasks(reply).value.tasks;
    forall i | 0 <= i < |ts| ensures ParseDecimal(ts[i].taskId) == i {
      ParseNatToString(i);
    }
    forall i, j | 0 <= i < j < |ts| ensures ts[i].taskId != ts[j].taskId {
      NatToStringInjective(i, j);
    }
  }

  lemma {:induction false} UniqueIdsCount(ts: seq<Task>)
    requires UniqueIds(ts)
    ensures |IdsOf(ts)| == |ts|
    decreases |ts|
  {
    if ts != [] {
      UniqueTail(ts);
      UniqueIdsCount(ts[1..]);
    }
  }

  /**
   * Fan-in: once every planned sub-task has published its entry exactly once, in any
   * completion order, the task list is exactly the published entries in that order; none of
   * the planner's result-less entries is left.
   */
  lemma PlanFanIn(reply: Reply<seq<string>>, done: seq<Task>)
    requires PlanTasks(reply).Ok?
    requires UniqueIds(done) && IdsOf(done) == IdsOf(PlanTasks(reply).value.tasks)
    ensures ApplyAll(UpdateTask([], PlanTasks(reply).value.tasks), Singletons(done)) == done
    ensures |done| == |reply.value|
  {
    var ts := PlanTasks(reply).value.tasks;
    assert UpdateTask([], ts) == ts;
    ApplySingletons(ts, done);
    SurvivorsAll(ts, IdsOf(done));
    assert [] + done == done;
    PlanIds(reply);
    UniqueIdsCount(ts);
    UniqueIdsCount(done);
  }

  // ---------------------------------------------------------------- generate_final_answer

  predicate AllResults(tasks: seq<Task>) {
    forall i :: 0 <= i < |tasks| ==> tasks[i].taskResult.Some?
  }

  /** The section for the i-th task: 1-based number, description, then its result on the next line. */
  function Block(i: nat, t: Task): string
    requires t.taskResult.Some?
  {
    "【タスク" + NatToString(i + 1) + "】" + t.taskDescription + "\n結果: " + t.taskResult.value
  }

  function Blocks(tasks: seq<Task>): (r: seq<string>)
    requires AllResults(tasks)
    ensures |r| == |tasks| && forall i :: 0 <= i < |tasks| ==> r[i] == Block(i, tasks[i])
  {
    seq(|tasks|, i requires 0 <= i < |tasks| => Block(i, tasks[i]))
  }

  /** task_results_text: no task raises, a task without a result raises, otherwise the blocks joined by a blank line. */
  function ResultsText(tasks: seq<Task>): (r: Result<string>)
    ensures r == Err(NoTasks) <==> tasks == []
    ensures r == Err(MissingTaskResult) <==> tasks != [] && !AllResults(tasks)
    ensures r.Ok? <==> tasks != [] && AllResults(tasks)
  {
    if tasks == [] then Err(NoTasks)
    else if !AllResults(tasks) then Err(MissingTaskResult)
    else Ok(Join("\n\n", Blocks(tasks)))
  }

  /** The i-th task's block sits in the text at its offset, followed by a blank line unless it is last, when the text ends with it. */
  lemma ResultsTextLocates(tasks: seq<Task>, i: nat)
    requires ResultsText(tasks).Ok? && i < |tasks|
    ensures var text := ResultsText(tasks).value;
      var o := Offset("\n\n", Blocks(tasks), i);
      var b := Block(i, tasks[i]);
      o + |b| <= |text| && text[o..o + |b|] == b
      && (i + 1 < |tasks| ==> o + |b| + 2 <= |text| && text[o + |b|..o + |b| + 2] == "\n\n")
      && (i + 1 == |tasks| ==> o + |b| == |text|)
  {
    JoinLocates("\n\n", Blocks(tasks), i);
  }

  /** What generate_final_answer writes: the reply as a new assistant message and as final_answer. */
  datatype FinalCommand = FinalCommand(newMessages: seq<string>, finalAnswer: string)

  /**
   * generate_final_answer, given the conversation's messages (the first is the user's
   * question) and the answering model's reply. The checks come in the order
   * generate_final_answer performs them: tasks, task results, the first message, then the
   * model call.
   */
  function GenerateFinalAnswer(tasks: seq<Task>, messages: seq<string>, reply: Reply<string>)
    : (r: Result<FinalCommand>)
    ensures r.Err? <==> tasks == [] || !AllResults(tasks) || messages == [] || reply.CallFailed?
    ensures tasks == [] ==> r == Err(NoTasks)
    ensures tasks != [] && !AllResults(tasks) ==> r == Err(MissingTaskResult)
    ensures tasks != [] && AllResults(tasks) && messages == [] ==> r == Err(NoUserMessage)
    ensures tasks != [] && AllResults(tasks) && messages != [] && reply.CallFailed? ==> r == Err(ModelCallFailed)
    ensures r.Ok? ==> reply == Replied(r.value.finalAnswer) && r.value.newMessages == [r.value.finalAnswer]
  {
    match ResultsText(tasks)
    case Err(e) => Err(e)
    case Ok(_) =>
      if messages == [] then Err(NoUserMessage)
      else match reply
        case CallFailed => Err(ModelCallFailed)
        case Replied(answer) => Ok(FinalCommand([answer], answer))
  }

  /**
   * After the fan-in of sub-tasks that all finished, the final step never fails on a
   * missing result, and the k-th section describes the k-th task to finish.
   */
  lemma FinalAnswerAfterFanIn(reply: Reply<seq<string>>, done: seq<Task>, k: nat)
    requires PlanTasks(reply).Ok?
    requires UniqueIds(done) && IdsOf(done) == IdsOf(PlanTasks(reply).value.tasks)
    requires forall i :: 0 <= i < |done| ==> done[i].taskResult.Some?
    requires k < |done|
    ensures var tasks := ApplyAll(UpdateTask([], PlanTasks(reply).value.tasks), Singletons(done));
      tasks == done && ResultsText(tasks).Ok? && Blocks(tasks)[k] == Block(k, done[k])
  {
    PlanFanIn(reply, done);
  }
}
