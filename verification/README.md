# task-planning-agent: the state reducers and the sub-task controller

This project models the deterministic core of a planning agent built as two LangGraph
graphs. The planner graph splits the user's request into independent tasks
(`plan_tasks`), fans each one out to a web-search sub-task, and folds the tasks'
results into a final answer (`generate_final_answer`). Each web-search sub-task loops
through four nodes:

- `generate_search_queries` asks a model for up to two queries.
- `execute_search` runs once per query, in parallel, and builds one record per search hit.
- `generate_task_result` drafts the task result.
- `evaluate_task_result` accepts the draft, searches again or redrafts, and gives up after two evaluations.

Parallel updates meet in reducers:

- `update_task` merges the task list by id.
- `merge_search_results` concatenates search results, but an empty list clears them.
- `operator.add` appends search queries.

Every language-model reply, search-provider answer and page fetch is a parameter of the
model. `Reply<T>` is a value or a raised exception. `ProviderOutcome` is a list of hits
or a failure. `PageFetch` is the loaded documents or a failure. What the model proves
holds for every such answer.

Files:

- `common.dfy`: `Wrappers` (Option, Result, Reply, the failures that abort a run) and
  `Text`. `Text` gives Python's `str(n)`, `sep.join`, `split('\n')` and `strip()` with
  their edge cases.
- `task_state.dfy`: `TaskState`, the `Task` entry, `update_task` and the fan-in of
  one-entry updates.
- `search_state.dfy`: `SearchState`, the `SearchResult` record, `merge_search_results`,
  its fold over several updates, and the `search_queries` concatenation.
- `clean_text.dfy`: `PageText`, `clean_text`. This covers the regular-expression pass
  `\n\s*\n+ → \n\n` with Python's greedy-then-backtrack matching, then strip, drop the
  empty lines and join.
- `websearch_nodes.dfy`: `WebSearchNodes`, the sub-task state, the node functions and
  `ExecuteSearch`. `ExecuteSearch` is a method whose loop builds the records one hit at
  a time, proved equal to the function `SearchRecords`.
- `controller.dfy`: `SubtaskController`, the sub-task graph as a step function over
  configurations. It proves termination, the evaluation bound, what a finished sub-task
  publishes, and how a search round's branch updates combine.
- `planner_nodes.dfy`: `PlannerNodes`, the plan fan-out, the fan-in of published
  entries, and the numbered results text of the final step.

Modelling choices that follow the code rather than the prose around it:

- A hit without a `link` or `title` key raises `KeyError` inside `execute_search`'s
  outer `try`. The whole query then yields `[]`, which clears `search_results`. It does
  not just skip that hit.
- A page that loads with no document raises `IndexError` on `docs[0]`. That record falls
  back to the snippet, like a failed fetch.
- The query schema's `max_length=2` makes a reply with three or more queries a failed
  call. `generate_search_queries` re-raises that failure.
- The evaluator's `is_satisfactory` and `need` are independent inputs. An unsatisfactory
  verdict with no `need` completes the task like a satisfactory one.

## Model

| member | source | states |
|---|---|---|
| TaskState.UpdateTask | src/state/state.py:10-23 | An empty update returns the existing list unchanged; the result always ends with the whole update, in order |
| TaskState.UpdateTaskShape | src/state/state.py:15-21 | The result is exactly the existing entries whose id the update does not mention, in their order, followed by the update |
| TaskState.UpdateTaskMembers | src/state/state.py:15-21 | An entry is in the result iff it is an existing entry with an id the update does not mention, or an entry of the update |
| TaskState.UpdateTaskDropsReplaced | src/state/state.py:15-18 | An existing entry whose id appears in the update does not survive, unless the update itself carries it |
| TaskState.UpdateTaskLength | src/state/state.py:18-21 | Result length is the surviving existing entries plus the update's length |
| TaskState.UpdateTaskIdempotent | src/state/state.py:10-23 | Applying the same update twice equals applying it once |
| TaskState.UpdateTaskUnique | src/state/state.py:15-21 | Ids unique in the existing list and in the update stay unique in the result |
| TaskState.SurvivorsConcat | src/state/state.py:18 | The filter distributes over concatenation, so survivors keep their relative order |
| TaskState.SurvivorsTwice | src/state/state.py:18 | Filtering by two id sets in turn is filtering by their union |
| TaskState.ApplySingletons | src/state/state.py:10-27 | When entries with distinct ids are published one at a time through the reducer, the list is the untouched old entries followed by the published ones in publication order |
| SearchState.MergeSearchResults | src/agents/websearch/state.py:13-21 | No update keeps the left list, with None read as []; an empty update clears; a non-empty update is appended after the left list |
| SearchState.MergeUnsetIsEmpty | src/agents/websearch/state.py:15-20 | An unset channel and an empty one merge identically |
| SearchState.MergeAllAppends | src/agents/websearch/state.py:19-21 | Without a clearing update, a sequence of updates accumulates every contribution in order |
| SearchState.MergeAllClears | src/agents/websearch/state.py:17-18 | A clearing update discards the current value and every earlier update |
| SearchState.AddQueries | src/agents/websearch/state.py:27 | Query lists concatenate: the old queries are a prefix of the result and the new ones follow |
| Text.NatToString | src/agents/planner/nodes.py:84-95 | str(idx) is a non-empty string of decimal digits with no leading zero: it starts with '0' only for 0, which gives "0" |
| Text.ParseNatToString | src/agents/planner/nodes.py:84-95 | The decimal id reads back as the index it was made from |
| Text.NatToStringInjective | src/agents/planner/nodes.py:80-99 | Distinct indices give distinct ids |
| Text.JoinLocates | src/agents/planner/nodes.py:118-121 | In a joined string each part sits at its offset, followed by the separator unless it is last; the last part ends the string |
| Text.SplitLines | src/agents/websearch/nodes.py:114 | split('\n') always yields at least one piece and no piece holds a newline |
| Text.SplitLinesAtNewline | src/agents/websearch/nodes.py:114 | Splitting at a newline is the concatenation of the splits of the two sides |
| Text.SplitJoinLines | src/agents/websearch/nodes.py:114-116 | Joining newline-free lines with "\n" and splitting again returns the lines |
| Text.Strip | src/agents/websearch/nodes.py:114 | strip() yields "" exactly for all-whitespace input, otherwise a string that starts and ends with non-whitespace, drawn from the input's characters |
| Text.TrimStartDrops | src/agents/websearch/nodes.py:114 | The leading characters strip() removes are all whitespace |
| Text.TrimEndDrops | src/agents/websearch/nodes.py:114 | The trailing characters strip() removes are all whitespace |
| Text.StripIsSlice | src/agents/websearch/nodes.py:114 | strip() keeps one contiguous slice s[i..j] of its input and everything before i and after j is whitespace |
| Text.StripFixed | src/agents/websearch/nodes.py:114 | A string with non-whitespace at both ends is its own strip |
| PageText.SpaceRun | src/agents/websearch/nodes.py:113 | The `\s*` run after a newline is the longest whitespace prefix |
| PageText.LastNewline | src/agents/websearch/nodes.py:113 | The backtracking point of `\s*` before `\n+` is the run's last newline, or none |
| PageText.KeptCollapse | src/agents/websearch/nodes.py:113-115 | The regular-expression pass never changes the stripped non-empty lines of the text, whatever precedes it |
| PageText.CleanTextIgnoresCollapse | src/agents/websearch/nodes.py:112-116 | clean_text equals strip-filter-join without the regular-expression pass |
| PageText.CleanTextLines | src/agents/websearch/nodes.py:112-116 | The output is empty iff no line has content; otherwise its lines are exactly the input's stripped non-empty lines, none empty and each its own strip |
| PageText.CleanTextIdempotent | src/agents/websearch/nodes.py:112-116 | Cleaning a cleaned text changes nothing |
| WebSearchNodes.ApplyUpdate | src/agents/websearch/state.py:23-31 | Applying a node's update keeps id and description; every key the update leaves unset keeps its value; a set task_result, feedback, attempt or completed overwrites; a set search_queries goes through operator.add (earlier queries stay a prefix), search_results through merge_search_results (an empty list clears) and tasks through update_task |
| WebSearchNodes.GenerateSearchQueriesNode | src/agents/websearch/nodes.py:20-107 | Fails iff the call fails or returns more than two queries; no query writes the placeholder result and goes to evaluation; otherwise it records the queries and sends one search per query in order |
| WebSearchNodes.Truncate | src/agents/websearch/nodes.py:153 | s[:n] is a prefix of s of length at most n, all of s when it is short enough |
| WebSearchNodes.PageContent | src/agents/websearch/nodes.py:141-156 | Content is absent iff the fetch failed or gave no document; otherwise it is the first min(2500, length) characters of the cleaned first document: all of it when it fits, exactly 2500 otherwise |
| WebSearchNodes.RecordFor | src/agents/websearch/nodes.py:136-163 | A record carries the query, link, title and snippet (default "") of its hit, and the page content |
| WebSearchNodes.SearchRecords | src/agents/websearch/nodes.py:118-171 | An empty query, a provider failure or a hit missing link or title yields []; otherwise one record per hit in provider order |
| WebSearchNodes.ExecuteSearch | src/agents/websearch/nodes.py:109-171 | The loop's update is exactly SearchRecords of the query and provider answer, routed to generate_task_result |
| WebSearchNodes.LoadRecord | src/agents/websearch/nodes.py:141-163 | The inner fetch step builds exactly the hit's record: cleaned, truncated content on success, snippet only on failure |
| WebSearchNodes.RecordFallsBackToSnippet | src/agents/websearch/nodes.py:139-163 | Every stored record keeps its hit's snippet and has content iff the page was fetched, then at most 2500 characters |
| WebSearchNodes.GenerateTaskResultNode | src/agents/websearch/nodes.py:269-281 | Fails iff the call fails; otherwise writes the draft as task_result and goes to evaluation |
| WebSearchNodes.Published | src/agents/websearch/nodes.py:292-400 | The published entry carries the sub-task's id and description and its task_result, "" when unset; with task_result set it is exactly (id, description, task_result) |
| WebSearchNodes.EvaluateTaskResultNode | src/agents/websearch/nodes.py:297-440 | Writes attempt = prior (default 0) + 1; ends iff satisfactory, attempt reaches 2 or no need is given, and then the update is exactly that attempt, completed and the one published entry, nothing else; "search" clears results, stores feedback and regenerates queries; "generate" stores feedback and redrafts |
| SubtaskController.BranchRecords | src/agents/websearch/nodes.py:94-97 | The i-th branch of a fan-out writes the records of the i-th query |
| SubtaskController.ApplyResultUpdates | src/agents/websearch/state.py:13-21 | A round of branch updates sets search_results to the reducer's fold over them and changes nothing else |
| SubtaskController.RoundState | src/agents/websearch/nodes.py:94-104 | The state after a fan-out round is the old state with search_results folded over the branches in dispatch order |
| SubtaskController.RoundKeepsAttempt | src/agents/websearch/nodes.py:165-168 | A round touches neither attempt, completed, tasks, task_result, queries, id nor description |
| SubtaskController.RoundAppends | src/agents/websearch/state.py:19-21 | When no branch comes back empty, the round appends every branch's records in dispatch order |
| SubtaskController.RoundClears | src/agents/websearch/state.py:17-18 | A branch that comes back empty wipes the records of every branch applied before it |
| SubtaskController.RoundWipeExample | src/agents/websearch/nodes.py:165-171 | With two queries where the first finds a page and the provider fails on the second, the round ends with no record |
| SubtaskController.StepProgress | src/agents/websearch/nodes.py:390-437 | Every step halts the sub-task or strictly decreases the steps left, and each evaluation uses up one of the evaluations left |
| SubtaskController.HaltedStays | src/agents/websearch/nodes.py:390-403 | A finished or failed sub-task stays as it is and evaluates no more |
| SubtaskController.RunHalts | src/agents/websearch/nodes.py:390 | Given as many steps as the measure says, the sub-task has finished or raised |
| SubtaskController.EvaluationsBound | src/agents/websearch/nodes.py:297-298 | Whatever the outside answers, the evaluations along a run never exceed the budget left by the attempt count |
| SubtaskController.StepInv | src/agents/websearch/nodes.py:390-403 | Each step keeps id and description; task_result is set whenever the route is evaluation or the end; before the end attempt is 0 or 1, not completed, no published entry; at the end attempt is 1 or 2, completed, and the task list is exactly [(id, description, task_result)] |
| SubtaskController.EvaluateInv | src/agents/websearch/nodes.py:297-437 | An evaluation from a state satisfying the invariant leads to one that satisfies it: attempt 1 and open, or completed with its own result published |
| SubtaskController.RunInv | src/agents/websearch/nodes.py:390-437 | The invariant of StepInv holds along every run |
| SubtaskController.SubtaskLifecycle | src/agents/planner/nodes.py:81-89 | A sub-task dispatched with attempt 0 evaluates at most twice, has finished or raised within eight steps, and when finished is completed with attempt 1 or 2, has task_result set, and its task list is exactly [(its id, its description, that task_result)] |
| SubtaskController.StepKeepsQueries | src/agents/websearch/state.py:27 | Every step keeps every query issued so far, in order |
| SubtaskController.SearchRetryStartsFresh | src/agents/websearch/nodes.py:405-413 | A "search" verdict empties search_results, so the next round holds only the new branches' records |
| PlannerNodes.PlanTasks | src/agents/planner/nodes.py:70-107 | Fails iff the call fails or the plan is empty; otherwise n result-less entries and n dispatches, each with the planned description, the same id str(i), attempt 0 and not completed |
| PlannerNodes.PlanIds | src/agents/planner/nodes.py:80-99 | The i-th planned id is str(i): decimal digits, no leading zero, reading back as i; ids are pairwise distinct |
| PlannerNodes.UniqueIdsCount | src/agents/planner/nodes.py:93-99 | A list with unique ids has as many ids as entries |
| PlannerNodes.PlanFanIn | src/agents/planner/nodes.py:93-104 | Once each planned sub-task has published one entry, in any completion order, the task list is exactly those entries in that order |
| PlannerNodes.Blocks | src/agents/planner/nodes.py:118-121 | The i-th block is the i-th task's numbered section |
| PlannerNodes.ResultsText | src/agents/planner/nodes.py:112-121 | Raises for an empty list and for a task without a result; succeeds exactly otherwise |
| PlannerNodes.ResultsTextLocates | src/agents/planner/nodes.py:118-121 | Task i's block, numbered i+1, sits in the text at its offset, followed by a blank line unless it is last, when it ends the text |
| PlannerNodes.GenerateFinalAnswer | src/agents/planner/nodes.py:109-189 | Fails iff the list is empty, a result is missing, there is no message or the call fails, with the error of the first failing check in the order generate_final_answer performs them (no tasks, missing result, no message, failed call); otherwise the reply is the final answer and the one new message |
| PlannerNodes.FinalAnswerAfterFanIn | src/agents/planner/nodes.py:112-121 | After the fan-in of finished sub-tasks the results text cannot fail, and its k-th section is the k-th task to finish |

## Left out

- Prompt construction and the model calls (`get_model`, `ainvoke`, `with_structured_output`, the prompt strings, `datetime.now()`): each reply is a parameter. The prompt text that produced it is not modelled.
- Google Search, `WebBaseLoader`, `asyncio.to_thread` and the 15-second timeout: the provider answer and each page fetch are parameters. A timeout is a failed fetch.
- `num_results=2`: the provider parameter may return any number of hits.
- Graph wiring and scheduling (the two `graph.py` files, `builder.py`): the updates of one fan-out round are applied in dispatch order. The round's branches are assumed to route once to `generate_task_result`. The reducer lemmas (`MergeAllAppends`, `MergeAllClears`) hold for any order the library picks.
- Concurrency between sub-tasks: the fan-in is a sequence of one-entry updates, in any order.
- The `messages` channel and its `add_messages` reducer: `GenerateFinalAnswer` takes the message list as strings. The first one is the user's question, which only feeds the prompt.
- The `final_answer` key outside `generate_final_answer`, the logging calls and `main.py`.
- SubtaskController.SubtaskLifecycle: assumes the planner's dispatch (attempt 0, not completed). A state entering with another attempt value still gets the general bound from `EvaluationsBound`.
