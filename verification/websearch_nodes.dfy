/**
 * The nodes of the web-search sub-task graph. Every language-model answer, every search
 * provider answer and every page fetch is a parameter: the model covers what the nodes do
 * with those answers, not how the answers are produced.
 */
module WebSearchNodes {
  import opened Wrappers
  import opened TaskState
  import opened SearchState
  import opened PageText

  /** Longest query list the query schema accepts. */
  const MaxQueries: nat := 2
  /** Characters of cleaned page text kept per search result. */
  const ContentLimit: nat := 2500
  /** Evaluation round at which a task is accepted whatever the evaluator says. */
  const AttemptCap: int := 2
  /** task_result written when the query model produced no query. */
  const NoQueriesResult: string := "適切な検索クエリを生成できませんでした。"

  /** The nodes a command can route to by name (execute_search is reached only through a send). */
  datatype Node = GenerateSearchQueries | GenerateTaskResult | EvaluateTaskResult

  datatype Goto = GoTo(node: Node) | SendSearches(queries: seq<string>) | GoToEnd

  /** The keys a node writes; None means the key is absent from the update. */
  datatype Update = Update(
    taskResult: Option<string>,
    searchQueries: Option<seq<string>>,
    searchResults: Option<seq<SearchResult>>,
    feedback: Option<Option<string>>,
    attempt: Option<int>,
    completed: Option<bool>,
    tasks: Option<seq<Task>>)

  const NoUpdate: Update := Update(None, None, None, None, None, None, None)

  datatype Command = Command(update: Update, goto: Goto)

  /** The sub-task's working state; `searchResults` and `attempt` may be unset. */
  datatype SubtaskState = SubtaskState(
    taskId: string,
    taskDescription: string,
    taskResult: Option<string>,
    searchQueries: seq<string>,
    searchResults: Option<seq<SearchResult>>,
    feedback: Option<string>,
    attempt: Option<int>,
    completed: bool,
    tasks: seq<Task>)

  /** Applies one node's update through the channels' reducers; plain keys are overwritten. */
  function ApplyUpdate(s: SubtaskState, u: Update): (r: SubtaskState)
    ensures r.taskId == s.taskId && r.taskDescription == s.taskDescription
    ensures |s.searchQueries| <= |r.searchQueries| && r.searchQueries[..|s.searchQueries|] == s.searchQueries
    ensures u.taskResult.None? ==> r.taskResult == s.taskResult
    ensures u.taskResult.Some? ==> r.taskResult == u.taskResult
    ensures u.searchQueries.None? ==> r.searchQueries == s.searchQueries
    ensures u.searchQueries.Some? ==> r.searchQueries == AddQueries(s.searchQueries, u.searchQueries.value)
    ensures u.searchResults.None? ==> r.searchResults == s.searchResults
    ensures u.searchResults.Some? ==> r.searchResults == Some(MergeSearchResults(s.searchResults, u.searchResults))
    ensures u.searchResults == Some([]) ==> r.searchResults == Some([])
    ensures u.feedback.None? ==> r.feedback == s.feedback
    ensures u.feedback.Some? ==> r.feedback == u.feedback.value
    ensures u.attempt.None? ==> r.attempt == s.attempt
    ensures u.attempt.Some? ==> r.attempt == u.attempt
    ensures u.completed.None? ==> r.completed == s.completed
    ensures u.completed.Some? ==> r.completed == u.completed.value
    ensures u.tasks.None? ==> r.tasks == s.tasks
    ensures u.tasks.Some? ==> r.tasks == UpdateTask(s.tasks, u.tasks.value)
  {
    SubtaskState(
      s.taskId,
      s.taskDescription,
      if u.taskResult.Some? then u.taskResult else s.taskResult,
      if u.searchQueries.Some? then AddQueries(s.searchQueries, u.searchQueries.value) else s.searchQueries,
      if u.searchResults.Some? then Some(MergeSearchResults(s.searchResults, u.searchResults)) else s.searchResults,
      if u.feedback.Some? then u.feedback.value else s.feedback,
      if u.attempt.Some? then u.attempt else s.attempt,
      if u.completed.Some? then u.completed.value else s.completed,
      if u.tasks.Some? then UpdateTask(s.tasks, u.tasks.value) else s.tasks)
  }

  // ---------------------------------------------------------------- generate_search_queries

  /**
   * generate_search_queries, given the query model's reply. More than MaxQueries queries fail
   * the schema and the call raises; no query skips the search; otherwise one search per query.
   */
  function GenerateSearchQueriesNode(reply: Reply<seq<string>>): (r: Result<Command>)
    ensures r.Err? <==> reply.CallFailed? || |reply.value| > MaxQueries
    ensures r.Ok? && reply.value == [] ==>
      r.value.goto == GoTo(EvaluateTaskResult) && r.value.update == NoUpdate.(taskResult := Some(NoQueriesResult))
    ensures r.Ok? && reply.value != [] ==>
      r.value.goto == SendSearches(reply.value) && r.value.update == NoUpdate.(searchQueries := Some(reply.value))
  {
    match reply
    case CallFailed => Err(ModelCallFailed)
    case Replied(queries) =>
      if |queries| > MaxQueries then Err(ModelCallFailed)
      else if queries == [] then
        Ok(Command(NoUpdate.(taskResult := Some(NoQueriesResult)), GoTo(EvaluateTaskResult)))
      else Ok(Command(NoUpdate.(searchQueries := Some(queries)), SendSearches(queries)))
  }

  // ---------------------------------------------------------------- execute_search

  /** What loading a page gives: an exception (timeout included) or the loader's documents. */
  datatype PageFetch = FetchFailed | Loaded(documents: seq<string>)

  /** One provider result; `link` and `title` are None when the key is missing. */
  datatype Hit = Hit(link: Option<string>, title: Option<string>, snippet: Option<string>, page: PageFetch)

  /** The search provider's answer for one query. */
  datatype ProviderOutcome = ProviderFailed | Hits(hits: seq<Hit>)

  predicate HasKeys(h: Hit) {
    h.link.Some? && h.title.Some?
  }

  /** Python's s[:n]. */
  function Truncate(s: string, n: nat): (r: string)
    ensures |r| <= n && |r| <= |s| && r == s[..|r|]
    ensures |s| <= n ==> r == s
    ensures |s| > n ==> |r| == n
  {
    if |s| <= n then s else s[..n]
  }

  /** The content kept for a page: its cleaned first document, cut to ContentLimit; None on failure. */
  function PageContent(page: PageFetch): (r: Option<string>)
    ensures r.None? <==> page.FetchFailed? || page.documents == []
    ensures r.Some? ==> var text := CleanText(page.documents[0]);
      |r.value| <= ContentLimit && |r.value| <= |text| && r.value == text[..|r.value|]
      && (|text| <= ContentLimit ==> r.value == text)
      && (|text| > ContentLimit ==> |r.value| == ContentLimit)
  {
    match page
    case FetchFailed => None
    case Loaded(docs) => if docs == [] then None else Some(Truncate(CleanText(docs[0]), ContentLimit))
  }

  /** The record stored for one provider result. */
  function RecordFor(query: string, h: Hit): (r: SearchResult)
    requires HasKeys(h)
    ensures r.query == query && r.url == h.link.value && r.title == h.title.value
    ensures r.snippet == h.snippet.GetOr("")
    ensures r.content == PageContent(h.page)
  {
    SearchResult(query, h.title.value, h.link.value, h.snippet.GetOr(""), PageContent(h.page))
  }

  /**
   * The search_results value one execute_search branch writes. An empty query, a provider
   * failure, no hits, or a hit without a link or a title (the KeyError is caught by the outer
   * handler) all give []; otherwise one record per hit, in provider order.
   */
  function SearchRecords(query: string, provider: ProviderOutcome): (r: seq<SearchResult>)
    ensures query == [] || provider.ProviderFailed? ==> r == []
    ensures provider.Hits? && query != [] && (forall k :: 0 <= k < |provider.hits| ==> HasKeys(provider.hits[k])) ==>
      |r| == |provider.hits| && forall k :: 0 <= k < |r| ==> r[k] == RecordFor(query, provider.hits[k])
    ensures provider.Hits? && (exists k :: 0 <= k < |provider.hits| && !HasKeys(provider.hits[k])) ==> r == []
  {
    if query == [] || provider.ProviderFailed? || provider.hits == [] then []
    else if exists k :: 0 <= k < |provider.hits| && !HasKeys(provider.hits[k]) then []
    else seq(|provider.hits|, k requires 0 <= k < |provider.hits| => RecordFor(query, provider.hits[k]))
  }

  /** execute_search: builds the records one provider result at a time. */
  method ExecuteSearch(query: string, provider: ProviderOutcome) returns (cmd: Command)
    ensures cmd.goto == GoTo(GenerateTaskResult)
    ensures cmd.update == NoUpdate.(searchResults := Some(SearchRecords(query, provider)))
  {
    var cleared := Command(NoUpdate.(searchResults := Some([])), GoTo(GenerateTaskResult));
    if query == [] || provider.ProviderFailed? || provider.hits == [] {
      return cleared;
    }
    var hits := provider.hits;
    assert provider == Hits(hits);
    var results: seq<SearchResult> := [];
    var i := 0;
    while i < |hits|
      invariant 0 <= i <= |hits| && RecordsSoFar(query, hits, results)
      invariant |results| == i
    {
      var h := hits[i];
      if h.link.None? || h.title.None? {
        MissingKeyClears(query, hits, i);
        return cleared;
      }
      var record := LoadRecord(query, h);
      RecordsSoFarExtend(query, hits, results, record);
      results := results + [record];
      i := i + 1;
    }
    AllRecords(query, hits, results);
    assert results == SearchRecords(query, provider);
    return Command(NoUpdate.(searchResults := Some(results)), GoTo(GenerateTaskResult));
  }

  /** The inner try of execute_search: the record with the page's cleaned text, or with the snippet only. */
  method LoadRecord(query: string, h: Hit) returns (record: SearchResult)
    requires HasKeys(h)
    ensures record == RecordFor(query, h)
  {
    var url, title, snippet := h.link.value, h.title.value, h.snippet.GetOr("");
    if h.page.Loaded? && h.page.documents != [] {
      var content := CleanText(h.page.documents[0]);
      record := SearchResult(query, title, url, snippet, Some(Truncate(content, ContentLimit)));
    } else {
      record := SearchResult(query, title, url, snippet, None);
    }
  }

  /** results holds the records of the first |results| hits, each of which has its keys. */
  predicate RecordsSoFar(query: string, hits: seq<Hit>, results: seq<SearchResult>) {
    |results| <= |hits|
    && forall k :: 0 <= k < |results| ==> HasKeys(hits[k]) && results[k] == RecordFor(query, hits[k])
  }

  lemma RecordsSoFarExtend(query: string, hits: seq<Hit>, results: seq<SearchResult>, record: SearchResult)
    requires RecordsSoFar(query, hits, results) && |results| < |hits|
    requires HasKeys(hits[|results|]) && record == RecordFor(query, hits[|results|])
    ensures RecordsSoFar(query, hits, results + [record])
  {
    var next := results + [record];
    forall k | 0 <= k < |next| ensures HasKeys(hits[k]) && next[k] == RecordFor(query, hits[k]) {
      if k < |results| {
        assert next[k] == results[k];
      }
    }
  }

  /** A hit without a link or a title empties the whole query's records. */
  lemma MissingKeyClears(query: string, hits: seq<Hit>, i: nat)
    requires i < |hits| && !HasKeys(hits[i])
    ensures SearchRecords(query, Hits(hits)) == []
  {
  }

  /** Records built hit by hit, all keys present, are the query's records. */
  lemma AllRecords(query: string, hits: seq<Hit>, results: seq<SearchResult>)
    requires query != [] && |results| == |hits| && RecordsSoFar(query, hits, results)
    ensures results == SearchRecords(query, Hits(hits))
  {
  }

  /** A stored record keeps the snippet, and holds page content only when the page was fetched. */
  lemma RecordFallsBackToSnippet(query: string, provider: ProviderOutcome, k: nat)
    requires provider.Hits? && k < |SearchRecords(query, provider)|
    ensures k < |provider.hits| && HasKeys(provider.hits[k])
    ensures var r := SearchRecords(query, provider)[k];
      r.snippet == provider.hits[k].snippet.GetOr("")
      && (r.content.None? <==> provider.hits[k].page.FetchFailed? || provider.hits[k].page.documents == [])
      && (r.content.Some? ==> |r.content.value| <= ContentLimit)
  {
  }

  // ---------------------------------------------------------------- generate_task_result

  /** generate_task_result, given the drafting model's reply. */
  function GenerateTaskResultNode(reply: Reply<string>): (r: Result<Command>)
    ensures r.Err? <==> reply.CallFailed?
    ensures r.Ok? ==> r.value == Command(NoUpdate.(taskResult := Some(reply.value)), GoTo(EvaluateTaskResult))
  {
    match reply
    case CallFailed => Err(ModelCallFailed)
    case Replied(text) => Ok(Command(NoUpdate.(taskResult := Some(text)), GoTo(EvaluateTaskResult)))
  }

  // ---------------------------------------------------------------- evaluate_task_result

  datatype Need = NoNeed | NeedSearch | NeedGenerate

  /** The evaluator's structured verdict; nothing forces is_satisfactory to agree with need. */
  datatype Evaluation = Evaluation(isSatisfactory: bool, need: Need, reason: string, feedback: Option<string>)

  /** The attempt count before this evaluation, 0 when unset. */
  function PriorAttempt(s: SubtaskState): int {
    s.attempt.GetOr(0)
  }

  /** The entry a completing sub-task publishes to the shared task list. */
  function Published(s: SubtaskState): (t: Task)
    ensures t.taskId == s.taskId && t.taskDescription == s.taskDescription
    ensures t.taskResult == Some(s.taskResult.GetOr(""))
    ensures s.taskResult.Some? ==> t == Task(s.taskId, s.taskDescription, s.taskResult)
  {
    Task(s.taskId, s.taskDescription, Some(s.taskResult.GetOr("")))
  }

  function Complete(s: SubtaskState, attempt: int): Command {
    Command(NoUpdate.(attempt := Some(attempt), completed := Some(true), tasks := Some([Published(s)])), GoToEnd)
  }

  /**
   * evaluate_task_result, given the evaluator's reply: count the attempt, then accept, search
   * again (clearing the results), redraft, or accept an inconsistent verdict anyway.
   */
  function EvaluateTaskResultNode(s: SubtaskState, reply: Reply<Evaluation>): (r: Result<Command>)
    ensures r.Err? <==> reply.CallFailed?
    ensures r.Ok? ==> r.value.update.attempt == Some(PriorAttempt(s) + 1)
    ensures r.Ok? ==> (r.value.goto == GoToEnd <==>
      reply.value.isSatisfactory || PriorAttempt(s) + 1 >= AttemptCap || reply.value.need == NoNeed)
    ensures r.Ok? && r.value.goto == GoToEnd ==>
      r.value.update == NoUpdate.(attempt := Some(PriorAttempt(s) + 1), completed := Some(true),
                                  tasks := Some([Published(s)]))
    ensures r.Ok? ==> (r.value.goto == GoTo(GenerateSearchQueries) <==>
      !reply.value.isSatisfactory && PriorAttempt(s) + 1 < AttemptCap && reply.value.need == NeedSearch)
    ensures r.Ok? && r.value.goto == GoTo(GenerateSearchQueries) ==>
      r.value.update == NoUpdate.(attempt := Some(PriorAttempt(s) + 1), searchResults := Some([]),
                                  feedback := Some(reply.value.feedback))
    ensures r.Ok? ==> (r.value.goto == GoTo(GenerateTaskResult) <==>
      !reply.value.isSatisfactory && PriorAttempt(s) + 1 < AttemptCap && reply.value.need == NeedGenerate)
    ensures r.Ok? && r.value.goto == GoTo(GenerateTaskResult) ==>
      r.value.update == NoUpdate.(attempt := Some(PriorAttempt(s) + 1), feedback := Some(reply.value.feedback))
  {
    var attempt := PriorAttempt(s) + 1;
    match reply
    case CallFailed => Err(ModelCallFailed)
    case Replied(ev) =>
      if ev.isSatisfactory || attempt >= AttemptCap then Ok(Complete(s, attempt))
      else match ev.need
        case NeedSearch =>
          Ok(Command(NoUpdate.(attempt := Some(attempt), searchResults := Some([]), feedback := Some(ev.feedback)),
                     GoTo(GenerateSearchQueries)))
        case NeedGenerate =>
          Ok(Command(NoUpdate.(attempt := Some(attempt), feedback := Some(ev.feedback)), GoTo(GenerateTaskResult)))
        case NoNeed => Ok(Complete(s, attempt))
  }
}
