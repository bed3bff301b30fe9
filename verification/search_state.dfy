/** The web-search sub-task's reducers: `search_results` and `search_queries`. */
module SearchState {
  import opened Wrappers
  import opened Text

  /** One search hit as the sub-task stores it; `content` is None when the page could not be fetched. */
  datatype SearchResult = SearchResult(
    query: string, title: string, url: string, snippet: string, content: Option<string>)

  /**
   * merge_search_results. `None` stands for Python's None on either side; the result is
   * always a list. An explicit empty list on the right clears the channel.
   */
  function MergeSearchResults(left: Option<seq<SearchResult>>, right: Option<seq<SearchResult>>)
    : (r: seq<SearchResult>)
    ensures right.None? ==> r == left.GetOr([])
    ensures right == Some([]) ==> r == []
    ensures right.Some? && right.value != [] ==> r == left.GetOr([]) + right.value
  {
    if right.None? then
      (if left.None? || left.value == [] then [] else left.value)
    else if right.value == [] then []
    else if left.None? || left.value == [] then right.value
    else left.value + right.value
  }

  /** An unset channel and an empty one merge identically. */
  lemma MergeUnsetIsEmpty(right: Option<seq<SearchResult>>)
    ensures MergeSearchResults(None, right) == MergeSearchResults(Some([]), right)
  {
  }

  /** The channel after several updates are applied one at a time, in the given order. */
  function MergeAll(current: Option<seq<SearchResult>>, updates: seq<Option<seq<SearchResult>>>)
    : seq<SearchResult>
    decreases |updates|
  {
    if updates == [] then current.GetOr([])
    else MergeAll(Some(MergeSearchResults(current, updates[0])), updates[1..])
  }

  /** What the updates contribute when none of them clears the channel. */
  function Contributions(updates: seq<Option<seq<SearchResult>>>): seq<SearchResult>
    decreases |updates|
  {
    if updates == [] then [] else updates[0].GetOr([]) + Contributions(updates[1..])
  }

  /** Without a clearing update, the channel accumulates every contribution in order. */
  lemma {:induction false} MergeAllAppends(current: Option<seq<SearchResult>>, updates: seq<Option<seq<SearchResult>>>)
    requires forall k :: 0 <= k < |updates| ==> updates[k] != Some([])
    ensures MergeAll(current, updates) == current.GetOr([]) + Contributions(updates)
    decreases |updates|
  {
    if updates == [] {
      assert current.GetOr([]) + [] == current.GetOr([]);
    } else {
      var first := MergeSearchResults(current, updates[0]);
      assert updates[0] != Some([]);
      assert first == current.GetOr([]) + updates[0].GetOr([]);
      MergeAllAppends(Some(first), updates[1..]);
      SeqAssoc(current.GetOr([]), updates[0].GetOr([]), Contributions(updates[1..]));
    }
  }

  /**
   * A clearing update discards everything before it: the current value and every earlier
   * update are lost, whatever they were.
   */
  lemma {:induction false} MergeAllClears(
    current: Option<seq<SearchResult>>, updates: seq<Option<seq<SearchResult>>>, k: nat)
    requires k < |updates| && updates[k] == Some([])
    ensures MergeAll(current, updates) == MergeAll(Some([]), updates[k + 1..])
    decreases k
  {
    if k > 0 {
      MergeAllClears(Some(MergeSearchResults(current, updates[0])), updates[1..], k - 1);
      assert updates[1..][k..] == updates[k + 1..];
    }
  }

  /** search_queries: operator.add, so every earlier query is kept, in order. */
  function AddQueries(left: seq<string>, right: seq<string>): (r: seq<string>)
    ensures |r| == |left| + |right| && r[..|left|] == left && r[|left|..] == right
  {
    left + right
  }
}
