/** The shared task list and its reducer (the `tasks` channel of the top-level state). */
module TaskState {
  import opened Wrappers
  import opened Text

  /** A task entry. `taskResult` is None while the key is absent, as in the planner's initial entries. */
  datatype Task = Task(taskId: string, taskDescription: string, taskResult: Option<string>)

  function IdsOf(ts: seq<Task>): set<string>
    decreases |ts|
  {
    if ts == [] then {} else {ts[0].taskId} + IdsOf(ts[1..])
  }

  lemma {:induction false} IdsOfMember(ts: seq<Task>, x: string)
    ensures x in IdsOf(ts) <==> exists k :: 0 <= k < |ts| && ts[k].taskId == x
    decreases |ts|
  {
    if ts != [] {
      IdsOfMember(ts[1..], x);
      if exists k :: 0 <= k < |ts| && ts[k].taskId == x {
        var k :| 0 <= k < |ts| && ts[k].taskId == x;
        if k > 0 { assert ts[1..][k - 1].taskId == x; }
      }
      if exists k :: 0 <= k < |ts[1..]| && ts[1..][k].taskId == x {
        var k :| 0 <= k < |ts[1..]| && ts[1..][k].taskId == x;
        assert ts[k + 1].taskId == x;
      }
    }
  }

  lemma {:induction false} IdsOfConcat(a: seq<Task>, b: seq<Task>)
    ensures IdsOf(a + b) == IdsOf(a) + IdsOf(b)
    decreases |a|
  {
    if a == [] {
      assert a + b == b;
    } else {
      assert (a + b)[1..] == a[1..] + b;
      IdsOfConcat(a[1..], b);
    }
  }

  predicate UniqueIds(ts: seq<Task>) {
    forall i, j :: 0 <= i < j < |ts| ==> ts[i].taskId != ts[j].taskId
  }

  /** The entries of `ts` whose id is not in `ids`, in their original order. */
  function Survivors(ts: seq<Task>, ids: set<string>): (r: seq<Task>)
    ensures |r| <= |ts|
    decreases |ts|
  {
    if ts == [] then []
    else if ts[0].taskId in ids then Survivors(ts[1..], ids)
    else [ts[0]] + Survivors(ts[1..], ids)
  }

  /** update_task: drop the existing entries an update replaces, then append the update. */
  function UpdateTask(existing: seq<Task>, updates: seq<Task>): (r: seq<Task>)
    ensures updates == [] ==> r == existing
    ensures |updates| <= |r| && r[|r| - |updates|..] == updates
  {
    if updates == [] then existing
    else Survivors(existing, IdsOf(updates)) + updates
  }

  lemma {:induction false} SurvivorsMembers(ts: seq<Task>, ids: set<string>, t: Task)
    ensures t in Survivors(ts, ids) <==> t in ts && t.taskId !in ids
    decreases |ts|
  {
    if ts != [] {
      SurvivorsMembers(ts[1..], ids, t);
      assert t in ts <==> t == ts[0] || t in ts[1..];
    }
  }

  lemma {:induction false} SurvivorsNone(ts: seq<Task>, ids: set<string>)
    requires IdsOf(ts) !! ids
    ensures Survivors(ts, ids) == ts
    decreases |ts|
  {
    if ts != [] {
      SurvivorsNone(ts[1..], ids);
      assert [ts[0]] + ts[1..] == ts;
    }
  }

  lemma {:induction false} SurvivorsAll(ts: seq<Task>, ids: set<string>)
    requires IdsOf(ts) <= ids
    ensures Survivors(ts, ids) == []
    decreases |ts|
  {
    if ts != [] {
      SurvivorsAll(ts[1..], ids);
    }
  }

  /** Filtering distributes over concatenation, so the surviving entries keep their relative order. */
  lemma {:induction false} SurvivorsConcat(a: seq<Task>, b: seq<Task>, ids: set<string>)
    ensures Survivors(a + b, ids) == Survivors(a, ids) + Survivors(b, ids)
    decreases |a|
  {
    if a != [] {
      assert (a + b)[1..] == a[1..] + b;
      SurvivorsConcat(a[1..], b, ids);
    } else {
      assert a + b == b;
    }
  }

  /** Filtering twice is filtering once by the union of the two id sets. */
  lemma {:induction false} SurvivorsTwice(ts: seq<Task>, ids1: set<string>, ids2: set<string>)
    ensures Survivors(Survivors(ts, ids1), ids2) == Survivors(ts, ids1 + ids2)
    decreases |ts|
  {
    if ts != [] {
      SurvivorsTwice(ts[1..], ids1, ids2);
    }
  }

  lemma {:induction false} SurvivorsIds(ts: seq<Task>, ids: set<string>)
    ensures IdsOf(Survivors(ts, ids)) == IdsOf(ts) - ids
    decreases |ts|
  {
    if ts != [] {
      SurvivorsIds(ts[1..], ids);
      if ts[0].taskId !in ids {
        IdsOfConcat([ts[0]], Survivors(ts[1..], ids));
      }
    }
  }

  /** Unique ids in a list whose head id does not recur in its tail. */
  lemma UniqueCons(t: Task, r: seq<Task>)
    requires UniqueIds(r) && t.taskId !in IdsOf(r)
    ensures UniqueIds([t] + r)
  {
    forall i, j | 0 <= i < j < |[t] + r| ensures ([t] + r)[i].taskId != ([t] + r)[j].taskId {
      if i == 0 {
        assert ([t] + r)[j] == r[j - 1];
        IdsOfMember(r, t.taskId);
      }
    }
  }

  lemma UniqueTail(ts: seq<Task>)
    requires UniqueIds(ts) && ts != []
    ensures UniqueIds(ts[1..]) && ts[0].taskId !in IdsOf(ts[1..])
  {
    IdsOfMember(ts[1..], ts[0].taskId);
    forall k | 0 <= k < |ts[1..]| ensures ts[1..][k].taskId != ts[0].taskId {
      assert ts[1..][k] == ts[k + 1];
    }
  }

  lemma {:induction false} SurvivorsUnique(ts: seq<Task>, ids: set<string>)
    requires UniqueIds(ts)
    ensures UniqueIds(Survivors(ts, ids))
    decreases |ts|
  {
    if ts != [] {
      UniqueTail(ts);
      SurvivorsUnique(ts[1..], ids);
      if ts[0].taskId !in ids {
        SurvivorsIds(ts[1..], ids);
        UniqueCons(ts[0], Survivors(ts[1..], ids));
      }
    }
  }

  lemma UniqueConcat(a: seq<Task>, b: seq<Task>)
    requires UniqueIds(a) && UniqueIds(b) && IdsOf(a) !! IdsOf(b)
    ensures UniqueIds(a + b)
  {
    forall i, j | 0 <= i < j < |a + b| ensures (a + b)[i].taskId != (a + b)[j].taskId {
      if i < |a| && j >= |a| {
        assert (a + b)[j] == b[j - |a|];
        IdsOfMember(a, a[i].taskId);
        IdsOfMember(b, b[j - |a|].taskId);
      }
    }
  }

  /**
   * The result of update_task is exactly the existing entries not replaced (in their order)
   * followed by the whole update; a replaced entry therefore moves to the end.
   */
  lemma UpdateTaskShape(existing: seq<Task>, updates: seq<Task>)
    ensures UpdateTask(existing, updates) == Survivors(existing, IdsOf(updates)) + updates
  {
    if updates == [] {
      SurvivorsNone(existing, IdsOf(updates));
    }
  }

  /** An entry is in the result iff it is an unreplaced existing entry or part of the update. */
  lemma UpdateTaskMembers(existing: seq<Task>, updates: seq<Task>, t: Task)
    ensures t in UpdateTask(existing, updates) <==> (t in existing && t.taskId !in IdsOf(updates)) || t in updates
  {
    UpdateTaskShape(existing, updates);
    SurvivorsMembers(existing, IdsOf(updates), t);
  }

  /** No existing entry that shares an id with the update survives. */
  lemma UpdateTaskDropsReplaced(existing: seq<Task>, updates: seq<Task>, t: Task)
    requires t in existing && t.taskId in IdsOf(updates) && t !in updates
    ensures t !in UpdateTask(existing, updates)
  {
    UpdateTaskMembers(existing, updates, t);
  }

  lemma UpdateTaskLength(existing: seq<Task>, updates: seq<Task>)
    ensures |UpdateTask(existing, updates)| == |Survivors(existing, IdsOf(updates))| + |updates|
  {
    UpdateTaskShape(existing, updates);
  }

  /** Applying the same update twice is the same as applying it once. */
  lemma UpdateTaskIdempotent(existing: seq<Task>, updates: seq<Task>)
    ensures UpdateTask(UpdateTask(existing, updates), updates) == UpdateTask(existing, updates)
  {
    var ids := IdsOf(updates);
    if updates != [] {
      var once := Survivors(existing, ids) + updates;
      calc {
        UpdateTask(once, updates);
        Survivors(once, ids) + updates;
        { SurvivorsConcat(Survivors(existing, ids), updates, ids); }
        Survivors(Survivors(existing, ids), ids) + Survivors(updates, ids) + updates;
        { SurvivorsTwice(existing, ids, ids); assert ids + ids == ids; SurvivorsAll(updates, ids); }
        Survivors(existing, ids) + [] + updates;
      }
      assert Survivors(existing, ids) + [] + updates == once;
    }
  }

  /** Unique ids on both sides give unique ids in the result. */
  lemma UpdateTaskUnique(existing: seq<Task>, updates: seq<Task>)
    requires UniqueIds(existing) && UniqueIds(updates)
    ensures UniqueIds(UpdateTask(existing, updates))
  {
    if updates != [] {
      SurvivorsUnique(existing, IdsOf(updates));
      SurvivorsIds(existing, IdsOf(updates));
      UniqueConcat(Survivors(existing, IdsOf(updates)), updates);
    }
  }

  /** The `tasks` channel after the updates of `published` are applied one at a time, in that order. */
  function ApplyAll(existing: seq<Task>, published: seq<seq<Task>>): seq<Task>
    decreases |published|
  {
    if published == [] then existing
    else ApplyAll(UpdateTask(existing, published[0]), published[1..])
  }

  /** Each finished sub-task publishes a one-entry update. */
  function Singletons(done: seq<Task>): (r: seq<seq<Task>>)
    ensures |r| == |done| && forall i :: 0 <= i < |done| ==> r[i] == [done[i]]
  {
    seq(|done|, i requires 0 <= i < |done| => [done[i]])
  }

  /**
   * Fan-in: when sub-tasks with distinct ids each publish one entry, the list ends up as the
   * untouched existing entries followed by the published entries in completion order.
   */
  lemma {:induction false} ApplySingletons(existing: seq<Task>, done: seq<Task>)
    requires UniqueIds(done)
    ensures ApplyAll(existing, Singletons(done)) == Survivors(existing, IdsOf(done)) + done
    decreases |done|
  {
    if done == [] {
      SurvivorsNone(existing, IdsOf(done));
    } else {
      var p, rest := done[0], done[1..];
      assert Singletons(done)[1..] == Singletons(rest);
      UniqueTail(done);
      ApplySingletons(UpdateTask(existing, [p]), rest);
      PublishOne(existing, p, rest);
    }
  }

  /** One publication step of the fan-in, followed by the rest. */
  lemma PublishOne(existing: seq<Task>, p: Task, rest: seq<Task>)
    requires p.taskId !in IdsOf(rest)
    ensures Survivors(UpdateTask(existing, [p]), IdsOf(rest)) + rest
         == Survivors(existing, IdsOf([p] + rest)) + ([p] + rest)
  {
    var ids := IdsOf(rest);
    var kept := Survivors(existing, {p.taskId});
    assert IdsOf([p]) == {p.taskId};
    assert UpdateTask(existing, [p]) == kept + [p];
    calc {
      Survivors(kept + [p], ids) + rest;
      { SurvivorsConcat(kept, [p], ids); }
      Survivors(kept, ids) + Survivors([p], ids) + rest;
      { assert Survivors([p], ids) == [p]; }
      Survivors(kept, ids) + [p] + rest;
      { SurvivorsTwice(existing, {p.taskId}, ids); IdsOfConcat([p], rest); }
      Survivors(existing, IdsOf([p] + rest)) + [p] + rest;
      { SeqAssoc(Survivors(existing, IdsOf([p] + rest)), [p], rest); }
      Survivors(existing, IdsOf([p] + rest)) + ([p] + rest);
    }
  }
}
