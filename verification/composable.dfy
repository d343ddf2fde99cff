/** `BriteTodoRunner._build_todo_list`: the directory listing goes through
    the grouping pass, the complete record count is taken, and then the
    sentinel pass runs; what is left is the todo list. */
module Composable {
  import Seqs
  import StorageName
  import opened DataSource

  /** The todo list, the complete record count handed to the organizer, and
      everything the two passes recorded, in order. */
  datatype TodoList = TodoList(todo: seq<string>, completeRecordCount: nat, events: seq<Event>)

  /** `_build_todo_list` stated with the two passes' filters. */
  function BuildTodo(listing: seq<string>, cfg: Config): TodoList {
    var g := Grouping(listing, cfg);
    var s := SentinelRemoval(g.kept, cfg);
    TodoList(s.kept, |g.kept|, g.events + s.events)
  }

  /** `_build_todo_list` over the listing `get_work` found: grouping first,
      then the record count, then sentinel removal. The todo list is the data
      source's work list itself, so it ends up holding what sentinel removal
      left. */
  method BuildTodoList(listing: seq<string>, cfg: Config) returns (r: TodoList)
    ensures r == BuildTodo(listing, cfg)
    ensures |listing| == |r.todo| + Failures(r.events) + Successes(r.events)
    ensures r.completeRecordCount == |r.todo| + Successes(r.events)
    ensures forall k :: 0 <= k < |r.todo| ==>
      StorageName.IsArchived(r.todo[k]) && ObsCount(listing, ObsIdOf(r.todo[k])) == |cfg.extensions|
    ensures forall i, j :: 0 <= i < j < |r.events| && IsSuccess(r.events[i]) ==> !IsFailure(r.events[j])
  {
    var work, failures := GroupWorkByObs(listing, cfg);
    var completeRecordCount := |work|;
    var todo, successes := RemoveUnarchived(work, cfg);
    r := TodoList(todo, completeRecordCount, failures + successes);
    TodoListProperties(listing, cfg);
  }

  /** Every listed file is either still to do, failed or succeeded; the
      record count covers the todo list and the sentinels of complete
      observations; only archived members of complete observations are left
      to do; and every failure is recorded before any success. */
  lemma TodoListProperties(listing: seq<string>, cfg: Config)
    ensures var r := BuildTodo(listing, cfg);
      |listing| == |r.todo| + Failures(r.events) + Successes(r.events)
      && r.completeRecordCount == |r.todo| + Successes(r.events)
      && (forall k :: 0 <= k < |r.todo| ==>
            StorageName.IsArchived(r.todo[k]) && ObsCount(listing, ObsIdOf(r.todo[k])) == |cfg.extensions|)
      && (forall i, j :: 0 <= i < j < |r.events| && IsSuccess(r.events[i]) ==> !IsFailure(r.events[j]))
  {
    var g := Grouping(listing, cfg);
    var s := SentinelRemoval(g.kept, cfg);
    var r := BuildTodo(listing, cfg);
    GroupingConserves(listing, cfg);
    SentinelRemovalConserves(g.kept, cfg);
    CountsOfConcat(g.events, s.events);
    TodoIsArchivedAndComplete(listing, cfg);
    Seqs.FilterEmpty(g.events, IsSuccess);
    Seqs.FilterEmpty(s.events, IsFailure);
    FailuresBeforeSuccesses(g.events, s.events);
  }

  /** A log without successes followed by a log without failures records
      every failure before any success. */
  lemma FailuresBeforeSuccesses(a: seq<Event>, b: seq<Event>)
    requires forall k :: 0 <= k < |a| ==> !IsSuccess(a[k])
    requires forall k :: 0 <= k < |b| ==> !IsFailure(b[k])
    ensures forall i, j :: 0 <= i < j < |a + b| && IsSuccess((a + b)[i]) ==> !IsFailure((a + b)[j])
  {
    forall i, j | 0 <= i < j < |a + b| && IsSuccess((a + b)[i])
      ensures !IsFailure((a + b)[j])
    {
      assert (a + b)[j] == b[j - |a|];
    }
  }

  lemma TodoIsArchivedAndComplete(listing: seq<string>, cfg: Config)
    ensures var r := BuildTodo(listing, cfg);
      forall k :: 0 <= k < |r.todo| ==>
        StorageName.IsArchived(r.todo[k]) && ObsCount(listing, ObsIdOf(r.todo[k])) == |cfg.extensions|
  {
    var complete := Seqs.Not(Incomplete(listing, |cfg.extensions|));
    var kept := Seqs.Filter(listing, complete);
    var todo := BuildTodo(listing, cfg).todo;
    SentinelRemovalKeepsArchived(kept, cfg);
    Seqs.FilterMembers(kept, Seqs.Not(IsSentinel));
    Seqs.FilterMembers(listing, complete);
    forall k | 0 <= k < |todo|
      ensures ObsCount(listing, ObsIdOf(todo[k])) == |cfg.extensions|
    {
      var j :| 0 <= j < |kept| && kept[j] == todo[k];
      assert complete(kept[j]);
    }
  }
}
