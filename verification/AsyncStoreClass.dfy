/** The store as the object that the driver holds: two dictionaries and a spool directory, changed
    in place. Each method is one event of the protocol. */
module AsyncStoreObject {
  import opened Wrappers
  import opened AsyncStore

  class InProcessAsyncQueryStore {
    var statuses: map<QueryId, AsyncStore.Status>
    var tasks: map<QueryId, Task>
    var spool: map<Path, Rows>

    ghost function View(): State
      reads this
    {
      State(statuses, tasks, spool)
    }

    constructor ()
      ensures View() == Empty
    {
      statuses, tasks, spool := map[], map[], map[];
    }

    method Submit(q: QueryId)
      requires q !in statuses && q !in tasks
      modifies this
      ensures View() == Apply(old(View()), AsyncStore.Submit(q))
    {
      statuses := statuses[q := Fresh];
      tasks := tasks[q := Task(Created, false)];
    }

    method Status(q: QueryId) returns (st: AsyncStore.Status)
      ensures st == StatusOf(View(), q)
    {
      if q !in statuses {
        return AsyncStore.Status(Expired, None, None, None, None, Some("UnknownHandle"), None);
      }
      return statuses[q];
    }

    method Fetch(q: QueryId) returns (r: Result<Rows, FetchError>)
      ensures r == AsyncStore.Fetch(View(), q)
    {
      var st := Status(q);
      if !st.state.Succeeded? { return Err(NotReady(st.state)); }
      if st.resultUri.None? { return Err(NoResultUri); }
      if st.resultUri.value !in spool { return Err(NoFile); }
      return Ok(spool[st.resultUri.value]);
    }

    method Cancel(q: QueryId, at: int)
      modifies this
      ensures View() == Apply(old(View()), AsyncStore.Cancel(q, at))
    {
      if q in tasks && !tasks[q].phase.Ended? {
        tasks := tasks[q := tasks[q].(cancelPending := true)];
      }
      if q in statuses {
        var st := statuses[q];
        if st.state in {Pending, Running} {
          statuses := statuses[q := st.(state := Cancelled, completedAt := Some(at))];
        }
      }
    }

    method Close()
      modifies this`tasks
      ensures View() == Apply(old(View()), AClose)
    {
      ghost var before := tasks;
      var todo := tasks.Keys;
      while todo != {}
        invariant todo <= before.Keys && tasks.Keys == before.Keys
        invariant forall q :: q in before ==>
          tasks[q] == if q in todo then before[q] else AskCancel(before[q])
        decreases todo
      {
        var q :| q in todo;
        if !tasks[q].phase.Ended? {
          tasks := tasks[q := tasks[q].(cancelPending := true)];
        }
        todo := todo - {q};
      }
    }

    // `_run` up to its await.
    method RunStart(q: QueryId, at: int)
      requires At(View(), q, Created)
      modifies this
      ensures View() == Apply(old(View()), Start(q, at))
    {
      statuses := statuses[q := statuses[q].(state := Running, startedAt := Some(at))];
      tasks := tasks[q := Task(Executing, false)];
    }

    // `_run` from its await on, when the query returns a table.
    method RunReturned(q: QueryId, table: Rows, write: Write, at: int)
      requires At(View(), q, Executing)
      modifies this
      ensures View() == Apply(old(View()), Returns(q, table, write, at))
    {
      match write {
        case Written(bytes) =>
          spool := spool[OutPath(q) := table];
          statuses := statuses[q := statuses[q].(state := Succeeded, completedAt := Some(at),
            rows := Some(|table|), bytes := Some(bytes), resultUri := Some(OutPath(q)))];
          tasks := tasks[q := Task(Ended, false)];
        case WriteFails(partial, error) =>
          if partial.Some? { spool := spool[OutPath(q) := partial.value]; }
          Fail(q, error, at);
      }
    }

    method RunRaised(q: QueryId, error: string, at: int)
      requires At(View(), q, Executing)
      modifies this
      ensures View() == Apply(old(View()), Raises(q, error, at))
    {
      Fail(q, error, at);
    }

    // The handler of every other exception.
    method Fail(q: QueryId, error: string, at: int)
      requires q in statuses
      modifies this
      ensures View() == Failure(old(View()), q, error, at)
    {
      statuses := statuses[q := statuses[q].(state := Failed, completedAt := Some(at), errorClass := Some(error))];
      if OutPath(q) in spool { spool := spool - {OutPath(q)}; }
      assert spool == old(spool) - {OutPath(q)};
      tasks := tasks[q := Task(Ended, false)];
    }

    // The cancellation reaches the task: its handler runs if the body ever started.
    method RunCancelled(q: QueryId, at: int)
      requires Unfinished(View(), q) && q in statuses && tasks[q].cancelPending
      modifies this
      ensures View() == Apply(old(View()), CancelLands(q, at))
    {
      if tasks[q].phase.Executing? {
        statuses := statuses[q := statuses[q].(state := Cancelled, completedAt := Some(at))];
        if OutPath(q) in spool { spool := spool - {OutPath(q)}; }
        assert spool == old(spool) - {OutPath(q)};
      }
      tasks := tasks[q := Task(Ended, false)];
    }
  }
}
