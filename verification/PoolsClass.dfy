/** The provider as the object its callers share. Each method is one event of the protocol; the
    pool that a factory returns is the next number. */
module PoolsObject {
  import opened Pools

  class PooledConnectionProvider {
    var cached: map<Source, PoolId>
    var owner: map<Source, TaskId>
    var tasks: map<TaskId, Phase>
    var handedToClose: seq<PoolId>
    ghost var builtFor: seq<Source>

    ghost function View(): State
      reads this
    {
      State(cached, owner, tasks, builtFor, handedToClose)
    }

    constructor ()
      ensures View() == Empty
    {
      cached, owner, tasks, handedToClose, builtFor := map[], map[], map[], [], [];
    }

    method EnterCall(t: TaskId, source: Source)
      requires t !in tasks
      modifies this
      ensures View() == Apply(old(View()), Enter(t, source))
    {
      if source in cached {
        tasks := tasks[t := Got(source, cached[source])];
        return;
      }
      tasks := tasks[t := AwaitingLock(source)];
    }

    method LockAndCheck(t: TaskId, hasFactory: bool)
      requires Is(View(), t, true) && tasks[t].source !in owner
      modifies this
      ensures View() == Apply(old(View()), TakeLock(t, hasFactory))
    {
      var source := tasks[t].source;
      if source in cached {
        tasks := tasks[t := Got(source, cached[source])];
      } else if !hasFactory {
        tasks := tasks[t := Failed];
      } else {
        owner := owner[source := t];
        tasks := tasks[t := Building(source)];
      }
    }

    method InsertBuilt(t: TaskId, pool: PoolId)
      requires Is(View(), t, false) && pool == |builtFor|
      modifies this
      ensures View() == Apply(old(View()), Built(t))
    {
      var source := tasks[t].source;
      cached := cached[source := pool];
      builtFor := builtFor + [source];
      tasks := tasks[t := Got(source, pool)];
      owner := owner - {source};
    }

    method BuildRaises(t: TaskId)
      requires Is(View(), t, false)
      modifies this
      ensures View() == Apply(old(View()), BuildFails(t))
    {
      owner := owner - {tasks[t].source};
      tasks := tasks[t := Failed];
    }

    // Snapshot and clear, then close the pools one by one; a pool that fails to close is skipped over.
    method CloseAll() returns (order: seq<PoolId>)
      modifies this
      ensures Lists(order, old(cached)) && View() == Apply(old(View()), Close(order))
    {
      var todo := cached.Values;
      ghost var all := todo;
      cached := map[];
      order := [];
      while todo != {}
        invariant todo <= all
        invariant forall p :: p in all <==> p in todo || p in order
        invariant forall p :: p in order ==> p !in todo
        invariant forall i, j :: 0 <= i < j < |order| ==> order[i] != order[j]
        invariant cached == map[] && owner == old(owner) && tasks == old(tasks) && builtFor == old(builtFor)
        invariant handedToClose == old(handedToClose) + order
        decreases todo
      {
        var p :| p in todo;
        todo := todo - {p};
        order := order + [p];
        handedToClose := handedToClose + [p];
      }
    }
  }
}
