/** The in-process store of asynchronous queries.

    Each submission runs as a task that awaits the query and spools its table. The sections under
    the store's lock contain no await, so the lock never makes a task wait and every stretch
    between two awaits is one event. A cancelled await is taken to raise. */
module AsyncStore {
  import opened Wrappers

  type QueryId = string
  type Path = string
  type Rows = seq<int>

  datatype QueryState = Pending | Running | Succeeded | Failed | Cancelled | Expired

  datatype Status = Status(
    state: QueryState, rows: Option<nat>, bytes: Option<nat>, startedAt: Option<int>,
    completedAt: Option<int>, errorClass: Option<string>, resultUri: Option<Path>)

  datatype Phase = Created | Executing | Ended
  datatype Task = Task(phase: Phase, cancelPending: bool)

  datatype State = State(statuses: map<QueryId, Status>, tasks: map<QueryId, Task>, spool: map<Path, Rows>)

  // How `write_table` goes: it may fail after leaving part of a file behind.
  datatype Write = Written(bytes: nat) | WriteFails(partial: Option<Rows>, error: string)

  datatype Event =
    | Submit(q: QueryId)
    | Start(q: QueryId, at: int)
    | Returns(q: QueryId, table: Rows, write: Write, at: int)
    | Raises(q: QueryId, error: string, at: int)
    | CancelLands(q: QueryId, at: int)
    | Cancel(q: QueryId, at: int)
    | AClose

  const Empty := State(map[], map[], map[])
  const Fresh := Status(Pending, None, None, None, None, None, None)

  function OutPath(q: QueryId): Path {
    q + ".parquet"
  }

  predicate Terminal(s: QueryState) {
    s.Succeeded? || s.Failed? || s.Cancelled?
  }

  predicate Unfinished(s: State, q: QueryId) {
    q in s.tasks && !s.tasks[q].phase.Ended?
  }

  predicate At(s: State, q: QueryId, phase: Phase) {
    q in s.tasks && q in s.statuses && s.tasks[q].phase == phase && !s.tasks[q].cancelPending
  }

  predicate Enabled(s: State, e: Event) {
    match e
    case Submit(q) => q !in s.statuses && q !in s.tasks
    case Start(q, _) => At(s, q, Created)
    case Returns(q, _, _, _) => At(s, q, Executing)
    case Raises(q, _, _) => At(s, q, Executing)
    case CancelLands(q, _) => Unfinished(s, q) && q in s.statuses && s.tasks[q].cancelPending
    case Cancel(_, _) => true
    case AClose => true
  }

  // ---------------------------------------------------------------- one event

  function SetStatus(s: State, q: QueryId, st: Status): State {
    s.(statuses := s.statuses[q := st])
  }

  function EndTask(s: State, q: QueryId): State {
    s.(tasks := s.tasks[q := Task(Ended, false)])
  }

  function Failure(s: State, q: QueryId, error: string, at: int): State
    requires q in s.statuses
  {
    var st := s.statuses[q].(state := Failed, completedAt := Some(at), errorClass := Some(error));
    EndTask(SetStatus(s, q, st).(spool := s.spool - {OutPath(q)}), q)
  }

  function Success(s: State, q: QueryId, table: Rows, bytes: nat, at: int): State
    requires q in s.statuses
  {
    var st := s.statuses[q].(state := Succeeded, completedAt := Some(at), rows := Some(|table|),
                             bytes := Some(bytes), resultUri := Some(OutPath(q)));
    EndTask(SetStatus(s, q, st).(spool := s.spool[OutPath(q) := table]), q)
  }

  // A task that was never started has no handler to run.
  function Landed(s: State, q: QueryId, at: int): State
    requires q in s.statuses && q in s.tasks
  {
    if s.tasks[q].phase.Created? then EndTask(s, q)
    else
      var st := s.statuses[q].(state := Cancelled, completedAt := Some(at));
      EndTask(SetStatus(s, q, st).(spool := s.spool - {OutPath(q)}), q)
  }

  function AskCancel(t: Task): Task {
    if t.phase.Ended? then t else t.(cancelPending := true)
  }

  function Cancelling(s: State, q: QueryId, at: int): State {
    var t := if q in s.tasks then s.(tasks := s.tasks[q := AskCancel(s.tasks[q])]) else s;
    if q in s.statuses && (s.statuses[q].state.Pending? || s.statuses[q].state.Running?)
    then SetStatus(t, q, s.statuses[q].(state := Cancelled, completedAt := Some(at)))
    else t
  }

  function Closing(s: State): State {
    s.(tasks := map q | q in s.tasks :: AskCancel(s.tasks[q]))
  }

  function Apply(s: State, e: Event): State {
    if !Enabled(s, e) then s else
    match e
    case Submit(q) => State(s.statuses[q := Fresh], s.tasks[q := Task(Created, false)], s.spool)
    case Start(q, at) =>
      SetStatus(s, q, s.statuses[q].(state := Running, startedAt := Some(at))).(
        tasks := s.tasks[q := Task(Executing, false)])
    case Returns(q, table, write, at) =>
      (match write
       case Written(bytes) => Success(s, q, table, bytes, at)
       case WriteFails(_, error) => Failure(s, q, error, at))
    case Raises(q, error, at) => Failure(s, q, error, at)
    case CancelLands(q, at) => Landed(s, q, at)
    case Cancel(q, at) => Cancelling(s, q, at)
    case AClose => Closing(s)
  }

  function Exec(s: State, events: seq<Event>): State {
    if events == [] then s else Apply(Exec(s, events[..|events| - 1]), events[|events| - 1])
  }

  // `status` of a handle; one the store does not know is reported as expired.
  function StatusOf(s: State, q: QueryId): Status {
    if q in s.statuses then s.statuses[q] else Status(Expired, None, None, None, None, Some("UnknownHandle"), None)
  }

  datatype FetchError = NotReady(state: QueryState) | NoResultUri | NoFile

  function Fetch(s: State, q: QueryId): Result<Rows, FetchError> {
    var st := StatusOf(s, q);
    if !st.state.Succeeded? then Err(NotReady(st.state))
    else if st.resultUri.None? then Err(NoResultUri)
    else if st.resultUri.value !in s.spool then Err(NoFile)
    else Ok(s.spool[st.resultUri.value])
  }

  // ---------------------------------------------------------------- invariant

  // One query's status, task and spool file fit together.
  ghost predicate Coherent(s: State, q: QueryId)
    requires q in s.statuses && q in s.tasks
  {
    var st, t := s.statuses[q], s.tasks[q];
    && (st.state.Succeeded? <==> st.resultUri.Some?)
    && (st.state.Succeeded? <==> OutPath(q) in s.spool)
    && (st.state.Succeeded? ==> st.resultUri == Some(OutPath(q)) && st.rows == Some(|s.spool[OutPath(q)]|))
    && (Terminal(st.state) <==> st.completedAt.Some?)
    && (st.state.Failed? <==> st.errorClass.Some?)
    && (st.state.Succeeded? <==> st.rows.Some?) && (st.state.Succeeded? <==> st.bytes.Some?)
    && (st.state.Pending? ==> st.startedAt.None?) && (st.state.Running? ==> st.startedAt.Some?)
    && !st.state.Expired?
    && (t.phase.Created? ==> st.state.Pending? || (st.state.Cancelled? && t.cancelPending))
    && (t.phase.Executing? ==> st.state.Running? || (st.state.Cancelled? && t.cancelPending))
    && (t.phase.Ended? ==> !t.cancelPending && (Terminal(st.state) || st.state.Pending?))
  }

  ghost predicate Good(s: State) {
    && s.statuses.Keys == s.tasks.Keys
    && (forall q :: q in s.statuses ==> Coherent(s, q))
    && (forall p :: p in s.spool ==> exists q :: q in s.statuses && p == OutPath(q))
  }

  lemma OutPathInjective(q: QueryId, r: QueryId)
    requires OutPath(q) == OutPath(r)
    ensures q == r
  {
    assert q == OutPath(q)[..|OutPath(q)| - 8] == OutPath(r)[..|OutPath(r)| - 8] == r;
  }

  // An event about one query leaves every other query's status, task and file alone.
  ghost predicate OnlyTouches(s: State, t: State, q: QueryId) {
    && (forall r :: r != q && r in s.statuses ==> r in t.statuses && t.statuses[r] == s.statuses[r])
    && (forall r :: r != q && r in s.tasks ==> r in t.tasks && t.tasks[r] == s.tasks[r])
    && (forall p :: p != OutPath(q) ==> (p in s.spool <==> p in t.spool) && (p in s.spool ==> t.spool[p] == s.spool[p]))
  }

  lemma StepTouchesOne(s: State, e: Event)
    requires !e.AClose?
    ensures OnlyTouches(s, Apply(s, e), e.q)
  {
  }

  lemma OthersStayCoherent(s: State, t: State, q: QueryId, r: QueryId)
    requires OnlyTouches(s, t, q) && r != q && r in s.statuses && r in s.tasks && Coherent(s, r)
    ensures r in t.statuses && r in t.tasks && Coherent(t, r)
  {
    if OutPath(r) == OutPath(q) { OutPathInjective(r, q); }
  }

  lemma GoodIsCoherent(s: State, q: QueryId)
    requires Good(s) && q in s.statuses
    ensures q in s.tasks && Coherent(s, q)
  {
    hide Coherent;
  }

  lemma FreshIsCoherent(s: State, q: QueryId)
    requires Good(s) && Enabled(s, Submit(q))
    ensures Coherent(Apply(s, Submit(q)), q)
  {
    if OutPath(q) in s.spool {
      var r :| r in s.statuses && OutPath(q) == OutPath(r);
      OutPathInjective(q, r);
    }
  }

  lemma CancellingIsCoherent(s: State, q: QueryId, at: int)
    requires q in s.statuses && q in s.tasks && Coherent(s, q)
    ensures var t := Cancelling(s, q, at); q in t.statuses && q in t.tasks && Coherent(t, q)
  {
  }

  lemma LandedIsCoherent(s: State, q: QueryId, at: int)
    requires q in s.statuses && q in s.tasks && Coherent(s, q) && Enabled(s, CancelLands(q, at))
    ensures var t := Landed(s, q, at); q in t.statuses && q in t.tasks && Coherent(t, q)
  {
    hide OutPath;
  }

  lemma RunStepIsCoherent(s: State, e: Event)
    requires e.Start? || e.Returns? || e.Raises?
    requires e.q in s.statuses && e.q in s.tasks && Coherent(s, e.q) && Enabled(s, e)
    ensures var t := Apply(s, e); e.q in t.statuses && e.q in t.tasks && Coherent(t, e.q)
  {
    hide OutPath;
  }

  lemma OwnStepCoherent(s: State, e: Event)
    requires Good(s) && Enabled(s, e) && !e.AClose? && e.q in Apply(s, e).statuses
    ensures e.q in Apply(s, e).tasks && Coherent(Apply(s, e), e.q)
  {
    if e.Submit? {
      FreshIsCoherent(s, e.q);
    } else {
      assert Coherent(s, e.q) by { GoodIsCoherent(s, e.q); }
      hide Good, Coherent, Enabled, Cancelling, Landed;
      if e.Cancel? {
        CancellingIsCoherent(s, e.q, e.at);
      } else if e.CancelLands? {
        LandedIsCoherent(s, e.q, e.at);
      } else {
        RunStepIsCoherent(s, e);
      }
    }
  }

  lemma StepGrowsBooks(s: State, e: Event)
    requires s.statuses.Keys == s.tasks.Keys && !e.AClose?
    ensures var t := Apply(s, e);
      && t.statuses.Keys == t.tasks.Keys && s.statuses.Keys <= t.statuses.Keys
      && t.statuses.Keys <= s.statuses.Keys + {e.q}
      && (forall p :: p in t.spool ==> p in s.spool || (p == OutPath(e.q) && e.q in t.statuses))
  {
  }

  lemma OneQueryStepKeepsGood(s: State, e: Event)
    requires Good(s) && Enabled(s, e) && !e.AClose?
    ensures Good(Apply(s, e))
  {
    hide Apply, Enabled, Coherent;
    var t := Apply(s, e);
    StepGrowsBooks(s, e);
    StepTouchesOne(s, e);
    forall r | r in t.statuses ensures Coherent(t, r) {
      if r == e.q { OwnStepCoherent(s, e); } else { OthersStayCoherent(s, t, e.q, r); }
    }
  }

  lemma StepKeepsGood(s: State, e: Event)
    requires Good(s)
    ensures Good(Apply(s, e))
  {
    if Enabled(s, e) {
      if e.AClose? { assert Apply(s, e) == Closing(s); } else { OneQueryStepKeepsGood(s, e); }
    }
  }

  /** In every reachable state a query is SUCCEEDED exactly when it has a result location, and
      exactly when the spool holds its file, whose row count is the recorded one; so pending,
      running, failed and cancelled queries have no file, and every file belongs to a query. */
  lemma {:induction false} AlwaysGood(events: seq<Event>)
    ensures Good(Exec(Empty, events))
  {
    if events != [] {
      AlwaysGood(events[..|events| - 1]);
      StepKeepsGood(Exec(Empty, events[..|events| - 1]), events[|events| - 1]);
    }
  }

  // ---------------------------------------------------------------- whole runs

  ghost predicate SameResult(s: State, t: State, q: QueryId)
    requires q in s.statuses
  {
    && q in t.statuses && t.statuses[q].state == s.statuses[q].state
    && (!s.statuses[q].state.Cancelled? ==> t.statuses[q] == s.statuses[q])
    && Fetch(t, q) == Fetch(s, q)
  }

  lemma OwnStepAfterTheEnd(s: State, e: Event)
    requires !e.AClose? && e.q in s.statuses && e.q in s.tasks && Coherent(s, e.q) && Terminal(s.statuses[e.q].state)
    ensures SameResult(s, Apply(s, e), e.q)
  {
    hide OutPath;
  }

  lemma ClosingAfterTheEnd(s: State, q: QueryId)
    requires q in s.statuses
    ensures SameResult(s, Closing(s), q)
  {
    hide OutPath;
  }

  lemma OneStepAfterTheEnd(s: State, e: Event, q: QueryId)
    requires Good(s) && q in s.statuses && Terminal(s.statuses[q].state)
    ensures SameResult(s, Apply(s, e), q)
  {
    assert Coherent(s, q);
    if e.AClose? {
      ClosingAfterTheEnd(s, q);
    } else if e.q == q {
      OwnStepAfterTheEnd(s, e);
    } else {
      hide Apply, Good;
      StepTouchesOne(s, e);
      if OutPath(e.q) == OutPath(q) { OutPathInjective(e.q, q); }
    }
  }

  /** Terminal states absorb: no later event of any query changes the state reached, nor what a
      fetch returns; of a succeeded or failed query nothing changes at all. */
  lemma {:induction false} TerminalStatesAbsorb(events: seq<Event>, more: seq<Event>, q: QueryId)
    requires var s := Exec(Empty, events); q in s.statuses && Terminal(s.statuses[q].state)
    ensures SameResult(Exec(Empty, events), Exec(Empty, events + more), q)
    decreases |more|
  {
    if more == [] {
      assert events + more == events;
    } else {
      var init, last := more[..|more| - 1], more[|more| - 1];
      TerminalStatesAbsorb(events, init, q);
      assert (events + more)[..|events + more| - 1] == events + init;
      AlwaysGood(events + init);
      OneStepAfterTheEnd(Exec(Empty, events + init), last, q);
    }
  }

  // This event is the run of `q` returning `table` and writing it.
  ghost predicate IsWrite(s: State, e: Event, q: QueryId, table: Rows) {
    e.Returns? && e.q == q && e.table == table && e.write.Written? && Enabled(s, e)
  }

  // Somewhere in the run.
  ghost predicate RunWrote(events: seq<Event>, q: QueryId, table: Rows) {
    exists i :: 0 <= i < |events| && IsWrite(Exec(Empty, events[..i]), events[i], q, table)
  }

  lemma OthersStepFetch(s: State, e: Event, q: QueryId)
    requires Good(s) && !e.AClose? && e.q != q
    ensures Fetch(Apply(s, e), q).Ok? || Fetch(s, q).Ok? ==> Fetch(Apply(s, e), q) == Fetch(s, q)
  {
    hide Apply;
    StepTouchesOne(s, e);
    StepGrowsBooks(s, e);
    if OutPath(e.q) == OutPath(q) { OutPathInjective(e.q, q); }
    if q in s.statuses { assert Coherent(s, q); }
  }

  lemma StepFetch(s: State, e: Event, q: QueryId, table: Rows)
    requires Good(s)
    ensures Fetch(Apply(s, e), q) == Ok(table) <==>
      Fetch(s, q) == Ok(table) || IsWrite(s, e, q, table)
  {
    if !e.AClose? && e.q != q {
      hide Apply, Fetch;
      OthersStepFetch(s, e, q);
    } else if q in s.statuses {
      assert Coherent(s, q);
    }
  }

  lemma RunWroteOneMore(events: seq<Event>, e: Event, q: QueryId, table: Rows)
    ensures RunWrote(events + [e], q, table) <==> RunWrote(events, q, table) || IsWrite(Exec(Empty, events), e, q, table)
  {
    hide Exec, Enabled;
    var all := events + [e];
    forall i | 0 <= i < |events| ensures all[..i] == events[..i] && all[i] == events[i] {}
    assert all[..|events|] == events && all[|events|] == e;
    if RunWrote(events, q, table) {
      var i :| 0 <= i < |events| && IsWrite(Exec(Empty, events[..i]), events[i], q, table);
      assert IsWrite(Exec(Empty, all[..i]), all[i], q, table);
    }
    if RunWrote(all, q, table) {
      var i :| 0 <= i < |all| && IsWrite(Exec(Empty, all[..i]), all[i], q, table);
      if i < |events| { assert IsWrite(Exec(Empty, events[..i]), events[i], q, table); }
    }
  }

  /** `fetch` gives a table exactly when the query's own run returned that table and wrote it. */
  lemma {:induction false} FetchIsOwnRun(events: seq<Event>, q: QueryId, table: Rows)
    ensures Fetch(Exec(Empty, events), q) == Ok(table) <==> RunWrote(events, q, table)
  {
    if events != [] {
      hide Fetch, RunWrote, Apply, Enabled;
      var init, last := events[..|events| - 1], events[|events| - 1];
      FetchIsOwnRun(init, q, table);
      AlwaysGood(init);
      StepFetch(Exec(Empty, init), last, q, table);
      RunWroteOneMore(init, last, q, table);
      assert init + [last] == events;
    }
  }

  // How the query stands after `aclose` found it as it was in `s`: its cancellation is still to land,
  // or has landed on a task that had started, or on one that had not.
  ghost predicate ClosedFrom(s: State, t: State, q: QueryId)
    requires q in s.statuses && q in s.tasks
  {
    && q in t.statuses && q in t.tasks
    && if t.tasks[q].phase.Ended?
       then t.statuses[q].state == if s.tasks[q].phase.Executing? then Cancelled else s.statuses[q].state
       else t.tasks[q] == Task(s.tasks[q].phase, true) && t.statuses[q].state == s.statuses[q].state
  }

  lemma OneStepClosed(s: State, t: State, e: Event, q: QueryId)
    requires q in s.statuses && q in s.tasks && ClosedFrom(s, t, q) && !(e.Cancel? && e.q == q)
    ensures ClosedFrom(s, Apply(t, e), q)
  {
    if !e.AClose? && e.q != q { StepTouchesOne(t, e); }
  }

  lemma {:induction false} StaysClosed(s: State, t: State, more: seq<Event>, q: QueryId)
    requires q in s.statuses && q in s.tasks && ClosedFrom(s, t, q)
    requires forall i :: 0 <= i < |more| ==> !(more[i].Cancel? && more[i].q == q)
    ensures ClosedFrom(s, Exec(t, more), q)
    decreases |more|
  {
    if more != [] {
      hide ClosedFrom;
      StaysClosed(s, t, more[..|more| - 1], q);
      OneStepClosed(s, Exec(t, more[..|more| - 1]), more[|more| - 1], q);
    }
  }

  /** After `aclose`, whatever else happens short of cancelling the query itself, an unfinished query
      has a cancellation that can still land, or it has ended: CANCELLED if and only if its task had
      started or it had been cancelled before. */
  lemma CloseCancelsIffStarted(events: seq<Event>, q: QueryId, more: seq<Event>)
    requires Unfinished(Exec(Empty, events), q)
    requires forall i :: 0 <= i < |more| ==> !(more[i].Cancel? && more[i].q == q)
    ensures var s := Exec(Empty, events);
      var t := Exec(Apply(s, AClose), more);
      && q in s.statuses && q in t.statuses && q in t.tasks
      && (if t.tasks[q].phase.Ended?
          then t.statuses[q].state.Cancelled? <==> s.tasks[q].phase.Executing? || s.statuses[q].state.Cancelled?
          else forall at :: Enabled(t, CancelLands(q, at)) && Apply(t, CancelLands(q, at)).tasks[q].phase.Ended?)
  {
    AlwaysGood(events);
    var s := Exec(Empty, events);
    assert Coherent(s, q);
    StaysClosed(s, Apply(s, AClose), more, q);
  }

  // The stranded case: the task ended without running and only an explicit cancel moves its status.
  ghost predicate Stranded(s: State, q: QueryId) {
    q in s.statuses && s.statuses[q].state.Pending? && q in s.tasks && s.tasks[q].phase.Ended?
  }

  lemma OneStepStranded(s: State, q: QueryId, e: Event)
    requires Stranded(s, q) && !(e.Cancel? && e.q == q)
    ensures Stranded(Apply(s, e), q)
  {
    if !e.AClose? && e.q != q { StepTouchesOne(s, e); }
  }

  lemma {:induction false} UnstartedStaysPending(s: State, q: QueryId, more: seq<Event>)
    requires Stranded(s, q)
    requires forall i :: 0 <= i < |more| ==> !(more[i].Cancel? && more[i].q == q)
    ensures Stranded(Exec(s, more), q)
    decreases |more|
  {
    if more != [] {
      var init := more[..|more| - 1];
      UnstartedStaysPending(s, q, init);
      OneStepStranded(Exec(s, init), q, more[|more| - 1]);
    }
  }

  // ---------------------------------------------------------------- cancelling

  // How a query stands once cancelled in a phase of its task: the task has its cancellation to land,
  // or has ended.
  ghost predicate StandsCancelled(s: State, q: QueryId, phase: Phase) {
    && q in s.statuses && q in s.tasks && s.statuses[q].state.Cancelled?
    && OutPath(q) !in s.spool
    && (s.tasks[q] == Task(Ended, false) || (!phase.Ended? && s.tasks[q] == Task(phase, true)))
  }

  // Nothing but the landing of the cancellation changes what the task has to do.
  lemma OneStepCancelled(s: State, e: Event, q: QueryId, phase: Phase)
    requires StandsCancelled(s, q, phase)
    ensures var t := Apply(s, e);
      && StandsCancelled(t, q, phase)
      && (t.tasks[q] == s.tasks[q] || (e.CancelLands? && e.q == q))
  {
    if !e.AClose? && e.q != q {
      hide Apply;
      StepTouchesOne(s, e);
      if OutPath(e.q) == OutPath(q) { OutPathInjective(e.q, q); }
    } else {
      hide OutPath;
    }
  }

  lemma {:induction false} StaysCancelled(s: State, q: QueryId, phase: Phase, more: seq<Event>)
    requires StandsCancelled(s, q, phase)
    ensures StandsCancelled(Exec(s, more), q, phase)
    decreases |more|
  {
    if more != [] {
      hide StandsCancelled, Apply;
      StaysCancelled(s, q, phase, more[..|more| - 1]);
      OneStepCancelled(Exec(s, more[..|more| - 1]), more[|more| - 1], q, phase);
    }
  }

  /** `cancel` cancels for good. A pending or running query is CANCELLED from that moment on, with that
      completion time, and an unfinished task has its cancellation pending. Whatever follows, the query
      stays CANCELLED, has no file and no fetch gives a table, and nothing but that cancellation, which
      can land as long as the task has not ended and ends it, changes what its task has to do. */
  lemma CancelIsForGood(events: seq<Event>, q: QueryId, at: int, more: seq<Event>, e: Event)
    requires var s := Exec(Empty, events); q in s.statuses && (s.statuses[q].state.Pending? || s.statuses[q].state.Running?)
    ensures var s := Exec(Empty, events);
      var t := Apply(s, Cancel(q, at));
      && q in s.tasks && q in t.statuses && q in t.tasks
      && t.statuses[q] == s.statuses[q].(state := Cancelled, completedAt := Some(at))
      && t.tasks[q] == Task(s.tasks[q].phase, !s.tasks[q].phase.Ended?)
      && OnlyTouches(s, t, q)
      && var u := Exec(t, more);
        && q in u.statuses && q in u.tasks && u.statuses[q].state.Cancelled? && OutPath(q) !in u.spool
        && Fetch(u, q) == Err(NotReady(Cancelled))
        && (u.tasks[q].phase.Ended? || (u.tasks[q] == t.tasks[q] && Enabled(u, CancelLands(q, at))))
        && q in Apply(u, e).tasks
        && if e.CancelLands? && e.q == q then Apply(u, e).tasks[q] == Task(Ended, false)
           else Apply(u, e).tasks[q] == u.tasks[q]
  {
    AlwaysGood(events);
    var s := Exec(Empty, events);
    GoodIsCoherent(s, q);
    var t := Apply(s, Cancel(q, at));
    StepTouchesOne(s, Cancel(q, at));
    assert StandsCancelled(t, q, s.tasks[q].phase);
    hide Exec;
    StaysCancelled(t, q, s.tasks[q].phase, more);
    OneStepCancelled(Exec(t, more), e, q, s.tasks[q].phase);
  }

  // ---------------------------------------------------------------- a query that nothing cancels

  predicate Foreign(events: seq<Event>, q: QueryId) {
    forall i :: 0 <= i < |events| ==> !events[i].AClose? && events[i].q != q
  }

  ghost predicate SameQuery(s: State, t: State, q: QueryId)
    requires q in s.statuses && q in s.tasks
  {
    && q in t.statuses && q in t.tasks && t.statuses[q] == s.statuses[q] && t.tasks[q] == s.tasks[q]
    && (OutPath(q) in t.spool <==> OutPath(q) in s.spool)
  }

  lemma {:induction false} ForeignLeaveAlone(s: State, events: seq<Event>, q: QueryId)
    requires q in s.statuses && q in s.tasks && Foreign(events, q)
    ensures SameQuery(s, Exec(s, events), q)
    decreases |events|
  {
    if events != [] {
      hide Apply;
      var init, last := events[..|events| - 1], events[|events| - 1];
      assert forall i :: 0 <= i < |init| ==> init[i] == events[i];
      ForeignLeaveAlone(s, init, q);
      StepTouchesOne(Exec(s, init), last);
      if OutPath(last.q) == OutPath(q) { OutPathInjective(last.q, q); }
    }
  }

  // The status a query ends with whose run started at `started` and ended with this event.
  function Outcome(q: QueryId, started: int, end: Event): Status
    requires end.Returns? || end.Raises?
  {
    match end
    case Returns(_, table, Written(bytes), at) =>
      Status(Succeeded, Some(|table|), Some(bytes), Some(started), Some(at), None, Some(OutPath(q)))
    case Returns(_, _, WriteFails(_, error), at) => Status(Failed, None, None, Some(started), Some(at), Some(error), None)
    case Raises(_, error, at) => Status(Failed, None, None, Some(started), Some(at), Some(error), None)
    case _ => Fresh
  }

  /** A query submitted in any reachable state, whose task starts and whose run ends, among any events
      about other queries: its status tells the times, rows and file or the error, and a fetch gives
      the table that was returned and written. */
  lemma RunSettlesTheQuery(events: seq<Event>, q: QueryId, before: seq<Event>, started: int, meanwhile: seq<Event>, end: Event)
    requires Enabled(Exec(Empty, events), Submit(q)) && Foreign(before, q) && Foreign(meanwhile, q)
    requires (end.Returns? || end.Raises?) && end.q == q
    ensures var s := Exec(Apply(Exec(Empty, events), Submit(q)), before);
      var t := Apply(Exec(Apply(s, Start(q, started)), meanwhile), end);
      && q in t.statuses && t.statuses[q] == Outcome(q, started, end)
      && Fetch(t, q) == if end.Returns? && end.write.Written? then Ok(end.table) else Err(NotReady(Failed))
  {
    var s1 := Apply(Exec(Empty, events), Submit(q));
    assert s1.statuses[q] == Fresh && s1.tasks[q] == Task(Created, false);
    ForeignLeaveAlone(s1, before, q);
    var s2 := Exec(s1, before);
    var s3 := Apply(s2, Start(q, started));
    assert s3.tasks[q] == Task(Executing, false) && s3.statuses[q] == Fresh.(state := Running, startedAt := Some(started));
    ForeignLeaveAlone(s3, meanwhile, q);
    hide Exec, OutPath;
  }

  /** A handle is known if and only if its query was submitted; any other is reported as expired. */
  lemma {:induction false} KnownIffSubmitted(events: seq<Event>, q: QueryId)
    ensures var s := Exec(Empty, events);
      && (q in s.statuses <==> Submit(q) in events) && s.statuses.Keys == s.tasks.Keys
      && (StatusOf(s, q).state.Expired? <==> Submit(q) !in events)
      && (Submit(q) !in events ==> StatusOf(s, q).errorClass == Some("UnknownHandle") && Fetch(s, q) == Err(NotReady(Expired)))
  {
    if events != [] {
      var init, last := events[..|events| - 1], events[|events| - 1];
      KnownIffSubmitted(init, q);
      assert events == init + [last];
      AlwaysGood(events);
      var s := Exec(Empty, events);
      if q in s.statuses { GoodIsCoherent(s, q); }
      if !last.AClose? { StepGrowsBooks(Exec(Empty, init), last); }
    }
  }
}
