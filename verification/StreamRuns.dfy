/** Runs of the stream that get somewhere: what they give, when they end, and with which error. */
module StreamRuns {
  import opened Wrappers
  import opened ArrowStream
  import Client

  predicate Streaming(s: State) {
    s.consumer.AtYield? || s.consumer.Waiting?
  }

  predicate DeadlinePassed(s: State) {
    match s.ctx.deadline
    case Some(d) => d <= s.now
    case None => false
  }

  lemma {:induction false} ExecOfConcat(s: State, a: seq<Event>, b: seq<Event>)
    ensures Exec(s, a + b) == Exec(Exec(s, a), b)
    decreases |a|
  {
    hide Apply;
    if a == [] {
      assert a + b == b;
    } else {
      assert (a + b)[1..] == a[1..] + b;
      ExecOfConcat(Apply(s, a[0]), a[1..], b);
    }
  }

  // ---------------------------------------------------------------- every batch comes through

  // Each batch is produced, asked for and taken in turn; then the producer ends.
  function Rounds(bs: seq<Batch>): seq<Event> {
    if bs == [] then [] else Rounds(bs[..|bs| - 1]) + [Deliver(bs[|bs| - 1]), Resume, Get]
  }

  function WholeRun(bs: seq<Batch>): seq<Event> {
    [StartPump] + Rounds(bs) + [EndOfProducer, Resume, Get, CleanupDone]
  }

  predicate Affordable(ctx: Context, bs: seq<Batch>) {
    && (ctx.maxRows.Some? && bs != [] ==> SumRows(bs) <= ctx.maxRows.value)
    && (ctx.maxBytes.Some? && bs != [] ==> SumBytes(bs) <= ctx.maxBytes.value)
  }

  // Between two rounds, with everything produced so far taken.
  function Between(ctx: Context, now: int, bs: seq<Batch>): State {
    State(ctx, now, false, [], SumRows(bs), SumBytes(bs), if bs == [] then None else Some(bs[0].schema),
          Pulling, false, AtYield, bs, false, bs)
  }

  lemma ExecThree(s: State, a: Event, b: Event, c: Event)
    ensures Exec(s, [a, b, c]) == Apply(Apply(Apply(s, a), b), c)
  {
    hide Apply;
    assert [a, b, c][1..] == [b, c] && [b, c][1..] == [c] && [c][1..] == [];
    var s1, s2 := Apply(s, a), Apply(Apply(s, a), b);
    assert Exec(s, [a, b, c]) == Exec(s1, [b, c]);
    assert Exec(s1, [b, c]) == Exec(s2, [c]);
    assert Exec(s2, [c]) == Exec(Apply(s2, c), []);
  }

  lemma OneRound(ctx: Context, now: int, bs: seq<Batch>, b: Batch)
    requires (ctx.deadline.Some? ==> now < ctx.deadline.value) && Affordable(ctx, bs + [b])
    ensures Apply(Apply(Apply(Between(ctx, now, bs), Deliver(b)), Resume), Get) == Between(ctx, now, bs + [b])
  {
    SumsOfAppended(bs, b);
    hide SumRows, SumBytes;
    var s := Apply(Between(ctx, now, bs), Deliver(b));
    assert s.queue == [Data(b)];
    assert [Data(b)][1..] == [];
  }

  lemma {:induction false} AfterRounds(ctx: Context, now: int, bs: seq<Batch>)
    requires (ctx.deadline.Some? ==> now < ctx.deadline.value) && Affordable(ctx, bs)
    ensures Exec(Between(ctx, now, []), Rounds(bs)) == Between(ctx, now, bs)
  {
    if bs != [] {
      var init, b := bs[..|bs| - 1], bs[|bs| - 1];
      assert bs == init + [b];
      SumsOfAppended(init, b);
      AfterRounds(ctx, now, init);
      OneRound(ctx, now, init, b);
      hide Apply, Between;
      ExecOfConcat(Between(ctx, now, []), Rounds(init), [Deliver(b), Resume, Get]);
      ExecThree(Between(ctx, now, init), Deliver(b), Resume, Get);
    }
  }

  lemma EndsInTurn(s: State, s1: State, s3: State)
    requires s.pump.Pulling? && !s.cancelPending && s.queue == [] && s.consumer.AtYield? && !Expired(s)
    requires s1 == s.(queue := [Done], pump := Finished, exhausted := true)
    requires s3 == s1.(queue := [], consumer := Cleaning(Normal))
    ensures Apply(s, EndOfProducer) == s1 && Apply(Apply(s1, Resume), Get) == s3
    ensures Apply(s3, CleanupDone) == s3.(consumer := Left(Normal))
  {
    assert [] + [Done] == [Done] && [Done][1..] == [];
    assert Apply(s1, Resume) == s1.(consumer := Waiting);
  }

  lemma Finish(ctx: Context, now: int, bs: seq<Batch>)
    requires ctx.deadline.Some? ==> now < ctx.deadline.value
    ensures var t := Exec(Between(ctx, now, bs), [EndOfProducer, Resume, Get, CleanupDone]);
      t.consumer == Left(Normal) && t.yielded == bs && t.produced == bs
  {
    hide SumRows, SumBytes;
    var s := Between(ctx, now, bs);
    var s1 := s.(queue := [Done], pump := Finished, exhausted := true);
    var s3 := s1.(queue := [], consumer := Cleaning(Normal));
    EndsInTurn(s, s1, s3);
    hide Apply, Between;
    ExecThree(s, EndOfProducer, Resume, Get);
    ExecOfConcat(s, [EndOfProducer, Resume, Get], [CleanupDone]);
    assert [EndOfProducer, Resume, Get] + [CleanupDone] == [EndOfProducer, Resume, Get, CleanupDone];
    assert Exec(s3, [CleanupDone]) == Exec(Apply(s3, CleanupDone), []);
  }

  /** Whatever batches of one schema a producer makes, if they are within the budgets and neither the
      flag nor the deadline stops them, a client that keeps asking gets the table of all their rows. */
  lemma WholeRunGivesTheTable(ctx: Context, now: int, bs: seq<Batch>)
    requires (ctx.deadline.Some? ==> now < ctx.deadline.value) && Affordable(ctx, bs) && Client.SameSchema(bs)
    ensures var t := Exec(Init(ctx, now, false), WholeRun(bs));
      && t.consumer == Left(Normal) && t.produced == bs
      && Client.Answer(t.yielded, t.consumer.outcome)
         == Ok(Client.Table(if bs == [] then None else Some(bs[0].schema), Client.Flatten(bs)))
  {
    var s, last := Init(ctx, now, false), [EndOfProducer, Resume, Get, CleanupDone];
    assert Apply(s, StartPump) == Between(ctx, now, []);
    hide Apply, Between;
    assert Exec(s, [StartPump]) == Exec(Apply(s, StartPump), []);
    ExecOfConcat(s, [StartPump], Rounds(bs));
    ExecOfConcat(s, [StartPump] + Rounds(bs), last);
    AfterRounds(ctx, now, bs);
    Finish(ctx, now, bs);
  }

  // ---------------------------------------------------------------- every move counts

  function PumpWork(p: Pump): nat {
    match p
    case NotStarted => 6
    case Pulling => 5
    case Blocked(item, inHandler) => if item.Data? then 8 else if inHandler then 3 else 4
    case Finished => 0
  }

  function ConsumerWork(c: Consumer): nat {
    match c
    case AtYield => 3
    case Waiting => 2
    case Cleaning(_) => 1
    case Left(_) => 0
  }

  // The moves still to be made when the producer makes no further batch, at most.
  function Work(s: State): nat {
    PumpWork(s.pump) + 2 * |s.queue| + ConsumerWork(s.consumer)
  }

  function OwnMoves(s: State, events: seq<Event>): nat
    decreases |events|
  {
    if events == [] then 0
    else (if OwnMove(events[0]) && Enabled(s, events[0]) then 1 else 0) + OwnMoves(Apply(s, events[0]), events[1..])
  }

  lemma PutWork(s: State, item: Item, inHandler: bool)
    ensures var t := Put(s, item, inHandler);
      && t.produced == s.produced
      && Work(t) <= PumpWork(Blocked(item, inHandler)) + 2 * |s.queue| + ConsumerWork(s.consumer)
  {
  }

  lemma DeliverWork(s: State, b: Batch)
    requires s.pump.Pulling?
    ensures var t := Received(s, b); |t.produced| == |s.produced| + 1 && Work(t) <= Work(s) + 3
  {
    PutWork(Counted(s, b), Verdict(s, b), false);
    hide Put, Verdict;
  }

  lemma UnblockWork(s: State)
    requires Enabled(s, Unblock)
    ensures Work(Apply(s, Unblock)) < Work(s) && Apply(s, Unblock).produced == s.produced
  {
  }

  lemma LandingWork(s: State, reply: Reply)
    requires !s.pump.Finished?
    ensures var t := Landed(s, reply);
      Work(t) + (if reply.Swallows? then 0 else 1) <= Work(s) && t.produced == s.produced
  {
    var t := s.(cancelPending := false);
    PutWork(t, Fail(TaskCancelled), true);
    PutWork(t.(exhausted := true), Done, false);
    hide Put;
  }

  lemma OneMoveLess(s: State, e: Event)
    requires Course(s)
    ensures var t := Apply(s, e);
      Work(t) + (if OwnMove(e) && Enabled(s, e) then 1 else 0) + 4 * |s.produced| <= Work(s) + 4 * |t.produced|
  {
    hide HonestOutcome, Put, Received;
    if Enabled(s, e) {
      match e
      case Deliver(b) => DeliverWork(s, b);
      case EndOfProducer => PutWork(s.(exhausted := true), Done, false);
      case ProducerRaises(code) => PutWork(s, Fail(Producer(code)), true);
      case Unblock => UnblockWork(s);
      case CancelLands(reply) => LandingWork(s, reply);
      case _ =>
    }
  }

  lemma {:induction false} MovesFrom(s: State, events: seq<Event>)
    requires Safe(s)
    ensures var t := Exec(s, events);
      OwnMoves(s, events) + Work(t) + 4 * |s.produced| <= Work(s) + 4 * |t.produced|
    decreases |events|
  {
    hide Items, Course, Apply, Work, OwnMove, Enabled;
    if events != [] {
      StepKeepsSafe(s, events[0]);
      OneMoveLess(s, events[0]);
      MovesFrom(Apply(s, events[0]), events[1..]);
    }
  }

  /** Whatever the interleaving, the own moves of the two tasks are at most nine, and four more for
      each batch produced: a stream whose producer comes to an end does not keep moving for ever. */
  lemma MovesAreBounded(ctx: Context, now: int, cancelSet: bool, events: seq<Event>)
    ensures var s := Init(ctx, now, cancelSet);
      OwnMoves(s, events) <= 9 + 4 * |Exec(s, events).produced|
  {
    MovesFrom(Init(ctx, now, cancelSet), events);
  }

  // The stream left to itself for `n` moves.
  function RunOn(s: State, n: nat): State
    decreases n
  {
    if n == 0 || s.consumer.Left? || Wedged(s) then s else RunOn(Apply(s, NextMove(s)), n - 1)
  }

  lemma NextMoveIsOne(s: State)
    requires Safe(s) && EndQueued(s) && !s.consumer.Left? && !Wedged(s)
    ensures var t := Apply(s, NextMove(s));
      Safe(t) && EndQueued(t) && Work(t) < Work(s) && t.produced == s.produced
  {
    hide Items, Course, EndQueued, Wedged, Enabled, Work;
    SomeMove(s);
    StepKeepsSafe(s, NextMove(s));
    StepKeepsEndQueued(s, NextMove(s));
    OneMoveLess(s, NextMove(s));
    NextMoveProducesNothing(s);
    hide Apply, NextMove;
  }

  lemma NextMoveProducesNothing(s: State)
    ensures Apply(s, NextMove(s)).produced == s.produced
  {
  }

  lemma {:induction false} RunOnEnds(s: State, n: nat)
    requires Safe(s) && EndQueued(s) && Work(s) <= n
    ensures var t := RunOn(s, n); t.consumer.Left? || Wedged(t)
    decreases n
  {
    hide Safe, EndQueued, Wedged, Apply, NextMove;
    if n == 0 {
      assert s.consumer.Left?;
    } else if !s.consumer.Left? && !Wedged(s) {
      NextMoveIsOne(s);
      RunOnEnds(Apply(s, NextMove(s)), n - 1);
    }
  }

  /** Left to itself from any reachable state, a stream has ended or hangs after `Work` moves. */
  lemma EndsOrWedges(ctx: Context, now: int, cancelSet: bool, events: seq<Event>)
    ensures var s := Exec(Init(ctx, now, cancelSet), events);
      var t := RunOn(s, Work(s)); t.consumer.Left? || Wedged(t)
  {
    AlwaysSafe(ctx, now, cancelSet, events);
    AlwaysEndQueued(Init(ctx, now, cancelSet), events);
    var s := Exec(Init(ctx, now, cancelSet), events);
    hide Exec, Safe, EndQueued, Wedged;
    RunOnEnds(s, Work(s));
  }

  // Nothing has stopped the stream, and the consumer will not find the deadline passed.
  ghost predicate Unhindered(s: State) {
    !StopDecided(s) && !DeadlinePassed(s)
  }

  lemma StaysUnhindered(s: State)
    requires Safe(s) && Unhindered(s) && !s.consumer.Left?
    ensures !Wedged(s) && Unhindered(Apply(s, NextMove(s)))
  {
    hide SumRows, SumBytes, Batches, Delivered, WithinBudget, HonestError, Verdict, Received;
  }

  lemma {:induction false} RunOnDelivers(s: State, n: nat)
    requires Safe(s) && EndQueued(s) && Unhindered(s) && Work(s) <= n
    ensures var t := RunOn(s, n);
      t.consumer == Left(Normal) && t.yielded == s.produced && t.produced == s.produced
    decreases n
  {
    if s.consumer.Left? {
      assert s.consumer.outcome.Normal?;
    } else {
      hide Safe, EndQueued, Unhindered, Wedged, Apply, NextMove;
      StaysUnhindered(s);
      NextMoveIsOne(s);
      RunOnDelivers(Apply(s, NextMove(s)), n - 1);
    }
  }

  /** From every reachable state that nothing has stopped, the stream left to itself ends normally,
      with every batch that was produced yielded in order. */
  lemma UnhinderedStreamDelivers(ctx: Context, now: int, cancelSet: bool, events: seq<Event>)
    requires Unhindered(Exec(Init(ctx, now, cancelSet), events))
    ensures var s := Exec(Init(ctx, now, cancelSet), events);
      var t := RunOn(s, Work(s)); t.consumer == Left(Normal) && t.yielded == s.produced && t.produced == s.produced
  {
    AlwaysSafe(ctx, now, cancelSet, events);
    AlwaysEndQueued(Init(ctx, now, cancelSet), events);
    var s := Exec(Init(ctx, now, cancelSet), events);
    hide Exec, Safe, EndQueued, Unhindered;
    RunOnDelivers(s, Work(s));
  }

  // ---------------------------------------------------------------- which error

  // The error that an event gives cause to: a batch that meets the flag, the deadline or a budget, in
  // this order, a producer that raises, a consumer that finds the deadline passed.
  function Cause(s: State, e: Event): Option<Error> {
    match e
    case Deliver(b) =>
      var rows, bytes := SumRows(s.produced + [b]), SumBytes(s.produced + [b]);
      if s.cancelSet then Some(Cancelled)
      else if DeadlinePassed(s) then Some(Timeout)
      else if s.ctx.maxRows.Some? && s.ctx.maxRows.value < rows then Some(BudgetExceeded(Rows, s.ctx.maxRows.value, rows))
      else if s.ctx.maxBytes.Some? && s.ctx.maxBytes.value < bytes then Some(BudgetExceeded(Bytes, s.ctx.maxBytes.value, bytes))
      else None
    case ProducerRaises(code) => Some(Producer(code))
    case Resume => if DeadlinePassed(s) then Some(Timeout) else None
    case WaitExpires => Some(Timeout)
    case _ => None
  }

  // The error is on its way to a consumer that is still there, or is what it left with.
  predicate Underway(s: State, err: Error) {
    if Streaming(s)
    then s.pump == Blocked(Fail(err), s.pump.Blocked? && s.pump.inHandler) || (s.queue != [] && s.queue[|s.queue| - 1] == Fail(err))
    else s.consumer.outcome == Raised(err)
  }

  lemma DeliverVerdict(s: State, b: Batch)
    requires Safe(s) && s.pump.Pulling?
    ensures Verdict(s, b) == if Cause(s, Deliver(b)).Some? then Fail(Cause(s, Deliver(b)).value) else Data(b)
  {
    hide Batches, Delivered, WithinBudget, HonestItem;
    SumsOfAppended(s.produced, b);
  }

  // Taking an item brings an error underway to the consumer, and no other.
  lemma TakingKeepsError(s: State, err: Error)
    requires Items(s) && Enabled(s, Get)
    ensures Underway(Taken(s), err) <==> Underway(s, err)
  {
    hide HonestItem, Delivered, WithinBudget, SumRows, SumBytes;
    if |s.queue| > 1 { assert s.queue[0].Data? && s.queue[1..][|s.queue| - 2] == s.queue[|s.queue| - 1]; }
  }

  lemma PutError(s: State, item: Item, inHandler: bool, err: Error)
    requires s.pump.Pulling?
    ensures Underway(Put(s, item, inHandler), err) ==> Underway(s, err) || item == Fail(err)
    ensures Streaming(s) && item == Fail(err) ==> Underway(Put(s, item, inHandler), err)
  {
  }

  lemma DeliveredCause(s: State, b: Batch, err: Error)
    requires Safe(s) && Enabled(s, Deliver(b)) && Underway(Received(s, b), err)
    ensures Underway(s, err) || Cause(s, Deliver(b)) == Some(err)
  {
    DeliverVerdict(s, b);
    PutError(Counted(s, b), Verdict(s, b), false, err);
    assert Underway(Counted(s, b), err) == Underway(s, err);
    hide Safe, Verdict, Cause, Counted, Put, Underway;
  }

  lemma OtherCause(s: State, e: Event, err: Error)
    requires Course(s) && Enabled(s, e) && Underway(Apply(s, e), err) && !e.Deliver? && !e.Get?
    ensures Underway(s, err) || Cause(s, e) == Some(err)
  {
    hide HonestOutcome, Received, Taken, SumRows, SumBytes;
    if e.CancelLands? { hide Cause; }
  }

  lemma ComesFromCause(s: State, e: Event, err: Error)
    requires Safe(s) && Underway(Apply(s, e), err)
    ensures Underway(s, err) || (Enabled(s, e) && Cause(s, e) == Some(err))
  {
    hide Items, Course, Cause;
    if Enabled(s, e) {
      match e
      case Get => TakingKeepsError(s, err);
      case Deliver(b) => DeliveredCause(s, b, err);
      case _ => OtherCause(s, e, err);
    }
  }

  lemma CauseGetsUnderway(s: State, e: Event, err: Error)
    requires Safe(s) && Streaming(s) && Enabled(s, e) && Cause(s, e) == Some(err)
    ensures Underway(Apply(s, e), err)
  {
    hide Items, Course, Verdict, Put, SumRows, SumBytes;
    if e.Deliver? {
      DeliverVerdict(s, e.batch);
      PutError(Counted(s, e.batch), Verdict(s, e.batch), false, err);
      hide Cause;
    } else if e.ProducerRaises? {
      PutError(s, Fail(Producer(e.code)), true, err);
    }
  }

  // A consumer that neither leaves nor runs into the deadline meets the error that is underway.
  lemma StaysUnderway(s: State, e: Event, err: Error)
    requires Safe(s) && Underway(s, err)
    requires Streaming(s) ==> !e.Leave? && (e.Resume? || e.WaitExpires? ==> !DeadlinePassed(s))
    ensures Underway(Apply(s, e), err)
  {
    if Enabled(s, e) && e.Get? { TakingKeepsError(s, err); }
    hide HonestItem, Delivered, WithinBudget, HonestOutcome, SumRows, SumBytes, Taken, Verdict, Received;
  }

  // Some event of the run gave cause to the error.
  predicate Caused(s: State, events: seq<Event>, err: Error)
    decreases |events|
  {
    events != [] &&
    ((Enabled(s, events[0]) && Cause(s, events[0]) == Some(err)) || Caused(Apply(s, events[0]), events[1..], err))
  }

  lemma {:induction false} ComesFromSomewhere(s: State, events: seq<Event>, err: Error)
    requires Safe(s) && Underway(Exec(s, events), err)
    ensures Underway(s, err) || Caused(s, events, err)
    decreases |events|
  {
    hide Safe, Underway, Apply, Cause, Enabled;
    if events != [] {
      StepKeepsSafe(s, events[0]);
      ComesFromSomewhere(Apply(s, events[0]), events[1..], err);
      if Underway(Apply(s, events[0]), err) { ComesFromCause(s, events[0], err); }
    }
  }

  /** In every interleaving, the error a stream ends with is one that an event of the run gave cause to. */
  lemma ErrorsHaveCauses(ctx: Context, now: int, cancelSet: bool, events: seq<Event>, err: Error)
    requires Exec(Init(ctx, now, cancelSet), events).consumer == Left(Raised(err))
    ensures Caused(Init(ctx, now, cancelSet), events, err)
  {
    ComesFromSomewhere(Init(ctx, now, cancelSet), events, err);
  }

  // The error is underway, or the consumer has gone for a reason of its own.
  predicate Surfacing(s: State, err: Error, left: bool) {
    || Underway(s, err)
    || (!Streaming(s) && s.consumer.outcome == Raised(Timeout) && DeadlinePassed(s))
    || (!Streaming(s) && s.consumer.outcome == Abandoned && left)
  }

  lemma StaysGone(s: State, e: Event)
    requires !Streaming(s)
    ensures var t := Apply(s, e);
      !Streaming(t) && t.consumer.outcome == s.consumer.outcome && (DeadlinePassed(s) ==> DeadlinePassed(t))
  {
    hide Verdict;
  }

  lemma StaysSurfacing(s: State, e: Event, err: Error, left: bool)
    requires Safe(s) && Surfacing(s, err, left)
    ensures Surfacing(Apply(s, e), err, left || e.Leave?)
  {
    if Underway(s, err) && !(Streaming(s) && (e.Leave? || ((e.Resume? || e.WaitExpires?) && DeadlinePassed(s)))) {
      StaysUnderway(s, e, err);
    } else if !Streaming(s) {
      StaysGone(s, e);
    } else {
      hide Safe, Taken, Received, Landed, Put;
    }
  }

  lemma {:induction false} KeepsSurfacing(s: State, events: seq<Event>, err: Error, left: bool)
    requires Safe(s) && Surfacing(s, err, left)
    ensures Surfacing(Exec(s, events), err, left || exists i :: 0 <= i < |events| && events[i].Leave?)
    decreases |events|
  {
    hide Safe, Surfacing, Apply;
    if events != [] {
      StepKeepsSafe(s, events[0]);
      StaysSurfacing(s, events[0], err, left);
      KeepsSurfacing(Apply(s, events[0]), events[1..], err, left || events[0].Leave?);
      if i :| 0 <= i < |events| - 1 && events[1..][i].Leave? { assert events[i + 1].Leave?; }
    }
  }

  /** Once an event has given cause to an error, the stream ends with that error, unless the consumer
      leaves or finds the deadline passed before it gets there. */
  lemma FirstCauseSurfaces(ctx: Context, now: int, cancelSet: bool, events: seq<Event>, e: Event, err: Error, more: seq<Event>)
    requires var s := Exec(Init(ctx, now, cancelSet), events); Streaming(s) && Enabled(s, e) && Cause(s, e) == Some(err)
    ensures var t := Exec(Apply(Exec(Init(ctx, now, cancelSet), events), e), more);
      t.consumer.Left? ==>
        || t.consumer.outcome == Raised(err)
        || (t.consumer.outcome == Raised(Timeout) && DeadlinePassed(t))
        || (t.consumer.outcome == Abandoned && exists i :: 0 <= i < |more| && more[i].Leave?)
  {
    AlwaysSafe(ctx, now, cancelSet, events);
    var s := Exec(Init(ctx, now, cancelSet), events);
    hide Exec, Safe, Apply, Cause, Enabled;
    CauseGetsUnderway(s, e, err);
    StepKeepsSafe(s, e);
    KeepsSurfacing(Apply(s, e), more, err, false);
  }

  // ---------------------------------------------------------------- the schema

  // The schema is that of the first batch; without one nothing was delivered or is on its way.
  predicate SchemaKnown(s: State) {
    if s.schema.Some? then s.produced != [] && s.schema.value == s.produced[0].schema
    else
      && s.yielded == [] && (forall i :: 0 <= i < |s.queue| ==> !s.queue[i].Data?)
      && !(s.pump.Blocked? && s.pump.item.Data?)
      && (Flowing(s) ==> s.produced == [])
  }

  lemma SchemaOfDelivered(s: State, b: Batch)
    requires SchemaKnown(s) && s.pump.Pulling?
    ensures SchemaKnown(Received(s, b))
    ensures s.schema.Some? ==> Received(s, b).schema == s.schema
  {
    hide Over, BudgetError;
    assert s.schema.None? && Counted(s, b).schema.None? ==> Verdict(s, b).Fail?;
  }

  lemma SchemaOfTerminal(s: State, item: Item, inHandler: bool)
    requires SchemaKnown(s) && !item.Data?
    ensures SchemaKnown(Put(s, item, inHandler)) && Put(s, item, inHandler).schema == s.schema
  {
  }

  lemma SchemaOfLanded(s: State, reply: Reply)
    requires SchemaKnown(s)
    ensures SchemaKnown(Landed(s, reply)) && Landed(s, reply).schema == s.schema
  {
    hide Put;
    var t := s.(cancelPending := false);
    SchemaOfTerminal(t, Fail(TaskCancelled), true);
    SchemaOfTerminal(t.(exhausted := true), Done, false);
  }

  lemma SchemaOfTaken(s: State)
    requires SchemaKnown(s) && s.queue != []
    ensures SchemaKnown(Taken(s)) && Taken(s).schema == s.schema
  {
  }

  lemma SchemaStep(s: State, e: Event)
    requires SchemaKnown(s)
    ensures SchemaKnown(Apply(s, e))
    ensures s.schema.Some? ==> Apply(s, e).schema == s.schema
  {
    hide Received, Landed, Taken;
    if Enabled(s, e) {
      match e
      case Deliver(b) => SchemaOfDelivered(s, b);
      case CancelLands(reply) => SchemaOfLanded(s, reply);
      case Get => SchemaOfTaken(s);
      case _ =>
    }
  }

  lemma {:induction false} SchemaStays(s: State, events: seq<Event>)
    requires SchemaKnown(s)
    ensures SchemaKnown(Exec(s, events))
    ensures s.schema.Some? ==> Exec(s, events).schema == s.schema
    decreases |events|
  {
    hide SchemaKnown, Apply;
    if events != [] {
      SchemaStep(s, events[0]);
      SchemaStays(Apply(s, events[0]), events[1..]);
    }
  }

  /** `schema` is available to a consumer that has been given a batch: it is that of the first, and
      does not change. */
  lemma SchemaIsFirst(ctx: Context, now: int, cancelSet: bool, events: seq<Event>, more: seq<Event>)
    requires Exec(Init(ctx, now, cancelSet), events).yielded != []
    ensures var s := Exec(Init(ctx, now, cancelSet), events);
      && s.schema == Some(s.yielded[0].schema)
      && Exec(s, more).schema == s.schema
  {
    var s := Exec(Init(ctx, now, cancelSet), events);
    AlwaysSafe(ctx, now, cancelSet, events);
    SchemaStays(Init(ctx, now, cancelSet), events);
    SchemaStays(s, more);
    assert s.yielded <= Delivered(s);
  }

  // ---------------------------------------------------------------- the flag and the clock

  function Elapsed(events: seq<Event>): nat {
    if events == [] then 0 else (if events[0].Tick? then events[0].later else 0) + Elapsed(events[1..])
  }

  lemma {:induction false} WorldGoesOn(s: State, events: seq<Event>)
    ensures var t := Exec(s, events);
      t.ctx == s.ctx && t.now == s.now + Elapsed(events) && (t.cancelSet <==> s.cancelSet || SetCancel in events)
    decreases |events|
  {
    if events != [] {
      OneStepOfWorld(s, events[0]);
      hide Apply;
      WorldGoesOn(Apply(s, events[0]), events[1..]);
      assert events == [events[0]] + events[1..];
    }
  }

  predicate SameWorld(s: State, t: State) {
    t.ctx == s.ctx && t.now == s.now && t.cancelSet == s.cancelSet
  }

  lemma SameWorldPut(s: State, item: Item, inHandler: bool)
    ensures SameWorld(s, Put(s, item, inHandler))
  {
  }

  lemma SameWorldDelivered(s: State, b: Batch)
    ensures SameWorld(s, Received(s, b))
  {
    hide Put, Verdict;
    SameWorldPut(Counted(s, b), Verdict(s, b), false);
  }

  lemma SameWorldLanded(s: State, reply: Reply)
    ensures SameWorld(s, Landed(s, reply))
  {
    hide Put;
    var t := s.(cancelPending := false);
    SameWorldPut(t, Fail(TaskCancelled), true);
    SameWorldPut(t.(exhausted := true), Done, false);
  }

  lemma SameWorldTaken(s: State)
    requires s.queue != []
    ensures SameWorld(s, Taken(s))
  {
  }

  lemma OneStepOfWorld(s: State, e: Event)
    ensures var t := Apply(s, e);
      && t.ctx == s.ctx && t.now == s.now + (if e.Tick? then e.later else 0)
      && (t.cancelSet <==> s.cancelSet || e == SetCancel)
  {
    hide Received, Landed, Taken, Put;
    if Enabled(s, e) {
      match e
      case Deliver(b) => SameWorldDelivered(s, b);
      case CancelLands(reply) => SameWorldLanded(s, reply);
      case Get => SameWorldTaken(s);
      case EndOfProducer => SameWorldPut(s.(exhausted := true), Done, false);
      case ProducerRaises(code) => SameWorldPut(s, Fail(Producer(code)), true);
      case Unblock => SameWorldPut(s, s.pump.item, s.pump.inHandler);
      case _ =>
    }
  }

  /** Once the flag has been set, every batch produced meets a cancellation; once the deadline has been
      reached, every batch and every request of the consumer meets a timeout; before either, no request
      does, and a batch meets an error only for a budget. */
  lemma FlagAndDeadlineStop(ctx: Context, now: int, cancelSet: bool, events: seq<Event>, b: Batch)
    ensures var s := Exec(Init(ctx, now, cancelSet), events);
      var flag := cancelSet || SetCancel in events;
      var late := ctx.deadline.Some? && ctx.deadline.value <= now + Elapsed(events);
      && (flag ==> Cause(s, Deliver(b)) == Some(Cancelled))
      && (late ==> Cause(s, Resume) == Some(Timeout) && (!flag ==> Cause(s, Deliver(b)) == Some(Timeout)))
      && (Enabled(s, WaitExpires) <==> s.consumer.Waiting? && late)
      && (!late ==> Cause(s, Resume) == None)
      && (!flag && !late ==> (Cause(s, Deliver(b)) == None <==> Affordable(ctx, s.produced + [b])))
  {
    WorldGoesOn(Init(ctx, now, cancelSet), events);
    hide Exec, SumRows, SumBytes;
  }

  // ---------------------------------------------------------------- errors of the client

  /** A client call fails with an error of the stream only if the call was given up or an event gave
      cause to that very error, and with a schema error only if the producer ended and its batches
      differ in schema; and it does fail when the stream does. */
  lemma ClientErrorsHaveCauses(ctx: Context, now: int, cancelSet: bool, events: seq<Event>)
    requires Exec(Init(ctx, now, cancelSet), events).consumer.Left?
    ensures var s := Exec(Init(ctx, now, cancelSet), events);
      var r := Client.Answer(s.yielded, s.consumer.outcome);
      if r.Ok? then s.exhausted
      else if r.error.SchemaMismatch? then
        s.exhausted && exists i :: 0 <= i < |s.produced| && s.produced[i].schema != s.produced[0].schema
      else if s.consumer.outcome.Abandoned? then r.error.error == TaskCancelled
      else Caused(Init(ctx, now, cancelSet), events, r.error.error)
  {
    AlwaysSafe(ctx, now, cancelSet, events);
    var s := Exec(Init(ctx, now, cancelSet), events);
    if s.consumer.outcome.Raised? { ErrorsHaveCauses(ctx, now, cancelSet, events, s.consumer.outcome.error); }
  }

  // ---------------------------------------------------------------- what can happen

  /** Until it is told to stop, a producer may at any time hand over a batch, end or raise, and each of
      them is dealt with at once; a consumer may leave whenever it is there, and is then on its way out. */
  lemma AnythingMayHappen(s: State, b: Batch, code: int)
    requires Safe(s)
    ensures s.pump.Pulling? && Streaming(s) ==>
      && |Apply(s, Deliver(b)).produced| == |s.produced| + 1
      && Apply(s, EndOfProducer).exhausted && !Apply(s, EndOfProducer).pump.Pulling?
      && Underway(Apply(s, ProducerRaises(code)), Producer(code))
    ensures Streaming(s) ==> Apply(s, Leave).consumer == Cleaning(Abandoned)
    ensures s.consumer.Waiting? && DeadlinePassed(s) ==> Apply(s, WaitExpires).consumer == Cleaning(Raised(Timeout))
  {
    hide Items, Verdict, SumRows, SumBytes;
  }

  // A producer that swallows the cancellation goes on as if it had not come, and the cleanup waits for it.
  lemma SwallowedCancellationIsLost(s: State, b: Batch)
    requires Safe(s) && s.pump.Pulling? && s.cancelPending
    ensures var t := Apply(s, CancelLands(Swallows));
      && t == s.(cancelPending := false) && t.consumer.Cleaning?
      && Enabled(t, Deliver(b)) && Enabled(t, EndOfProducer) && !Enabled(t, CleanupDone)
  {
    hide Items;
  }
}
