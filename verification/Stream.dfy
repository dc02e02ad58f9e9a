/** The bounded, cancellable batch stream.

    A pump task pulls batches from a producer into a bounded queue; a consumer takes them out.
    Between two awaits a task runs without interruption, so one run of the stream is a sequence
    of events, each of which is one such uninterrupted stretch of one task (or of the world
    outside). `Apply` gives the effect of one event; an event that cannot happen in a state
    leaves it as it is, so `Exec` over all event sequences covers every interleaving. */
module ArrowStream {
  import opened Wrappers

  datatype Batch = Batch(schema: string, rows: seq<int>, nbytes: nat)

  datatype BudgetKind = Rows | Bytes

  datatype Error =
    | Cancelled
    | Timeout
    | BudgetExceeded(kind: BudgetKind, limit: int, observed: nat)
    | Producer(code: int)
    | TaskCancelled

  // What travels through the queue: batches, then one terminal item.
  datatype Item = Data(batch: Batch) | Done | Fail(error: Error)

  datatype Context = Context(
    deadline: Option<int>, maxRows: Option<int>, maxBytes: Option<int>, queueSize: int)

  // `inHandler` tells the put of the pump's exception handler from the puts of its loop.
  datatype Pump = NotStarted | Pulling | Blocked(item: Item, inHandler: bool) | Finished

  datatype Outcome = Normal | Raised(error: Error) | Abandoned

  datatype Consumer = AtYield | Waiting | Cleaning(outcome: Outcome) | Left(outcome: Outcome)

  // `produced`, `exhausted` and `yielded` record what the producer handed over, whether it
  // ended by itself, and what the consumer was given.
  datatype State = State(
    ctx: Context, now: int, cancelSet: bool,
    queue: seq<Item>, rowsSeen: nat, bytesSeen: nat, schema: Option<string>,
    pump: Pump, cancelPending: bool, consumer: Consumer,
    produced: seq<Batch>, exhausted: bool, yielded: seq<Batch>)

  // How a producer answers a cancellation thrown into it.
  datatype Reply = Raises | Ends | Swallows

  datatype Event =
    | Tick(later: nat) | SetCancel
    | StartPump | Deliver(batch: Batch) | EndOfProducer | ProducerRaises(code: int) | Unblock
    | CancelLands(reply: Reply)
    | Resume | Get | WaitExpires | Leave | CancelAgain | CleanupDone

  function Init(ctx: Context, now: int, cancelSet: bool): State {
    State(ctx, now, cancelSet, [], 0, 0, None, NotStarted, false, AtYield, [], false, [])
  }

  // ---------------------------------------------------------------- one event

  predicate Full(s: State) {
    0 < s.ctx.queueSize <= |s.queue|
  }

  predicate Expired(s: State) {
    s.ctx.deadline.Some? && s.ctx.deadline.value <= s.now
  }

  predicate Over(limit: Option<int>, seen: int) {
    limit.Some? && limit.value < seen
  }

  function StopReason(s: State): Error {
    if s.cancelSet then Cancelled else Timeout
  }

  function BudgetError(s: State): Error {
    if Over(s.ctx.maxRows, s.rowsSeen)
    then BudgetExceeded(Rows, s.ctx.maxRows.value, s.rowsSeen)
    else BudgetExceeded(Bytes, if s.ctx.maxBytes.Some? then s.ctx.maxBytes.value else 0, s.bytesSeen)
  }

  // `await queue.put(item)`: blocks on a full queue; a terminal item ends the pump.
  function Put(s: State, item: Item, inHandler: bool): State {
    if Full(s) then s.(pump := Blocked(item, inHandler))
    else s.(queue := s.queue + [item], pump := if item.Data? then Pulling else Finished)
  }

  // The pump's books after a batch: one that meets a stop reason is not counted.
  function Counted(s: State, b: Batch): State {
    var seen := s.(produced := s.produced + [b]);
    if s.cancelSet || Expired(s) then seen
    else seen.(rowsSeen := s.rowsSeen + |b.rows|, bytesSeen := s.bytesSeen + b.nbytes,
               schema := if s.schema.None? then Some(b.schema) else s.schema)
  }

  // What the pump puts on the queue for a batch.
  function Verdict(s: State, b: Batch): Item {
    var c := Counted(s, b);
    if s.cancelSet || Expired(s) then Fail(StopReason(s))
    else if Over(s.ctx.maxRows, c.rowsSeen) || Over(s.ctx.maxBytes, c.bytesSeen) then Fail(BudgetError(c))
    else Data(b)
  }

  function Received(s: State, b: Batch): State {
    Put(Counted(s, b), Verdict(s, b), false)
  }

  // The pending cancellation reaches the pump. A task that never ran just ends; an exception
  // in the loop runs the handler, which puts it on the same queue; one in the handler escapes.
  function Landed(s: State, reply: Reply): State {
    var t := s.(cancelPending := false);
    match s.pump
    case NotStarted => t.(pump := Finished)
    case Pulling =>
      (match reply
       case Raises => Put(t, Fail(TaskCancelled), true)
       case Ends => Put(t.(exhausted := true), Done, false)
       case Swallows => t)
    case Blocked(_, inHandler) =>
      if inHandler then t.(pump := Finished) else Put(t, Fail(TaskCancelled), true)
    case Finished => t
  }

  function BeginCleanup(s: State, outcome: Outcome): State {
    s.(consumer := Cleaning(outcome), cancelPending := !s.pump.Finished?)
  }

  function Taken(s: State): State
    requires s.queue != []
  {
    var t := s.(queue := s.queue[1..]);
    match s.queue[0]
    case Data(b) => t.(yielded := s.yielded + [b], consumer := AtYield)
    case Done => BeginCleanup(t, Normal)
    case Fail(e) => BeginCleanup(t, Raised(e))
  }

  predicate Enabled(s: State, e: Event) {
    match e
    case Tick(_) => true
    case SetCancel => true
    case StartPump => s.pump.NotStarted? && !s.cancelPending
    case Deliver(_) => s.pump.Pulling? && !s.cancelPending
    case EndOfProducer => s.pump.Pulling? && !s.cancelPending
    case ProducerRaises(_) => s.pump.Pulling? && !s.cancelPending
    case Unblock => s.pump.Blocked? && !Full(s) && !s.cancelPending
    case CancelLands(_) => s.cancelPending
    case Resume => s.consumer.AtYield?
    case Get => s.consumer.Waiting? && s.queue != []
    case WaitExpires => s.consumer.Waiting? && Expired(s)
    case Leave => s.consumer.AtYield? || s.consumer.Waiting?
    case CancelAgain => s.consumer.Cleaning? && !s.pump.Finished?
    case CleanupDone => s.consumer.Cleaning? && s.pump.Finished?
  }

  function Apply(s: State, e: Event): State {
    if !Enabled(s, e) then s else
    match e
    case Tick(later) => s.(now := s.now + later)
    case SetCancel => s.(cancelSet := true)
    case StartPump => s.(pump := Pulling)
    case Deliver(b) => Received(s, b)
    case EndOfProducer => Put(s.(exhausted := true), Done, false)
    case ProducerRaises(code) => Put(s, Fail(Producer(code)), true)
    case Unblock => Put(s, s.pump.item, s.pump.inHandler)
    case CancelLands(reply) => Landed(s, reply)
    case Resume => if Expired(s) then BeginCleanup(s, Raised(Timeout)) else s.(consumer := Waiting)
    case Get => Taken(s)
    case WaitExpires => BeginCleanup(s, Raised(Timeout))
    case Leave => BeginCleanup(s, Abandoned)
    case CancelAgain => s.(cancelPending := true)
    case CleanupDone => s.(consumer := Left(s.consumer.outcome))
  }

  function Exec(s: State, events: seq<Event>): State
    decreases |events|
  {
    if events == [] then s else Exec(Apply(s, events[0]), events[1..])
  }

  // ---------------------------------------------------------------- meaning

  function SumRows(bs: seq<Batch>): nat {
    if bs == [] then 0 else SumRows(bs[..|bs| - 1]) + |bs[|bs| - 1].rows|
  }

  function SumBytes(bs: seq<Batch>): nat {
    if bs == [] then 0 else SumBytes(bs[..|bs| - 1]) + bs[|bs| - 1].nbytes
  }

  function Batches(items: seq<Item>): seq<Batch> {
    if items == [] then []
    else (if items[0].Data? then [items[0].batch] else []) + Batches(items[1..])
  }

  function Pending(p: Pump): seq<Batch> {
    if p.Blocked? && p.item.Data? then [p.item.batch] else []
  }

  // Everything that has been, or still is to be, handed to the consumer.
  function Delivered(s: State): seq<Batch> {
    s.yielded + Batches(s.queue) + Pending(s.pump)
  }

  // The pump has neither met nor decided on an end yet.
  predicate Flowing(s: State) {
    s.pump.NotStarted? || s.pump.Pulling? || (s.pump.Blocked? && s.pump.item.Data?)
  }

  predicate WithinBudget(ctx: Context, bs: seq<Batch>) {
    bs == [] || (!Over(ctx.maxRows, SumRows(bs)) && !Over(ctx.maxBytes, SumBytes(bs)))
  }

  // A budget error names a limit of the context and a total over the batches seen that exceeds it.
  predicate HonestError(s: State, e: Error) {
    e.BudgetExceeded? ==>
      e.limit < e.observed &&
      if e.kind.Rows? then s.ctx.maxRows == Some(e.limit) && e.observed == SumRows(s.produced)
      else s.ctx.maxBytes == Some(e.limit) && e.observed == SumBytes(s.produced)
  }

  predicate HonestItem(s: State, item: Item) {
    match item
    case Data(_) => true
    case Done => s.exhausted && Delivered(s) == s.produced
    case Fail(e) => HonestError(s, e)
  }

  predicate HonestOutcome(s: State, o: Outcome) {
    match o
    case Normal => s.exhausted && s.yielded == s.produced && s.queue == [] && s.pump.Finished?
    case Raised(e) => HonestError(s, e) && (e.BudgetExceeded? ==> s.pump.Finished?)
    case Abandoned => true
  }

  // What has been, is and will be delivered, and the books about it.
  ghost predicate Items(s: State) {
    && Delivered(s) <= s.produced
    && (0 < s.ctx.queueSize ==> |s.queue| <= s.ctx.queueSize)
    && (forall i :: 0 <= i < |s.queue| - 1 ==> s.queue[i].Data?)
    && (s.queue != [] && !s.queue[|s.queue| - 1].Data? ==> s.pump.Finished?)
    && (forall i :: 0 <= i < |s.queue| ==> HonestItem(s, s.queue[i]))
    && (s.pump.Blocked? ==> HonestItem(s, s.pump.item))
    && WithinBudget(s.ctx, Delivered(s))
    && (Flowing(s) ==>
          && Delivered(s) == s.produced && !s.exhausted
          && s.rowsSeen == SumRows(s.produced) && s.bytesSeen == SumBytes(s.produced))
  }

  // How the two tasks stand to each other.
  ghost predicate Course(s: State) {
    && (s.cancelPending ==> s.consumer.Cleaning? && !s.pump.Finished?)
    && ((s.consumer.Cleaning? || s.consumer.Left?) ==> HonestOutcome(s, s.consumer.outcome))
    && (s.consumer.Left? ==> s.pump.Finished?)
  }

  ghost predicate Safe(s: State) {
    Items(s) && Course(s)
  }

  // ---------------------------------------------------------------- the invariant is kept

  lemma {:induction false} BatchesOfAppended(items: seq<Item>, last: Item)
    ensures Batches(items + [last]) == Batches(items) + if last.Data? then [last.batch] else []
  {
    if items != [] {
      BatchesOfAppended(items[1..], last);
      assert (items + [last])[1..] == items[1..] + [last];
    }
  }

  lemma SumsOfAppended(bs: seq<Batch>, b: Batch)
    ensures SumRows(bs + [b]) == SumRows(bs) + |b.rows|
    ensures SumBytes(bs + [b]) == SumBytes(bs) + b.nbytes
  {
    assert (bs + [b])[..|bs + [b]| - 1] == bs;
  }

  // A state in which the pump is about to put `item`: nothing of it is pending yet.
  ghost predicate ReadyToPut(s: State, item: Item) {
    var before := s.yielded + Batches(s.queue);
    && before + Pending(Blocked(item, true)) <= s.produced
    && (0 < s.ctx.queueSize ==> |s.queue| <= s.ctx.queueSize)
    && (forall i :: 0 <= i < |s.queue| ==> s.queue[i].Data?)
    && WithinBudget(s.ctx, before + Pending(Blocked(item, true)))
    && (item.Data? ==>
          && before + [item.batch] == s.produced && !s.exhausted
          && s.rowsSeen == SumRows(s.produced) && s.bytesSeen == SumBytes(s.produced))
    && (item.Done? ==> s.exhausted && before == s.produced)
    && (item.Fail? ==> HonestError(s, item.error))
    && !s.cancelPending
    && !s.consumer.Left?
    && (s.consumer.Cleaning? ==>
          match s.consumer.outcome
          case Normal => false
          case Raised(e) => !e.BudgetExceeded?
          case Abandoned => true)
  }

  lemma PutKeepsSafe(s: State, item: Item, inHandler: bool)
    requires ReadyToPut(s, item)
    ensures Safe(Put(s, item, inHandler))
  {
    hide SumRows, SumBytes, Batches;
    var t := Put(s, item, inHandler);
    var before := s.yielded + Batches(s.queue);
    BatchesOfAppended(s.queue, item);
    assert Delivered(t) == before + Pending(Blocked(item, true));
    if item.Done? { assert Delivered(t) == before; }
    assert forall i :: 0 <= i < |s.queue| ==> HonestItem(t, s.queue[i]);
  }

  lemma DeliverKeepsSafe(s: State, b: Batch)
    requires Safe(s) && Enabled(s, Deliver(b))
    ensures Safe(Received(s, b))
  {
    hide SumRows, SumBytes, Put, Batches, HonestItem;
    SumsOfAppended(s.produced, b);
    assert s.yielded + Batches(s.queue) + Pending(s.pump) == s.yielded + Batches(s.queue);
    PutKeepsSafe(Counted(s, b), Verdict(s, b), false);
  }

  // Withdrawing the pending batch of a cancelled put leaves a shorter prefix within the budget.
  lemma LandingKeepsSafe(s: State, reply: Reply)
    requires Safe(s) && Enabled(s, CancelLands(reply))
    ensures Safe(Landed(s, reply))
  {
    hide SumRows, SumBytes, Put, Batches;
    var t := s.(cancelPending := false);
    match s.pump
    case NotStarted =>
    case Pulling =>
      match reply {
        case Raises => PutKeepsSafe(t, Fail(TaskCancelled), true);
        case Ends => PutKeepsSafe(t.(exhausted := true), Done, false);
        case Swallows =>
      }
    case Blocked(item, inHandler) =>
      var before := s.yielded + Batches(s.queue);
      if item.Data? { SumsOfAppended(before, item.batch); }
      assert before + Pending(Blocked(Done, true)) == before;
      if inHandler {
        assert Delivered(Landed(s, reply)) == before;
      } else {
        PutKeepsSafe(t, Fail(TaskCancelled), true);
      }
    case Finished =>
  }

  lemma SameHonesty(s: State, t: State, item: Item)
    requires Delivered(t) == Delivered(s) && t.produced == s.produced && t.exhausted == s.exhausted && t.ctx == s.ctx
    ensures HonestItem(t, item) == HonestItem(s, item)
  {
  }

  lemma Regroup<T>(a: seq<T>, b: seq<T>, c: seq<T>, d: seq<T>)
    ensures a + (b + c) + d == (a + b) + c + d
  {
  }

  lemma TakingKeepsDelivered(s: State)
    requires s.queue != []
    ensures Delivered(Taken(s)) == Delivered(s)
    ensures !s.queue[0].Data? && |s.queue| == 1 ==> Delivered(s) == s.yielded + Pending(s.pump)
  {
    hide SumRows, SumBytes;
    var head := if s.queue[0].Data? then [s.queue[0].batch] else [];
    Regroup(s.yielded, head, Batches(s.queue[1..]), Pending(s.pump));
    assert Taken(s).yielded == s.yielded + head;
  }

  lemma GetKeepsSafe(s: State)
    requires Safe(s) && Enabled(s, Get)
    ensures Safe(Taken(s))
  {
    hide SumRows, SumBytes, WithinBudget, Batches, Delivered;
    var t := Taken(s);
    TakingKeepsDelivered(s);
    assert HonestItem(s, s.queue[0]);
    assert !s.queue[0].Data? ==> |s.queue| == 1 && s.pump.Finished?;
    assert s.queue[0].Done? ==> s.yielded == s.produced by {
      if s.queue[0].Done? { assert s.yielded + Pending(s.pump) == s.yielded; }
    }
    forall i | 0 <= i < |t.queue| ensures HonestItem(t, t.queue[i]) {
      SameHonesty(s, t, s.queue[i + 1]);
    }
    if t.pump.Blocked? { SameHonesty(s, t, t.pump.item); }
  }

  lemma PumpStepKeepsSafe(s: State, e: Event)
    requires Safe(s) && Enabled(s, e)
    requires e.EndOfProducer? || e.ProducerRaises? || e.Unblock?
    ensures Safe(Apply(s, e))
  {
    hide SumRows, SumBytes, Put, Batches;
    match e
    case EndOfProducer => PutKeepsSafe(s.(exhausted := true), Done, false);
    case ProducerRaises(code) => PutKeepsSafe(s, Fail(Producer(code)), true);
    case Unblock => PutKeepsSafe(s, s.pump.item, s.pump.inHandler);
  }

  // Events that move no item: time, the flag, the consumer's comings and goings.
  predicate IsQuiet(e: Event) {
    e.Tick? || e.SetCancel? || e.StartPump? || e.Resume? || e.WaitExpires? || e.Leave? || e.CancelAgain? || e.CleanupDone?
  }

  // No item moves; at most the pump starts.
  predicate SameItems(s: State, t: State) {
    && t.ctx == s.ctx && t.queue == s.queue && t.yielded == s.yielded && t.produced == s.produced
    && t.exhausted == s.exhausted && t.rowsSeen == s.rowsSeen && t.bytesSeen == s.bytesSeen
    && (t.pump == s.pump || (s.pump.NotStarted? && t.pump.Pulling?))
  }

  lemma SameItemsKept(s: State, t: State)
    requires Items(s) && SameItems(s, t)
    ensures Items(t)
  {
    hide SumRows, SumBytes, Batches, WithinBudget, HonestItem;
    assert Delivered(t) == Delivered(s);
    forall item: Item ensures HonestItem(t, item) == HonestItem(s, item) {
      SameHonesty(s, t, item);
    }
  }

  lemma QuietCourse(s: State, e: Event)
    requires Course(s) && Enabled(s, e) && IsQuiet(e)
    ensures Course(Apply(s, e)) && SameItems(s, Apply(s, e))
  {
    hide SumRows, SumBytes, Put, Received, Landed, Taken;
  }

  lemma QuietStepKeepsSafe(s: State, e: Event)
    requires Safe(s) && Enabled(s, e) && IsQuiet(e)
    ensures Safe(Apply(s, e))
  {
    hide Items, Course, Apply, SameItems;
    QuietCourse(s, e);
    SameItemsKept(s, Apply(s, e));
  }

  lemma StepKeepsSafe(s: State, e: Event)
    requires Safe(s)
    ensures Safe(Apply(s, e))
  {
    hide Safe, Put, Received, Landed, Taken;
    if Enabled(s, e) {
      match e
      case Deliver(b) => DeliverKeepsSafe(s, b);
      case EndOfProducer => PumpStepKeepsSafe(s, e);
      case ProducerRaises(_) => PumpStepKeepsSafe(s, e);
      case Unblock => PumpStepKeepsSafe(s, e);
      case CancelLands(reply) => LandingKeepsSafe(s, reply);
      case Get => GetKeepsSafe(s);
      case _ => QuietStepKeepsSafe(s, e);
    }
  }

  /** Every state of every interleaving is safe: what was and will be delivered is a prefix of
      what the producer made, within the row and byte limits; the queue respects its bound; a
      terminal item is alone at the end of the queue and the pump has ended behind it. */
  lemma {:induction false} AlwaysSafe(ctx: Context, now: int, cancelSet: bool, events: seq<Event>)
    ensures Safe(Exec(Init(ctx, now, cancelSet), events))
  {
    ExecKeepsSafe(Init(ctx, now, cancelSet), events);
  }

  lemma {:induction false} ExecKeepsSafe(s: State, events: seq<Event>)
    requires Safe(s)
    ensures Safe(Exec(s, events))
    decreases |events|
  {
    if events != [] {
      StepKeepsSafe(s, events[0]);
      ExecKeepsSafe(Apply(s, events[0]), events[1..]);
    }
  }

  // ---------------------------------------------------------------- all or nothing

  // Cancel flag, deadline, budget or producer error: an end other than exhaustion is under way.
  ghost predicate StopDecided(s: State) {
    || (s.pump.Blocked? && s.pump.item.Fail?)
    || (s.queue != [] && s.queue[|s.queue| - 1].Fail?)
    || ((s.consumer.Cleaning? || s.consumer.Left?) && !s.consumer.outcome.Normal?)
  }

  lemma StopIsFinal(s: State, e: Event)
    requires Safe(s) && StopDecided(s)
    ensures StopDecided(Apply(s, e))
  {
    hide SumRows, SumBytes, Batches, Delivered, WithinBudget, HonestItem, HonestError, Verdict;
    if Enabled(s, e) && e.Get? && |s.queue| > 1 {
      var t := Taken(s);
      assert t.queue[|t.queue| - 1] == s.queue[|s.queue| - 1];
    }
  }

  /** Once a stop is decided, no continuation ends the stream normally. */
  lemma {:induction false} StopAlwaysSurfaces(s: State, events: seq<Event>)
    requires Safe(s) && StopDecided(s)
    ensures var t := Exec(s, events);
      t.consumer.Left? ==> t.consumer.outcome.Raised? || t.consumer.outcome.Abandoned?
    decreases |events|
  {
    if events != [] {
      StepKeepsSafe(s, events[0]);
      StopIsFinal(s, events[0]);
      StopAlwaysSurfaces(Apply(s, events[0]), events[1..]);
    }
  }

  // The event is a batch that meets a set flag, a passed deadline or a spent budget, an exception of
  // the producer, a consumer that finds the deadline passed, or one that leaves.
  predicate Stops(s: State, e: Event) {
    match e
    case Deliver(b) =>
      || s.cancelSet || Expired(s)
      || Over(s.ctx.maxRows, SumRows(s.produced + [b])) || Over(s.ctx.maxBytes, SumBytes(s.produced + [b]))
    case ProducerRaises(_) => true
    case Resume => Expired(s)
    case WaitExpires => true
    case Leave => true
    case _ => false
  }

  /** Each of them decides a stop, and while the pump is on its way to the end nothing else does. */
  lemma StopIsDecided(s: State, e: Event)
    requires Safe(s) && Enabled(s, e) && !s.cancelPending
    ensures Stops(s, e) ==> StopDecided(Apply(s, e))
    ensures Flowing(s) && !StopDecided(s) && !Stops(s, e) ==> !StopDecided(Apply(s, e))
  {
    hide SumRows, SumBytes, Batches, WithinBudget, Delivered, HonestItem;
    if e.Deliver? { SumsOfAppended(s.produced, e.batch); }
  }

  /** A stream that ends normally ended because the producer did, and gave out all its batches. */
  lemma NormalEndIsComplete(ctx: Context, now: int, cancelSet: bool, events: seq<Event>)
    ensures var s := Exec(Init(ctx, now, cancelSet), events);
      s.consumer == Left(Normal) ==> s.exhausted && s.yielded == s.produced
  {
    AlwaysSafe(ctx, now, cancelSet, events);
  }

  // ---------------------------------------------------------------- cleanup

  // The consumer is on its way out and its cancellation of the pump has been asked for.
  predicate Draining(s: State) {
    s.consumer.Cleaning? && (s.pump.Finished? || s.cancelPending)
  }

  // Whatever makes the consumer go, its going asks for the cancellation of a pump still at work.
  lemma GoingAsksForCancellation(s: State, e: Event)
    requires Safe(s) && (s.consumer.AtYield? || s.consumer.Waiting?)
    ensures Apply(s, e).consumer.Cleaning? ==> Draining(Apply(s, e))
    ensures !Apply(s, e).consumer.Left?
  {
    hide SumRows, SumBytes, Batches;
  }

  // A full queue that nobody will empty, and a pump that still has its handler's put to do.
  predicate NoRoomForHandler(s: State) {
    Full(s) && (s.pump.Pulling? || (s.pump.Blocked? && !s.pump.inHandler))
  }

  // The pump is inside a put that can never go through.
  predicate Wedged(s: State) {
    s.consumer.Cleaning? && Full(s) &&
    ((s.cancelPending && NoRoomForHandler(s)) || (!s.cancelPending && s.pump.Blocked?))
  }

  // The producer does not swallow cancellations, and nobody cancels the cleanup itself.
  predicate Cooperative(events: seq<Event>) {
    forall i :: 0 <= i < |events| ==> events[i] != CancelLands(Swallows) && events[i] != CancelAgain
  }

  // The tasks' own moves, as opposed to the passing of time and the setting of the flag.
  predicate IsMove(e: Event) {
    !e.Tick? && !e.SetCancel?
  }

  ghost predicate AtRest(s: State) {
    forall e: Event :: IsMove(e) && e != CancelLands(Swallows) && e != CancelAgain ==> !Enabled(s, e)
  }

  function StepsLeft(s: State): nat {
    if s.consumer.Left? then 0 else if s.pump.Finished? then 1 else 2
  }

  function MovesTaken(s: State, events: seq<Event>): nat
    decreases |events|
  {
    if events == [] then 0
    else (if IsMove(events[0]) && Enabled(s, events[0]) then 1 else 0) + MovesTaken(Apply(s, events[0]), events[1..])
  }

  lemma OneWedgedStep(s: State, e: Event)
    requires Safe(s) && Wedged(s) && e != CancelLands(Swallows) && e != CancelAgain
    ensures Wedged(Apply(s, e))
  {
    hide SumRows, SumBytes, Batches;
  }

  lemma {:induction false} WedgedForever(s: State, events: seq<Event>)
    requires Safe(s) && Wedged(s) && Cooperative(events)
    ensures Wedged(Exec(s, events))
    decreases |events|
  {
    hide Safe, Wedged;
    if events != [] {
      StepKeepsSafe(s, events[0]);
      OneWedgedStep(s, events[0]);
      WedgedForever(Apply(s, events[0]), events[1..]);
    }
  }

  lemma OneDrainingStep(s: State, e: Event)
    requires Safe(s) && (Draining(s) || s.consumer.Left?) && !Wedged(s)
    requires e != CancelLands(Swallows) && e != CancelAgain
    ensures var t := Apply(s, e);
      && (Draining(t) || t.consumer.Left?) && !Wedged(t)
      && (if IsMove(e) && Enabled(s, e) then 1 else 0) + StepsLeft(t) == StepsLeft(s)
  {
    hide SumRows, SumBytes, Batches;
  }

  lemma {:induction false} DrainsInTwoMoves(s: State, events: seq<Event>)
    requires Safe(s) && (Draining(s) || s.consumer.Left?) && !Wedged(s) && Cooperative(events)
    ensures var t := Exec(s, events);
      && (Draining(t) || t.consumer.Left?)
      && MovesTaken(s, events) + StepsLeft(t) == StepsLeft(s)
      && (AtRest(t) ==> t.consumer.Left?)
    decreases |events|
  {
    hide Safe, Wedged;
    if events != [] {
      StepKeepsSafe(s, events[0]);
      OneDrainingStep(s, events[0]);
      DrainsInTwoMoves(Apply(s, events[0]), events[1..]);
    } else if !s.consumer.Left? {
      assert IsMove(CleanupDone) && IsMove(CancelLands(Raises));
      assert Enabled(s, CleanupDone) || Enabled(s, CancelLands(Raises));
    }
  }

  /** Where the cancellation of `_cleanup` lands decides whether it ends. With no room for the
      handler's put the stream never ends, whatever happens; in every other state each further
      move brings the end nearer, two moves at most are left, and a stream at rest has ended. */
  lemma CleanupEndsIffHandlerHasRoom(ctx: Context, now: int, cancelSet: bool, events: seq<Event>, more: seq<Event>)
    requires Draining(Exec(Init(ctx, now, cancelSet), events)) && Cooperative(more)
    ensures var s := Exec(Init(ctx, now, cancelSet), events);
      var t := Exec(s, more);
      if NoRoomForHandler(s) then !t.consumer.Left?
      else MovesTaken(s, more) <= 2 && (AtRest(t) ==> t.consumer.Left? && t.pump.Finished?)
  {
    AlwaysSafe(ctx, now, cancelSet, events);
    var s := Exec(Init(ctx, now, cancelSet), events);
    if NoRoomForHandler(s) {
      WedgedForever(s, more);
    } else {
      DrainsInTwoMoves(s, more);
      ExecKeepsSafe(s, more);
    }
  }

  // A second cancellation, of the cleanup itself, gets the pump out of its handler.
  lemma SecondCancellationFrees(s: State)
    requires Safe(s) && Wedged(s) && !s.cancelPending && s.pump.inHandler
    ensures Exec(s, [CancelAgain, CancelLands(Raises), CleanupDone]).consumer == Left(s.consumer.outcome)
  {
    hide Safe;
    var s1 := Apply(s, CancelAgain);
    var s2 := Apply(s1, CancelLands(Raises));
    assert Exec(s, [CancelAgain, CancelLands(Raises), CleanupDone])
        == Exec(s1, [CancelLands(Raises), CleanupDone])
        == Exec(s2, [CleanupDone])
        == Exec(Apply(s2, CleanupDone), []);
  }

  function FillAndLeave(b: Batch, n: nat): seq<Event> {
    if n == 0 then [Leave] else [Deliver(b)] + FillAndLeave(b, n - 1)
  }

  // The pump is at work for a consumer that does not take, and `n` slots are free.
  ghost predicate Filling(s: State, ctx: Context, n: nat) {
    && s.ctx == ctx && ctx.maxRows == None && ctx.maxBytes == None && |s.queue| + n == ctx.queueSize
    && s.pump == Pulling && s.consumer == AtYield && !s.cancelPending && !s.cancelSet && !Expired(s)
  }

  lemma FillOne(s: State, ctx: Context, b: Batch, n: nat)
    requires Filling(s, ctx, n) && n > 0
    ensures Filling(Apply(s, Deliver(b)), ctx, n - 1)
  {
  }

  // The consumer leaves a queue it never took from.
  lemma LeaveFull(s: State, ctx: Context)
    requires Filling(s, ctx, 0) && ctx.queueSize > 0
    ensures var t := Apply(s, Leave); Draining(t) && NoRoomForHandler(t)
  {
  }

  lemma {:induction false} FillThenLeave(s: State, ctx: Context, b: Batch, n: nat)
    requires Filling(s, ctx, n) && ctx.queueSize > 0
    ensures var t := Exec(s, FillAndLeave(b, n)); Draining(t) && NoRoomForHandler(t)
    decreases n
  {
    hide Filling, Apply, Draining, NoRoomForHandler;
    var events := FillAndLeave(b, n);
    if n == 0 {
      LeaveFull(s, ctx);
      assert Exec(s, events) == Exec(Apply(s, Leave), []);
    } else {
      FillOne(s, ctx, b, n);
      assert events[0] == Deliver(b) && events[1..] == FillAndLeave(b, n - 1);
      FillThenLeave(Apply(s, Deliver(b)), ctx, b, n - 1);
    }
  }

  /** Every bounded stream can get there: fill the queue, then let the consumer leave. */
  lemma BoundedStreamCanWedge(ctx: Context, now: int, b: Batch)
    requires ctx.queueSize > 0 && ctx.maxRows == None && ctx.maxBytes == None
    requires ctx.deadline.Some? ==> now < ctx.deadline.value
    ensures var s := Exec(Init(ctx, now, false), [StartPump] + FillAndLeave(b, ctx.queueSize));
      Draining(s) && NoRoomForHandler(s)
  {
    var rest := FillAndLeave(b, ctx.queueSize);
    assert ([StartPump] + rest)[1..] == rest;
    FillThenLeave(Apply(Init(ctx, now, false), StartPump), ctx, b, ctx.queueSize);
  }

  // ---------------------------------------------------------------- no other way to hang

  // While the consumer is at it, a pump that has ended has left a terminal item to be taken.
  ghost predicate EndQueued(s: State) {
    (s.consumer.AtYield? || s.consumer.Waiting?) && s.pump.Finished? ==> s.queue != [] && !s.queue[|s.queue| - 1].Data?
  }

  lemma StepKeepsEndQueued(s: State, e: Event)
    requires Safe(s) && EndQueued(s)
    ensures EndQueued(Apply(s, e))
  {
    hide SumRows, SumBytes, Batches, Delivered, WithinBudget, HonestItem, HonestOutcome, Counted, Verdict;
    if Enabled(s, e) && e.Get? && |s.queue| > 1 { assert s.queue[1..][|s.queue| - 2] == s.queue[|s.queue| - 1]; }
  }

  lemma {:induction false} AlwaysEndQueued(s: State, events: seq<Event>)
    requires Safe(s) && EndQueued(s)
    ensures EndQueued(Exec(s, events))
    decreases |events|
  {
    if events != [] {
      StepKeepsSafe(s, events[0]);
      StepKeepsEndQueued(s, events[0]);
      AlwaysEndQueued(Apply(s, events[0]), events[1..]);
    }
  }

  // What the two tasks and the producer do by themselves: not the consumer's leaving, nor a second
  // cancellation, nor a producer that swallows one.
  predicate OwnMove(e: Event) {
    IsMove(e) && !e.Leave? && e != CancelAgain && e != CancelLands(Swallows)
  }

  // The move a stream that has not ended and is not wedged has.
  function NextMove(s: State): Event {
    if s.consumer.AtYield? then Resume
    else if s.consumer.Waiting? && s.queue != [] then Get
    else if s.pump.Finished? then CleanupDone
    else if s.cancelPending then CancelLands(Raises)
    else if s.pump.NotStarted? then StartPump
    else if s.pump.Pulling? then EndOfProducer
    else Unblock
  }

  lemma SomeMove(s: State)
    requires Course(s) && EndQueued(s) && !s.consumer.Left? && !Wedged(s)
    ensures OwnMove(NextMove(s)) && Enabled(s, NextMove(s))
  {
  }

  /** Streaming or cleaning up, a stream that has not ended and is not wedged has a move: a full queue
      under a consumer that has gone is the only way to hang. */
  lemma MovesUnlessEndedOrWedged(ctx: Context, now: int, cancelSet: bool, events: seq<Event>)
    ensures var s := Exec(Init(ctx, now, cancelSet), events);
      && (s.consumer.Left? || Wedged(s) || (OwnMove(NextMove(s)) && Enabled(s, NextMove(s))))
      && !(s.consumer.Left? && Wedged(s))
  {
    AlwaysSafe(ctx, now, cancelSet, events);
    AlwaysEndQueued(Init(ctx, now, cancelSet), events);
    var s := Exec(Init(ctx, now, cancelSet), events);
    hide Exec, Items, Course, EndQueued, Enabled, NextMove, OwnMove;
    if !s.consumer.Left? && !Wedged(s) { SomeMove(s); }
  }
}
