/** The stream as the object that the library builds: fields changed in place by the uninterrupted
    stretches of its two tasks. The clock and the cancel flag belong to the world outside and are
    parameters. Every method is the matching event of the protocol. */
module ArrowStreamObject {
  import opened Wrappers
  import opened ArrowStream

  class CancellableArrowStream {
    const ctx: Context
    var queue: seq<Item>
    var rowsSeen: nat
    var bytesSeen: nat
    var schema: Option<string>
    var pump: Pump
    var cancelPending: bool
    var consumer: Consumer
    ghost var produced: seq<Batch>
    ghost var exhausted: bool
    ghost var yielded: seq<Batch>

    ghost function View(now: int, cancelSet: bool): State
      reads this
    {
      State(ctx, now, cancelSet, queue, rowsSeen, bytesSeen, schema, pump, cancelPending, consumer,
            produced, exhausted, yielded)
    }

    constructor (ctx: Context)
      ensures forall now, cancelSet :: View(now, cancelSet) == Init(ctx, now, cancelSet)
    {
      this.ctx := ctx;
      queue, rowsSeen, bytesSeen, schema := [], 0, 0, None;
      pump, cancelPending, consumer := NotStarted, false, AtYield;
      produced, exhausted, yielded := [], false, [];
    }

    predicate ShouldStop(now: int, cancelSet: bool) {
      if cancelSet then true
      else ctx.deadline.Some? && ctx.deadline.value <= now
    }

    predicate BudgetViolated()
      reads this
    {
      if ctx.maxRows.Some? && ctx.maxRows.value < rowsSeen then true
      else ctx.maxBytes.Some? && ctx.maxBytes.value < bytesSeen
    }

    // `await self._queue.put(item)` as far as it gets without waiting.
    method PutItem(item: Item, inHandler: bool)
      modifies this`queue, this`pump
      ensures if 0 < ctx.queueSize <= |old(queue)|
              then pump == Blocked(item, inHandler) && queue == old(queue)
              else pump == (if item.Data? then Pulling else Finished) && queue == old(queue) + [item]
    {
      if 0 < ctx.queueSize <= |queue| {
        pump := Blocked(item, inHandler);
      } else {
        queue := queue + [item];
        if item.Data? { pump := Pulling; } else { pump := Finished; }
      }
    }

    // What the pump's loop makes of a batch: itself, a stop reason or a budget error.
    method Admit(b: Batch, now: int, cancelSet: bool) returns (item: Item)
      modifies this`produced, this`rowsSeen, this`bytesSeen, this`schema
      ensures View(now, cancelSet) == Counted(old(View(now, cancelSet)), b)
      ensures item == Verdict(old(View(now, cancelSet)), b)
    {
      produced := produced + [b];
      if ShouldStop(now, cancelSet) {
        return Fail(if cancelSet then Cancelled else Timeout);
      }
      rowsSeen := rowsSeen + |b.rows|;
      bytesSeen := bytesSeen + b.nbytes;
      if schema.None? { schema := Some(b.schema); }
      if BudgetViolated() {
        return Fail(if ctx.maxRows.Some? && ctx.maxRows.value < rowsSeen
                    then BudgetExceeded(Rows, ctx.maxRows.value, rowsSeen)
                    else BudgetExceeded(Bytes, ctx.maxBytes.value, bytesSeen));
      }
      return Data(b);
    }

    // One turn of the pump's loop: the producer hands over a batch.
    method PumpBatch(b: Batch, now: int, cancelSet: bool)
      requires pump.Pulling? && !cancelPending
      modifies this
      ensures View(now, cancelSet) == Apply(old(View(now, cancelSet)), Deliver(b))
    {
      var item := Admit(b, now, cancelSet);
      hide Counted, Verdict;
      PutItem(item, false);
    }

    method PumpExhausted(now: int, cancelSet: bool)
      requires pump.Pulling? && !cancelPending
      modifies this
      ensures View(now, cancelSet) == Apply(old(View(now, cancelSet)), EndOfProducer)
    {
      exhausted := true;
      PutItem(Done, false);
    }

    method PumpRaised(code: int, now: int, cancelSet: bool)
      requires pump.Pulling? && !cancelPending
      modifies this
      ensures View(now, cancelSet) == Apply(old(View(now, cancelSet)), ProducerRaises(code))
    {
      PutItem(Fail(Producer(code)), true);
    }

    // A put that had to wait finds a free slot.
    method PumpUnblocked(now: int, cancelSet: bool)
      requires pump.Blocked? && !cancelPending && !(0 < ctx.queueSize <= |queue|)
      modifies this
      ensures View(now, cancelSet) == Apply(old(View(now, cancelSet)), Unblock)
    {
      PutItem(pump.item, pump.inHandler);
    }

    // The cancellation asked for by `Cleanup` is thrown into the pump.
    method PumpCancelled(reply: Reply, now: int, cancelSet: bool)
      requires cancelPending
      modifies this`pump, this`queue, this`cancelPending, this`exhausted
      ensures View(now, cancelSet) == Apply(old(View(now, cancelSet)), CancelLands(reply))
    {
      ghost var s := View(now, cancelSet);
      assert Apply(s, CancelLands(reply)) == Landed(s, reply);
      hide Apply, Enabled;
      cancelPending := false;
      if pump.NotStarted? || (pump.Blocked? && pump.inHandler) {
        pump := Finished;
      } else if pump.Blocked? || (pump.Pulling? && reply.Raises?) {
        PutItem(Fail(TaskCancelled), true);
      } else if pump.Pulling? && reply.Ends? {
        exhausted := true;
        PutItem(Done, false);
      }
    }

    // The consumer asks for the next item: an expired deadline is not waited for.
    method NextItem(now: int, cancelSet: bool)
      requires consumer.AtYield?
      modifies this
      ensures View(now, cancelSet) == Apply(old(View(now, cancelSet)), Resume)
    {
      if ctx.deadline.Some? && ctx.deadline.value - now <= 0 {
        Cleanup(Raised(Timeout));
      } else {
        consumer := Waiting;
      }
    }

    // The item arrives: it is yielded, ends the generator, or is raised.
    method TakeItem(now: int, cancelSet: bool)
      requires consumer.Waiting? && queue != []
      modifies this
      ensures View(now, cancelSet) == Apply(old(View(now, cancelSet)), Get)
    {
      var item := queue[0];
      queue := queue[1..];
      match item {
        case Data(b) =>
          yielded := yielded + [b];
          consumer := AtYield;
        case Done => Cleanup(Normal);
        case Fail(e) => Cleanup(Raised(e));
      }
    }

    // The first half of `_cleanup`: cancel a pump that is still at work.
    method Cleanup(outcome: Outcome)
      modifies this`consumer, this`cancelPending
      ensures consumer == Cleaning(outcome) && cancelPending == !pump.Finished?
    {
      cancelPending := false;
      if !pump.Finished? { cancelPending := true; }
      consumer := Cleaning(outcome);
    }
  }
}
