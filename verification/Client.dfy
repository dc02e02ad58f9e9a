/** `FedSQLClient.execute_to_table`: drain the stream into one table. */
module Client {
  import opened Wrappers
  import opened ArrowStream

  datatype Table = Table(schema: Option<string>, rows: seq<int>)

  datatype ClientError = FromStream(error: Error) | SchemaMismatch

  function Flatten(bs: seq<Batch>): seq<int> {
    if bs == [] then [] else Flatten(bs[..|bs| - 1]) + bs[|bs| - 1].rows
  }

  predicate SameSchema(bs: seq<Batch>) {
    forall i :: 0 <= i < |bs| ==> bs[i].schema == bs[0].schema
  }

  // The table of a sequence of batches, all of which must have the schema of the first.
  function TableOf(bs: seq<Batch>): Result<Table, ClientError> {
    if bs == [] then Ok(Table(None, []))
    else if SameSchema(bs) then Ok(Table(Some(bs[0].schema), Flatten(bs)))
    else Err(SchemaMismatch)
  }

  // What a caller of `execute_to_table` gets from a stream that gave out `yielded` and then ended.
  function Answer(yielded: seq<Batch>, end: Outcome): Result<Table, ClientError> {
    match end
    case Normal => TableOf(yielded)
    case Raised(e) => Err(FromStream(e))
    case Abandoned => Err(FromStream(TaskCancelled))
  }

  method ExecuteToTable(yielded: seq<Batch>, end: Outcome) returns (r: Result<Table, ClientError>)
    ensures r == Answer(yielded, end)
  {
    var rows: seq<int> := [];
    var schema: Option<string> := None;
    var uniform := true;
    for i := 0 to |yielded|
      invariant rows == Flatten(yielded[..i])
      invariant if i == 0 then schema == None else schema == Some(yielded[0].schema)
      invariant uniform <==> SameSchema(yielded[..i])
    {
      var batch := yielded[i];
      if schema.None? { schema := Some(batch.schema); }
      assert yielded[..i + 1][..i] == yielded[..i];
      assert forall k :: 0 <= k < i ==> yielded[..i][k] == yielded[..i + 1][k];
      uniform := uniform && batch.schema == schema.value;
      rows := rows + batch.rows;
    }
    assert yielded[..|yielded|] == yielded;
    match end {
      case Raised(e) => return Err(FromStream(e));
      case Abandoned => return Err(FromStream(TaskCancelled));
      case Normal =>
    }
    if schema.None? { return Ok(Table(None, [])); }
    if !uniform { return Err(SchemaMismatch); }
    return Ok(Table(schema, rows));
  }

  lemma {:induction false} FlattenCountsRows(bs: seq<Batch>)
    ensures |Flatten(bs)| == SumRows(bs)
  {
    if bs != [] { FlattenCountsRows(bs[..|bs| - 1]); }
  }

  /** All or nothing. Whatever the interleaving, a table is returned only when the producer ended
      by itself, and it then is the concatenation of every batch made, within the row budget;
      any other end is an error. With one schema throughout, a normal end always gives the table. */
  lemma AllOrNothing(ctx: Context, now: int, cancelSet: bool, events: seq<Event>)
    ensures var s := Exec(Init(ctx, now, cancelSet), events);
      s.consumer.Left? ==>
        var r := Answer(s.yielded, s.consumer.outcome);
        && (r.Ok? ==>
              && s.exhausted && r.value.rows == Flatten(s.produced)
              && (s.produced != [] ==> r.value.schema == Some(s.produced[0].schema) && SameSchema(s.produced))
              && (s.ctx.maxRows.Some? && s.produced != [] ==> |r.value.rows| <= s.ctx.maxRows.value))
        && (s.consumer.outcome.Normal? && SameSchema(s.produced) ==> r.Ok?)
  {
    AlwaysSafe(ctx, now, cancelSet, events);
    var s := Exec(Init(ctx, now, cancelSet), events);
    if s.consumer == Left(Normal) {
      assert Delivered(s) == s.yielded;
      FlattenCountsRows(s.produced);
    }
  }

  /** No shorter table. Once any batch has met a set flag, a passed deadline or a spent budget, the
      producer has raised, or the consumer has found the deadline passed or has left, no
      continuation gives a table. */
  lemma StopNeverGivesATable(ctx: Context, now: int, cancelSet: bool, events: seq<Event>, e: Event, more: seq<Event>)
    requires var s := Exec(Init(ctx, now, cancelSet), events); Enabled(s, e) && !s.cancelPending && Stops(s, e)
    ensures var t := Exec(Apply(Exec(Init(ctx, now, cancelSet), events), e), more);
      t.consumer.Left? ==> Answer(t.yielded, t.consumer.outcome).Err?
  {
    AlwaysSafe(ctx, now, cancelSet, events);
    var s := Exec(Init(ctx, now, cancelSet), events);
    StopIsDecided(s, e);
    StepKeepsSafe(s, e);
    StopAlwaysSurfaces(Apply(s, e), more);
  }
}
