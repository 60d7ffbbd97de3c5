/** The trail context of `hived.trail`: a correlation id, a live flag and the
 queue that trace records go to, kept for the calling execution context, plus
 the two emitters `trace` and `trace_exception`.

 The clock, the process name and the global `TRACING_DISABLED` switch are
 inputs (`Environment`); whether the bound queue's `put` raises is an input
 too. A trace either publishes one record, is skipped, or fails; a failure
 is a value here where the source raises.
 */
module Trail {
  import opened Outcomes
  import opened Messages
  import Tracing
  import IsoTime

  /** The queue object bound by `set_queue`. */
  datatype Sink = Sink(name: string)

  /** The attributes of `_local` for one execution context. */
  datatype Context = Context(id: Option<string>, live: bool, queue: Option<Sink>)

  /** `get_id()`: the id of the current trail. */
  function GetId(ctx: Context): Option<string> {
    ctx.id
  }

  /** `set_trail(id_, live)`: starts a trail; a falsy id is replaced by a
      generated one (`draw` is what `generate_id` returns). The bound queue
      is kept. */
  function SetTrail(ctx: Context, id: Option<string>, live: bool, draw: Tracing.Uuid): (r: Context)
    ensures Tracing.Truthy(GetId(r))
    ensures Tracing.Truthy(id) ==> GetId(r) == id
    ensures !Tracing.Truthy(id) ==> GetId(r) == Some(Tracing.GenerateId(draw))
    ensures r.live == live
    ensures r.queue == ctx.queue
  {
    Context(if Tracing.Truthy(id) then id else Some(Tracing.GenerateId(draw)), live, ctx.queue)
  }

  /** `set_trail()` with its defaults: no id and a falsy live flag. */
  function SetTrailDefault(ctx: Context, draw: Tracing.Uuid): (r: Context)
    ensures GetId(r) == Some(Tracing.GenerateId(draw))
    ensures !r.live
    ensures r.queue == ctx.queue
  {
    SetTrail(ctx, None, false, draw)
  }

  /** `set_queue(queue)`: binds the sink for trace records, nothing else changes. */
  function SetQueue(ctx: Context, queue: Sink): (r: Context)
    ensures r.queue == Some(queue)
    ensures r.id == ctx.id && r.live == ctx.live
  {
    ctx.(queue := Some(queue))
  }

  /** What the process observes at the time of a trace. */
  datatype Environment = Environment(now: IsoTime.DateTime, process: string, tracingDisabled: bool)

  /** One `trace(type_, **fields)` call. */
  datatype Request = Request(kind: EventType, fields: map<string, Value>)

  /** Why a trace raised: no queue was ever bound, or the queue's `put` raised. */
  datatype Failure = NoQueueBound | TransportFailed(error: Error)

  datatype TraceResult =
    | Skipped
    | Sent(sink: Sink, put: Put)
    | Failed(failure: Failure)

  const TraceRoutingKey := "trace"
  const TraceExchange := "trail"

  /** The body of a trace record: `{time, type, process, data}`. */
  function TraceRecord(env: Environment, req: Request): Value
    requires IsoTime.Valid(env.now)
  {
    Dict(map[
      "time" := Str(IsoTime.Format(env.now)),
      "type" := Kind(req.kind),
      "process" := Str(env.process),
      "data" := Dict(req.fields)])
  }

  /** A publication that a trace consumer can read: sent with routing key
      `trace` on exchange `trail`, a body holding exactly the four keys, a
      `time` that parses as an ISO-8601 timestamp and a mapping as `data`. */
  predicate WellFormedTrace(p: Put) {
    && p.routingKey == TraceRoutingKey
    && p.exchange == TraceExchange
    && p.body.Dict?
    && p.body.entries.Keys == {"time", "type", "process", "data"}
    && p.body.entries["time"].Str?
    && IsoTime.Parse(p.body.entries["time"].s).Some?
    && p.body.entries["type"].Kind?
    && p.body.entries["process"].Str?
    && p.body.entries["data"].Dict?
  }

  /** `trace(type_, **fields)`. `transport` is how the bound queue's `put`
      ends: returning, or raising an error that `trace` lets through. */
  function Trace(ctx: Context, env: Environment, req: Request, transport: Result<()>): (r: TraceResult)
    requires IsoTime.Valid(env.now)
    // the global switch turns tracing into a no-op
    ensures env.tracingDisabled <==> r.Skipped?
    ensures r.Sent? <==> !env.tracingDisabled && ctx.queue.Some? && transport.Returned?
    // the record goes to the bound queue and carries the request and the environment
    ensures r.Sent? ==> && r.sink == ctx.queue.value
                        && WellFormedTrace(r.put)
                        && r.put.body.entries["type"] == Kind(req.kind)
                        && r.put.body.entries["data"] == Dict(req.fields)
                        && r.put.body.entries["process"] == Str(env.process)
                        && IsoTime.Parse(r.put.body.entries["time"].s) == Some(env.now)
    // failures are not suppressed here
    ensures r.Failed? && ctx.queue.None? ==> r.failure == NoQueueBound
    ensures r.Failed? && ctx.queue.Some? ==> transport.Raised? && r.failure == TransportFailed(transport.error)
  {
    if env.tracingDisabled then Skipped
    else if ctx.queue.None? then Failed(NoQueueBound)
    else
      var put := Put(TraceRecord(env, req), TraceRoutingKey, TraceExchange);
      IsoTime.ParseFormat(env.now);
      match transport
      case Returned(_) => Sent(ctx.queue.value, put)
      case Raised(e) => Failed(TransportFailed(e))
  }

  /** The request `trace_exception(exc)` makes: event type `exception`, the
      exception's text as `exc` and the captured stack as `stack`. */
  function ExceptionRequest(exc: Error, stack: Value): Request {
    Request(ExceptionEvent, map["exc" := Str(exc.text), "stack" := stack])
  }

  /** What a `trace_exception` call did: the one trace request it made and the
      record that reached the queue, if any. */
  datatype ExceptionReport = ExceptionReport(request: Request, delivered: Option<Put>)

  /** `trace_exception(exc)`: one `trace` call, whose failure is swallowed.
      `stack` stands for the frames captured from the active exception. */
  function TraceException(ctx: Context, env: Environment, exc: Error, stack: Value, transport: Result<()>): (r: ExceptionReport)
    requires IsoTime.Valid(env.now)
    ensures r.request.kind == ExceptionEvent
    ensures r.request.fields.Keys == {"exc", "stack"}
    ensures r.request.fields["exc"] == Str(exc.text) && r.request.fields["stack"] == stack
    // the outcome of the inner trace decides delivery; its failure never escapes
    ensures r.delivered.Some? <==> Trace(ctx, env, r.request, transport).Sent?
    ensures r.delivered.Some? ==> r.delivered.value == Trace(ctx, env, r.request, transport).put
  {
    var req := ExceptionRequest(exc, stack);
    match Trace(ctx, env, req, transport)
    case Sent(_, put) => ExceptionReport(req, Some(put))
    case Skipped => ExceptionReport(req, None)
    case Failed(_) => ExceptionReport(req, None)
  }

  /** The record of the trail's own test: a trace at 2015-05-04 21:10:42 from
      process `process_name` with one field `event`. */
  lemma TraceExample(ctx: Context, kind: EventType)
    requires ctx.queue.Some?
    ensures var env := Environment(IsoTime.DateTime(2015, 5, 4, 21, 10, 42), "process_name", false);
            var r := Trace(ctx, env, Request(kind, map["event" := Str("data")]), Returned(()));
            && r.Sent?
            && r.put == Put(Dict(map["time" := Str("2015-05-04T21:10:42"), "type" := Kind(kind),
                                     "process" := Str("process_name"),
                                     "data" := Dict(map["event" := Str("data")])]),
                            "trace", "trail")
  {
    IsoTime.FormatExample();
  }
}
