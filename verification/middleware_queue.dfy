/**
 The mutable `MiddlewareQueue` (src/MiddlewareQueue.php) as a state
 transformer: every operation takes the object's state and returns its state
 afterwards together with what the call produced. A failing call returns the
 state it was given. `handle` locks the object before anything else and passes
 the object itself as `next`, so each forwarded call consumes one more
 middleware from the same state.
 */
module MiddlewareQueues {
  import opened Pipeline

  datatype MiddlewareQueue<M, H> = MiddlewareQueue(queue: seq<M>, locked: bool, fallback: H)

  /** Result of a call that can only fail with the lock error. */
  datatype Outcome = Done | Failed(error: QueueError)

  /** The object's state after a building call, and whether the call failed. */
  datatype Effect<M, H> = Effect(after: MiddlewareQueue<M, H>, outcome: Outcome)

  /** `new MiddlewareQueue($fallback, $middlewares = [])`: the given middleware
      in the given order, unlocked. */
  method Construct<M, H>(fallback: H, middlewares: seq<M> := []) returns (q: MiddlewareQueue<M, H>)
    ensures q.queue == middlewares
    ensures !q.locked && q.fallback == fallback
  {
    q := MiddlewareQueue([], false, fallback);
    var i := 0;
    while i < |middlewares|
      invariant 0 <= i <= |middlewares|
      invariant q.queue == middlewares[..i]
      invariant !q.locked && q.fallback == fallback
    {
      q := q.(queue := q.queue + [middlewares[i]]);
      i := i + 1;
    }
    assert middlewares[..i] == middlewares;
  }

  /** `add`: fails on a locked queue and changes nothing; otherwise appends
      `m` at the back and changes nothing else. */
  function Add<M, H>(q: MiddlewareQueue<M, H>, m: M): (e: Effect<M, H>)
    ensures e.outcome.Failed? <==> q.locked
    ensures e.outcome.Failed? ==> e == Effect(q, Failed(LockedWhileDequeueing))
    ensures e.outcome.Done? ==> && |e.after.queue| == |q.queue| + 1
                                && e.after.queue[..|q.queue|] == q.queue
                                && e.after.queue[|q.queue|] == m
                                && e.after.locked == q.locked
                                && e.after.fallback == q.fallback
  {
    if q.locked then Effect(q, Failed(LockedWhileDequeueing))
    else
      var after := q.(queue := q.queue + [m]);
      assert after.queue[..|q.queue|] == q.queue;
      Effect(after, Done)
  }

  /** The `foreach` of `seedQueue`: `add` for each element of `ms`, front to
      back, stopping at the first failure. */
  function AddEach<M, H>(q: MiddlewareQueue<M, H>, ms: seq<M>): (e: Effect<M, H>)
    ensures !q.locked ==> e == Effect(q.(queue := q.queue + ms), Done)
    ensures q.locked ==> e.after == q && (e.outcome.Failed? <==> |ms| > 0)
    decreases |ms|
  {
    if |ms| == 0 then
      assert q.queue + ms == q.queue;
      Effect(q, Done)
    else
      var first := Add(q, ms[0]);
      if first.outcome.Failed? then first
      else
        assert first.after.queue == q.queue + [ms[0]];
        assert q.queue + [ms[0]] + ms[1..] == q.queue + ms;
        AddEach(first.after, ms[1..])
  }

  /** `seedQueue`: fails on a locked queue even for an empty list, changing
      nothing; otherwise appends all of `ms` in order and never fails. */
  function SeedQueue<M, H>(q: MiddlewareQueue<M, H>, ms: seq<M>): (e: Effect<M, H>)
    ensures e.outcome.Failed? <==> q.locked
    ensures e.outcome.Failed? ==> e.after == q
    ensures e.outcome.Done? ==> && |e.after.queue| == |q.queue| + |ms|
                                && e.after.queue[..|q.queue|] == q.queue
                                && e.after.queue[|q.queue|..] == ms
                                && !e.after.locked
                                && e.after.fallback == q.fallback
  {
    if q.locked then Effect(q, Failed(LockedWhileDequeueing))
    else
      var e := AddEach(q, ms);
      assert e.after.queue[..|q.queue|] == q.queue;
      e
  }

  /** What one call of `handle` does before calling foreign code; for a
      middleware, `next` is the queue object itself. */
  datatype Step<M, H, Req> =
    | ToFallback(handler: H, request: Req)
    | ToMiddleware(middleware: M, request: Req)

  /** The state after the step, and the step taken. */
  datatype Handled<M, H, Req> = Handled(after: MiddlewareQueue<M, H>, step: Step<M, H, Req>)

  /** `handle`: always locks, even an empty or already locked queue. An empty
      queue stays empty and the fallback gets the request as given; otherwise
      exactly the front middleware is removed and called with the same
      request. The fallback never changes. */
  function Handle<M, H, Req>(q: MiddlewareQueue<M, H>, req: Req): (h: Handled<M, H, Req>)
    ensures h.after.locked && h.after.fallback == q.fallback
    ensures h.step.ToFallback? <==> |q.queue| == 0
    ensures h.step.ToFallback? ==> h.step == ToFallback(q.fallback, req) && h.after.queue == []
    ensures h.step.ToMiddleware? ==> && h.step.request == req
                                     && [h.step.middleware] + h.after.queue == q.queue
  {
    var locked := q.(locked := true);
    if |locked.queue| == 0 then Handled(locked, ToFallback(locked.fallback, req))
    else
      var shifted := locked.(queue := locked.queue[1..]);
      assert [locked.queue[0]] + shifted.queue == q.queue;
      Handled(shifted, ToMiddleware(locked.queue[0], req))
  }

  /** The object's state after a whole dispatch, and the dispatch's reply. */
  datatype Dispatched<M, H, Req, Resp> = Dispatched(after: MiddlewareQueue<M, H>, reply: Reply<M, H, Req, Resp>)

  /** A whole dispatch of `req` started by calling `handle` on `q`: each
      forwarding middleware calls `handle` again on the same, already shifted,
      object. The reply is the one the reference specification allows; the
      object ends locked, with the same fallback, holding exactly the
      middleware the dispatch did not reach. */
  function Dispatch<M, H, Req, Resp>(b: Behaviour<M, H, Req, Resp>, q: MiddlewareQueue<M, H>, req: Req): (r: Dispatched<M, H, Req, Resp>)
    ensures Explains(b, q.queue, q.fallback, req, r.reply)
    ensures r.after.locked && r.after.fallback == q.fallback
    ensures Consumed(r.reply) <= |q.queue| && q.queue[..Consumed(r.reply)] + r.after.queue == q.queue
    decreases |q.queue|
  {
    var h := Handle(q, req);
    match h.step
    case ToFallback(f, request) =>
      Dispatched(h.after, Reply([FellBack(f, request)], b.handle(f, request)))
    case ToMiddleware(m, request) =>
      match b.process(m, request)
      case Respond(resp) =>
        Dispatched(h.after, Reply([Processed(m, request)], resp))
      case Forward(forwarded) =>
        var down := Dispatch(b, h.after, forwarded);
        ForwardStep(b, q.queue, q.fallback, m, h.after.queue, request, forwarded, down);
        Dispatched(down.after, Reply([Processed(m, request)] + down.reply.trace, down.reply.response))
  }

  /** One forwarding step of `Dispatch`: if the head `m` forwarded and the
      rest of the dispatch, run on the shifted object, is explained and left
      `down.after` behind, then the whole dispatch is explained and leaves
      exactly the middleware it did not reach. */
  lemma ForwardStep<M, H, Req, Resp>(
    b: Behaviour<M, H, Req, Resp>, queue: seq<M>, fallback: H, m: M, rest: seq<M>,
    req: Req, next: Req, down: Dispatched<M, H, Req, Resp>)
    requires [m] + rest == queue
    requires b.process(m, req) == Forward(next)
    requires Explains(b, rest, fallback, next, down.reply)
    requires Consumed(down.reply) <= |rest| && rest[..Consumed(down.reply)] + down.after.queue == rest
    ensures var reply := Reply([Processed(m, req)] + down.reply.trace, down.reply.response);
            && Explains(b, queue, fallback, req, reply)
            && Consumed(reply) <= |queue|
            && queue[..Consumed(reply)] + down.after.queue == queue
  {
    assert rest == queue[1..];
    ExplainsCons(b, queue, fallback, req, next, down.reply);
    var reply := Reply([Processed(m, req)] + down.reply.trace, down.reply.response);
    assert Consumed(reply) == Consumed(down.reply) + 1;
    assert queue[..Consumed(reply)] == [m] + rest[..Consumed(down.reply)];
  }

  /** Once `handle` has been called, every later `add` and `seedQueue` on the
      object fails and leaves it as it is, whatever the dispatch did. */
  lemma LockedAfterDispatch<M, H, Req, Resp>(b: Behaviour<M, H, Req, Resp>, q: MiddlewareQueue<M, H>, req: Req, m: M, ms: seq<M>)
    ensures var after := Dispatch(b, q, req).after;
            && Add(after, m) == Effect(after, Failed(LockedWhileDequeueing))
            && SeedQueue(after, ms) == Effect(after, Failed(LockedWhileDequeueing))
  {
  }

  /** With every middleware forwarding unchanged, they run in insertion order, the
      fallback answers the original request once, and the queue is drained. */
  lemma DispatchAllForward<M, H, Req, Resp>(b: Behaviour<M, H, Req, Resp>, q: MiddlewareQueue<M, H>, req: Req)
    requires AllForward(b, q.queue, req)
    ensures Dispatch(b, q, req).reply == Reply(Chain(q.queue, req) + [FellBack(q.fallback, req)], b.handle(q.fallback, req))
    ensures Dispatch(b, q, req).after.queue == []
  {
    var expected := Reply(Chain(q.queue, req) + [FellBack(q.fallback, req)], b.handle(q.fallback, req));
    ExplainsAllForward(b, q.queue, q.fallback, req);
    ExplainsUnique(b, q.queue, q.fallback, req, expected, Dispatch(b, q, req).reply);
    assert FellThrough(expected);
  }

  /** A middleware that responds at position i ends the dispatch with its
      response and leaves every middleware after it on the queue. */
  lemma DispatchShortCircuit<M, H, Req, Resp>(b: Behaviour<M, H, Req, Resp>, q: MiddlewareQueue<M, H>, req: Req, i: nat, resp: Resp)
    requires i < |q.queue|
    requires AllForward(b, q.queue[..i], req)
    requires b.process(q.queue[i], req) == Respond(resp)
    ensures Dispatch(b, q, req).reply == Reply(Chain(q.queue[..i + 1], req), resp)
    ensures Dispatch(b, q, req).after.queue == q.queue[i + 1..]
  {
    var expected := Reply(Chain(q.queue[..i + 1], req), resp);
    ExplainsShortCircuit(b, q.queue, q.fallback, req, i, resp);
    ExplainsUnique(b, q.queue, q.fallback, req, expected, Dispatch(b, q, req).reply);
    assert !FellThrough(expected);
  }

  /** Handling the same object a second time, after a dispatch in which every
      middleware forwarded unchanged, finds the queue drained and goes
      straight to the fallback. */
  lemma SecondDispatchFallsBack<M, H, Req, Resp>(b: Behaviour<M, H, Req, Resp>, q: MiddlewareQueue<M, H>, req: Req, again: Req)
    requires AllForward(b, q.queue, req)
    ensures Dispatch(b, Dispatch(b, q, req).after, again).reply
         == Reply([FellBack(q.fallback, again)], b.handle(q.fallback, again))
  {
    DispatchAllForward(b, q, req);
    var second := Dispatch(b, Dispatch(b, q, req).after, again).reply;
    assert second.trace[0] == FellBack(q.fallback, again);
  }
}
