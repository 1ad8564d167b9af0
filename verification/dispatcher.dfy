/**
 The copy-on-write `Dispatcher` (src/Dispatcher.php): an immutable record of a
 middleware queue, a fallback handler and a lock flag. Building operations
 return a new record and leave the receiver as it was; dispatch never changes
 the receiver and hands each middleware a locked copy holding the rest of the
 queue as its `next` handler.
 */
module Dispatchers {
  import opened Pipeline

  datatype Dispatcher<M, H> = Dispatcher(queue: seq<M>, fallback: H, locked: bool)

  /** `new Dispatcher($fallback)`: nothing queued, buildable. */
  function New<M, H>(fallback: H): (d: Dispatcher<M, H>)
    ensures d.queue == [] && d.fallback == fallback && !d.locked
  {
    Dispatcher([], fallback, false)
  }

  /** `withMiddleware`: refused on a locked receiver; otherwise a clone with `m`
      appended at the back, still buildable, with the same fallback. */
  function WithMiddleware<M, H>(d: Dispatcher<M, H>, m: M): (r: Result<Dispatcher<M, H>>)
    ensures r.Err? <==> d.locked
    ensures r.Err? ==> r.error == LockedWhileDequeueing
    ensures r.Ok? ==> && |r.value.queue| == |d.queue| + 1
                      && r.value.queue[..|d.queue|] == d.queue
                      && r.value.queue[|d.queue|] == m
                      && r.value.fallback == d.fallback
                      && !r.value.locked
  {
    if d.locked then Err(LockedWhileDequeueing)
    else
      var clone := d.(queue := d.queue + [m]);
      assert clone.queue[..|d.queue|] == d.queue;
      Ok(clone)
  }

  /** The `foreach` of `withMiddlewareQueue`: `withMiddleware` applied to the
      running clone for each element of `ms`, front to back, stopping at the
      first refusal. */
  function AppendEach<M, H>(clone: Dispatcher<M, H>, ms: seq<M>): (r: Result<Dispatcher<M, H>>)
    ensures !clone.locked ==> r == Ok(clone.(queue := clone.queue + ms))
    ensures clone.locked ==> (r.Err? <==> |ms| > 0)
    decreases |ms|
  {
    if |ms| == 0 then
      assert clone.queue + ms == clone.queue;
      Ok(clone)
    else
      match WithMiddleware(clone, ms[0])
      case Err(e) => Err(e)
      case Ok(next) =>
        assert next.queue == clone.queue + [ms[0]];
        assert clone.queue + [ms[0]] + ms[1..] == clone.queue + ms;
        AppendEach(next, ms[1..])
  }

  /** `withMiddlewareQueue`: refused on a locked receiver even for an empty
      list; otherwise never fails and yields the receiver's queue followed by
      `ms` in order, still buildable, with the same fallback. */
  function WithMiddlewareQueue<M, H>(d: Dispatcher<M, H>, ms: seq<M>): (r: Result<Dispatcher<M, H>>)
    ensures r.Err? <==> d.locked
    ensures r.Ok? ==> && |r.value.queue| == |d.queue| + |ms|
                      && r.value.queue[..|d.queue|] == d.queue
                      && r.value.queue[|d.queue|..] == ms
                      && r.value.fallback == d.fallback
                      && !r.value.locked
  {
    if d.locked then Err(LockedWhileDequeueing)
    else
      var r := AppendEach(d, ms);
      assert r.value.queue[..|d.queue|] == d.queue;
      r
  }

  /** What one call of `handle` does before calling foreign code. */
  datatype Step<M, H, Req> =
    | ToFallback(handler: H, request: Req)
    | ToMiddleware(middleware: M, request: Req, next: Dispatcher<M, H>)

  /** `handle`: an empty queue goes straight to the fallback with the request
      as given, creating and locking nothing; otherwise the head middleware is
      called with the same request and a locked continuation holding exactly
      the rest of the queue and the same fallback. */
  function Handle<M, H, Req>(d: Dispatcher<M, H>, req: Req): (s: Step<M, H, Req>)
    ensures s.ToFallback? <==> |d.queue| == 0
    ensures s.ToFallback? ==> s == ToFallback(d.fallback, req)
    ensures s.ToMiddleware? ==> && s.request == req
                                && [s.middleware] + s.next.queue == d.queue
                                && s.next.fallback == d.fallback
                                && s.next.locked
  {
    if |d.queue| == 0 then ToFallback(d.fallback, req)
    else
      var continuation := d.(locked := true, queue := d.queue[1..]);
      assert [d.queue[0]] + continuation.queue == d.queue;
      ToMiddleware(d.queue[0], req, continuation)
  }

  /** The continuation a middleware receives cannot be built on. */
  lemma ContinuationRejectsBuilding<M, H, Req>(d: Dispatcher<M, H>, req: Req, m: M, ms: seq<M>)
    requires |d.queue| > 0
    ensures Handle(d, req).ToMiddleware?
    ensures WithMiddleware(Handle(d, req).next, m) == Err(LockedWhileDequeueing)
    ensures WithMiddlewareQueue(Handle(d, req).next, ms) == Err(LockedWhileDequeueing)
  {
  }

  /** A whole dispatch of `req` through `d`: `handle`, then the middleware's
      choice, recursively through the continuations. The reply is the one the
      reference specification allows. */
  function Run<M, H, Req, Resp>(b: Behaviour<M, H, Req, Resp>, d: Dispatcher<M, H>, req: Req): (r: Reply<M, H, Req, Resp>)
    ensures Explains(b, d.queue, d.fallback, req, r)
    decreases |d.queue|
  {
    match Handle(d, req)
    case ToFallback(h, request) =>
      Reply([FellBack(h, request)], b.handle(h, request))
    case ToMiddleware(m, request, next) =>
      match b.process(m, request)
      case Respond(resp) =>
        Reply([Processed(m, request)], resp)
      case Forward(forwarded) =>
        var down := Run(b, next, forwarded);
        assert next.queue == d.queue[1..];
        ExplainsCons(b, d.queue, d.fallback, request, forwarded, down);
        Reply([Processed(m, request)] + down.trace, down.response)
  }

  /** `Run` is exactly the reference specification: a reply explains the
      dispatch if and only if it is the one `Run` computes. */
  lemma RunIsTheExplanation<M, H, Req, Resp>(
    b: Behaviour<M, H, Req, Resp>, d: Dispatcher<M, H>, req: Req, r: Reply<M, H, Req, Resp>)
    ensures Explains(b, d.queue, d.fallback, req, r) <==> r == Run(b, d, req)
  {
    if Explains(b, d.queue, d.fallback, req, r) {
      ExplainsUnique(b, d.queue, d.fallback, req, r, Run(b, d, req));
    }
  }

  /** Dispatching never consults the lock: a locked continuation answers
      exactly like an unlocked dispatcher with the same queue and fallback. */
  lemma RunIgnoresLock<M, H, Req, Resp>(b: Behaviour<M, H, Req, Resp>, d: Dispatcher<M, H>, req: Req, locked: bool)
    ensures Run(b, d.(locked := locked), req) == Run(b, d, req)
  {
  }

  /** An empty dispatcher answers with the fallback's response to the very
      request it was given, and calls nothing else. */
  lemma EmptyQueueFallsBack<M, H, Req, Resp>(b: Behaviour<M, H, Req, Resp>, d: Dispatcher<M, H>, req: Req)
    requires |d.queue| == 0
    ensures Run(b, d, req) == Reply([FellBack(d.fallback, req)], b.handle(d.fallback, req))
  {
  }

  /** With every middleware forwarding unchanged, they run in insertion order and the
      fallback answers the original request, once, last. */
  lemma RunAllForward<M, H, Req, Resp>(b: Behaviour<M, H, Req, Resp>, d: Dispatcher<M, H>, req: Req)
    requires AllForward(b, d.queue, req)
    ensures Run(b, d, req) == Reply(Chain(d.queue, req) + [FellBack(d.fallback, req)], b.handle(d.fallback, req))
  {
    ExplainsAllForward(b, d.queue, d.fallback, req);
    RunIsTheExplanation(b, d, req, Reply(Chain(d.queue, req) + [FellBack(d.fallback, req)], b.handle(d.fallback, req)));
  }

  /** A middleware that responds at position i ends the dispatch with its
      response; nothing after it, and not the fallback, is called. */
  lemma RunShortCircuit<M, H, Req, Resp>(b: Behaviour<M, H, Req, Resp>, d: Dispatcher<M, H>, req: Req, i: nat, resp: Resp)
    requires i < |d.queue|
    requires AllForward(b, d.queue[..i], req)
    requires b.process(d.queue[i], req) == Respond(resp)
    ensures Run(b, d, req) == Reply(Chain(d.queue[..i + 1], req), resp)
    ensures !FellThrough(Run(b, d, req))
  {
    ExplainsShortCircuit(b, d.queue, d.fallback, req, i, resp);
    RunIsTheExplanation(b, d, req, Reply(Chain(d.queue[..i + 1], req), resp));
  }

  /** Insertion order is processing order: a dispatcher built from `New` with
      `withMiddlewareQueue(ms)` runs `ms` front to back when all forward
      unchanged. */
  lemma BuiltInOrder<M, H, Req, Resp>(b: Behaviour<M, H, Req, Resp>, fallback: H, ms: seq<M>, req: Req)
    requires AllForward(b, ms, req)
    ensures WithMiddlewareQueue(New(fallback), ms).Ok?
    ensures Run(b, WithMiddlewareQueue(New(fallback), ms).value, req)
         == Reply(Chain(ms, req) + [FellBack(fallback, req)], b.handle(fallback, req))
  {
    var d := WithMiddlewareQueue(New<M, H>(fallback), ms).value;
    assert d.queue == ms by {
      assert d.queue == d.queue[|New<M, H>(fallback).queue|..];
    }
    RunAllForward(b, d, req);
  }
}
