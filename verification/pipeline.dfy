/**
 Shared vocabulary of the two PSR-15 request-dispatch cores (MiddlewareQueue and
 Dispatcher): the single declared failure, the abstract behaviour of middleware
 and fallback handlers, the trace of one dispatch, and a relational reference
 specification (`Explains`) of what a dispatch must produce.

 Requests, responses, middleware and fallback handlers are opaque type
 parameters: the cores only pass them along.
 */
module Pipeline {

  /** The one error kind the cores raise (MiddlewareQueueException): a building
      operation was attempted on a queue that has started dequeueing. */
  datatype QueueError = LockedWhileDequeueing

  /** Outcome of a copy-on-write building operation. */
  datatype Result<+T> = Ok(value: T) | Err(error: QueueError)

  /** What a middleware's `process` does with the request it receives: hand a
      (possibly different) request to `next` and return that response verbatim,
      or answer on its own without touching `next`. */
  datatype Action<+Req, +Resp> = Forward(request: Req) | Respond(response: Resp)

  /** The foreign code a dispatch calls into, as two total functions:
      `process` for middleware, `handle` for the fallback request handler. */
  datatype Behaviour<!M, !H, !Req, Resp> = Behaviour(
    process: (M, Req) -> Action<Req, Resp>,
    handle: (H, Req) -> Resp)

  /** One call made during a dispatch. */
  datatype Event<+M, +H, +Req> =
    | Processed(middleware: M, request: Req)
    | FellBack(handler: H, request: Req)

  /** Everything observable about one dispatch: the calls made, in order, and
      the response handed back to the caller. */
  datatype Reply<+M, +H, +Req, +Resp> = Reply(trace: seq<Event<M, H, Req>>, response: Resp)

  /** The events of `ms` each processing `req`, in queue order. */
  function Chain<M, H, Req>(ms: seq<M>, req: Req): (t: seq<Event<M, H, Req>>)
    ensures |t| == |ms|
  {
    seq(|ms|, k requires 0 <= k < |ms| => Processed(ms[k], req))
  }

  /** Every middleware of `ms` forwards `req` unchanged. */
  ghost predicate AllForward<M, H, Req, Resp>(b: Behaviour<M, H, Req, Resp>, ms: seq<M>, req: Req)
  {
    forall k :: 0 <= k < |ms| ==> b.process(ms[k], req) == Forward(req)
  }

  /** The dispatch ended at the fallback handler. */
  predicate FellThrough<M, H, Req, Resp>(r: Reply<M, H, Req, Resp>)
  {
    |r.trace| > 0 && r.trace[|r.trace| - 1].FellBack?
  }

  /** Number of middleware the dispatch took off the queue. */
  function Consumed<M, H, Req, Resp>(r: Reply<M, H, Req, Resp>): nat
  {
    if FellThrough(r) then |r.trace| - 1 else |r.trace|
  }

  /** Event k of the trace is `queue[k]` processing its request, and that
      middleware forwarded the request of event k + 1. */
  ghost predicate Linked<M, H, Req, Resp>(b: Behaviour<M, H, Req, Resp>, queue: seq<M>, r: Reply<M, H, Req, Resp>, k: nat)
    requires k + 1 < |r.trace| && k < |queue|
  {
    && r.trace[k] == Processed(queue[k], r.trace[k].request)
    && b.process(queue[k], r.trace[k].request) == Forward(r.trace[k + 1].request)
  }

  /**
   Reference specification of dispatching `req` through `queue` with fallback
   `fallback`: the trace starts with `req`; its k-th event is `queue[k]`
   processing the request the previous middleware forwarded; every event but
   the last is a middleware that forwarded; the last is either a middleware
   that responded (its response is the reply) or, once the whole queue has
   forwarded, the single call to the fallback (its response is the reply).
   */
  ghost predicate Explains<M, H, Req, Resp>(
    b: Behaviour<M, H, Req, Resp>, queue: seq<M>, fallback: H, req: Req, r: Reply<M, H, Req, Resp>)
  {
    && 1 <= |r.trace| <= |queue| + 1
    && r.trace[0].request == req
    && (forall k :: 0 <= k < |r.trace| - 1 ==> Linked(b, queue, r, k))
    && var n := |r.trace| - 1;
       var last := r.trace[n];
       if n == |queue| then
         last == FellBack(fallback, last.request) && r.response == b.handle(fallback, last.request)
       else
         last == Processed(queue[n], last.request) && b.process(queue[n], last.request) == Respond(r.response)
  }

  /** The fallback is reached exactly when every queued middleware forwarded,
      and it is called at most once, as the last event. */
  lemma FallbackOnlyAtExhaustion<M, H, Req, Resp>(
    b: Behaviour<M, H, Req, Resp>, queue: seq<M>, fallback: H, req: Req, r: Reply<M, H, Req, Resp>)
    requires Explains(b, queue, fallback, req, r)
    ensures FellThrough(r) <==> |r.trace| == |queue| + 1
    ensures Consumed(r) <= |queue|
    ensures FellThrough(r) ==> Consumed(r) == |queue|
    ensures forall k :: 0 <= k < |r.trace| - 1 ==> r.trace[k].Processed?
  {
    forall k | 0 <= k < |r.trace| - 1
      ensures r.trace[k].Processed?
    {
      assert Linked(b, queue, r, k);
    }
  }

  /** Prepending a forwarding head middleware to an explained reply of the
      tail explains the reply of the whole queue. */
  lemma {:induction false} ExplainsCons<M, H, Req, Resp>(
    b: Behaviour<M, H, Req, Resp>, queue: seq<M>, fallback: H, req: Req, next: Req,
    down: Reply<M, H, Req, Resp>)
    requires |queue| > 0
    requires b.process(queue[0], req) == Forward(next)
    requires Explains(b, queue[1..], fallback, next, down)
    ensures Explains(b, queue, fallback, req,
                     Reply([Processed(queue[0], req)] + down.trace, down.response))
    ensures FellThrough(Reply([Processed(queue[0], req)] + down.trace, down.response)) == FellThrough(down)
  {
    var r := Reply([Processed(queue[0], req)] + down.trace, down.response);
    assert r.trace[1..] == down.trace;
    forall k | 0 <= k < |r.trace| - 1
      ensures Linked(b, queue, r, k)
    {
      if k > 0 {
        assert Linked(b, queue[1..], down, k - 1);
        assert r.trace[k] == down.trace[k - 1];
        assert queue[k] == queue[1..][k - 1];
      }
    }
    var n := |r.trace| - 1;
    assert r.trace[n] == down.trace[n - 1];
    if n < |queue| {
      assert queue[n] == queue[1..][n - 1];
    }
  }

  /** Within an explained dispatch, the middleware at position k responded
      exactly when its event is the last one. */
  lemma RespondsOnlyLast<M, H, Req, Resp>(
    b: Behaviour<M, H, Req, Resp>, queue: seq<M>, fallback: H, req: Req, r: Reply<M, H, Req, Resp>, k: nat)
    requires Explains(b, queue, fallback, req, r)
    requires k < |r.trace| && k < |queue|
    ensures k == |r.trace| - 1 <==> b.process(queue[k], r.trace[k].request).Respond?
  {
    if k < |r.trace| - 1 {
      assert Linked(b, queue, r, k);
    } else {
      assert b.process(queue[k], r.trace[k].request) == Respond(r.response);
    }
  }

  /** Two replies that both explain the same dispatch carry the same request at
      every position they share, and one ends there exactly when the other does. */
  lemma {:induction false} ExplainsAgreeOnRequests<M, H, Req, Resp>(
    b: Behaviour<M, H, Req, Resp>, queue: seq<M>, fallback: H, req: Req,
    r1: Reply<M, H, Req, Resp>, r2: Reply<M, H, Req, Resp>, k: nat)
    requires Explains(b, queue, fallback, req, r1)
    requires Explains(b, queue, fallback, req, r2)
    requires k < |r1.trace| && k < |r2.trace|
    ensures r1.trace[k].request == r2.trace[k].request
    ensures k == |r1.trace| - 1 <==> k == |r2.trace| - 1
    decreases k
  {
    if k > 0 {
      ExplainsAgreeOnRequests(b, queue, fallback, req, r1, r2, k - 1);
      assert Linked(b, queue, r1, k - 1) && Linked(b, queue, r2, k - 1);
    }
    if k < |queue| {
      RespondsOnlyLast(b, queue, fallback, req, r1, k);
      RespondsOnlyLast(b, queue, fallback, req, r2, k);
    }
  }

  /** `Explains` determines the reply: at most one reply explains a dispatch. */
  lemma {:induction false} ExplainsUnique<M, H, Req, Resp>(
    b: Behaviour<M, H, Req, Resp>, queue: seq<M>, fallback: H, req: Req,
    r1: Reply<M, H, Req, Resp>, r2: Reply<M, H, Req, Resp>)
    requires Explains(b, queue, fallback, req, r1)
    requires Explains(b, queue, fallback, req, r2)
    ensures r1 == r2
  {
    var n1, n2 := |r1.trace| - 1, |r2.trace| - 1;
    ExplainsAgreeOnRequests(b, queue, fallback, req, r1, r2, if n1 < n2 then n1 else n2);
    forall k | 0 <= k < |r1.trace|
      ensures r1.trace[k] == r2.trace[k]
    {
      ExplainsAgreeOnRequests(b, queue, fallback, req, r1, r2, k);
      if k < n1 {
        assert Linked(b, queue, r1, k) && Linked(b, queue, r2, k);
      }
    }
    assert r1.trace == r2.trace;
  }

  /** With every middleware forwarding unchanged, the queue runs in order and
      the fallback answers the original request. */
  lemma ExplainsAllForward<M, H, Req, Resp>(
    b: Behaviour<M, H, Req, Resp>, queue: seq<M>, fallback: H, req: Req)
    requires AllForward(b, queue, req)
    ensures Explains(b, queue, fallback, req,
                     Reply(Chain(queue, req) + [FellBack(fallback, req)], b.handle(fallback, req)))
  {
  }

  /** A responding middleware at position i, preceded only by middleware that
      forward unchanged, ends the dispatch with its response: nothing after it
      runs and the fallback is not called. */
  lemma ExplainsShortCircuit<M, H, Req, Resp>(
    b: Behaviour<M, H, Req, Resp>, queue: seq<M>, fallback: H, req: Req, i: nat, resp: Resp)
    requires i < |queue|
    requires AllForward(b, queue[..i], req)
    requires b.process(queue[i], req) == Respond(resp)
    ensures Explains(b, queue, fallback, req, Reply(Chain(queue[..i + 1], req), resp))
  {
  }
}
