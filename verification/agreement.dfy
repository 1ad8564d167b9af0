/**
 How the two cores relate. A single dispatch through a `MiddlewareQueue` and
 through a `Dispatcher` holding the same middleware and fallback gives the same
 reply. They differ once a dispatch is over: the queue object has been consumed
 and locked, while the dispatcher is unchanged and dispatches the same way again.
 The two worked scenarios at the end use concrete middleware.
 */
module Agreement {
  import opened Pipeline
  import D = Dispatchers
  import Q = MiddlewareQueues

  /** The mutable queue and the copy-on-write dispatcher give every request
      the same trace and response, whatever the dispatcher's lock flag. */
  lemma QueueAgreesWithDispatcher<M, H, Req, Resp>(
    b: Behaviour<M, H, Req, Resp>, q: Q.MiddlewareQueue<M, H>, req: Req, locked: bool)
    ensures Q.Dispatch(b, q, req).reply == D.Run(b, D.Dispatcher(q.queue, q.fallback, locked), req)
  {
    var d := D.Dispatcher(q.queue, q.fallback, locked);
    ExplainsUnique(b, q.queue, q.fallback, req, Q.Dispatch(b, q, req).reply, D.Run(b, d, req));
  }

  /** Reuse after a dispatch: with all middleware forwarding unchanged, handling the
      same queue object again reaches only the fallback, while handling the
      same dispatcher again repeats the whole chain. */
  lemma ReuseDiverges<M, H, Req, Resp>(b: Behaviour<M, H, Req, Resp>, q: Q.MiddlewareQueue<M, H>, req: Req)
    requires AllForward(b, q.queue, req)
    ensures Q.Dispatch(b, Q.Dispatch(b, q, req).after, req).reply
         == Reply([FellBack(q.fallback, req)], b.handle(q.fallback, req))
    ensures D.Run(b, D.Dispatcher(q.queue, q.fallback, false), req).trace
         == Chain(q.queue, req) + [FellBack(q.fallback, req)]
  {
    Q.SecondDispatchFallsBack(b, q, req, req);
    D.RunAllForward(b, D.Dispatcher(q.queue, q.fallback, false), req);
  }

  /** Names of the middleware and of the fallback in the worked scenarios. */
  datatype Name = A | B | F

  /** A forwards; B answers "B" without calling `next`; F answers "F". */
  function ShortCircuiting(): Behaviour<Name, Name, string, string>
  {
    Behaviour((m: Name, r: string) => if m == A then Forward(r) else Respond("B"),
              (h: Name, r: string) => "F")
  }

  /** A and B both forward; F answers "F". */
  function PassingThrough(): Behaviour<Name, Name, string, string>
  {
    Behaviour((m: Name, r: string) => Forward(r), (h: Name, r: string) => "F")
  }

  /** `new Dispatcher(F)`, then `withMiddleware(A)`, then `withMiddleware(B)`. */
  function BuildAB(): (d: D.Dispatcher<Name, Name>)
    ensures d.queue == [A, B] && d.fallback == F && !d.locked
  {
    D.WithMiddleware(D.WithMiddleware(D.New(F), A).value, B).value
  }

  /** B answers without calling `next`: the reply is "B" and F never runs. */
  lemma ScenarioShortCircuit()
    ensures D.Run(ShortCircuiting(), BuildAB(), "R") == Reply([Processed(A, "R"), Processed(B, "R")], "B")
  {
  }

  /** Both forward: the request passes A, then B, then F, and F's answer is
      the reply. */
  lemma ScenarioPassThrough()
    ensures D.Run(PassingThrough(), BuildAB(), "R")
         == Reply([Processed(A, "R"), Processed(B, "R"), FellBack(F, "R")], "F")
  {
  }
}
