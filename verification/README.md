# PSR-15 middleware dispatch, modelled in Dafny

This project models the two request-dispatch cores of a small PSR-15
middleware library. Both cores implement the `RequestHandlerInterface`
contract (PSR-15, section 2.1). They call middleware through the
`MiddlewareInterface` contract (PSR-15, section 2.2).

- `MiddlewareQueue` is a mutable object. It holds a middleware queue, a
  `locked` flag and a fallback handler. `add` and `seedQueue` append to the
  queue while it is unlocked. `handle` locks the object unconditionally. It
  then either gives the request to the fallback (empty queue) or shifts the
  front middleware off and calls it, passing the object itself as `next`.
- `Dispatcher` is a copy-on-write builder. `withMiddleware` and
  `withMiddlewareQueue` return clones with middleware appended. `handle`
  never changes the receiver. With an empty queue it calls the fallback
  directly. Otherwise it calls the head middleware with a locked clone that
  holds the tail as the continuation.

Files:

- `pipeline.dfy` (module `Pipeline`) holds the shared vocabulary:
  - the single error kind, `LockedWhileDequeueing` (the library's
    `MiddlewareQueueException`);
  - the abstract behaviour of middleware and fallback (`Behaviour`). A
    middleware either forwards a request to `next` and returns the downstream
    response verbatim, or responds on its own;
  - the trace of a dispatch (`Reply`);
  - a relational reference specification of a dispatch (`Explains`), and a
    proof that it admits exactly one reply.
- `dispatcher.dfy` (module `Dispatchers`) models `Dispatcher` as an immutable
  record with pure build and step functions. `Run` is a whole dispatch.
- `middleware_queue.dfy` (module `MiddlewareQueues`) models `MiddlewareQueue`
  as a state transformer. Every call takes the object's state and returns the
  new state with the call's outcome. `Dispatch` threads that one state through
  every `next->handle`. The queue length is the termination measure.
- `agreement.dfy` (module `Agreement`) proves that the two cores give the same
  reply to one dispatch, and shows how they differ when reused. It also has
  two worked scenarios.

Requests, responses, middleware and fallback handlers are opaque type
parameters. Middleware and fallback code is a parameter: the `Behaviour`
record of two total functions.

The two classes lock at different moments:

- `Dispatcher.handle` calls the fallback on an empty queue without creating
  or locking anything (src/Dispatcher.php:103-105).
- Otherwise it locks only the clone it passes as the continuation, and never
  the receiver (src/Dispatcher.php:107-108).
- `MiddlewareQueue.handle` locks before it checks for an empty queue
  (src/MiddlewareQueue.php:100-102).

## Model

| member | source | states |
|---|---|---|
| `Pipeline.FallbackOnlyAtExhaustion` | src/MiddlewareQueue.php:102-107 | in any explained dispatch the fallback is reached exactly when the trace covers the whole queue; it is called at most once and only as the last event; at most the whole queue is consumed |
| `Pipeline.ExplainsCons` | src/Dispatcher.php:107-110 | a head middleware that forwards, followed by an explained dispatch of the tail, explains the dispatch of the whole queue; the fallback is reached in one exactly when in the other |
| `Pipeline.ExplainsUnique` | src/Dispatcher.php:101-111 | a dispatch has at most one reply (trace and response) that satisfies the reference specification |
| `Pipeline.ExplainsAllForward` | src/MiddlewareQueue.php:102-107 | if every middleware forwards the request unchanged, the queue processing in order followed by one fallback call on the original request, with the fallback's response, is the specified reply |
| `Pipeline.RespondsOnlyLast` | src/Dispatcher.php:107-110 | in any explained dispatch, whatever requests the middleware pass on, the middleware at position k responded to the request it received exactly when its event is the last one: a responder ends the chain and every earlier middleware forwarded |
| `Pipeline.ExplainsShortCircuit` | src/Dispatcher.php:107-110 | if the middleware before position i forward the request unchanged and the one at i responds, the specified reply is the queue up to i processing the request, with i's response, and no fallback call |
| `Dispatchers.New` | src/Dispatcher.php:46-53 | a new dispatcher has an empty queue, is unlocked and stores the given fallback |
| `Dispatchers.WithMiddleware` | src/Dispatcher.php:82-92 | fails with the lock error exactly when the receiver is locked; otherwise the result holds the receiver's queue with `m` appended at the back, is unlocked and has the same fallback |
| `Dispatchers.AppendEach` | src/Dispatcher.php:67-73 | applying `withMiddleware` element by element to an unlocked clone never fails and appends the whole list in order; on a locked clone it fails exactly when the list is non-empty |
| `Dispatchers.WithMiddlewareQueue` | src/Dispatcher.php:61-74 | fails exactly when the receiver is locked, even for an empty list; otherwise the result holds the receiver's queue followed by the list, is unlocked and has the same fallback |
| `Dispatchers.Handle` | src/Dispatcher.php:101-111 | an empty queue goes to the receiver's fallback with the request unchanged; otherwise the head middleware gets the same request and a locked continuation with the same fallback whose queue, after the head, is the receiver's queue |
| `Dispatchers.ContinuationRejectsBuilding` | src/Dispatcher.php:84-86 | building on the continuation handed to a middleware fails with the lock error |
| `Dispatchers.Run` | src/Dispatcher.php:101-111 | a whole dispatch produces the reply the reference specification describes |
| `Dispatchers.RunIsTheExplanation` | src/Dispatcher.php:101-111 | a reply satisfies the reference specification if and only if it is the reply `Run` computes |
| `Dispatchers.RunIgnoresLock` | src/Dispatcher.php:101-111 | dispatch never reads the lock flag: a locked and an unlocked dispatcher with the same queue and fallback give the same reply |
| `Dispatchers.EmptyQueueFallsBack` | src/Dispatcher.php:103-105 | an empty dispatcher answers with the fallback's response to the unmodified request, and that is its only call |
| `Dispatchers.RunAllForward` | src/Dispatcher.php:101-111 | with every middleware forwarding the request unchanged, the middleware run in queue order, then the fallback runs once on the original request, and its response is returned |
| `Dispatchers.RunShortCircuit` | src/Dispatcher.php:107-110 | after middleware that forward the request unchanged, a middleware that responds at position i ends the dispatch with its response; nothing after i runs and the fallback is never reached |
| `Dispatchers.BuiltInOrder` | src/Dispatcher.php:61-74 | a dispatcher built with `withMiddlewareQueue(ms)` on a new dispatcher succeeds and, with every middleware forwarding the request unchanged, runs `ms` in insertion order before the fallback |
| `MiddlewareQueues.Construct` | src/MiddlewareQueue.php:46-61 | a new queue holds the given middleware in the given order (none by default), is unlocked and stores the fallback |
| `MiddlewareQueues.Add` | src/MiddlewareQueue.php:82-89 | fails with the lock error exactly when the queue is locked, and then nothing changes; otherwise `m` is appended at the back and the lock and fallback are unchanged |
| `MiddlewareQueues.AddEach` | src/MiddlewareQueue.php:73-75 | calling `add` for each list element on an unlocked queue never fails and appends the list in order; on a locked queue nothing changes, and it fails exactly when the list is non-empty |
| `MiddlewareQueues.SeedQueue` | src/MiddlewareQueue.php:67-76 | fails exactly when the queue is locked, even for an empty list, and then nothing changes; otherwise the list is appended in order and the queue stays unlocked with the same fallback |
| `MiddlewareQueues.Handle` | src/MiddlewareQueue.php:98-108 | always leaves the queue locked with the same fallback; an empty queue stays empty and the fallback gets the unmodified request; otherwise exactly the front middleware is removed and gets the same request |
| `MiddlewareQueues.Dispatch` | src/MiddlewareQueue.php:98-108 | a whole dispatch through the one shared object produces the reply the reference specification describes; the object ends locked with the same fallback and holds exactly the middleware the dispatch did not reach |
| `MiddlewareQueues.ForwardStep` | src/MiddlewareQueue.php:106-107 | when the shifted-off head forwards and the rest of the dispatch through the same object is explained, the whole dispatch is explained and the object keeps exactly the middleware the dispatch did not reach |
| `MiddlewareQueues.LockedAfterDispatch` | src/MiddlewareQueue.php:84-100 | after any `handle`, every later `add` and `seedQueue` on the object fails with the lock error and changes nothing |
| `MiddlewareQueues.DispatchAllForward` | src/MiddlewareQueue.php:102-107 | with every middleware forwarding the request unchanged, they run in insertion order, the fallback runs once on the original request and answers, and the queue is left empty |
| `MiddlewareQueues.DispatchShortCircuit` | src/MiddlewareQueue.php:106-107 | after middleware that forward the request unchanged, a middleware that responds at position i ends the dispatch with its response and leaves every middleware after i on the queue |
| `MiddlewareQueues.SecondDispatchFallsBack` | src/MiddlewareQueue.php:100-104 | handling the same object again, after a dispatch in which every middleware forwards the request unchanged, goes straight to the fallback |
| `Agreement.QueueAgreesWithDispatcher` | src/MiddlewareQueue.php:98-108 | a dispatch through a `MiddlewareQueue` gives the same trace and response as a `Dispatcher` with the same queue and fallback, whatever its lock flag |
| `Agreement.ReuseDiverges` | src/Dispatcher.php:101-111 | after a dispatch in which every middleware forwards the request unchanged, a second dispatch through the same queue object calls only the fallback once, with the fallback's response, while the same dispatcher runs the whole chain again |
| `Agreement.BuildAB` | src/Dispatcher.php:82-92 | building A then B onto a new dispatcher with fallback F gives queue `[A, B]`, unlocked, with fallback F |
| `Agreement.ScenarioShortCircuit` | src/Dispatcher.php:101-111 | A forwards and B responds "B": the reply is "B", after A and then B, and F is never called |
| `Agreement.ScenarioPassThrough` | src/Dispatcher.php:101-111 | A and B both forward: the request passes A, then B, then F, and F's response "F" is the reply |

## Left out

- The `InvalidArgumentException` guards (src/MiddlewareQueue.php:48-57, src/Dispatcher.php:48-50) are left out. The fallback cannot be null and list elements are middleware by their Dafny types.
- Requests and responses are opaque type parameters. Their PSR-7 internals play no part in dispatch.
- Middleware and fallback code is abstract (`Behaviour`). A middleware either forwards one request to `next` and returns the downstream response unchanged, or responds without calling `next`. Three other things a middleware may do are not modelled: call `next` more than once, inspect or rewrite the downstream response, or throw. For a `MiddlewareQueue`, a second call to `next` would consume further middleware from the same object.
- Exceptions raised by middleware or the fallback propagate unchanged in the library. The model has no exceptional outcome for them.
- Test code sets the lock flag by reflection. This is covered by contracts that hold for every lock state.
- Concurrency and cancellation are left out. The library is single-threaded and synchronous.
- Receiver non-mutation for `Dispatcher` and its sibling instances needs no lemma. Every operation takes and returns immutable values, so a later call cannot change an earlier instance.
- Middleware and fallback are stateless in the model. `Behaviour` fixes each one's action as a function of its identity and the request it receives. A PHP middleware or fallback is an object that may keep state between calls, and `clone` copies only the array of references, so dispatchers share those objects (src/Dispatcher.php:67,88). Such an object could answer differently depending on earlier calls, or act differently when queued twice. The model therefore promises nothing for a queue that holds the same stateful object twice, and nothing about a pair of dispatches beyond what the calls themselves determine. These results rest on the assumption:
  - `Pipeline.ExplainsUnique` and `Dispatchers.RunIsTheExplanation`: a stateful middleware could make two dispatches of the same request produce different replies.
  - `Agreement.ReuseDiverges`, both halves. The queue half says the fallback answers the repeated request with the same response as before; a fallback that counts its calls would answer differently. The dispatcher half says a reused dispatcher runs the whole chain again.
  - `MiddlewareQueues.SecondDispatchFallsBack` when `again == req`: taken with `MiddlewareQueues.DispatchAllForward`, it says the fallback gives the same answer to the same request the second time.
