/**
 * What JsonServiceRegistry does with a request, as functions: which values
 * the handlers write to the output stream, in which order, and how the
 * shared "Invalid Request" error object changes when a request fails.
 *
 * The service invoker (reflection over the registered class), the stack
 * trace printer and the exceptions' messages are not part of this model;
 * they enter as parameters: a ServiceClass carries the invoker's answers,
 * a Failure the throwable a handler catches, a Runtime the exceptions
 * raised on a null reference and for a request of the wrong shape.
 */
module Dispatch {
  import opened Wrappers
  import opened Json
  import opened JsonUtil

  /**
   * A throwable reaching a handler's catch block: its message (null
   * allowed), its printed stack trace after URL encoding, and for an
   * InvocationTargetException the exception the invoked method threw.
   */
  datatype Failure =
    | Thrown(message: Option<string>, trace: string)
    | InvocationTarget(message: Option<string>, trace: string, target: Failure)

  /** The throwable whose message the request handlers report: the target of an InvocationTargetException, otherwise the throwable itself. */
  function Reported(f: Failure): Failure
  {
    if f.InvocationTarget? then f.target else f
  }

  /** What a call on the invoker does: returns a response node or throws. */
  datatype Outcome = Returned(node: Json) | Raised(failure: Failure)

  /**
   * A service class as its JsonServiceInvoker presents it: the class name,
   * the answer of process(request, node) to a request object, the answer
   * of process(request, method, args) to a direct call, and the service
   * mapping description. Each answer may depend on the instance the
   * invoker calls (None: one the invoker creates itself).
   */
  datatype ServiceClass = ServiceClass(
    name: string,
    process: (Option<nat>, Fields) -> Outcome,
    call: (Option<nat>, string, seq<Value>) -> Outcome,
    serviceMap: Json)

  /** An instance of a service class, registered as it is. */
  datatype ServiceObject = ServiceObject(cls: ServiceClass, id: nat)

  /** A registry entry: new JsonServiceInvoker(clazz) or new JsonServiceInvoker(obj). */
  datatype Invoker = Invoker(service: ServiceClass, instance: Option<nat>)

  /**
   * The exceptions raised inside the handlers: the JVM's NullPointerException
   * on a null request node and on a null invoker (a class that is not
   * registered), and the JsonServiceException handleNode throws for a
   * request that is neither an object nor an array. JsonServiceException.java
   * is not part of this model, so that exception is a parameter too.
   */
  datatype Runtime = Runtime(nullNode: Failure, nullInvoker: Failure, invalidRequest: Failure)

  /** What handleNode has written before it returned, and what it threw, if anything. */
  datatype Trace = Trace(written: seq<Json>, failure: Option<Failure>)

  /** handleObject: the invoker's response is written as it is. */
  function ObjectTrace(fields: Fields, inv: Option<Invoker>, rt: Runtime): Trace
  {
    match inv
    case None => Trace([], Some(rt.nullInvoker))
    case Some(invoker) =>
      match invoker.service.process(invoker.instance, fields)
      case Returned(response) => Trace([response], None)
      case Raised(f) => Trace([], Some(f))
  }

  /**
   * handleNode: an object is processed, each element of an array is handled
   * in turn, anything else is an invalid request. An object yields exactly
   * one response or a failure, never both.
   */
  function DispatchNode(node: Json, inv: Option<Invoker>, rt: Runtime): (r: Trace)
    ensures node.JObject? ==> |r.written| <= 1 && (|r.written| == 1 <==> r.failure.None?)
    ensures !node.JObject? && !node.JArray? ==> r == Trace([], Some(rt.invalidRequest))
    decreases node, 1
  {
    match node
    case JObject(fields) => ObjectTrace(fields, inv, rt)
    case JArray(items) => BatchUpTo(items, |items|, inv, rt)
    case _ => Trace([], Some(rt.invalidRequest))
  }

  /** handleArray after its first `n` iterations; the first failure ends the loop. */
  function BatchUpTo(items: seq<Json>, n: nat, inv: Option<Invoker>, rt: Runtime): Trace
    requires n <= |items|
    decreases items, n
  {
    if n == 0 then Trace([], None)
    else
      var prior := BatchUpTo(items, n - 1, inv, rt);
      if prior.failure.Some? then prior
      else
        var step := DispatchNode(items[n - 1], inv, rt);
        Trace(prior.written + step.written, step.failure)
  }

  /** handleNode(request, os, invoker, method, args): the call's response is written as it is. */
  function CallTrace(inv: Option<Invoker>, methodName: string, args: seq<Value>, rt: Runtime): (r: Trace)
    ensures |r.written| <= 1 && (|r.written| == 1 <==> r.failure.None?)
  {
    match inv
    case None => Trace([], Some(rt.nullInvoker))
    case Some(invoker) =>
      match invoker.service.call(invoker.instance, methodName, args)
      case Returned(response) => Trace([response], None)
      case Raised(f) => Trace([], Some(f))
  }

  /** Once an element fails, the rest of the batch is not handled. */
  lemma {:induction false} BatchFailureSticky(items: seq<Json>, i: nat, n: nat, inv: Option<Invoker>, rt: Runtime)
    requires i <= n <= |items| && BatchUpTo(items, i, inv, rt).failure.Some?
    ensures BatchUpTo(items, n, inv, rt) == BatchUpTo(items, i, inv, rt)
    decreases n
  {
    if n > i {
      BatchFailureSticky(items, i, n - 1, inv, rt);
    }
  }

  /** Nothing written is ever taken back: the output after fewer elements is a prefix of the output after more. */
  lemma {:induction false} BatchOutputGrows(items: seq<Json>, i: nat, n: nat, inv: Option<Invoker>, rt: Runtime)
    requires i <= n <= |items|
    ensures BatchUpTo(items, i, inv, rt).written <= BatchUpTo(items, n, inv, rt).written
    decreases n
  {
    if n > i {
      BatchOutputGrows(items, i, n - 1, inv, rt);
    }
  }

  /**
   * A failing batch failed at one element: everything before it succeeded,
   * the batch wrote what those elements and the failing one wrote, and it
   * reports that element's failure.
   */
  lemma {:induction false} BatchFirstFailure(items: seq<Json>, n: nat, inv: Option<Invoker>, rt: Runtime)
    returns (k: nat)
    requires n <= |items| && BatchUpTo(items, n, inv, rt).failure.Some?
    ensures k < n
    ensures BatchUpTo(items, k, inv, rt).failure.None?
    ensures DispatchNode(items[k], inv, rt).failure.Some?
    ensures BatchUpTo(items, n, inv, rt) ==
      Trace(BatchUpTo(items, k, inv, rt).written + DispatchNode(items[k], inv, rt).written,
            DispatchNode(items[k], inv, rt).failure)
    decreases n
  {
    var prior := BatchUpTo(items, n - 1, inv, rt);
    if prior.failure.Some? {
      k := BatchFirstFailure(items, n - 1, inv, rt);
    } else {
      k := n - 1;
    }
  }

  /** `node` is a request object the invoker answers with `response`. */
  predicate Answers(inv: Invoker, node: Json, response: Json)
  {
    node.JObject? && inv.service.process(inv.instance, node.fields) == Returned(response)
  }

  /**
   * A batch of request objects that the registered invoker all answers
   * writes exactly one response per element, in order, each as the bare
   * value the invoker returned.
   */
  lemma {:induction false} BatchAnswersInOrder(items: seq<Json>, responses: seq<Json>, n: nat, inv: Invoker, rt: Runtime)
    requires n <= |items| && |responses| == |items|
    requires forall j :: 0 <= j < |items| ==> Answers(inv, items[j], responses[j])
    ensures BatchUpTo(items, n, Some(inv), rt) == Trace(responses[..n], None)
    decreases n
  {
    if n > 0 {
      BatchAnswersInOrder(items, responses, n - 1, inv, rt);
      assert Answers(inv, items[n - 1], responses[n - 1]);
      assert responses[..n] == responses[..n - 1] + [responses[n - 1]];
    }
  }

  /** A one-element batch is handled exactly as its element: nested arrays are flattened, not answered with an array. */
  lemma SingletonBatchIsElement(node: Json, inv: Option<Invoker>, rt: Runtime)
    ensures DispatchNode(JArray([node]), inv, rt) == DispatchNode(node, inv, rt)
  {
    var items := [node];
    assert BatchUpTo(items, 0, inv, rt) == Trace([], None);
    assert [] + DispatchNode(node, inv, rt).written == DispatchNode(node, inv, rt).written;
  }

  /** Two batches in sequence behave as one batch holding both, as long as the first does not fail. */
  lemma {:induction false} BatchConcat(xs: seq<Json>, ys: seq<Json>, n: nat, inv: Option<Invoker>, rt: Runtime)
    requires n <= |ys| && BatchUpTo(xs, |xs|, inv, rt).failure.None?
    ensures BatchUpTo(xs + ys, |xs| + n, inv, rt) ==
      Trace(BatchUpTo(xs, |xs|, inv, rt).written + BatchUpTo(ys, n, inv, rt).written, BatchUpTo(ys, n, inv, rt).failure)
    decreases n
  {
    if n == 0 {
      BatchPrefix(xs, ys, |xs|, inv, rt);
      assert BatchUpTo(xs, |xs|, inv, rt).written + [] == BatchUpTo(xs, |xs|, inv, rt).written;
    } else {
      BatchConcat(xs, ys, n - 1, inv, rt);
      assert (xs + ys)[|xs| + n - 1] == ys[n - 1];
      var prior := BatchUpTo(ys, n - 1, inv, rt);
      if prior.failure.None? {
        var step := DispatchNode(ys[n - 1], inv, rt);
        assert BatchUpTo(xs, |xs|, inv, rt).written + prior.written + step.written ==
          BatchUpTo(xs, |xs|, inv, rt).written + (prior.written + step.written);
      }
    }
  }

  /** A batch's first elements are handled as if they were the whole batch. */
  lemma {:induction false} BatchPrefix(xs: seq<Json>, ys: seq<Json>, n: nat, inv: Option<Invoker>, rt: Runtime)
    requires n <= |xs|
    ensures BatchUpTo(xs + ys, n, inv, rt) == BatchUpTo(xs, n, inv, rt)
    decreases n
  {
    if n > 0 {
      BatchPrefix(xs, ys, n - 1, inv, rt);
      assert (xs + ys)[n - 1] == xs[n - 1];
    }
  }

  /** An array at the head of a batch is handled as if its elements were spliced into the batch, whether or not it fails. */
  lemma NestedHeadFlattened(xs: seq<Json>, ys: seq<Json>, inv: Option<Invoker>, rt: Runtime)
    ensures DispatchNode(JArray([JArray(xs)] + ys), inv, rt) == DispatchNode(JArray(xs + ys), inv, rt)
  {
    var outer, flat := [JArray(xs)] + ys, xs + ys;
    var a := BatchUpTo(xs, |xs|, inv, rt);
    SingletonBatchIsElement(JArray(xs), inv, rt);
    assert BatchUpTo([JArray(xs)], 1, inv, rt) == a;
    if a.failure.Some? {
      BatchPrefix([JArray(xs)], ys, 1, inv, rt);
      BatchFailureSticky(outer, 1, |outer|, inv, rt);
      BatchPrefix(xs, ys, |xs|, inv, rt);
      BatchFailureSticky(flat, |xs|, |flat|, inv, rt);
    } else {
      var b := BatchUpTo(ys, |ys|, inv, rt);
      BatchConcat([JArray(xs)], ys, |ys|, inv, rt);
      assert DispatchNode(JArray(outer), inv, rt) == BatchUpTo(outer, 1 + |ys|, inv, rt) == Trace(a.written + b.written, b.failure);
      BatchConcat(xs, ys, |ys|, inv, rt);
      assert DispatchNode(JArray(flat), inv, rt) == BatchUpTo(flat, |xs| + |ys|, inv, rt) == Trace(a.written + b.written, b.failure);
    }
  }

  /** An array nested anywhere in a batch is handled as if its elements were spliced into the batch at its place. */
  lemma NestedBatchFlattened(ws: seq<Json>, xs: seq<Json>, ys: seq<Json>, inv: Option<Invoker>, rt: Runtime)
    ensures DispatchNode(JArray(ws + [JArray(xs)] + ys), inv, rt) == DispatchNode(JArray(ws + xs + ys), inv, rt)
  {
    var tailOuter, tailFlat := [JArray(xs)] + ys, xs + ys;
    var outer, flat := ws + tailOuter, ws + tailFlat;
    assert ws + [JArray(xs)] + ys == outer;
    assert ws + xs + ys == flat;
    var w := BatchUpTo(ws, |ws|, inv, rt);
    if w.failure.Some? {
      BatchPrefix(ws, tailOuter, |ws|, inv, rt);
      BatchFailureSticky(outer, |ws|, |outer|, inv, rt);
      BatchPrefix(ws, tailFlat, |ws|, inv, rt);
      BatchFailureSticky(flat, |ws|, |flat|, inv, rt);
    } else {
      BatchConcat(ws, tailOuter, |tailOuter|, inv, rt);
      BatchConcat(ws, tailFlat, |tailFlat|, inv, rt);
      NestedHeadFlattened(xs, ys, inv, rt);
    }
  }

  /** Without a registered invoker no request object succeeds, yet an empty batch still writes nothing and fails nothing. */
  lemma UnregisteredClass(node: Json, rt: Runtime)
    ensures node.JObject? ==> DispatchNode(node, None, rt) == Trace([], Some(rt.nullInvoker))
    ensures DispatchNode(JArray([]), None, rt) == Trace([], None)
  {
  }

  /** The state of the shared JsonServiceError.INVALID_REQUEST object besides its code. */
  datatype ErrorState = ErrorState(message: Option<string>, data: Option<string>)

  /** The four catch blocks: of handle(InputStream, ...), handle(HttpServletRequest, ...) and their method-call variants. */
  datatype Handler = StreamNode | RequestNode | StreamCall | RequestCall

  /**
   * The error object after a catch block: the message of the throwable
   * (unwrapped by the request handlers), and for the request-node handler
   * the stack trace as data, but only when no data is set yet.
   */
  function Caught(h: Handler, st: ErrorState, f: Failure): (r: ErrorState)
    ensures h == RequestNode || h == RequestCall ==> r.message == Reported(f).message
    ensures h == StreamNode || h == StreamCall ==> r.message == f.message
    ensures h == RequestNode && st.data.None? ==> r.data == Some(Reported(f).trace)
    ensures h != RequestNode || st.data.Some? ==> r.data == st.data
  {
    match h
    case StreamNode => st.(message := f.message)
    case StreamCall => st.(message := f.message)
    case RequestCall => st.(message := Reported(f).message)
    case RequestNode =>
      var t := Reported(f);
      ErrorState(t.message, if st.data.None? then Some(t.trace) else st.data)
  }

  /** The error response built from the shared error object. */
  function ErrorResponse(code: int, st: ErrorState): Json
  {
    ErrorNode(ErrorRecord(code, st.message, st.data))
  }

  /** What a handler writes in all, and the shared error object afterwards. */
  datatype Reply = Reply(written: seq<Json>, error: ErrorState)

  /** The second try block: the trace is written, then on failure one error response. */
  function Finish(h: Handler, code: int, first: seq<Json>, t: Trace, st: ErrorState): Reply
  {
    match t.failure
    case None => Reply(first + t.written, st)
    case Some(f) =>
      var st' := Caught(h, st, f);
      Reply(first + t.written + [ErrorResponse(code, st')], st')
  }

  /** The responses of the trace come first; the catch block depends only on how the trace ended. */
  lemma FinishAfterTrace(h: Handler, code: int, t: Trace, st: ErrorState)
    ensures Finish(h, code, [], t, st).written == t.written + Finish(h, code, [], Trace([], t.failure), st).written
    ensures Finish(h, code, [], t, st).error == Finish(h, code, [], Trace([], t.failure), st).error
  {
  }

  /**
   * handle(InputStream, os, clazz) and handle(HttpServletRequest, os, clazz):
   * `parsed` is the request document, None when reading it threw. A read
   * failure writes an error response from the error object as it stands,
   * and then the null node is handled all the same.
   */
  function HandleSpec(h: Handler, code: int, parsed: Option<Json>, inv: Option<Invoker>, rt: Runtime, st: ErrorState): Reply
    requires h == StreamNode || h == RequestNode
  {
    match parsed
    case None => Finish(h, code, [ErrorResponse(code, st)], Trace([], Some(rt.nullNode)), st)
    case Some(node) => Finish(h, code, [], DispatchNode(node, inv, rt), st)
  }

  /** handle(InputStream, os, clazz, method, args) and handle(HttpServletRequest, os, clazz, method, args). */
  function HandleCallSpec(h: Handler, code: int, inv: Option<Invoker>, methodName: string, args: seq<Value>, rt: Runtime, st: ErrorState): Reply
    requires h == StreamCall || h == RequestCall
  {
    Finish(h, code, [], CallTrace(inv, methodName, args, rt), st)
  }

  /**
   * A request that could not be read gets two error responses: the first
   * from whatever the shared error object held, the second carrying the
   * message of the null dereference that follows.
   */
  lemma UnreadableRequestTwoResponses(h: Handler, code: int, inv: Option<Invoker>, rt: Runtime, st: ErrorState)
    requires h == StreamNode || h == RequestNode
    ensures |HandleSpec(h, code, None, inv, rt, st).written| == 2
    ensures ReadError(HandleSpec(h, code, None, inv, rt, st).written[0]) == Some(ErrorRecord(code, st.message, st.data))
    ensures ReadError(HandleSpec(h, code, None, inv, rt, st).written[1]) ==
      Some(ErrorRecord(code, Caught(h, st, rt.nullNode).message, Caught(h, st, rt.nullNode).data))
  {
    ErrorRoundTrip(ErrorRecord(code, st.message, st.data), JNull);
    var st' := Caught(h, st, rt.nullNode);
    ErrorRoundTrip(ErrorRecord(code, st'.message, st'.data), JNull);
  }

  /**
   * For a readable request the output is what handleNode wrote, followed by
   * one error response exactly when it threw; that response reports the
   * caught throwable's message, and a request that succeeds leaves the
   * shared error object as it was.
   */
  lemma ReadableRequestReply(h: Handler, code: int, node: Json, inv: Option<Invoker>, rt: Runtime, st: ErrorState)
    requires h == StreamNode || h == RequestNode
    ensures var t := DispatchNode(node, inv, rt);
      var r := HandleSpec(h, code, Some(node), inv, rt, st);
      r.written[..|t.written|] == t.written &&
      |r.written| == |t.written| + (if t.failure.Some? then 1 else 0) &&
      (t.failure.None? ==> r.error == st) &&
      (t.failure.Some? ==> ReadError(r.written[|t.written|]) == Some(ErrorRecord(code, r.error.message, r.error.data)) &&
                           r.error == Caught(h, st, t.failure.value))
  {
    var t := DispatchNode(node, inv, rt);
    if t.failure.Some? {
      var st' := Caught(h, st, t.failure.value);
      ErrorRoundTrip(ErrorRecord(code, st'.message, st'.data), JNull);
      assert (t.written + [ErrorResponse(code, st')])[..|t.written|] == t.written;
    } else {
      assert (t.written)[..|t.written|] == t.written;
    }
  }

  /**
   * Once the shared error object carries data, every later failure of the
   * request-node handler reports that same data, whatever the new stack
   * trace is.
   */
  lemma StaleTraceKept(code: int, node: Json, inv: Option<Invoker>, rt: Runtime, st: ErrorState)
    requires st.data.Some? && DispatchNode(node, inv, rt).failure.Some?
    ensures HandleSpec(RequestNode, code, Some(node), inv, rt, st).error.data == st.data
    ensures ReadError(Last(HandleSpec(RequestNode, code, Some(node), inv, rt, st).written)).value.data == st.data
  {
    var t := DispatchNode(node, inv, rt);
    var st' := Caught(RequestNode, st, t.failure.value);
    ErrorRoundTrip(ErrorRecord(code, st'.message, st'.data), JNull);
  }

  /** The last value written; null when nothing was. */
  function Last(written: seq<Json>): Json
  {
    if written == [] then JNull else written[|written| - 1]
  }

  /**
   * A method throwing through reflection arrives as an InvocationTargetException:
   * the request handlers report the method's own message, the stream
   * handlers the wrapper's.
   */
  lemma InvocationTargetUnwrapped(h: Handler, st: ErrorState, message: Option<string>, trace: string, target: Failure)
    ensures var f := InvocationTarget(message, trace, target);
      Caught(h, st, f).message == if h == RequestNode || h == RequestCall then target.message else message
  {
  }

  /** A call that returns writes just the returned value and leaves the error object alone. */
  lemma CallReply(h: Handler, code: int, inv: Invoker, methodName: string, args: seq<Value>, rt: Runtime, st: ErrorState, response: Json)
    requires h == StreamCall || h == RequestCall
    requires inv.service.call(inv.instance, methodName, args) == Returned(response)
    ensures HandleCallSpec(h, code, Some(inv), methodName, args, rt, st) == Reply([response], st)
  {
  }
}
