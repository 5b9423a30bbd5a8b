/**
 * JsonServiceRegistry: the map from class names to service invokers, and
 * the handlers that read a JSON-RPC request, pass it to the invoker of a
 * registered class and write the responses to an output stream.
 */
module Registry {
  import opened Wrappers
  import opened Json
  import opened JsonUtil
  import opened Dispatch

  /** The registry after register(clazz) or register(obj): a name already present keeps its invoker. */
  function Registered(registry: map<string, Invoker>, inv: Invoker): (r: map<string, Invoker>)
    ensures r.Keys == registry.Keys + {inv.service.name}
    ensures forall name :: name in registry ==> r[name] == registry[name]
    ensures inv.service.name !in registry ==> r[inv.service.name] == inv
  {
    if inv.service.name in registry then registry else registry[inv.service.name := inv]
  }

  /** The registry setRegistry(classes) has built after the first `n` classes. */
  function FromClasses(classes: seq<ServiceClass>, n: nat): map<string, Invoker>
    requires n <= |classes|
  {
    if n == 0 then map[] else Registered(FromClasses(classes, n - 1), Invoker(classes[n - 1], None))
  }

  /** Registering twice under one name is registering once. */
  lemma RegisterIdempotent(registry: map<string, Invoker>, first: Invoker, second: Invoker)
    requires first.service.name == second.service.name
    ensures Registered(Registered(registry, first), second) == Registered(registry, first)
  {
  }

  /** After setRegistry the registered names are exactly the classes' names. */
  lemma {:induction false} FromClassesKeys(classes: seq<ServiceClass>, n: nat)
    requires n <= |classes|
    ensures FromClasses(classes, n).Keys == set j | 0 <= j < n :: classes[j].name
    decreases n
  {
    if n > 0 {
      FromClassesKeys(classes, n - 1);
      var before := set j | 0 <= j < n - 1 :: classes[j].name;
      var after := set j | 0 <= j < n :: classes[j].name;
      forall name | name in after
        ensures name in before + {classes[n - 1].name}
      {
        var j :| 0 <= j < n && classes[j].name == name;
        if j < n - 1 {
          assert name in before;
        }
      }
      assert after == before + {classes[n - 1].name};
    }
  }

  /** After setRegistry each name has an invoker for the first class that carries it. */
  lemma {:induction false} FromClassesFirstWins(classes: seq<ServiceClass>, n: nat, j: nat)
    requires j < n <= |classes|
    requires forall i :: 0 <= i < j ==> classes[i].name != classes[j].name
    ensures classes[j].name in FromClasses(classes, n)
    ensures FromClasses(classes, n)[classes[j].name] == Invoker(classes[j], None)
    decreases n
  {
    if n - 1 == j {
      FromClassesMissing(classes, j, classes[j].name);
    } else {
      FromClassesFirstWins(classes, n - 1, j);
    }
  }

  /** A name no class before index `n` carries is not registered after `n` classes. */
  lemma {:induction false} FromClassesMissing(classes: seq<ServiceClass>, n: nat, name: string)
    requires n <= |classes|
    requires forall i :: 0 <= i < n ==> classes[i].name != name
    ensures name !in FromClasses(classes, n)
    decreases n
  {
    if n > 0 {
      FromClassesMissing(classes, n - 1, name);
    }
  }

  /** The output stream a handler writes to: the values written so far. */
  class OutputStream {
    var written: seq<Json>

    constructor()
      ensures written == []
    {
      written := [];
    }

    /** mapper.writeValue(os, node) */
    method Write(node: Json)
      modifies this
      ensures written == old(written) + [node]
    {
      written := written + [node];
    }
  }

  /**
   * A JSON-RPC error object. The handlers all use the one shared
   * JsonServiceError.INVALID_REQUEST, so its message and data outlive the
   * request that set them.
   */
  class JsonServiceError {
    const code: int
    var message: Option<string>
    var data: Option<string>

    constructor(code: int, message: Option<string>)
      ensures this.code == code && this.message == message && data == None
    {
      this.code := code;
      this.message := message;
      data := None;
    }

    function State(): ErrorState
      reads this
    {
      ErrorState(message, data)
    }

    method SetMessage(message: Option<string>)
      modifies this
      ensures this.message == message && data == old(data)
    {
      this.message := message;
    }

    method SetData(data: Option<string>)
      modifies this
      ensures this.data == data && message == old(message)
    {
      this.data := data;
    }
  }

  class JsonServiceRegistry {
    /** Class name to invoker; a HashMap in the source. */
    var registry: map<string, Invoker>

    constructor()
      ensures registry == map[]
    {
      registry := map[];
    }

    /** register(clazz) */
    method RegisterClass(service: ServiceClass)
      modifies this
      ensures registry == Registered(old(registry), Invoker(service, None))
      ensures Lookup(service).Some?
      ensures service.name !in old(registry) ==> Lookup(service) == Some(Invoker(service, None))
    {
      var name := service.name;
      if name !in registry {
        registry := registry[name := Invoker(service, None)];
      }
    }

    /** register(obj): the object's class name, an invoker bound to the object. */
    method RegisterObject(obj: ServiceObject)
      modifies this
      ensures registry == Registered(old(registry), Invoker(obj.cls, Some(obj.id)))
      ensures Lookup(obj.cls).Some?
      ensures obj.cls.name !in old(registry) ==> Lookup(obj.cls) == Some(Invoker(obj.cls, Some(obj.id)))
    {
      var name := obj.cls.name;
      if name !in registry {
        registry := registry[name := Invoker(obj.cls, Some(obj.id))];
      }
    }

    /** setRegistry(classes): clears the registry, then registers each class in turn. */
    method SetRegistry(classes: seq<ServiceClass>)
      modifies this
      ensures registry == FromClasses(classes, |classes|)
    {
      registry := map[];
      var i := 0;
      while i < |classes|
        invariant 0 <= i <= |classes|
        invariant registry == FromClasses(classes, i)
      {
        RegisterClass(classes[i]);
        i := i + 1;
      }
    }

    /** unregister(clazz) */
    method UnregisterClass(service: ServiceClass)
      modifies this
      ensures registry == old(registry) - {service.name}
      ensures Lookup(service).None?
    {
      var name := service.name;
      if name in registry {
        registry := registry - {name};
      }
    }

    /** unregister(obj): by the object's class name. */
    method UnregisterObject(obj: ServiceObject)
      modifies this
      ensures registry == old(registry) - {obj.cls.name}
      ensures Lookup(obj.cls).None?
    {
      var name := obj.cls.name;
      if name in registry {
        registry := registry - {name};
      }
    }

    /** clearRegistry() */
    method ClearRegistry()
      modifies this
      ensures registry == map[]
    {
      registry := map[];
    }

    /** lookup(clazz): the invoker registered under the class name; null when there is none. */
    function Lookup(service: ServiceClass): (r: Option<Invoker>)
      reads this
      ensures r.Some? <==> service.name in registry
      ensures r.Some? ==> r.value == registry[service.name]
    {
      if service.name in registry then Some(registry[service.name]) else None
    }

    /** getServiceMap(clazz, os): the description of a registered class; for any other the null dereference is only logged. */
    method GetServiceMap(service: ServiceClass, os: OutputStream)
      modifies os
      ensures os.written == old(os.written) + if Lookup(service).Some? then [Lookup(service).value.service.serviceMap] else []
    {
      var invoker := Lookup(service);
      if invoker.Some? {
        os.Write(invoker.value.service.serviceMap);
      }
    }

    /** handleObject(request, node, os, invoker) */
    method HandleObject(fields: Fields, os: OutputStream, inv: Option<Invoker>, rt: Runtime) returns (failure: Option<Failure>)
      modifies os
      ensures os.written == old(os.written) + ObjectTrace(fields, inv, rt).written
      ensures failure == ObjectTrace(fields, inv, rt).failure
    {
      if inv.None? {
        return Some(rt.nullInvoker);
      }
      var invoker := inv.value;
      var outcome := invoker.service.process(invoker.instance, fields);
      if outcome.Raised? {
        return Some(outcome.failure);
      }
      os.Write(outcome.node);
      failure := None;
    }

    /** handleNode(request, node, os, invoker) */
    method HandleNode(node: Json, os: OutputStream, inv: Option<Invoker>, rt: Runtime) returns (failure: Option<Failure>)
      modifies os
      ensures os.written == old(os.written) + DispatchNode(node, inv, rt).written
      ensures failure == DispatchNode(node, inv, rt).failure
      decreases node, 1
    {
      if node.JObject? {
        failure := HandleObject(node.fields, os, inv, rt);
      } else if node.JArray? {
        failure := HandleArray(node.items, os, inv, rt);
      } else {
        failure := Some(rt.invalidRequest);
      }
    }

    /** handleArray(request, node, os, invoker): each element in turn; the first exception propagates. */
    method HandleArray(items: seq<Json>, os: OutputStream, inv: Option<Invoker>, rt: Runtime) returns (failure: Option<Failure>)
      modifies os
      ensures os.written == old(os.written) + BatchUpTo(items, |items|, inv, rt).written
      ensures failure == BatchUpTo(items, |items|, inv, rt).failure
      decreases items, 0
    {
      var i := 0;
      while i < |items|
        invariant 0 <= i <= |items|
        invariant os.written == old(os.written) + BatchUpTo(items, i, inv, rt).written
        invariant BatchUpTo(items, i, inv, rt).failure.None?
      {
        var f := HandleNode(items[i], os, inv, rt);
        if f.Some? {
          BatchFailureSticky(items, i + 1, |items|, inv, rt);
          return f;
        }
        i := i + 1;
      }
      failure := None;
    }

    /** handleObject(request, os, invoker, method, args) */
    method HandleCall(os: OutputStream, inv: Option<Invoker>, methodName: string, args: seq<Value>, rt: Runtime) returns (failure: Option<Failure>)
      modifies os
      ensures os.written == old(os.written) + CallTrace(inv, methodName, args, rt).written
      ensures failure == CallTrace(inv, methodName, args, rt).failure
    {
      if inv.None? {
        return Some(rt.nullInvoker);
      }
      var invoker := inv.value;
      var outcome := invoker.service.call(invoker.instance, methodName, args);
      if outcome.Raised? {
        return Some(outcome.failure);
      }
      os.Write(outcome.node);
      failure := None;
    }

    /** A catch block of one of the handlers: update the shared error object, then write it. */
    method Report(h: Handler, f: Failure, os: OutputStream, error: JsonServiceError)
      modifies os, error
      ensures error.State() == Caught(h, old(error.State()), f)
      ensures os.written == old(os.written) + [Dispatch.ErrorResponse(error.code, error.State())]
    {
      match h {
        case StreamNode =>
          error.SetMessage(f.message);
        case StreamCall =>
          error.SetMessage(f.message);
        case RequestCall =>
          if f.InvocationTarget? {
            error.SetMessage(f.target.message);
          } else {
            error.SetMessage(f.message);
          }
        case RequestNode =>
          var t := if f.InvocationTarget? then f.target else f;
          error.SetMessage(t.message);
          if error.data.None? {
            error.SetData(Some(t.trace));
          }
      }
      os.Write(ErrorNode(ErrorRecord(error.code, error.message, error.data)));
    }

    /** A catch block that follows a completed dispatch: only a failure is reported. */
    method Conclude(h: Handler, failure: Option<Failure>, os: OutputStream, error: JsonServiceError)
      modifies os, error
      ensures var r := Finish(h, error.code, [], Trace([], failure), old(error.State()));
        os.written == old(os.written) + r.written && error.State() == r.error
    {
      if failure.Some? {
        Report(h, failure.value, os, error);
      }
    }

    /** The first catch block wrote the error object as it stands; handleNode then dereferences the null node. */
    method HandleUnreadable(h: Handler, os: OutputStream, inv: Option<Invoker>, rt: Runtime, error: JsonServiceError)
      requires h == StreamNode || h == RequestNode
      modifies os, error
      ensures var r := HandleSpec(h, error.code, None, inv, rt, old(error.State()));
        os.written == old(os.written) + r.written && error.State() == r.error
    {
      ghost var st := error.State();
      os.Write(ErrorNode(ErrorRecord(error.code, error.message, error.data)));
      Report(h, rt.nullNode, os, error);
      assert HandleSpec(h, error.code, None, inv, rt, st).written
        == [Dispatch.ErrorResponse(error.code, st)] + [] + [Dispatch.ErrorResponse(error.code, error.State())];
    }

    /** The second try block on a document that was read: dispatch it, and report a failure. */
    method HandleParsed(h: Handler, node: Json, os: OutputStream, inv: Option<Invoker>, rt: Runtime, error: JsonServiceError)
      modifies os, error
      ensures var r := Finish(h, error.code, [], DispatchNode(node, inv, rt), old(error.State()));
        os.written == old(os.written) + r.written && error.State() == r.error
    {
      var failure := HandleNode(node, os, inv, rt);
      ghost var mid := os.written;
      Conclude(h, failure, os, error);
      FinishAfterTrace(h, error.code, DispatchNode(node, inv, rt), old(error.State()));
      assert os.written == old(os.written) + DispatchNode(node, inv, rt).written + (os.written[|mid|..]);
    }

    /** The two try blocks shared by handle(InputStream, os, clazz) and handle(HttpServletRequest, os, clazz). */
    method HandleDocument(h: Handler, parsed: Option<Json>, os: OutputStream, service: ServiceClass, rt: Runtime, error: JsonServiceError)
      requires h == StreamNode || h == RequestNode
      modifies os, error
      ensures os.written == old(os.written) + HandleSpec(h, error.code, parsed, Lookup(service), rt, old(error.State())).written
      ensures error.State() == HandleSpec(h, error.code, parsed, Lookup(service), rt, old(error.State())).error
    {
      var invoker := Lookup(service);
      if parsed.None? {
        HandleUnreadable(h, os, invoker, rt, error);
      } else {
        HandleParsed(h, parsed.value, os, invoker, rt, error);
      }
    }

    /** handle(InputStream, os, clazz): `parsed` is the document read from the stream, None when reading threw. */
    method HandleStream(parsed: Option<Json>, os: OutputStream, service: ServiceClass, rt: Runtime, error: JsonServiceError)
      modifies os, error
      ensures os.written == old(os.written) + HandleSpec(StreamNode, error.code, parsed, Lookup(service), rt, old(error.State())).written
      ensures error.State() == HandleSpec(StreamNode, error.code, parsed, Lookup(service), rt, old(error.State())).error
    {
      HandleDocument(StreamNode, parsed, os, service, rt, error);
    }

    /** handle(HttpServletRequest, os, clazz): as the stream handler, but exceptions are unwrapped and the stack trace becomes data. */
    method HandleRequest(parsed: Option<Json>, os: OutputStream, service: ServiceClass, rt: Runtime, error: JsonServiceError)
      modifies os, error
      ensures os.written == old(os.written) + HandleSpec(RequestNode, error.code, parsed, Lookup(service), rt, old(error.State())).written
      ensures error.State() == HandleSpec(RequestNode, error.code, parsed, Lookup(service), rt, old(error.State())).error
    {
      HandleDocument(RequestNode, parsed, os, service, rt, error);
    }

    /** The try blocks shared by the two method-call handlers. */
    method HandleMethodCall(h: Handler, os: OutputStream, service: ServiceClass, methodName: string, args: seq<Value>, rt: Runtime, error: JsonServiceError)
      requires h == StreamCall || h == RequestCall
      modifies os, error
      ensures os.written == old(os.written) + HandleCallSpec(h, error.code, Lookup(service), methodName, args, rt, old(error.State())).written
      ensures error.State() == HandleCallSpec(h, error.code, Lookup(service), methodName, args, rt, old(error.State())).error
    {
      var invoker := Lookup(service);
      var failure := HandleCall(os, invoker, methodName, args, rt);
      if failure.Some? {
        Report(h, failure.value, os, error);
      }
    }

    /** handle(InputStream, os, clazz, method, args) */
    method HandleStreamCall(os: OutputStream, service: ServiceClass, methodName: string, args: seq<Value>, rt: Runtime, error: JsonServiceError)
      modifies os, error
      ensures os.written == old(os.written) + HandleCallSpec(StreamCall, error.code, Lookup(service), methodName, args, rt, old(error.State())).written
      ensures error.State() == HandleCallSpec(StreamCall, error.code, Lookup(service), methodName, args, rt, old(error.State())).error
    {
      HandleMethodCall(StreamCall, os, service, methodName, args, rt, error);
    }

    /** handle(HttpServletRequest, os, clazz, method, args) */
    method HandleRequestCall(os: OutputStream, service: ServiceClass, methodName: string, args: seq<Value>, rt: Runtime, error: JsonServiceError)
      modifies os, error
      ensures os.written == old(os.written) + HandleCallSpec(RequestCall, error.code, Lookup(service), methodName, args, rt, old(error.State())).written
      ensures error.State() == HandleCallSpec(RequestCall, error.code, Lookup(service), methodName, args, rt, old(error.State())).error
    {
      HandleMethodCall(RequestCall, os, service, methodName, args, rt, error);
    }

    /**
     * handle(request, response, clazz): registers the class, then answers a
     * GET with the service mapping description and any other HTTP method
     * by handling the request body.
     */
    method HandleHttp(isGet: bool, parsed: Option<Json>, os: OutputStream, service: ServiceClass, rt: Runtime, error: JsonServiceError)
      modifies this, os, error
      ensures registry == Registered(old(registry), Invoker(service, None))
      ensures isGet ==> os.written == old(os.written) + [registry[service.name].service.serviceMap] && error.State() == old(error.State())
      ensures !isGet ==> os.written == old(os.written) + HandleSpec(RequestNode, error.code, parsed, Some(registry[service.name]), rt, old(error.State())).written
      ensures !isGet ==> error.State() == HandleSpec(RequestNode, error.code, parsed, Some(registry[service.name]), rt, old(error.State())).error
    {
      RegisterClass(service);
      if isGet {
        GetServiceMap(service, os);
      } else {
        HandleRequest(parsed, os, service, rt, error);
      }
    }

    /** handle(request, response, obj): as above, for an object registered as it is. */
    method HandleHttpObject(isGet: bool, parsed: Option<Json>, os: OutputStream, obj: ServiceObject, rt: Runtime, error: JsonServiceError)
      modifies this, os, error
      ensures registry == Registered(old(registry), Invoker(obj.cls, Some(obj.id)))
      ensures isGet ==> os.written == old(os.written) + [registry[obj.cls.name].service.serviceMap] && error.State() == old(error.State())
      ensures !isGet ==> os.written == old(os.written) + HandleSpec(RequestNode, error.code, parsed, Some(registry[obj.cls.name]), rt, old(error.State())).written
      ensures !isGet ==> error.State() == HandleSpec(RequestNode, error.code, parsed, Some(registry[obj.cls.name]), rt, old(error.State())).error
    {
      RegisterObject(obj);
      var clazz := obj.cls;
      if isGet {
        GetServiceMap(clazz, os);
      } else {
        HandleRequest(parsed, os, clazz, rt, error);
      }
    }
  }
}
