/** The request dispatcher of lib/bserver/index.ts.
 *
 *  The server object keeps an append-only list of handled URLs and an ordered list of
 *  request listeners. Every listener sees every request, in registration order, and
 *  decides on its own whether to act. What a request produces is a trace of actions:
 *  handler calls and responses written to the connection.
 */
module BServer {
  import opened Wrappers

  /** The two methods a mapped request can carry. */
  datatype Method = Get | Post

  /** A header value as Node gives it: one string or several. */
  datatype HeaderValue = One(value: string) | Many(values: seq<string>)

  type Headers = map<string, HeaderValue>

  /** A request as the transport delivers it: method and URL may be absent. */
  datatype IncomingRequest = IncomingRequest(verb: Option<string>, url: Option<string>, headers: Headers)

  /** A normalised request, as handlers receive it. */
  datatype Request = Request(verb: Method, url: string, headers: Headers)

  /** A response a handler sends: status code and body. */
  datatype Reply = Reply(code: int, body: string)

  /** A registered handler, reduced to what the dispatcher can observe of it: an identity,
   *  and the reply it sends through its response, if it sends one. */
  datatype Handler = Handler(id: string, reply: Option<Reply>)

  /** What a request makes happen. */
  datatype Action =
    | Call(handler: string, req: Request)                          // a handler was invoked
    | Write(code: int, contentType: Option<string>, body: string)  // writeHead then end

  /** The kinds of request listener the server registers. */
  datatype Listener =
    | DefaultNotFound                                   // installed by createServer
    | NotFound(handler: Handler)                        // from addNotFoundHandler
    | Global(handler: Handler)                          // from addHandler
    | Route(verb: Method, url: string, handler: Handler)  // from addRoute

  const HtmlContentType := "text/html"

  /** `res.writeHead(404); res.end()`: no content type, no body. */
  const Bare404 := Write(404, None, "")

  /** The `send` of a mapped response: the status, an html content type and the body. */
  function Send(code: int, content: string): Action {
    Write(code, Some(HtmlContentType), content)
  }

  /** mapMethod: exact, case-sensitive comparison with "GET" and "POST". */
  function MapMethod(verb: Option<string>): (r: Option<Method>)
    ensures r == Some(Get) <==> verb == Some("GET")
    ensures r == Some(Post) <==> verb == Some("POST")
    ensures r == None <==> verb != Some("GET") && verb != Some("POST")
  {
    if verb == Some("GET") then Some(Get)
    else if verb == Some("POST") then Some(Post)
    else None
  }

  /** JavaScript's `!!req.url`: the URL is present and not the empty string. */
  predicate HasUrl(raw: IncomingRequest) {
    raw.url.Some? && raw.url.value != ""
  }

  /** mapRequest: no request without a mapped method and a usable URL; otherwise the
   *  mapped method with URL and headers passed through. */
  function MapRequest(raw: IncomingRequest): (r: Option<Request>)
    ensures r.None? <==> MapMethod(raw.verb).None? || !HasUrl(raw)
    ensures r.Some? ==> r.value.verb == MapMethod(raw.verb).value
    ensures r.Some? ==> Some(r.value.url) == raw.url && r.value.headers == raw.headers
  {
    var verb := MapMethod(raw.verb);
    if verb.None? then None
    else if !HasUrl(raw) then None
    else Some(Request(verb.value, raw.url.value, raw.headers))
  }

  /** What invoking `h` on `req` shows: the call, then its reply, if it sends one. */
  function Run(h: Handler, req: Request): seq<Action> {
    [Call(h.id, req)] + (match h.reply case None => [] case Some(rp) => [Send(rp.code, rp.body)])
  }

  /** What one listener does with a request, given the handled URLs at request time. */
  function Fire(l: Listener, handled: seq<string>, raw: IncomingRequest): seq<Action> {
    match l
    case DefaultNotFound =>
      if !HasUrl(raw) then []
      else if raw.url.value !in handled then [Bare404]
      else []
    case NotFound(h) =>
      if !HasUrl(raw) then []
      else if raw.url.value in handled then []
      else (match MapRequest(raw) case None => [] case Some(req) => Run(h, req))
    case Global(h) =>
      (match MapRequest(raw) case None => [] case Some(req) => Run(h, req))
    case Route(m, u, h) =>
      match MapRequest(raw)
      case None => []
      case Some(req) => if u != req.url || m != req.verb then [] else Run(h, req)
  }

  /** The listener chain's actions on one request: each listener in registration order. */
  function Trace(ls: seq<Listener>, handled: seq<string>, raw: IncomingRequest): seq<Action> {
    if ls == [] then [] else Fire(ls[0], handled, raw) + Trace(ls[1..], handled, raw)
  }

  /** The position of the most recently added occurrence of `x`, or -1. */
  function LastIndexOf(ls: seq<Listener>, x: Listener): (k: int)
    ensures -1 <= k < |ls|
    ensures k >= 0 ==> ls[k] == x
    ensures forall j :: k < j < |ls| ==> ls[j] != x
  {
    if ls == [] then -1
    else if ls[|ls| - 1] == x then |ls| - 1
    else LastIndexOf(ls[..|ls| - 1], x)
  }

  /** Node's removeListener: drops the most recently added occurrence of `x`, if any. */
  function RemoveLast(ls: seq<Listener>, x: Listener): (r: seq<Listener>)
    ensures x !in ls ==> r == ls
    ensures x in ls ==> exists i :: 0 <= i < |ls| && ls[i] == x && x !in ls[i + 1..] && r == ls[..i] + ls[i + 1..]
  {
    var k := LastIndexOf(ls, x);
    if k < 0 then ls else ls[..k] + ls[k + 1..]
  }

  // ---------------------------------------------------------------------------------
  // Invariants of the server's state

  /** The default listener can only be the first one: createServer installs it before
   *  anything else and nothing installs it again. */
  predicate DefaultOnlyFirst(ls: seq<Listener>) {
    forall i :: 0 < i < |ls| ==> ls[i] != DefaultNotFound
  }

  /** Every route's URL was recorded as handled when the route was added. */
  predicate RoutesHandled(ls: seq<Listener>, handled: seq<string>) {
    forall i :: 0 <= i < |ls| && ls[i].Route? ==> ls[i].url in handled
  }

  /** The default listener is installed exactly until the first custom not-found listener. */
  predicate DefaultUntilCustom(ls: seq<Listener>) {
    DefaultNotFound in ls <==> forall i :: 0 <= i < |ls| ==> !ls[i].NotFound?
  }

  predicate WellFormed(ls: seq<Listener>, handled: seq<string>) {
    DefaultOnlyFirst(ls) && RoutesHandled(ls, handled) && DefaultUntilCustom(ls)
  }

  class Dispatcher {
    const port: int
    const hostname: string
    var handledUrls: seq<string>
    var listeners: seq<Listener>

    ghost predicate Valid()
      reads this
    {
      WellFormed(listeners, handledUrls)
    }

    /** createServer: nothing handled, the default not-found listener installed. */
    constructor (port: int, hostname: string)
      ensures this.port == port && this.hostname == hostname
      ensures handledUrls == [] && listeners == [DefaultNotFound]
      ensures Valid()
    {
      this.port := port;
      this.hostname := hostname;
      handledUrls := [];
      listeners := [DefaultNotFound];
    }

    /** addNotFoundHandler: removes the default listener (only that one) and appends a
     *  listener for `h`. */
    method AddNotFoundHandler(h: Handler)
      requires Valid()
      modifies this
      ensures Valid()
      ensures handledUrls == old(handledUrls)
      ensures listeners == RemoveLast(old(listeners), DefaultNotFound) + [NotFound(h)]
      ensures DefaultNotFound !in listeners
    {
      var kept := RemoveLast(listeners, DefaultNotFound);
      if DefaultNotFound in listeners {
        assert listeners[0] == DefaultNotFound;
        assert kept == listeners[1..];
      } else {
        assert kept == listeners;
      }
      listeners := kept + [NotFound(h)];
      assert listeners[|listeners| - 1].NotFound?;
    }

    /** addHandler: appends a global listener. */
    method AddHandler(h: Handler)
      requires Valid()
      modifies this
      ensures Valid()
      ensures handledUrls == old(handledUrls)
      ensures listeners == old(listeners) + [Global(h)]
    {
      listeners := listeners + [Global(h)];
      assert forall i :: 0 <= i < |old(listeners)| ==> listeners[i] == old(listeners)[i];
    }

    /** addRoute: records `url` as handled, whatever the method, then appends a route listener. */
    method AddRoute(m: Method, url: string, h: Handler)
      requires Valid()
      modifies this
      ensures Valid()
      ensures handledUrls == old(handledUrls) + [url]
      ensures listeners == old(listeners) + [Route(m, url, h)]
    {
      handledUrls := handledUrls + [url];
      listeners := listeners + [Route(m, url, h)];
      assert forall i :: 0 <= i < |old(listeners)| ==> listeners[i] == old(listeners)[i];
    }

    /** One request: every listener, in order, against the handled URLs of this moment. */
    method Dispatch(raw: IncomingRequest) returns (trace: seq<Action>)
      ensures trace == Trace(listeners, handledUrls, raw)
    {
      trace := [];
      var i := 0;
      while i < |listeners|
        invariant 0 <= i <= |listeners|
        invariant trace == Trace(listeners[..i], handledUrls, raw)
      {
        TraceAppend(listeners[..i], [listeners[i]], handledUrls, raw);
        assert listeners[..i + 1] == listeners[..i] + [listeners[i]];
        trace := trace + Fire(listeners[i], handledUrls, raw);
        i := i + 1;
      }
      assert listeners[..i] == listeners;
    }
  }

  // ---------------------------------------------------------------------------------
  // What the listener chain does

  lemma {:induction false} TraceAppend(a: seq<Listener>, b: seq<Listener>, handled: seq<string>, raw: IncomingRequest)
    ensures Trace(a + b, handled, raw) == Trace(a, handled, raw) + Trace(b, handled, raw)
  {
    if a == [] {
      assert a + b == b;
    } else {
      assert (a + b)[0] == a[0] && (a + b)[1..] == a[1..] + b;
      TraceAppend(a[1..], b, handled, raw);
      assert Trace(a + b, handled, raw) == Fire(a[0], handled, raw) + Trace(a[1..] + b, handled, raw);
    }
  }

  /** A chain of two listeners: the first one's actions, then the second one's. */
  lemma TraceOfTwo(ls: seq<Listener>, handled: seq<string>, raw: IncomingRequest)
    requires |ls| == 2
    ensures Trace(ls, handled, raw) == Fire(ls[0], handled, raw) + Fire(ls[1], handled, raw)
  {
    assert ls[1..][1..] == [];
    assert Trace(ls[1..], handled, raw) == Fire(ls[1], handled, raw) + Trace([], handled, raw);
  }

  /** The listener at position `i` acts in place: the actions before it, its own, the rest. */
  lemma SplitAt(ls: seq<Listener>, i: nat, handled: seq<string>, raw: IncomingRequest)
    requires i < |ls|
    ensures Trace(ls, handled, raw)
         == Trace(ls[..i], handled, raw) + Fire(ls[i], handled, raw) + Trace(ls[i + 1..], handled, raw)
  {
    assert ls == ls[..i] + ([ls[i]] + ls[i + 1..]);
    TraceAppend(ls[..i], [ls[i]] + ls[i + 1..], handled, raw);
    TraceAppend([ls[i]], ls[i + 1..], handled, raw);
  }

  /** The bare 404 is written exactly when the default listener is installed and the URL is
   *  non-empty and not handled. The method is never consulted. */
  lemma {:induction false} Bare404Iff(ls: seq<Listener>, handled: seq<string>, raw: IncomingRequest)
    ensures Bare404 in Trace(ls, handled, raw)
        <==> DefaultNotFound in ls && HasUrl(raw) && raw.url.value !in handled
  {
    if ls != [] {
      Bare404Iff(ls[1..], handled, raw);
      assert Bare404 in Fire(ls[0], handled, raw)
         <==> ls[0] == DefaultNotFound && HasUrl(raw) && raw.url.value !in handled;
      assert DefaultNotFound in ls <==> ls[0] == DefaultNotFound || DefaultNotFound in ls[1..];
    }
  }

  /** Once a custom not-found listener is on a well-formed chain, the bare 404 is never
   *  written, whatever the request. */
  lemma {:induction false} CustomNotFoundSilencesBare404(ls: seq<Listener>, handled: seq<string>, raw: IncomingRequest, i: nat)
    requires WellFormed(ls, handled)
    requires i < |ls| && ls[i].NotFound?
    ensures Bare404 !in Trace(ls, handled, raw)
  {
    assert DefaultNotFound !in ls;
    Bare404Iff(ls, handled, raw);
  }

  /** A request that does not map (unsupported or missing method, missing or empty URL)
   *  reaches no handler; at most the default listener answers it with the bare 404. */
  lemma {:induction false} UnmappedTrace(ls: seq<Listener>, handled: seq<string>, raw: IncomingRequest)
    requires MapRequest(raw).None?
    requires DefaultOnlyFirst(ls)
    ensures Trace(ls, handled, raw)
         == if DefaultNotFound in ls && HasUrl(raw) && raw.url.value !in handled then [Bare404] else []
  {
    if ls != [] {
      assert DefaultOnlyFirst(ls[1..]) && DefaultNotFound !in ls[1..];
      UnmappedTrace(ls[1..], handled, raw);
      UnmappedRest(ls[1..], handled, raw);
    }
  }

  lemma {:induction false} UnmappedRest(ls: seq<Listener>, handled: seq<string>, raw: IncomingRequest)
    requires MapRequest(raw).None?
    requires DefaultNotFound !in ls
    ensures Trace(ls, handled, raw) == []
  {
    if ls != [] {
      UnmappedRest(ls[1..], handled, raw);
    }
  }

  /** For a URL with a route: the global handlers and the routes of the request's method
   *  and URL run, in registration order. */
  function HandledRuns(ls: seq<Listener>, req: Request): seq<Action> {
    if ls == [] then []
    else
      (match ls[0]
       case Global(h) => Run(h, req)
       case Route(m, u, h) => if m == req.verb && u == req.url then Run(h, req) else []
       case _ => [])
      + HandledRuns(ls[1..], req)
  }

  /** For a URL without a route: the global handlers and the not-found listeners act, in
   *  registration order; no route does. */
  function UnhandledRuns(ls: seq<Listener>, req: Request): seq<Action> {
    if ls == [] then []
    else
      (match ls[0]
       case Global(h) => Run(h, req)
       case NotFound(h) => Run(h, req)
       case DefaultNotFound => [Bare404]
       case Route(_, _, _) => [])
      + UnhandledRuns(ls[1..], req)
  }

  /** The global handlers alone, in registration order. */
  function GlobalRuns(ls: seq<Listener>, req: Request): seq<Action> {
    if ls == [] then []
    else (if ls[0].Global? then Run(ls[0].handler, req) else []) + GlobalRuns(ls[1..], req)
  }

  /** A mapped request: whether the not-found side or the route side acts depends only on
   *  whether its URL is among the handled URLs at request time. */
  lemma {:induction false} MappedTrace(ls: seq<Listener>, handled: seq<string>, raw: IncomingRequest, req: Request)
    requires MapRequest(raw) == Some(req)
    requires RoutesHandled(ls, handled)
    ensures Trace(ls, handled, raw)
         == if req.url in handled then HandledRuns(ls, req) else UnhandledRuns(ls, req)
  {
    if ls != [] {
      assert RoutesHandled(ls[1..], handled) by {
        forall i | 0 <= i < |ls[1..]| && ls[1..][i].Route? ensures ls[1..][i].url in handled {
          assert ls[1..][i] == ls[i + 1];
        }
      }
      MappedTrace(ls[1..], handled, raw, req);
      if ls[0].Route? {
        assert ls[0].url in handled;
      }
    }
  }

  /** A handled URL asked for with a method none of its routes has (POST to a GET route):
   *  only the global handlers run; neither a route nor any not-found listener answers. */
  lemma {:induction false} WrongMethodOnlyGlobals(ls: seq<Listener>, handled: seq<string>, raw: IncomingRequest, req: Request)
    requires MapRequest(raw) == Some(req)
    requires RoutesHandled(ls, handled)
    requires req.url in handled
    requires forall i :: 0 <= i < |ls| && ls[i].Route? ==> ls[i].verb != req.verb || ls[i].url != req.url
    ensures Trace(ls, handled, raw) == GlobalRuns(ls, req)
  {
    MappedTrace(ls, handled, raw, req);
    HandledWithoutRoute(ls, req);
  }

  lemma {:induction false} HandledWithoutRoute(ls: seq<Listener>, req: Request)
    requires forall i :: 0 <= i < |ls| && ls[i].Route? ==> ls[i].verb != req.verb || ls[i].url != req.url
    ensures HandledRuns(ls, req) == GlobalRuns(ls, req)
  {
    if ls != [] {
      assert forall i :: 0 <= i < |ls[1..]| ==> ls[1..][i] == ls[i + 1];
      HandledWithoutRoute(ls[1..], req);
    }
  }

  /** A global handler runs on every mapped request, whatever its URL, at its own place in
   *  the chain; taking it out removes its run and changes nothing else. */
  lemma GlobalRunsOnEveryMappedRequest(ls: seq<Listener>, i: nat, handled: seq<string>, raw: IncomingRequest, req: Request)
    requires i < |ls| && ls[i].Global?
    requires MapRequest(raw) == Some(req)
    ensures Trace(ls, handled, raw)
         == Trace(ls[..i], handled, raw) + Run(ls[i].handler, req) + Trace(ls[i + 1..], handled, raw)
    ensures Trace(ls[..i] + ls[i + 1..], handled, raw)
         == Trace(ls[..i], handled, raw) + Trace(ls[i + 1..], handled, raw)
  {
    SplitAt(ls, i, handled, raw);
    TraceAppend(ls[..i], ls[i + 1..], handled, raw);
  }

  /** A route whose method and URL are the request's runs its handler at its own place in
   *  the chain, however many other listeners there are. */
  lemma RouteRunsOnMatch(ls: seq<Listener>, i: nat, handled: seq<string>, raw: IncomingRequest, req: Request)
    requires i < |ls| && ls[i].Route?
    requires MapRequest(raw) == Some(req)
    requires ls[i].verb == req.verb && ls[i].url == req.url
    ensures Trace(ls, handled, raw)
         == Trace(ls[..i], handled, raw) + Run(ls[i].handler, req) + Trace(ls[i + 1..], handled, raw)
  {
    SplitAt(ls, i, handled, raw);
  }

  // ---------------------------------------------------------------------------------
  // The quirks, on a freshly created server

  /** A URL registered for GET and asked for by POST gets no response at all. */
  method PostToGetRoute(h: Handler, url: string, headers: Headers) returns (trace: seq<Action>)
    requires url != ""
    ensures trace == []
  {
    var server := new Dispatcher(8000, "127.0.0.1");
    server.AddRoute(Get, url, h);
    trace := server.Dispatch(IncomingRequest(Some("POST"), Some(url), headers));
    TraceOfTwo(server.listeners, server.handledUrls, IncomingRequest(Some("POST"), Some(url), headers));
  }

  /** The default 404 ignores the method: DELETE of an unknown URL still gets it. */
  method DeleteUnknown(url: string, headers: Headers) returns (trace: seq<Action>)
    requires url != ""
    ensures trace == [Bare404]
  {
    var server := new Dispatcher(8000, "127.0.0.1");
    trace := server.Dispatch(IncomingRequest(Some("DELETE"), Some(url), headers));
    assert server.listeners[1..] == [];
  }

  /** Two addNotFoundHandler calls leave both custom handlers active, in order. */
  method TwoNotFoundHandlers(h1: Handler, h2: Handler, raw: IncomingRequest) returns (trace: seq<Action>)
    requires MapRequest(raw).Some?
    ensures trace == Run(h1, MapRequest(raw).value) + Run(h2, MapRequest(raw).value)
  {
    var server := new Dispatcher(8000, "127.0.0.1");
    server.AddNotFoundHandler(h1);
    assert server.listeners == [NotFound(h1)];
    server.AddNotFoundHandler(h2);
    assert server.listeners == [NotFound(h1), NotFound(h2)];
    trace := server.Dispatch(raw);
    TraceOfTwo(server.listeners, server.handledUrls, raw);
  }

  /** A route added after the custom not-found handler still suppresses it. */
  method LateRouteSuppressesNotFound(nf: Handler, h: Handler, url: string, headers: Headers) returns (trace: seq<Action>)
    requires url != ""
    ensures trace == []
  {
    var server := new Dispatcher(8000, "127.0.0.1");
    server.AddNotFoundHandler(nf);
    assert server.listeners == [NotFound(nf)];
    server.AddRoute(Get, url, h);
    trace := server.Dispatch(IncomingRequest(Some("POST"), Some(url), headers));
    TraceOfTwo(server.listeners, server.handledUrls, IncomingRequest(Some("POST"), Some(url), headers));
  }

  /** The same (method, URL) registered twice: both handlers run, in order. */
  method DuplicateRoute(h1: Handler, h2: Handler, url: string, headers: Headers) returns (trace: seq<Action>)
    requires url != ""
    ensures trace == Run(h1, Request(Get, url, headers)) + Run(h2, Request(Get, url, headers))
  {
    var server := new Dispatcher(8000, "127.0.0.1");
    server.AddRoute(Get, url, h1);
    server.AddRoute(Get, url, h2);
    trace := server.Dispatch(IncomingRequest(Some("GET"), Some(url), headers));
    ghost var ls := server.listeners;
    TraceOfTwo(ls[1..], server.handledUrls, IncomingRequest(Some("GET"), Some(url), headers));
  }
}
