/** The setup script of server.ts: one dispatcher on 127.0.0.1:8000 with a logging
 *  handler, GET routes for "/" and "/about", and a custom not-found page.
 *
 *  The dispatcher copy in server.ts is the one of lib/bserver/index.ts apart from how it
 *  starts listening, so the same model serves both; what is proved here is what that
 *  particular configuration does with every kind of request.
 */
module ServerScript {
  import opened Wrappers
  import opened BServer

  const Port := 8000
  const Host := "127.0.0.1"

  const WelcomePage := "<h1>Bienvenue sur le site!!!</h1><p>Ici plein de trucs cools en vrai</p>"
  const AboutPage := "<h1>About me</h1><p>Je suis un chill guy</p>"
  const NotFoundPage := "<h1>Page not found</h1>"

  /** The global handler: it only logs, so it never sends a response. */
  const Logger := Handler("logger", None)
  const Home := Handler("home", Some(Reply(200, WelcomePage)))
  const About := Handler("about", Some(Reply(200, AboutPage)))
  const Missing := Handler("not-found", Some(Reply(404, NotFoundPage)))

  /** The listener chain the script leaves behind. */
  const ScriptListeners := [Global(Logger), Route(Get, "/", Home), Route(Get, "/about", About), NotFound(Missing)]

  /** The URLs the script's routes record. */
  const ScriptUrls := ["/", "/about"]

  /** The registration sequence: createServer, addHandler, two addRoute, addNotFoundHandler. */
  method Setup() returns (server: Dispatcher)
    ensures fresh(server) && server.Valid()
    ensures server.port == Port && server.hostname == Host
    ensures server.listeners == ScriptListeners && DefaultNotFound !in server.listeners
    ensures server.handledUrls == ScriptUrls
  {
    server := new Dispatcher(Port, Host);
    server.AddHandler(Logger);
    server.AddRoute(Get, "/", Home);
    server.AddRoute(Get, "/about", About);
    assert server.listeners == [DefaultNotFound, Global(Logger), Route(Get, "/", Home), Route(Get, "/about", About)];
    server.AddNotFoundHandler(Missing);
    assert RemoveLast([DefaultNotFound, Global(Logger), Route(Get, "/", Home), Route(Get, "/about", About)], DefaultNotFound)
           == [Global(Logger), Route(Get, "/", Home), Route(Get, "/about", About)];
  }

  /** One request against the configured server. */
  method Serve(raw: IncomingRequest) returns (trace: seq<Action>)
    ensures trace == Trace(ScriptListeners, ScriptUrls, raw)
  {
    var server := Setup();
    trace := server.Dispatch(raw);
  }

  /** The chain is the four listeners, one after the other. */
  lemma ScriptTraceParts(raw: IncomingRequest)
    ensures Trace(ScriptListeners, ScriptUrls, raw)
            == Fire(Global(Logger), ScriptUrls, raw) + Fire(Route(Get, "/", Home), ScriptUrls, raw)
               + Fire(Route(Get, "/about", About), ScriptUrls, raw) + Fire(NotFound(Missing), ScriptUrls, raw)
  {
    var ls := ScriptListeners;
    assert ls == ls[..2] + ls[2..];
    TraceAppend(ls[..2], ls[2..], ScriptUrls, raw);
    TraceOfTwo(ls[..2], ScriptUrls, raw);
    TraceOfTwo(ls[2..], ScriptUrls, raw);
  }

  /** GET /: the logger runs, then the home page is sent with 200, and nothing else. */
  lemma GetHome(raw: IncomingRequest)
    requires raw.verb == Some("GET") && raw.url == Some("/")
    ensures var req := Request(Get, "/", raw.headers);
            Trace(ScriptListeners, ScriptUrls, raw)
              == [Call(Logger.id, req), Call(Home.id, req), Send(200, WelcomePage)]
  {
    ScriptTraceParts(raw);
  }

  /** GET /about: the logger runs, then the about page is sent with 200, and nothing else. */
  lemma GetAbout(raw: IncomingRequest)
    requires raw.verb == Some("GET") && raw.url == Some("/about")
    ensures var req := Request(Get, "/about", raw.headers);
            Trace(ScriptListeners, ScriptUrls, raw)
              == [Call(Logger.id, req), Call(About.id, req), Send(200, AboutPage)]
  {
    ScriptTraceParts(raw);
  }

  /** GET or POST of any other non-empty URL: the logger, then the custom 404 page. */
  lemma OtherUrlNotFound(raw: IncomingRequest)
    requires raw.verb == Some("GET") || raw.verb == Some("POST")
    requires raw.url.Some? && raw.url.value !in ["", "/", "/about"]
    ensures var req := MapRequest(raw).value;
            Trace(ScriptListeners, ScriptUrls, raw)
              == [Call(Logger.id, req), Call(Missing.id, req), Send(404, NotFoundPage)]
  {
    ScriptTraceParts(raw);
    assert raw.url.value !in ScriptUrls;
  }

  /** POST / or POST /about: only the logger runs; the request gets no response at all,
   *  since the URL is handled but no route has that method. */
  lemma PostToRoutedUrl(raw: IncomingRequest)
    requires raw.verb == Some("POST") && (raw.url == Some("/") || raw.url == Some("/about"))
    ensures Trace(ScriptListeners, ScriptUrls, raw) == [Call(Logger.id, MapRequest(raw).value)]
  {
    ScriptTraceParts(raw);
  }

  /** An unsupported or missing method, or a missing or empty URL: nothing happens, since
   *  the default 404 listener is gone and every remaining listener needs a mapped request. */
  lemma UnmappedIgnored(raw: IncomingRequest)
    requires (raw.verb != Some("GET") && raw.verb != Some("POST")) || raw.url == None || raw.url == Some("")
    ensures Trace(ScriptListeners, ScriptUrls, raw) == []
  {
    ScriptTraceParts(raw);
  }
}
