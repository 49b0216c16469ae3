# bastro, modelled in Dafny

The repository has two parts.

- **bserver** is a small HTTP request dispatcher over Node's `http` server.
  - `createServer` makes a server object. That object keeps an append-only list of handled URLs and a chain of `"request"` listeners.
  - `addHandler`, `addRoute` and `addNotFoundHandler` append listeners to the chain.
  - Every listener sees every request, in registration order, and decides for itself whether to act.
- **bastro** is a folder-to-route mapper.
  - `routeFolder` walks a folder depth first.
  - It splits each file path with a regular expression built from the escaped folder path into a sub-path and a file name.
  - It derives a URL: `index.html` collapses to its folder, and other names are cut at their first dot.
  - It registers one GET route per file, answering 200 with the file's content as read at setup.
- **server.ts** holds a copy of the dispatcher and a setup script: a logging handler, routes for `/` and `/about`, and a custom not-found page.

The model has four modules.

- `Wrappers` (`wrappers.dfy`) holds `Option`.
- `BServer` (`bserver.dfy`) holds the request mappers, the four kinds of listener and the class `Dispatcher`.
  - `Dispatcher` holds `handledUrls` and `listeners` as sequence fields. Its registration methods update them in place.
  - `Dispatcher.Dispatch` runs the chain on one request. It produces the *trace*: the handler calls and the responses written, in order. It is proved against the function `Trace`.
  - The lemmas say which listeners act for each kind of request.
- `Bastro` (`bastro.dfy`) holds the directory walk, the escaping, the match, the URL derivation and the method `RouteFolder`.
  - The walk works over a tree of `Entry` values that stands for the file system.
  - The match is a structural model of the pattern `^<escaped>(?:/(.*?))?/([^/]+)$`.
  - `RouteFolder` is proved against the function `Pages`.
- `ServerScript` (`server_script.dfy`) is the setup script of server.ts. Lemmas give the exact trace of every kind of request on that server.
  - The dispatcher copy in server.ts (lines 28-145) is the code of lib/bserver/index.ts, apart from how the Node server is created and how `start` listens. `BServer` models both.

Modelling choices:

- A handler is reduced to what the dispatcher can observe of it: an identity and the one reply it sends, if it sends one.
- `mapResponse(res).send(code, body)` is the action `Send(code, body)`: a write with the `text/html` content type. The default not-found listener writes `Bare404`: status 404, no content type, no body.
- `server.removeListener` removes the most recently added occurrence of the listener, as Node's does. This is `RemoveLast`.
- `file.match(regex)` failing makes `match[1]` throw `TypeError` in routeFolder. The model returns `completed == false`, and the routes registered before that file stay registered.
- `readFileSync(file)` gives the content of that file in the tree. The tree does not change during setup.
- A directory name that holds a line terminator (`\n`, `\r`, U+2028 or U+2029) makes the match fail, because `.` in `(.*?)` does not match one. routeFolder then throws at that file. `Bastro.MatchRestIff` states the condition, and `Bastro.RouteFolder` returns `completed == false` there.

Three behaviours of the code differ from what a reader of the API would expect. The model follows the code.

- **Top-level pages get a doubled slash.** One would expect `routeFolder("/", "./pages")` to serve `pages/about.html` at `/about`. The code computes `rootUrl + baseUrl + endUrl` (lib/bastro/index.ts:33-42), which is `"/" + "" + "/about"`, so the page is served at `//about`. `Bastro.AboutPageRoute` proves this. `Bastro.TopIndexRoute` proves that `index.html` is still served at `/`.
- **Not-found handlers do not replace each other.** One would expect a second `addNotFoundHandler` to replace the first. The code only deregisters the default listener (lib/bserver/index.ts:84), so every custom not-found handler stays on the chain and all of them fire. `BServer.TwoNotFoundHandlers` proves this.
- **Duplicate routes both fire.** One would expect a second route for the same method and URL to replace the first, or to be refused. The code appends it (lib/bserver/index.ts:114-116), and both handlers run, in order. `BServer.DuplicateRoute` proves this.

## Model

| member | source | states |
|---|---|---|
| BServer.MapMethod | lib/bserver/index.ts:30-38 | exactly "GET" maps to get and exactly "POST" to post (both directions); every other or missing method maps to nothing |
| BServer.HasUrl | lib/bserver/index.ts:46 | definition: JavaScript truthiness of `req.url`, present and non-empty; also the tests at lines 71 and 86; used by MapRequest and Fire |
| BServer.Send | lib/bserver/index.ts:57-64 | definition: mapResponse's send writes the status with the text/html content type, then the body; characterised by GetHome, PageServed |
| BServer.Run | lib/bserver/index.ts:97-133 | definition: a handler's call and its reply, if any, as invoked at lines 97 (not-found), 110 (global) and 133 (route); characterised by MappedTrace, RouteRunsOnMatch, GlobalRunsOnEveryMappedRequest |
| BServer.Fire | lib/bserver/index.ts:70-134 | definition: the four listener bodies (default 70-79, not-found 85-99, global 103-111, route 116-134); characterised by Bare404Iff, UnmappedTrace, MappedTrace |
| BServer.Trace | lib/bserver/index.ts:81-135 | definition: every listener in registration order, as Node emits "request"; characterised by TraceAppend, SplitAt and Dispatcher.Dispatch |
| BServer.TraceAppend | lib/bserver/index.ts:81-135 | the actions of a chain are those of its first part followed by those of its second |
| BServer.MapRequest | lib/bserver/index.ts:40-55 | no request exactly when the method does not map or the URL is missing or empty; otherwise the mapped method, with URL and headers passed through |
| BServer.LastIndexOf | lib/bserver/index.ts:84 | the position found holds the listener, and no later position does |
| BServer.RemoveLast | lib/bserver/index.ts:84 | removeListener leaves the chain unchanged when the listener is absent; otherwise it drops exactly the last occurrence and keeps the rest in order |
| BServer.Dispatcher.constructor | lib/bserver/index.ts:66-81 | createServer: the port and host are kept, nothing is handled, and the one listener is the default not-found listener; the invariants hold |
| BServer.Dispatcher.AddNotFoundHandler | lib/bserver/index.ts:83-100 | the default listener is removed and the custom one appended; the handled URLs are unchanged; the invariants are preserved |
| BServer.Dispatcher.AddHandler | lib/bserver/index.ts:102-112 | one global listener is appended and nothing else changes; the invariants are preserved |
| BServer.Dispatcher.AddRoute | lib/bserver/index.ts:114-135 | the URL is recorded as handled whatever the method, and the route listener is appended; the invariants are preserved |
| BServer.Dispatcher.Dispatch | lib/bserver/index.ts:70-135 | one request produces exactly the listeners' actions, each listener in registration order, judged against the handled URLs of that moment |
| BServer.CustomNotFoundSilencesBare404 | lib/bserver/index.ts:83-100 | on a well-formed chain that holds a custom not-found listener, the bare 404 is never written, whatever the request |
| BServer.Bare404Iff | lib/bserver/index.ts:70-79 | the bare 404 is written if and only if the default listener is installed and the URL is non-empty and not handled; the method plays no part |
| BServer.UnmappedTrace | lib/bserver/index.ts:70-134 | a request that does not map reaches no handler; at most the default listener answers it, with the bare 404 |
| BServer.UnmappedRest | lib/bserver/index.ts:85-134 | without the default listener, a request that does not map produces nothing at all |
| BServer.MappedTrace | lib/bserver/index.ts:68-135 | for a mapped request, a handled URL runs the global handlers and the matching routes, and an unhandled URL runs the global handlers and the not-found listeners, each in registration order |
| BServer.WrongMethodOnlyGlobals | lib/bserver/index.ts:114-126 | a handled URL asked for with a method none of its routes has runs only the global handlers; no not-found listener answers it |
| BServer.GlobalRunsOnEveryMappedRequest | lib/bserver/index.ts:102-112 | a global handler runs on every mapped request at its own place in the chain; removing it removes only its run |
| BServer.RouteRunsOnMatch | lib/bserver/index.ts:116-134 | a route whose method and URL are the request's runs its handler at its own place in the chain |
| BServer.PostToGetRoute | lib/bserver/index.ts:114-126 | a POST to a URL registered only for GET gets no response at all |
| BServer.DeleteUnknown | lib/bserver/index.ts:70-79 | a DELETE of an unknown URL still gets the bare 404 |
| BServer.TwoNotFoundHandlers | lib/bserver/index.ts:83-100 | after two addNotFoundHandler calls, an unhandled mapped request runs both handlers, in order |
| BServer.LateRouteSuppressesNotFound | lib/bserver/index.ts:86-98 | a route added after the custom not-found handler still stops it from answering that URL, even for the wrong method |
| BServer.DuplicateRoute | lib/bserver/index.ts:114-135 | the same method and URL registered twice run both handlers, in order |
| Bastro.ListAllFiles | lib/bastro/index.ts:4-15 | definition: the flatMap walk, joining paths with "/"; characterised by WalkShape, WalkFindsFile, FilesAreListed |
| Bastro.ListAllFilesAppend | lib/bastro/index.ts:4-15 | the listing of two item sequences is the listing of the first followed by that of the second |
| Bastro.SubdirectoryContiguous | lib/bastro/index.ts:7-14 | a subdirectory's files are listed together, at its place, with the folder path extended by "/" and its name |
| Bastro.WalkLengths | lib/bastro/index.ts:4-15 | one path, one name sequence and one content per file at any depth |
| Bastro.WalkShape | lib/bastro/index.ts:4-15 | each listed path is the folder followed by "/" and each name along the tree, down to the file |
| Bastro.WalkFindsFile | lib/bastro/index.ts:4-15 | with distinct names in each directory, every listed path leads to a file of the tree (never a directory), with that file's content |
| Bastro.FilesAreListed | lib/bastro/index.ts:4-15 | every file of the tree, at any depth, is listed, with its content |
| Bastro.OnePathPerFile | lib/bastro/index.ts:4-15 | the listing has exactly one path per file of the tree |
| Bastro.Escape | lib/bastro/index.ts:18 | definition: a backslash before each special character; characterised by EscapeSnoc, LiteralOfEscape |
| Bastro.EscapeSnoc | lib/bastro/index.ts:18 | the escaping puts a backslash before each of . * + ? ^ $ { } ( ) \| [ ] \\ and leaves every other character unchanged |
| Bastro.LiteralOfEscape | lib/bastro/index.ts:18-19 | the escaped folder path, read as a pattern, matches exactly the folder path, literally |
| Bastro.BuildRegex | lib/bastro/index.ts:17-20 | the pattern's prefix matches exactly the folder path |
| Bastro.MatchRest | lib/bastro/index.ts:19 | definition: the pattern after the folder prefix, with the lazy group ending at the last "/"; characterised by MatchRestIff |
| Bastro.MatchFile | lib/bastro/index.ts:32-34 | definition: file.match(regex), the literal prefix then MatchRest; characterised by MatchIff |
| Bastro.MatchRestIff | lib/bastro/index.ts:19 | the part after the prefix matches, with its groups, if and only if it is "/", an optional sub-path free of line terminators followed by "/", and a non-empty name without "/" |
| Bastro.MatchIff | lib/bastro/index.ts:30-34 | file.match succeeds with groups g if and only if the file is the folder, the optional "/" and sub-path, "/" and the name |
| Bastro.ListedPathsMatch | lib/bastro/index.ts:27-34 | in a tree of valid names, the match succeeds on every listed path; the groups are the directory names joined by "/" and the file's name |
| Bastro.EndUrl | lib/bastro/index.ts:36-37 | definition: nothing for exactly index.html, else "/" and the name before its first dot; characterised by TopIndexRoute, TopPageRoute |
| Bastro.PageRoute | lib/bastro/index.ts:32-42 | definition: rootUrl, group 1 or nothing, then EndUrl of group 2, or nothing where the match fails; characterised by RouteOfShape, ListedRoute |
| Bastro.BeforeFirstDot | lib/bastro/index.ts:37 | split(".")[0] is a dot-free prefix of the name, ending at its first dot or at its end |
| Bastro.BeforeFirstDotOf | lib/bastro/index.ts:37 | a dot-free stem followed by "." and any extension gives back the stem |
| Bastro.RouteOfShape | lib/bastro/index.ts:32-42 | for a file of the matched shape, the route is the root URL, the sub-path or nothing, then the end derived from the name |
| Bastro.ListedRoute | lib/bastro/index.ts:27-42 | each listed file's route is the root URL, the directory names joined by "/" with no separator before them, then nothing for index.html or "/" and the name before its first dot |
| Bastro.TopIndexRoute | lib/bastro/index.ts:36-42 | the folder's own index.html is served at the root URL itself |
| Bastro.NestedIndexRoute | lib/bastro/index.ts:36-42 | an index.html one folder down is served at the root URL directly followed by the folder's name |
| Bastro.NestedPageRoute | lib/bastro/index.ts:36-42 | another page one folder down is served at the root URL, the folder's name, "/" and the name before its first dot |
| Bastro.TopPageRoute | lib/bastro/index.ts:36-42 | a top-level page other than index.html is served at the root URL, "/" and the name before its first dot |
| Bastro.AboutPageRoute | lib/bastro/index.ts:36-42 | with root URL "/", a top-level about.html is served at "//about" |
| Bastro.Pages | lib/bastro/index.ts:29-42 | at most one page per listed file |
| Bastro.PagesStep | lib/bastro/index.ts:29-42 | page i is file i with its route and content; the pages stop exactly at the first file whose match fails |
| Bastro.PageListener | lib/bastro/index.ts:43-45 | definition: a GET route for the page's route whose handler sends 200 and the content; characterised by PageListenersAt, PageServed |
| Bastro.PageListenersAt | lib/bastro/index.ts:43-45 | each page contributes, at its own position, one GET route listener sending 200 and its content, and one handled URL |
| Bastro.NextRoute | lib/bastro/index.ts:30-42 | the route of the next file is the next page's route, or nothing exactly where the pages stop |
| Bastro.AddPage | lib/bastro/index.ts:43-45 | one step of forEach: the page's route listener and URL are appended after those of the pages before it; the invariants are preserved |
| Bastro.RouteFolder | lib/bastro/index.ts:22-47 | routeFolder appends exactly the pages' route listeners and URLs, in listing order; it completes if and only if every listed file matched |
| Bastro.ValidFolderRoutesEveryFile | lib/bastro/index.ts:22-47 | in a tree of valid names, routeFolder registers one page per file |
| Bastro.PageServed | lib/bastro/index.ts:43-45 | a registered page is served on every GET of its route, with status 200 and the content read at setup, at its place in the chain |
| ServerScript.Setup | server.ts:147-166 | the script's server has host 127.0.0.1 and port 8000; its chain is the logger, GET /, GET /about and the custom not-found listener, with the default listener gone; "/" and "/about" are handled |
| ServerScript.Serve | server.ts:147-166 | a request to the script's server produces the trace of that chain |
| ServerScript.GetHome | server.ts:153-158 | GET / runs the logger, then sends the welcome page with 200, and nothing else |
| ServerScript.GetAbout | server.ts:160-162 | GET /about runs the logger, then sends the about page with 200, and nothing else |
| ServerScript.OtherUrlNotFound | server.ts:164-166 | a GET or POST of any other non-empty URL runs the logger, then sends the not-found page with 404 |
| ServerScript.PostToRoutedUrl | server.ts:149-162 | POST / and POST /about run only the logger and get no response |
| ServerScript.UnmappedIgnored | server.ts:147-166 | a request with an unsupported or missing method, or a missing or empty URL, produces nothing at all, not even a 404 |

## Left out

- The Node transport is left out: `start` and `server.listen`, sockets, and the HTTP wire format. A request enters the model as an `IncomingRequest` value.
- Node's listener-count warning is left out. An emitter allows 10 listeners per event by default, so with more than 10 `"request"` listeners (routeFolder over ten or more files) Node prints a MaxListenersExceededWarning to stderr. The listeners still run, so the trace is the same.
- `console.log` is left out. The logger in server.ts is a handler that sends no reply, and the host and port message of `start` is not modelled.
- Handler bodies are left out. A handler is an identity and at most one fixed reply. A handler that throws is not modelled.
- What happens on two writes to one response (a handler's reply or the bare 404) is left out. After `end()`, Node's `writeHead` throws `ERR_HTTP_HEADERS_SENT`. Nothing catches it, so the listeners after the second writer do not run and the process gets an uncaught exception. The trace instead records every write and goes on to the later listeners. This arises when the default listener writes the bare 404 and a later global handler replies (lib/bserver/index.ts:76-77, 110), and in `BServer.TwoNotFoundHandlers` and `BServer.DuplicateRoute` when both handlers reply. It also arises in routeFolder whenever two listed files get the same route, since both routes send a reply. One case is two files of one folder, neither named `index.html`, that share the part before their first dot: with root URL `/`, `a.html` and `a.txt` both route to `//a`, while `index.html` and `index.txt` route to `/` and `//index`. The other case is a folder's `index.html` next to a file named after that folder: `a/b/index.html` and `a/b.html` both route to the root URL followed by `a/b` (with root URL `/`, to `/a/b`), because the first group of the match carries no leading slash.
- The file system is left out. `readdirSync`, `statSync` and `readFileSync` are replaced by a tree of `Entry` values. Read failures, symbolic links and changes during the walk are not modelled.
- The general JavaScript regular-expression engine is left out. Only the one pattern buildRegex produces is modelled, structurally.
- Strings are sequences of Dafny characters, not UTF-16 code units. Surrogate pairs are not modelled.
- index.ts is left out. It calls `createBastroApp` and `serveFolder`, which lib/bastro/index.ts does not define, so there is no code to model.
- Concurrency is left out. Node delivers requests one at a time, and the model observes one request at a time.
- Bastro.Pages: its own contract states only the bound on the number of pages. The per-file content of the pages is stated by `Bastro.PagesStep`, which keeps the recursive function cheap to verify.
