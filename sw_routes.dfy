/**
  The request side of public/sw.js: what a request and a response are to the
  worker, what the network and the navigation preload can come back with,
  and which of the three strategies the fetch handler picks for a request.
 */
module SwRoutes {

  /** The cache the worker owns. */
  const Cache: string := "budget-nav-v2"

  /** The app shell fetched at install time. */
  const Shell: seq<string> := ["/", "/index.html", "/manifest.webmanifest", "/icons/icon-192.png", "/icons/icon-512.png"]

  /** Path suffixes of static assets; the comparison is case-sensitive. */
  const StaticSuffixes: seq<string> := [".js", ".css", ".woff", ".woff2", ".ttf", ".png", ".svg", ".jpg", ".jpeg", ".webp"]

  /** `request.mode`: only "navigate" matters to the worker. */
  datatype Mode = Navigate | OtherMode

  /** A request: its method (`verb`), its mode, and its URL as path and query. */
  datatype Request = Request(verb: string, mode: Mode, pathname: string, search: string)

  datatype Response = Response(status: int, body: string)

  /** What `fetch` settles to: a response of any status, or a rejection on network failure. */
  datatype FetchOutcome = Fetched(response: Response) | NetFail

  /** What `event.preloadResponse` settles to: nothing, a response, or a rejection. */
  datatype Preload = NoPreload | Preloaded(response: Response) | PreloadFailed

  /** What the fetch handler gives the page. */
  datatype Reply =
    | NotHandled              // no `respondWith`: the browser fetches as if there were no worker
    | Respond(response: Response)
    | ErrorResponse           // `Response.error()`
    | NullResponse            // `respondWith` of a promise for `null`

  /** The three strategies, or leaving the request alone. */
  datatype Strategy = Pass | NavigationFirst | StaleWhileRevalidate | NetworkFirst

  /** The cache key of a request: its URL. */
  function Url(req: Request): string {
    req.pathname + req.search
  }

  predicate StartsWith(s: string, prefix: string) {
    |prefix| <= |s| && s[..|prefix|] == prefix
  }

  predicate EndsWith(s: string, suffix: string) {
    |suffix| <= |s| && s[|s| - |suffix|..] == suffix
  }

  /** `isStatic`: the path is under "/assets/" or ends in one of the static suffixes. */
  function IsStatic(path: string): (r: bool)
    ensures r <==> StartsWith(path, "/assets/") || exists i :: 0 <= i < |StaticSuffixes| && EndsWith(path, StaticSuffixes[i])
  {
    var x := StaticSuffixes;
    assert x[0] == ".js" && x[1] == ".css" && x[2] == ".woff" && x[3] == ".woff2" && x[4] == ".ttf";
    assert x[5] == ".png" && x[6] == ".svg" && x[7] == ".jpg" && x[8] == ".jpeg" && x[9] == ".webp";
    StartsWith(path, "/assets/")
    || EndsWith(path, ".js")
    || EndsWith(path, ".css")
    || EndsWith(path, ".woff")
    || EndsWith(path, ".woff2")
    || EndsWith(path, ".ttf")
    || EndsWith(path, ".png")
    || EndsWith(path, ".svg")
    || EndsWith(path, ".jpg")
    || EndsWith(path, ".jpeg")
    || EndsWith(path, ".webp")
  }

  /** The fetch handler's choice: only GET is handled, navigations first, then static assets, then the rest. */
  function Route(req: Request): (s: Strategy)
    ensures s == Pass <==> req.verb != "GET"
    ensures s == NavigationFirst <==> req.verb == "GET" && req.mode == Navigate
    ensures s == StaleWhileRevalidate <==> req.verb == "GET" && req.mode != Navigate && IsStatic(req.pathname)
    ensures s == NetworkFirst <==> req.verb == "GET" && req.mode != Navigate && !IsStatic(req.pathname)
  {
    if req.verb != "GET" then Pass
    else if req.mode == Navigate then NavigationFirst
    else if IsStatic(req.pathname) then StaleWhileRevalidate
    else NetworkFirst
  }

  /** Static-ness looks at the path only: a query string does not change it. */
  lemma RouteIgnoresQuery(req: Request, search: string)
    ensures Route(req.(search := search)) == Route(req)
  {
  }

  /** A bundled script and an icon are static assets. */
  lemma StaticExamples()
    ensures IsStatic("/assets/index-4f2a.js")
    ensures IsStatic("/icons/icon-192.png")
  {
    assert "/assets/index-4f2a.js"[..8] == "/assets/";
    assert "/icons/icon-192.png"[15..] == ".png";
  }

  /** An API path is not static, and a suffix in upper case does not count. */
  lemma NonStaticExamples()
    ensures !IsStatic("/api/entries")
    ensures !IsStatic("/photo.JPG")
  {
    var api := "/api/entries";
    forall i | 0 <= i < |StaticSuffixes| ensures !EndsWith(api, StaticSuffixes[i]) {
      assert api[|api| - 1] == 's' && api[|api| - 2] == 'e';
    }
    assert api[..8] != "/assets/" by { assert api[2] == 'p'; }
    var jpg := "/photo.JPG";
    forall i | 0 <= i < |StaticSuffixes| ensures !EndsWith(jpg, StaticSuffixes[i]) {
      assert jpg[|jpg| - 1] == 'G';
    }
    assert !StartsWith(jpg, "/assets/") by { assert jpg[1] == 'p'; }
  }

  /** A navigation to a script path is still a navigation, a POST is passed through, and a query string ending in ".js" does not make a request static. */
  lemma RouteExamples()
    ensures Route(Request("GET", Navigate, "/assets/app.js", "")) == NavigationFirst
    ensures Route(Request("POST", OtherMode, "/assets/app.js", "")) == Pass
    ensures Route(Request("GET", OtherMode, "/data", "?f=x.js")) == NetworkFirst
  {
    var data := "/data";
    forall i | 0 <= i < |StaticSuffixes| ensures !EndsWith(data, StaticSuffixes[i]) {
      assert data[|data| - 1] == 'a';
    }
    assert !StartsWith(data, "/assets/");
  }
}
