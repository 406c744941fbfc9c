/**
 * The crawl: a queue of URLs still to open and the set of URLs already
 * opened. The main loop takes the head of the queue and opens it; opening a
 * page marks it visited and handles, in order, every response the browser
 * delivers while loading it. A response may enqueue a redirect target or the
 * page's links, and may be saved to the mirror.
 */
module Frontier {
  import opened Wrappers
  import opened Seqs
  import opened JsText
  import opened JsObject
  import opened Urls
  import opened PathMapper
  import opened Links
  import opened Rewriter

  /** The command line: `--out`/`-o` (empty when absent), `--domain` and `--path`. */
  datatype Config = Config(outPath: string, domain: Option<string>, pathPrefix: Option<string>)

  /**
   * One network response: its URL and status, its `location` and
   * `content-type` headers, its body, and the elements an HTML parser would
   * read from that body.
   */
  datatype Response = Response(url: string, status: int, location: Option<string>, contentType: Option<string>,
                               body: seq<bv8>, doc: seq<Element>)

  /**
   * The foreign collaborators: the URL parser, `path.relative`, and the
   * responses the browser delivers, in order, while it loads a page.
   */
  datatype Env = Env(parse: string -> Url, relative: (string, string) -> string, load: string -> seq<Response>)

  /** What is written to disk: the body as received, or the rewritten document. */
  datatype Content = Bytes(data: seq<bv8>) | Markup(doc: seq<Element>)

  /** One file write, with the folder created before it. */
  datatype Saved = Saved(folderPath: string, filePath: string, content: Content)

  /** The crawl state, with the log of everything saved so far. */
  datatype Crawl = Crawl(queue: seq<string>, visited: set<string>, saved: seq<Saved>)

  /** `url.parse(·).hostname` as a function value. */
  function HostnameOf(env: Env): string -> Option<string> {
    s => env.parse(s).hostname
  }

  // ---------------------------------------------------------------------------
  // decisions of the response handler

  predicate IsRedirect(status: int) {
    300 <= status <= 399
  }

  /** A redirect is followed when it names a location with the requesting page's hostname. */
  predicate FollowsRedirect(env: Env, requesting: Option<string>, location: Option<string>) {
    Truthy(location) && env.parse(location.value).hostname == requesting
  }

  /** `(headers["content-type"] || '').split("/").pop()` */
  function ContentType(header: Option<string>): (r: string)
    ensures header.None? ==> r == ""
    ensures '/' !in r
    ensures header.Some? && '/' !in header.value ==> r == header.value
    ensures header.Some? && '/' in header.value ==> exists pre :: header.value == pre + "/" + r
  {
    AfterLastSuffix(header.GetOr(""), '/');
    AfterLast(header.GetOr(""), '/')
  }

  predicate IsHtml(contentType: string) {
    Contains(contentType, "html")
  }

  /** With `--domain` set, responses from any other hostname are ignored. */
  predicate DomainRejects(cfg: Config, hostname: Option<string>) {
    Truthy(cfg.domain) && hostname != cfg.domain
  }

  /** With `--path` set, a link is enqueued only when its parsed path starts with it. */
  predicate PassesPathFilter(env: Env, prefix: Option<string>, link: string) {
    !Truthy(prefix) || (Truthy(env.parse(link).path) && StartsWith(env.parse(link).path.value, prefix.value))
  }

  /** The path filter as a test on links. */
  function PathFilter(env: Env, prefix: Option<string>): string -> bool {
    (l: string) => PassesPathFilter(env, prefix, l)
  }

  /** The extracted links that are pushed onto the queue, in order. */
  function Enqueued(env: Env, cfg: Config, links: seq<string>): (r: seq<string>)
    ensures !Truthy(cfg.pathPrefix) ==> r == links
    ensures forall x :: x in r <==> x in links && PassesPathFilter(env, cfg.pathPrefix, x)
  {
    var keep := PathFilter(env, cfg.pathPrefix);
    var r := Filter(links, keep);
    assert !Truthy(cfg.pathPrefix) ==> r == links by {
      if !Truthy(cfg.pathPrefix) {
        FilterAll(links, keep);
      }
    }
    r
  }

  /** A single link is pushed exactly when it passes the path filter. */
  lemma EnqueuedOne(env: Env, cfg: Config, link: string)
    ensures Enqueued(env, cfg, [link]) == if PassesPathFilter(env, cfg.pathPrefix, link) then [link] else []
  {
    assert [link][1..] == [];
  }

  /** The `forEach` pushes in document order: the links of a concatenation are the first part's, then the second's. */
  lemma EnqueuedAppend(env: Env, cfg: Config, a: seq<string>, b: seq<string>)
    ensures Enqueued(env, cfg, a + b) == Enqueued(env, cfg, a) + Enqueued(env, cfg, b)
  {
    FilterAppend(a, b, PathFilter(env, cfg.pathPrefix));
  }

  /** No URL in the queue is the empty string. */
  predicate NonEmptyUrls(queue: seq<string>) {
    forall i :: 0 <= i < |queue| ==> queue[i] != ""
  }

  /** Every pending URL that is not an inherited object key is still pending. */
  predicate KeepsPending(before: seq<string>, after: seq<string>) {
    forall x :: x in before && x !in ObjectPrototypeKeys ==> x in after
  }

  // ---------------------------------------------------------------------------
  // the response handler

  /** The redirect branch: enqueue the location when it is followed, and nothing else. */
  function FollowRedirect(env: Env, requesting: Option<string>, st: Crawl, location: Option<string>): (r: Crawl)
    ensures r.visited == st.visited && r.saved == st.saved
    ensures FollowsRedirect(env, requesting, location) ==> r.queue == st.queue + [location.value]
    ensures !FollowsRedirect(env, requesting, location) ==> r.queue == st.queue
  {
    if FollowsRedirect(env, requesting, location) then st.(queue := st.queue + [location.value])
    else st
  }

  /**
   * The queue after an HTML page's links are pushed: `remove(uniq(queue), visited)`,
   * which is `uniq(queue)` since `remove` drops nothing.
   */
  function EnqueueLinks(cfg: Config, env: Env, queue: seq<string>, visited: set<string>, links: seq<string>): (r: seq<string>)
    ensures r == Uniq(queue + Enqueued(env, cfg, links))
    ensures NoDups(r)
    ensures KeepsPending(queue, r)
    ensures (forall x :: x in links ==> x != "") && NonEmptyUrls(queue) ==> NonEmptyUrls(r)
  {
    var pushed := queue + Enqueued(env, cfg, links);
    var u := Uniq(pushed);
    assert KeepsPending(queue, u) by {
      forall x | x in queue && x !in ObjectPrototypeKeys
        ensures x in u
      {
        assert x in pushed;
      }
    }
    assert (forall x :: x in links ==> x != "") && NonEmptyUrls(queue) ==> NonEmptyUrls(u) by {
      if (forall x :: x in links ==> x != "") && NonEmptyUrls(queue) {
        forall i | 0 <= i < |u|
          ensures u[i] != ""
        {
          assert u[i] in pushed;
          var j :| 0 <= j < |pushed| && pushed[j] == u[i];
          if j >= |queue| {
            assert pushed[j] in Enqueued(env, cfg, links);
          }
        }
      }
    }
    Remove(u, visited)
  }

  /**
   * The `try` block of the handler for a response the domain filter let
   * through: an HTML response is rewritten and its links enqueued; either way
   * the content is saved where `upsertFileByUrl` puts it.
   */
  function Persist(cfg: Config, env: Env, st: Crawl, res: Response): (r: Result<Crawl, Fault>)
    ensures r.Failure? <==> env.parse(res.url).path.None?
    ensures r.Success? ==> r.value.visited == st.visited
    ensures r.Success? ==> |r.value.saved| == |st.saved| + 1 && r.value.saved[..|st.saved|] == st.saved
    ensures r.Success? ==> (IsHtml(ContentType(res.contentType)) <==> r.value.saved[|st.saved|].content.Markup?)
    ensures r.Success? && !IsHtml(ContentType(res.contentType)) ==> r.value.queue == st.queue
    ensures r.Success? && !IsHtml(ContentType(res.contentType)) ==> r.value.saved[|st.saved|].content == Bytes(res.body)
    ensures r.Success? && IsHtml(ContentType(res.contentType)) ==>
      && r.value.saved[|st.saved|].content.Markup?
      && RewriteRelativeImports(HostnameOf(env), env.relative,
           RewriteContext(env.parse(res.url).path, env.parse(res.url).hostname), res.doc)
         == Success(r.value.saved[|st.saved|].content.doc)
  {
    var url := env.parse(res.url);
    var contentType := ContentType(res.contentType);
    if IsHtml(contentType) then
      var rewritten :- RewriteRelativeImports(HostnameOf(env), env.relative, RewriteContext(url.path, url.hostname), res.doc);
      var links := GetLinks(HostnameOf(env), url.hostname, AnchorHrefs(res.doc));
      var queue := EnqueueLinks(cfg, env, st.queue, st.visited, links);
      var target :- UpsertPath(url, cfg.outPath, contentType);
      Success(Crawl(queue, st.visited, st.saved + [Saved(target.folderPath, target.filePath, Markup(rewritten))]))
    else
      var target :- UpsertPath(url, cfg.outPath, contentType);
      Success(st.(saved := st.saved + [Saved(target.folderPath, target.filePath, Bytes(res.body))]))
  }

  /** The file goes where `upsertFileByUrl` puts it: `getResourcePath`'s folder, `.html` added for HTML. */
  lemma PersistTarget(cfg: Config, env: Env, st: Crawl, res: Response)
    ensures Persist(cfg, env, st, res).Success? ==>
      var rp := GetResourcePath(env.parse(res.url), cfg.outPath).value;
      var last := Persist(cfg, env, st, res).value.saved[|st.saved|];
      && last.folderPath == rp.folderPath
      && last.filePath == (if IsHtml(ContentType(res.contentType)) then rp.filePath + ".html" else rp.filePath)
  {
  }

  /**
   * After an HTML page, the queue is the old queue with the page's filtered
   * links pushed, each URL kept at its first occurrence only (inherited
   * object names dropped).
   */
  lemma PersistEnqueuesLinks(cfg: Config, env: Env, st: Crawl, res: Response)
    ensures Persist(cfg, env, st, res).Success? && IsHtml(ContentType(res.contentType)) ==>
      var q := Persist(cfg, env, st, res).value.queue;
      var pushed := Enqueued(env, cfg, GetLinks(HostnameOf(env), env.parse(res.url).hostname, AnchorHrefs(res.doc)));
      NoDups(q) && q == FirstOccurrences(st.queue + pushed, ObjectPrototypeKeys)
  {
    if Persist(cfg, env, st, res).Success? && IsHtml(ContentType(res.contentType)) {
      var pushed := Enqueued(env, cfg, GetLinks(HostnameOf(env), env.parse(res.url).hostname, AnchorHrefs(res.doc)));
      UniqFirstOccurrences(st.queue + pushed);
    }
  }

  /** Saving a response loses no pending URL and queues no empty one. */
  lemma PersistQueue(cfg: Config, env: Env, st: Crawl, res: Response)
    ensures Persist(cfg, env, st, res).Success? ==> KeepsPending(st.queue, Persist(cfg, env, st, res).value.queue)
    ensures Persist(cfg, env, st, res).Success? && NonEmptyUrls(st.queue) ==>
      NonEmptyUrls(Persist(cfg, env, st, res).value.queue)
  {
  }

  /**
   * The response handler of a page whose own hostname is `requesting`.
   * A redirect only ever enqueues its target. Otherwise, unless the domain
   * filter rejects it, the response is saved; an HTML one is saved rewritten
   * and its links are enqueued, after which the queue is deduplicated.
   */
  function Handle(cfg: Config, env: Env, requesting: Option<string>, st: Crawl, res: Response): (r: Result<Crawl, Fault>)
    ensures r.Success? ==> r.value.visited == st.visited
    ensures IsRedirect(res.status) ==> r.Success? && r.value.saved == st.saved
    ensures IsRedirect(res.status) && FollowsRedirect(env, requesting, res.location) ==>
      r.value.queue == st.queue + [res.location.value]
    ensures IsRedirect(res.status) && !FollowsRedirect(env, requesting, res.location) ==>
      r.value.queue == st.queue
    ensures !IsRedirect(res.status) && DomainRejects(cfg, env.parse(res.url).hostname) ==> r == Success(st)
    ensures !IsRedirect(res.status) && !DomainRejects(cfg, env.parse(res.url).hostname) ==> r == Persist(cfg, env, st, res)
    ensures r.Failure? <==>
      !IsRedirect(res.status) && !DomainRejects(cfg, env.parse(res.url).hostname) && env.parse(res.url).path.None?
    ensures r.Success? && !IsRedirect(res.status) && !DomainRejects(cfg, env.parse(res.url).hostname) ==>
      |r.value.saved| == |st.saved| + 1
    ensures r.Success? ==> |st.saved| <= |r.value.saved| && r.value.saved[..|st.saved|] == st.saved
    ensures r.Success? && NonEmptyUrls(st.queue) ==> NonEmptyUrls(r.value.queue)
  {
    if IsRedirect(res.status) then
      Success(FollowRedirect(env, requesting, st, res.location))
    else if DomainRejects(cfg, env.parse(res.url).hostname) then
      Success(st)
    else
      Persist(cfg, env, st, res)
  }

  /** Handling a response loses no pending URL. */
  lemma HandleKeepsPending(cfg: Config, env: Env, requesting: Option<string>, st: Crawl, res: Response)
    ensures Handle(cfg, env, requesting, st, res).Success? ==>
      KeepsPending(st.queue, Handle(cfg, env, requesting, st, res).value.queue)
  {
    if !IsRedirect(res.status) && !DomainRejects(cfg, env.parse(res.url).hostname) {
      PersistQueue(cfg, env, st, res);
    }
  }

  /** The responses of one page load, handled one after the other; the first exception ends the process. */
  function HandleAll(cfg: Config, env: Env, requesting: Option<string>, st: Crawl, rs: seq<Response>): (r: Result<Crawl, Fault>)
    decreases |rs|
    ensures r.Success? ==> r.value.visited == st.visited
    ensures r.Success? ==> |st.saved| <= |r.value.saved| && r.value.saved[..|st.saved|] == st.saved
    ensures r.Success? ==> KeepsPending(st.queue, r.value.queue)
    ensures r.Success? && NonEmptyUrls(st.queue) ==> NonEmptyUrls(r.value.queue)
  {
    if rs == [] then Success(st)
    else
      var next :- Handle(cfg, env, requesting, st, rs[0]);
      HandleKeepsPending(cfg, env, requesting, st, rs[0]);
      HandleAll(cfg, env, requesting, next, rs[1..])
  }

  /** A single response is handled by `Handle`. */
  lemma HandleAllOne(cfg: Config, env: Env, requesting: Option<string>, st: Crawl, res: Response)
    ensures HandleAll(cfg, env, requesting, st, [res]) == Handle(cfg, env, requesting, st, res)
  {
    assert [res][1..] == [];
  }

  /** A page load handles its first response, then the others from the resulting state. */
  lemma HandleAllCons(cfg: Config, env: Env, requesting: Option<string>, st: Crawl, rs: seq<Response>)
    requires rs != []
    ensures HandleAll(cfg, env, requesting, st, rs) ==
      match Handle(cfg, env, requesting, st, rs[0])
      case Success(next) => HandleAll(cfg, env, requesting, next, rs[1..])
      case Failure(f) => Failure(f)
  {
  }

  /** `Handle` as the step function of a page load. */
  function HandleStep(cfg: Config, env: Env, requesting: Option<string>): (Crawl, Response) -> Result<Crawl, Fault> {
    (s: Crawl, res: Response) => Handle(cfg, env, requesting, s, res)
  }

  /** A page load steps through its responses with `Handle`, stopping at the first failure. */
  lemma {:induction false} HandleAllIsFold(cfg: Config, env: Env, requesting: Option<string>, st: Crawl, rs: seq<Response>)
    decreases |rs|
    ensures HandleAll(cfg, env, requesting, st, rs) == FoldSteps(HandleStep(cfg, env, requesting), st, rs)
  {
    if rs != [] {
      HandleAllCons(cfg, env, requesting, st, rs);
      match Handle(cfg, env, requesting, st, rs[0])
      case Success(next) => HandleAllIsFold(cfg, env, requesting, next, rs[1..]);
      case Failure(_) =>
    }
  }

  /**
   * Responses are handled in delivery order: the responses after a prefix
   * start from the state the prefix left, and a failure in the prefix ends
   * the run.
   */
  lemma HandleAllAppend(cfg: Config, env: Env, requesting: Option<string>, st: Crawl,
                        rs1: seq<Response>, rs2: seq<Response>)
    ensures HandleAll(cfg, env, requesting, st, rs1 + rs2) ==
      match HandleAll(cfg, env, requesting, st, rs1)
      case Success(mid) => HandleAll(cfg, env, requesting, mid, rs2)
      case Failure(f) => Failure(f)
  {
    HandleAllIsFold(cfg, env, requesting, st, rs1 + rs2);
    HandleAllIsFold(cfg, env, requesting, st, rs1);
    FoldStepsAppend(HandleStep(cfg, env, requesting), st, rs1, rs2);
    match HandleAll(cfg, env, requesting, st, rs1)
    case Success(mid) => HandleAllIsFold(cfg, env, requesting, mid, rs2);
    case Failure(_) =>
  }

  /**
   * `open(browser, url)`: a URL already visited is skipped with nothing
   * changed; otherwise it is marked visited before any response is handled.
   */
  function Open(cfg: Config, env: Env, st: Crawl, url: string): (r: Result<Crawl, Fault>)
    ensures Lookup(st.visited, url) ==> r == Success(st)
    ensures r.Success? ==> st.visited <= r.value.visited
    ensures r.Success? && !Lookup(st.visited, url) ==> r.value.visited == st.visited + {url}
    ensures !Lookup(st.visited, url) && env.load(url) == [] ==> r == Success(st.(visited := st.visited + {url}))
    ensures r.Success? && st.visited !! ObjectPrototypeKeys ==> r.value.visited !! ObjectPrototypeKeys
    ensures r.Success? ==> |st.saved| <= |r.value.saved| && r.value.saved[..|st.saved|] == st.saved
    ensures r.Success? ==> KeepsPending(st.queue, r.value.queue)
    ensures r.Success? && NonEmptyUrls(st.queue) ==> NonEmptyUrls(r.value.queue)
  {
    if Lookup(st.visited, url) then Success(st)
    else
      var requesting := env.parse(url).hostname;
      HandleAll(cfg, env, requesting, st.(visited := st.visited + {url}), env.load(url))
  }

  // ---------------------------------------------------------------------------
  // the main loop

  /** Where the crawl stands after a step: still going, done, or ended by an exception. */
  datatype Status = Running(crawl: Crawl) | Finished(crawl: Crawl) | Crashed(fault: Fault)

  /**
   * One iteration of the main loop: `shift` the queue; stop on a falsy head
   * (the queue was empty); otherwise open the head.
   */
  function Step(cfg: Config, env: Env, st: Crawl): (r: Status)
    ensures |st.queue| == 0 ==> r == Finished(st)
    ensures |st.queue| > 0 && st.queue[0] != "" && Lookup(st.visited, st.queue[0]) ==>
      r == Running(st.(queue := st.queue[1..]))
    ensures |st.queue| > 0 && st.queue[0] != "" && !Lookup(st.visited, st.queue[0]) && env.load(st.queue[0]) == [] ==>
      r == Running(Crawl(st.queue[1..], st.visited + {st.queue[0]}, st.saved))
    ensures |st.queue| > 0 && st.queue[0] != "" && !Lookup(st.visited, st.queue[0]) ==>
      var h := HandleAll(cfg, env, env.parse(st.queue[0]).hostname,
        Crawl(st.queue[1..], st.visited + {st.queue[0]}, st.saved), env.load(st.queue[0]));
      && (h.Success? ==> r == Running(h.value))
      && (h.Failure? ==> r == Crashed(h.error))
    ensures r.Running? ==>
      && |st.queue| > 0
      && st.visited <= r.crawl.visited <= st.visited + {st.queue[0]}
      && (!Lookup(st.visited, st.queue[0]) ==> st.queue[0] in r.crawl.visited)
      && KeepsPending(st.queue[1..], r.crawl.queue)
    ensures r.Running? && NonEmptyUrls(st.queue) ==> NonEmptyUrls(r.crawl.queue)
    ensures r.Running? && st.visited !! ObjectPrototypeKeys ==> r.crawl.visited !! ObjectPrototypeKeys
  {
    if |st.queue| == 0 then Finished(st)
    else
      var head := st.queue[0];
      var rest := st.(queue := st.queue[1..]);
      if head == "" then Finished(rest)
      else
        match Open(cfg, env, rest, head)
        case Success(next) => Running(next)
        case Failure(f) => Crashed(f)
  }

  /** With no empty URL in the queue, the loop stops exactly when the queue is empty. */
  lemma StepStopsOnlyWhenEmpty(cfg: Config, env: Env, st: Crawl)
    requires NonEmptyUrls(st.queue)
    ensures Step(cfg, env, st).Finished? <==> |st.queue| == 0
  {
  }

  /**
   * At most `steps` iterations of the main loop. Along the way the visited
   * set only grows, never takes in an inherited object name (so `remove`
   * can always turn it into a key), and no empty URL is ever queued.
   */
  function Run(cfg: Config, env: Env, st: Crawl, steps: nat): (r: Status)
    decreases steps
    ensures r.Running? || r.Finished? ==> st.visited <= r.crawl.visited
    ensures (r.Running? || r.Finished?) && NonEmptyUrls(st.queue) ==> NonEmptyUrls(r.crawl.queue)
    ensures (r.Running? || r.Finished?) && st.visited !! ObjectPrototypeKeys ==> r.crawl.visited !! ObjectPrototypeKeys
  {
    if steps == 0 then Running(st)
    else
      match Step(cfg, env, st)
      case Running(next) => Run(cfg, env, next, steps - 1)
      case other => other
  }

  /**
   * The crawl's starting state: the seed URL alone in the queue. A missing
   * seed, or one without a hostname, stops the program before any crawling.
   */
  function Start(env: Env, seed: Option<string>): (r: Option<Crawl>)
    ensures r.Some? <==> Truthy(seed) && Truthy(env.parse(seed.value).hostname)
    ensures r.Some? ==> r.value.queue == [seed.value] && r.value.visited == {} && r.value.saved == []
    ensures r.Some? ==> NonEmptyUrls(r.value.queue)
  {
    if !Truthy(seed) || !Truthy(env.parse(seed.value).hostname) then None
    else Some(Crawl([seed.value], {}, []))
  }
}
