# spa-ghetti site mirrorer, modelled in Dafny

The mirrorer crawls a site from a seed URL, saves every response a page load
produces under a path derived from its URL, rewrites an HTML page's
`link`/`script`/`img` references so the saved copy points at saved files, and
follows the page's same-domain links. This project models its core:

- **Path mapping** (`PathMapper`): `getResourcePath`, the path choice of
  `upsertFileByUrl`, and the directory prefixes `mkdirp` creates.
- **Link extraction** (`Links`): `getLinks` over the `href`s of a page's
  anchors.
- **Reference rewriting** (`Rewriter`): `rewriteRelativeImports` over a page's
  elements.
- **Frontier** (`Frontier`): the queue and visited table of `index.js`, the
  response handler of `open`, `open` itself and the main loop, as pure step
  functions over a `Crawl` record.

Supporting modules model the JavaScript built-ins the code depends on, with
their edge cases: `JsText` (`split`, `join`, `trim`, `includes`, the global
`/(#.*)/g` replacement, how `null` prints) and `JsObject` (plain objects used
as dictionaries: inherited keys, `uniq`, `remove`). `Seqs` holds generic
filtering, mapping, first-occurrence deduplication and a fold that stops at
the first failure; `Wrappers` holds `Option` and
`Result`; `Urls` holds the parsed-URL record.

The foreign calls are parameters: `url.parse` is a function `string -> Url`
(`hostname`, `host`, `path`, each possibly `null`), `path.relative` a function
of two strings, and the browser a function from a page URL to the responses
its load delivers, in order. A parsed HTML document is a sequence of elements
(tag, `href`, `src`).

## Behaviour kept exactly as the code has it

- A relative href that does not start with `/` is written twice:
  `foo/bar` becomes `https://<domain>foo/bar/foo/bar` (no `/` after the
  domain); a fragment-only href gives `https://<domain>/`
  (`Links.RelativeHrefDoubled`, `Links.FragmentOnlyIsRoot`).
- A relative href loses its fragment and surrounding white space before the
  `/` test; one starting with `/` is then used as is, so `/foo#bar` on
  `example.com` yields `https://example.com/foo` (`Links.LinkOfRelative`,
  `Links.RootedHrefKept`).
- A URL path with no segments gives the file name `undefined`
  (`PathMapper.GetResourcePath`).
- `remove(arr, obj)` evaluates `e[obj]`, which looks up the property
  "[object Object]" of a string: it never exists, so `remove` subtracts
  nothing (`JsObject.Remove`, `JsObject.ObjectKeyNeverTruthy`).
  A visited URL can therefore sit in the queue; the visited check of `open`
  skips it when it reaches the head.
- `mkdirp` drops a leading `/`: every directory it tries is relative
  (`PathMapper.Mkdirp`).
- Object-as-dictionary lookups see inherited names: `uniq` drops
  `constructor`, `toString`, `__proto__` and the other `Object.prototype`
  names, `open` treats them as visited, and `getLinks` cannot record
  `__proto__`.
- The fragment regular expression `#.*` stops at a line terminator, so an
  href spanning lines keeps the text after the line break
  (`JsText.StripFragmentsLineBreak`).
- `null` prints as `null` in `https://${domain}` and in `domain + '/'`, and
  as nothing in `[host, ...path].join('/')`.
- A `null` path makes `path.split` or `path.relative` throw; the handler's
  `catch` ends the process. The model returns `Failure(NullPath)`.

## Model

| member | source | states |
|---|---|---|
| `JsText.JoinSplit` | helpers.js:132-135 | splitting on `/` and joining the pieces with `/` gives back the original string |
| `JsText.SplitJoin` | helpers.js:54 | splitting a `/`-join of slash-free pieces gives back exactly those pieces |
| `JsText.AfterLastSuffix` | index.js:59 | `split('/').pop()` is the text after the last `/` (preceded by a `/` in the original), or the whole string when it has none |
| `JsText.TrimStart` | helpers.js:91 | leading trim removes exactly the maximal run of JavaScript white space at the start |
| `JsText.TrimEnd` | helpers.js:91 | trailing trim removes exactly the maximal run of JavaScript white space at the end |
| `JsText.StripFragments` | helpers.js:91 | after `replace(/(#.*)/g, '')` no `#` is left and the string is no longer |
| `JsText.StripFragmentsSingleLine` | helpers.js:91 | on a one-line href, fragment stripping keeps exactly the text before the first `#` |
| `JsText.StripFragmentsNoHash` | helpers.js:91 | an href without `#` is unchanged by fragment stripping |
| `JsText.StripFragmentsLineBreak` | helpers.js:91 | a fragment is removed only up to the end of its line: the text before it is kept and the text from the line break on is stripped in turn |
| `JsText.ContainsAt` | helpers.js:70 | `includes(sub)` holds exactly when `sub` occurs at some position of the string |
| `JsObject.Uniq` | helpers.js:151-159 | `uniq` has no duplicates and holds exactly the input's elements, minus inherited `Object.prototype` names |
| `JsObject.UniqFirstOccurrences` | helpers.js:151-159 | `uniq` equals the independent definition "each element at its first occurrence, in input order" |
| `JsObject.UniqIdempotent` | helpers.js:151-159 | `uniq(uniq(x)) == uniq(x)` |
| `JsObject.Remove` | helpers.js:161-163 | `remove(arr, visited)` returns `arr` unchanged: the visited table, which has no own key named like an inherited property, coerces to the key "[object Object]" |
| `JsObject.ObjectKeyNeverTruthy` | helpers.js:162 | no string has a truthy property named "[object Object]": it is not an index, not `length`, and no inherited name |
| `PathMapper.Segments` | helpers.js:54 | the segments of a path are non-empty and contain no `/` |
| `PathMapper.SegmentsAround` | helpers.js:54 | the segments of `a/b` are the segments of `a` followed by those of `b` |
| `PathMapper.GetResourcePath` | helpers.js:51-65 | fails exactly when the parsed path is `null`; the file path is the folder path, `/`, and the last segment (`undefined` when there is none); the folder starts with `basePath/` when `basePath` is non-empty and with the host otherwise |
| `PathMapper.ResourcePathSegments` | helpers.js:54-62 | read back, the folder's segments are the base path's, the host, and all URL path segments but the last; the file adds the file name |
| `PathMapper.ResourcePathIgnoresEmptySegments` | helpers.js:54 | doubled and trailing slashes in the URL path do not change the folder or file path |
| `PathMapper.ResourcePathBySegments` | helpers.js:54-62 | two URLs with the same host and the same non-empty path segments map to the same folder and file |
| `PathMapper.UpsertPath` | helpers.js:67-74 | `upsertFileByUrl` writes into `getResourcePath`'s folder, to its file path with `.html` appended exactly when the content type contains `html` |
| `PathMapper.Mkdirp` | helpers.js:34-40 | one directory per non-empty segment, the `i`-th being the first `i+1` segments joined and ending in `/`; each is a prefix of the next, none starts with `/`, and the last has the path's own segments |
| `Links.LinkOf` | helpers.js:85-107 | an anchor without href, or whose href has a hostname other than the domain, contributes nothing; whatever an anchor contributes is non-empty |
| `Links.LinkOfRelative` | helpers.js:88-98 | every href without a hostname contributes `https://` + domain + the relative-href rule applied to the href with its fragment removed and trimmed; that text has no `#` and neither starts nor ends with white space, and the rule keeps a text starting with `/` and writes any other twice around a `/` |
| `Links.LinkOfAbsolute` | helpers.js:88-103 | an href with a hostname contributes exactly when that hostname is the domain and something is left after removing the fragment and trimming; it then contributes that text, which holds no `#` and neither starts nor ends with white space |
| `Links.Candidates` | helpers.js:84-109 | the candidates are exactly the contributions of the anchors |
| `Links.CandidatesOne` | helpers.js:84-109 | a single anchor yields its own contribution, or nothing |
| `Links.CandidatesAppend` | helpers.js:84-109 | the candidates follow document order: those of a concatenation of anchors are the first part's followed by the second's |
| `Links.GetLinks` | helpers.js:79-112 | the links are distinct, non-empty, and are exactly the anchors' contributions (the key `__proto__` aside) |
| `Links.GetLinksFirstSeen` | helpers.js:82-111 | the links are the first occurrences of the candidates in document order, `__proto__` skipped: each link sits at the place of the first anchor contributing it |
| `JsObject.ObjectKeys` | helpers.js:82-111 | `Object.keys` of an object filled by `obj[k] = true` holds each written key once and no other, `__proto__` excepted |
| `JsObject.ObjectKeysFirstWrite` | helpers.js:82-111 | those keys come out in the order of their first write |
| `Links.FragmentOnlyIsRoot` | helpers.js:91-98 | a fragment-only relative href yields `https://` + domain + `/` |
| `Links.RelativeHrefDoubled` | helpers.js:94-98 | a relative href `s` not starting with `/` yields `https://` + domain + `s/s` |
| `Links.RootedHrefKept` | helpers.js:94-98 | a relative href starting with `/` is appended to `https://` + domain unchanged |
| `Rewriter.DirFileRoundTrip` | helpers.js:132-135 | a reference's directory part, `/`, and file name rebuild the reference; without `/` the directory is empty and the file is the whole reference |
| `Rewriter.RewriteValue` | helpers.js:115-140 | absent, empty and host-qualified values are kept; `//x` becomes `https://x`; any other value becomes domain `/` relative path `/` file name, and fails exactly when the page path is `null` |
| `Rewriter.RewriteKeepsFileName` | helpers.js:132-137 | a rewritten relative reference ends in the original file name |
| `Rewriter.RewriteElement` | helpers.js:144-146 | a `link` element has only its `href` rewritten and a `script` or `img` element only its `src`, each by the value rule; any other element is kept; the tag never changes, and the element fails exactly when its targeted value's rewrite fails |
| `Rewriter.RewriteRelativeImports` | helpers.js:114-149 | element count, order and tags are preserved; only `link` href and `script`/`img` src change, each by the value rule; fails exactly when some element's rewrite fails |
| `Frontier.ContentType` | index.js:59 | the content type is the text after the last `/` of the header (so `text/html; charset=utf-8` gives `html; charset=utf-8`), the whole header when it has no `/`, and empty for a missing header; it never contains `/` |
| `Links.AnchorHrefs` | helpers.js:84-85 | the hrefs read are exactly those of the document's `<a>` elements |
| `Links.AnchorHrefsAppend` | helpers.js:84-85 | they come in document order: the anchors of a concatenation are those of the first part, then those of the second |
| `Frontier.Enqueued` | index.js:71-80 | without a path filter every extracted link is pushed, in order; with one, exactly the links whose parsed path starts with the prefix |
| `Frontier.EnqueuedOne` | index.js:71-79 | a single link is pushed exactly when it passes the path filter |
| `Frontier.EnqueuedAppend` | index.js:71-79 | the passing links are pushed in document order: those of a concatenation are the first part's, then the second's |
| `Frontier.FollowRedirect` | index.js:48-57 | a redirect appends its location exactly when present and on the requesting page's hostname; nothing else changes |
| `Frontier.EnqueueLinks` | index.js:71-81 | the queue after an HTML page is `uniq(queue + pushed links)`: no duplicates, first occurrences kept, no pending URL lost |
| `Frontier.Persist` | index.js:61-92 | fails exactly on a `null` path; otherwise appends exactly one saved file: for HTML, the document as `rewriteRelativeImports` rewrote it, otherwise the body as received; visited and, for non-HTML content, the queue are unchanged |
| `Frontier.PersistTarget` | index.js:92 | the file is saved in `getResourcePath`'s folder, at its file path with `.html` added exactly for HTML content |
| `Frontier.PersistEnqueuesLinks` | index.js:70-81 | after an HTML response the queue has no duplicates and is the old queue followed by the page's filtered links, each URL at its first occurrence (inherited object names dropped) |
| `Frontier.PersistQueue` | index.js:67-81 | saving a response loses no pending URL and queues no empty one |
| `Frontier.Handle` | index.js:42-97 | a redirect is never saved or link-extracted and is decided before the domain filter; a response the domain filter rejects changes nothing; any other response is persisted exactly as `Frontier.Persist` states (saved content, target path, links enqueued after HTML), so it fails exactly on a `null` path and otherwise saves exactly one file; visited never changes |
| `Frontier.HandleKeepsPending` | index.js:42-97 | handling a response loses no pending URL |
| `Frontier.HandleAll` | index.js:42-97 | handling a page's responses keeps visited, only appends to the saved log, and loses no pending URL |
| `Frontier.HandleAllOne` | index.js:42-97 | a page load with one response is that response's handler |
| `Frontier.HandleAllAppend` | index.js:42-97 | responses are handled in delivery order: the later ones start from the state the earlier ones left, and a failure ends the load |
| `Frontier.Open` | index.js:29-38 | a URL already visited returns with nothing changed; otherwise it is added to visited before any response (a load with no responses changes nothing else), visited only grows, and never takes in an inherited object name |
| `Frontier.Step` | index.js:120-128 | an empty queue stops the loop unchanged; a step shifts the head off the queue and opens it: a visited head is just dropped; an unvisited one is marked visited and the page's responses are handled starting from the queue without the head, the step crashing exactly when that handling fails; with no responses the rest of the queue is left as it was |
| `Frontier.StepStopsOnlyWhenEmpty` | index.js:121-124 | with no empty URL queued, the loop stops exactly when the queue is empty |
| `Frontier.Run` | index.js:120-128 | over any number of iterations visited only grows, never holds an inherited object name, and no empty URL is ever queued |
| `Frontier.Start` | index.js:12-25 | crawling starts exactly when the seed URL is present and has a hostname, with the seed alone queued and nothing visited |

## Left out

- Browser automation (launch, new page, request interception, navigation,
  `page.content()`, the full-page screenshot and its path, closing the
  browser): foreign library; a page load is the sequence of responses it
  delivers, handled one after another to completion. The real handlers are
  asynchronous and may interleave at `await res.buffer()`.
- Late responses: a page is never closed, so its `response` handler
  (index.js:42) stays registered after `open` returns (index.js:112, 127).
  A late response of an earlier page can then be handled while the next page
  loads, with the earlier page's `requestingHostname`. The model ends every
  handler with its own page load.
- Filesystem effects (`fs.access`, `fs.mkdir`, `fs.writeFile`,
  `doesFileExist`, `promisify`, the swallowed `mkdir` race): I/O; the model
  keeps the list of directories `mkdirp` tries and a log of saved files.
- HTML parsing and serialisation: foreign library; documents are element
  sequences and the saved HTML is the rewritten sequence.
- The internals of `url.parse` and `path.relative`: foreign calls, taken as
  parameters.
- Command-line parsing, exit codes, logging, the `TOTAL_PAGES_TO_VISIT`
  counter and the disabled status file: not part of the crawl logic.
- Exceptions other than a `null` path (a failing body read or file write):
  they come from I/O that is not modelled.
- `Object.keys` lists array-index keys such as `"12"` first in numeric order;
  the model keeps insertion order for all keys, as the queued values are URLs.
- JavaScript strings are UTF-16; the model's are code points. Every
  character the code inspects is in the Basic Multilingual Plane.
- `Frontier.Run`: counts loop iterations, since a crawl need not terminate.
- `JsObject.Remove`: does not model the `TypeError` that coercing an object
  with an own `toString` key would raise; `Frontier.Run` shows the visited
  table never has such a key.
- After a page has loaded, `open` computes a screenshot path with
  `getResourcePath`; for a URL whose parsed path is `null` that call throws
  outside any `catch`. The screenshot is not modelled, so neither is that
  exception.
