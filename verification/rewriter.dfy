/**
 * `rewriteRelativeImports(html, origPath, domain)`: the `href` of every
 * `<link>` and the `src` of every `<script>` and `<img>` is rewritten so the
 * mirrored page refers to mirrored files. The document is the sequence of
 * its elements; `hostnameOf` stands for `url.parse(·).hostname` and
 * `relative` for Node's `path.relative`, both foreign calls.
 */
module Rewriter {
  import opened Wrappers
  import opened JsText
  import opened Urls

  /** An element: its tag name and its `href` and `src` attributes (`None` when absent). */
  datatype Element = Element(tag: string, href: Option<string>, src: Option<string>)

  /** The page being rewritten: its URL path (`null` possible) and its hostname. */
  datatype RewriteContext = RewriteContext(origPath: Option<string>, domain: Option<string>)

  /** `href.split('/')` without its last piece, joined again: everything before the last `/`. */
  function DirPart(s: string): string {
    var parts := Split(s, '/');
    Join(parts[..|parts| - 1], '/')
  }

  /** `hrefWithoutFile[hrefWithoutFile.length - 1]`: everything after the last `/`. */
  function FilePart(s: string): string {
    AfterLast(s, '/')
  }

  /** Directory part and file name put back together give the reference. */
  lemma DirFileRoundTrip(s: string)
    ensures '/' in s ==> DirPart(s) + "/" + FilePart(s) == s
    ensures '/' !in s ==> DirPart(s) == "" && FilePart(s) == s
  {
    if '/' in s {
      DirFileWithSlash(s);
    } else {
      SplitWithoutSeparator(s, '/');
    }
  }

  lemma DirFileWithSlash(s: string)
    requires '/' in s
    ensures DirPart(s) + "/" + FilePart(s) == s
  {
    var parts := Split(s, '/');
    JoinSplit(s, '/');
    assert |parts| >= 2;
    JoinSnoc(parts, '/');
  }

  /**
   * The rewrite of one attribute value. Absent, empty and host-qualified
   * values are kept; a protocol-relative `//x` becomes `https://x`; anything
   * else becomes the domain, the path from the page's path to the reference's
   * directory, and the reference's file name, joined by `/`.
   */
  function RewriteValue(hostnameOf: string -> Option<string>, relative: (string, string) -> string,
                        ctx: RewriteContext, v: Option<string>): (r: Result<Option<string>, Fault>)
    ensures !Truthy(v) ==> r == Success(v)
    ensures Truthy(v) && Truthy(hostnameOf(v.value)) ==> r == Success(v)
    ensures Truthy(v) && !Truthy(hostnameOf(v.value)) && StartsWith(v.value, "//") ==>
      r == Success(Some("https://" + v.value[2..]))
    ensures r.Failure? <==>
      Truthy(v) && !Truthy(hostnameOf(v.value)) && !StartsWith(v.value, "//") && ctx.origPath.None?
    ensures r.Success? && Truthy(v) && !Truthy(hostnameOf(v.value)) && !StartsWith(v.value, "//") ==>
      && r.value.Some?
      && StartsWith(r.value.value, Stringify(ctx.domain) + "/")
      && r.value.value == Stringify(ctx.domain) + "/" + relative(ctx.origPath.value, DirPart(v.value)) + "/" + FilePart(v.value)
  {
    if !Truthy(v) then Success(v)
    else
      var href := v.value;
      if Truthy(hostnameOf(href)) then Success(v)
      else if StartsWith(href, "//") then
        // `href.replace('//', 'https://')` replaces the first occurrence, here at the start
        Success(Some("https://" + href[2..]))
      else if ctx.origPath.None? then Failure(NullPath)
      else
        var lead := Stringify(ctx.domain) + "/";
        var rest := relative(ctx.origPath.value, DirPart(href)) + "/" + FilePart(href);
        assert (lead + rest)[..|lead|] == lead;
        Success(Some(lead + rest))
  }

  /** The rewritten relative reference keeps the original file name after its last `/`. */
  lemma RewriteKeepsFileName(hostnameOf: string -> Option<string>, relative: (string, string) -> string,
                             ctx: RewriteContext, href: string)
    requires href != "" && !Truthy(hostnameOf(href)) && !StartsWith(href, "//") && ctx.origPath.Some?
    ensures RewriteValue(hostnameOf, relative, ctx, Some(href)).Success?
    ensures FilePart(RewriteValue(hostnameOf, relative, ctx, Some(href)).value.value) == FilePart(href)
  {
    var r := RewriteValue(hostnameOf, relative, ctx, Some(href)).value.value;
    var pre := Stringify(ctx.domain) + "/" + relative(ctx.origPath.value, DirPart(href));
    assert r == pre + "/" + FilePart(href);
    assert '/' !in FilePart(href);
    SplitWithoutSeparator(FilePart(href), '/');
    SplitAround(pre, FilePart(href), '/');
  }

  predicate RewritesHref(tag: string) {
    tag == "link"
  }

  predicate RewritesSrc(tag: string) {
    tag == "script" || tag == "img"
  }

  /** One element: `link` has its `href` rewritten, `script` and `img` their `src`; others are untouched. */
  function RewriteElement(hostnameOf: string -> Option<string>, relative: (string, string) -> string,
                          ctx: RewriteContext, e: Element): (r: Result<Element, Fault>)
    ensures r.Failure? <==>
      || (RewritesHref(e.tag) && RewriteValue(hostnameOf, relative, ctx, e.href).Failure?)
      || (RewritesSrc(e.tag) && RewriteValue(hostnameOf, relative, ctx, e.src).Failure?)
    ensures r.Success? ==> r.value.tag == e.tag
    ensures !RewritesHref(e.tag) && !RewritesSrc(e.tag) ==> r == Success(e)
    ensures r.Success? && RewritesHref(e.tag) ==>
      r.value.src == e.src && RewriteValue(hostnameOf, relative, ctx, e.href) == Success(r.value.href)
    ensures r.Success? && RewritesSrc(e.tag) ==>
      r.value.href == e.href && RewriteValue(hostnameOf, relative, ctx, e.src) == Success(r.value.src)
  {
    if RewritesHref(e.tag) then
      var h :- RewriteValue(hostnameOf, relative, ctx, e.href);
      Success(e.(href := h))
    else if RewritesSrc(e.tag) then
      var s :- RewriteValue(hostnameOf, relative, ctx, e.src);
      Success(e.(src := s))
    else Success(e)
  }

  /**
   * The rewritten document: element by element, nothing added, removed or
   * reordered, and only the targeted attribute of a targeted element changed.
   */
  function RewriteRelativeImports(hostnameOf: string -> Option<string>, relative: (string, string) -> string,
                                  ctx: RewriteContext, doc: seq<Element>): (r: Result<seq<Element>, Fault>)
    ensures r.Failure? <==> exists i :: 0 <= i < |doc| && RewriteElement(hostnameOf, relative, ctx, doc[i]).Failure?
    ensures r.Success? ==> |r.value| == |doc|
    ensures r.Success? ==> forall i :: 0 <= i < |doc| ==> r.value[i].tag == doc[i].tag
    ensures r.Success? ==> forall i :: 0 <= i < |doc| && !RewritesHref(doc[i].tag) && !RewritesSrc(doc[i].tag) ==>
      r.value[i] == doc[i]
    ensures r.Success? ==> forall i :: 0 <= i < |doc| && RewritesHref(doc[i].tag) ==>
      && r.value[i].src == doc[i].src
      && RewriteValue(hostnameOf, relative, ctx, doc[i].href) == Success(r.value[i].href)
    ensures r.Success? ==> forall i :: 0 <= i < |doc| && RewritesSrc(doc[i].tag) ==>
      && r.value[i].href == doc[i].href
      && RewriteValue(hostnameOf, relative, ctx, doc[i].src) == Success(r.value[i].src)
  {
    if doc == [] then Success([])
    else
      var rest := RewriteRelativeImports(hostnameOf, relative, ctx, doc[1..]);
      assert forall i :: 1 <= i < |doc| ==> doc[1..][i - 1] == doc[i];
      match RewriteElement(hostnameOf, relative, ctx, doc[0])
      case Failure(f) => Failure(f)
      case Success(e) =>
        match rest
        case Failure(f) => Failure(f)
        case Success(es) => Success([e] + es)
  }
}
