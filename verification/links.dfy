/**
 * `getLinks(html, domain)`: the in-scope absolute URLs of a page's anchors,
 * distinct and in the order first seen. `AnchorHrefs` reads the `href`
 * attribute of each `<a>` element in document order (`None` when absent),
 * and `GetLinks` works on that list; `hostnameOf` stands for
 * `url.parse(·).hostname`.
 */
module Links {
  import opened Wrappers
  import opened Seqs
  import opened JsText
  import opened JsObject
  import opened Rewriter

  /** The relative-href rule: kept when it starts with `/`, otherwise written twice around a `/`. */
  function RelativePart(s: string): string {
    if StartsWith(s, "/") then s else s + "/" + s
  }

  /**
   * What one anchor contributes. The hostname is read from the href as
   * written; the fragment and surrounding white space are removed after.
   * A relative href is appended to `https://` and the domain; an absolute one
   * is kept only when its hostname is the domain and something is left of it.
   */
  function LinkOf(hostnameOf: string -> Option<string>, domain: Option<string>, href: Option<string>): (r: Option<string>)
    ensures !Truthy(href) ==> r == None
    ensures Truthy(href) && Truthy(hostnameOf(href.value)) && hostnameOf(href.value) != domain ==> r == None
    ensures r.Some? ==> r.value != ""
  {
    if !Truthy(href) then None
    else
      var hostname := hostnameOf(href.value);
      var s := Trim(StripFragments(href.value));
      if !Truthy(hostname) then Some("https://" + Stringify(domain) + RelativePart(s))
      else if hostname != domain then None
      else if s == "" then None
      else Some(s)
  }

  /**
   * A relative href always contributes: the fragment is removed and the rest
   * trimmed, then a text starting with `/` is appended to `https://` and the
   * domain as it is, and any other text is appended twice around a `/`.
   */
  lemma LinkOfRelative(hostnameOf: string -> Option<string>, domain: Option<string>, href: Option<string>)
    requires Truthy(href) && !Truthy(hostnameOf(href.value))
    ensures LinkOf(hostnameOf, domain, href).Some?
    ensures StartsWith(LinkOf(hostnameOf, domain, href).value, "https://" + Stringify(domain))
    ensures
      var u := Trim(StripFragments(href.value));
      && '#' !in u
      && (u == [] || (!IsJsWhitespace(u[0]) && !IsJsWhitespace(u[|u| - 1])))
      && LinkOf(hostnameOf, domain, href) == Some("https://" + Stringify(domain) + RelativePart(u))
  {
    var prefix := "https://" + Stringify(domain);
    var u := Trim(StripFragments(href.value));
    CleanedHref(href.value);
    StartsWithConcat(prefix, RelativePart(u));
  }

  /** The text an href leaves once its fragment is removed and it is trimmed has no `#` and no surrounding white space. */
  lemma CleanedHref(href: string)
    ensures
      var u := Trim(StripFragments(href));
      && '#' !in u
      && (u == [] || (!IsJsWhitespace(u[0]) && !IsJsWhitespace(u[|u| - 1])))
  {
    var stripped := StripFragments(href);
    assert '#' !in TrimStart(stripped);
  }

  /**
   * An absolute href contributes exactly when its hostname is the domain and
   * something is left of it, and then it is the fragment-free trimmed text.
   */
  lemma LinkOfAbsolute(hostnameOf: string -> Option<string>, domain: Option<string>, href: Option<string>)
    requires Truthy(href) && Truthy(hostnameOf(href.value))
    ensures LinkOf(hostnameOf, domain, href).Some? <==>
      hostnameOf(href.value) == domain && Trim(StripFragments(href.value)) != ""
    ensures LinkOf(hostnameOf, domain, href).Some? ==>
      var u := LinkOf(hostnameOf, domain, href).value;
      && u == Trim(StripFragments(href.value))
      && '#' !in u
      && !IsJsWhitespace(u[0]) && !IsJsWhitespace(u[|u| - 1])
  {
    var stripped := StripFragments(href.value);
    assert '#' !in TrimStart(stripped);
    assert '#' !in Trim(stripped);
  }

  /** The `href` of every `<a>` element, in document order. */
  function AnchorHrefs(doc: seq<Element>): (r: seq<Option<string>>)
    ensures |r| <= |doc|
    ensures forall x :: x in r <==> HasAnchorWithHref(doc, x)
  {
    if doc == [] then []
    else
      AnchorCons(doc);
      (if doc[0].tag == "a" then [doc[0].href] else []) + AnchorHrefs(doc[1..])
  }

  /** Some `<a>` element of the document has this `href`. */
  predicate HasAnchorWithHref(doc: seq<Element>, x: Option<string>) {
    exists i :: 0 <= i < |doc| && doc[i].tag == "a" && doc[i].href == x
  }

  lemma AnchorCons(doc: seq<Element>)
    requires doc != []
    ensures forall x :: HasAnchorWithHref(doc, x) <==>
      (doc[0].tag == "a" && doc[0].href == x) || HasAnchorWithHref(doc[1..], x)
  {
    forall x | HasAnchorWithHref(doc, x)
      ensures (doc[0].tag == "a" && doc[0].href == x) || HasAnchorWithHref(doc[1..], x)
    {
      var i :| 0 <= i < |doc| && doc[i].tag == "a" && doc[i].href == x;
      if i > 0 {
        assert doc[1..][i - 1] == doc[i];
      }
    }
    forall x | HasAnchorWithHref(doc[1..], x)
      ensures HasAnchorWithHref(doc, x)
    {
      var i :| 0 <= i < |doc[1..]| && doc[1..][i].tag == "a" && doc[1..][i].href == x;
      assert doc[i + 1] == doc[1..][i];
    }
  }

  /** The anchors of a document are those of its first part followed by those of the rest: document order. */
  lemma {:induction false} AnchorHrefsAppend(a: seq<Element>, b: seq<Element>)
    ensures AnchorHrefs(a + b) == AnchorHrefs(a) + AnchorHrefs(b)
  {
    if a == [] {
      assert a + b == b;
    } else {
      var head := if a[0].tag == "a" then [a[0].href] else [];
      assert (a + b)[0] == a[0];
      assert (a + b)[1..] == a[1..] + b;
      AnchorHrefsAppend(a[1..], b);
      assert AnchorHrefs(a + b) == head + AnchorHrefs(a[1..] + b);
      assert AnchorHrefs(a) == head + AnchorHrefs(a[1..]);
    }
  }

  /** Every anchor's contribution, in document order, duplicates included. */
  function Candidates(hostnameOf: string -> Option<string>, domain: Option<string>, hrefs: seq<Option<string>>): (r: seq<string>)
    ensures forall x :: x in r <==> Contributes(hostnameOf, domain, hrefs, x)
  {
    FilterMap(hrefs, href => LinkOf(hostnameOf, domain, href))
  }

  /** Some anchor contributes `x`. */
  predicate Contributes(hostnameOf: string -> Option<string>, domain: Option<string>, hrefs: seq<Option<string>>, x: string) {
    exists i :: 0 <= i < |hrefs| && LinkOf(hostnameOf, domain, hrefs[i]) == Some(x)
  }

  /** One anchor contributes its own link, if any. */
  lemma CandidatesOne(hostnameOf: string -> Option<string>, domain: Option<string>, href: Option<string>)
    ensures Candidates(hostnameOf, domain, [href]) ==
      match LinkOf(hostnameOf, domain, href)
      case Some(x) => [x]
      case None => []
  {
    assert [href][1..] == [];
  }

  /** The candidates keep document order: those of a concatenation are the first part's, then the second's. */
  lemma CandidatesAppend(hostnameOf: string -> Option<string>, domain: Option<string>, a: seq<Option<string>>, b: seq<Option<string>>)
    ensures Candidates(hostnameOf, domain, a + b) == Candidates(hostnameOf, domain, a) + Candidates(hostnameOf, domain, b)
  {
    FilterMapAppend(a, b, href => LinkOf(hostnameOf, domain, href));
  }

  /**
   * `getLinks`: the candidates recorded as keys of an object, read back with
   * `Object.keys`. An object key keeps its first insertion position, and the
   * key "__proto__" is never created.
   */
  function GetLinks(hostnameOf: string -> Option<string>, domain: Option<string>, hrefs: seq<Option<string>>): (r: seq<string>)
    ensures NoDups(r)
    ensures forall x :: x in r <==> x != ProtoKey && Contributes(hostnameOf, domain, hrefs, x)
    ensures forall x :: x in r ==> x != ""
  {
    ObjectKeys(Candidates(hostnameOf, domain, hrefs))
  }

  /** `getLinks` lists each link at the position of the first anchor contributing it. */
  lemma GetLinksFirstSeen(hostnameOf: string -> Option<string>, domain: Option<string>, hrefs: seq<Option<string>>)
    ensures GetLinks(hostnameOf, domain, hrefs) == FirstOccurrences(Candidates(hostnameOf, domain, hrefs), {ProtoKey})
  {
    ObjectKeysFirstWrite(Candidates(hostnameOf, domain, hrefs));
  }

  /** A fragment-only relative href yields the domain's root. */
  lemma FragmentOnlyIsRoot(hostnameOf: string -> Option<string>, domain: Option<string>, fragment: string)
    requires forall i :: 0 <= i < |fragment| ==> !IsLineTerminator(fragment[i])
    requires !Truthy(hostnameOf("#" + fragment))
    ensures LinkOf(hostnameOf, domain, Some("#" + fragment)) == Some("https://" + Stringify(domain) + "/")
  {
    var s := "#" + fragment;
    StripFragmentsSingleLine(s, 0);
    assert StripFragments(s) == [];
    assert RelativePart("") == "/";
  }

  /** A relative href not starting with `/` is doubled around a `/`. */
  lemma RelativeHrefDoubled(hostnameOf: string -> Option<string>, domain: Option<string>, s: string)
    requires s != "" && s[0] != '/' && '#' !in s
    requires !IsJsWhitespace(s[0]) && !IsJsWhitespace(s[|s| - 1])
    requires !Truthy(hostnameOf(s))
    ensures LinkOf(hostnameOf, domain, Some(s)) == Some("https://" + Stringify(domain) + s + "/" + s)
  {
    StripFragmentsNoHash(s);
    assert Trim(s) == s;
    var prefix := "https://" + Stringify(domain);
    assert prefix + (s + "/" + s) == prefix + s + "/" + s;
  }

  /** A relative href starting with `/` is appended to the domain as it is. */
  lemma RootedHrefKept(hostnameOf: string -> Option<string>, domain: Option<string>, s: string)
    requires s != "" && s[0] == '/' && '#' !in s
    requires !IsJsWhitespace(s[|s| - 1])
    requires !Truthy(hostnameOf(s))
    ensures LinkOf(hostnameOf, domain, Some(s)) == Some("https://" + Stringify(domain) + s)
  {
    StripFragmentsNoHash(s);
    assert Trim(s) == s;
  }
}
