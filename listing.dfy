/**
 * Reading the hrefs out of a directory listing: `DirectoryListingParser` and
 * `fetch_links` of scripts/download_pdfs.py. HTML tokenisation belongs to
 * `html.parser.HTMLParser`; the model starts from the start tags it reports,
 * in document order, each with its attribute pairs (a value is `None` for an
 * attribute written without one).
 */
module Listing {

  import opened Wrappers
  import opened Strings

  type Attribute = (string, Option<string>)

  datatype StartTag = StartTag(name: string, attrs: seq<Attribute>)

  /** `dict(attrs).get(key)`: the value of the last pair with that key, `None` when no pair has it. */
  function LookupAttr(attrs: seq<Attribute>, key: string): (r: Option<Option<string>>)
    ensures r.None? <==> forall i :: 0 <= i < |attrs| ==> attrs[i].0 != key
    ensures r.Some? ==> exists i :: 0 <= i < |attrs| && attrs[i] == (key, r.value) &&
                                    forall j :: i < j < |attrs| ==> attrs[j].0 != key
  {
    if attrs == [] then None
    else if attrs[|attrs| - 1].0 == key then Some(attrs[|attrs| - 1].1)
    else LookupAttr(attrs[..|attrs| - 1], key)
  }

  /** The tag names `tag.lower() == "a"` accepts. */
  lemma AnchorTagNames(name: string)
    ensures Lower(name) == "a" <==> name == "a" || name == "A"
  {
    if Lower(name) == "a" {
      assert |name| == 1 && LowerChar(name[0]) == 'a';
      assert name == [name[0]];
    }
  }

  /** `t` is an anchor tag whose href, as `dict` keeps it, is `link`. */
  predicate IsAnchorWithHref(t: StartTag, link: string) {
    (t.name == "a" || t.name == "A") && LookupAttr(t.attrs, "href") == Some(Some(link))
  }

  /** The link one start tag contributes: the href of an `a` tag, when it is present and not empty. */
  function AnchorHref(name: string, attrs: seq<Attribute>): (links: seq<string>)
    ensures |links| <= 1
    ensures links != [] ==> links[0] != "" && IsAnchorWithHref(StartTag(name, attrs), links[0])
    ensures links == [] ==> forall h :: h != "" ==> !IsAnchorWithHref(StartTag(name, attrs), h)
  {
    AnchorTagNames(name);
    if Lower(name) != "a" then []
    else match LookupAttr(attrs, "href")
      case Some(Some(href)) => if href != "" then [href] else []
      case _ => []
  }

  /** The links a listing yields: the contributions of its start tags, in order. */
  function ExtractLinks(tags: seq<StartTag>): (links: seq<string>)
    ensures |links| <= |tags|
  {
    if tags == [] then []
    else
      var last := tags[|tags| - 1];
      ExtractLinks(tags[..|tags| - 1]) + AnchorHref(last.name, last.attrs)
  }

  /** Extraction works tag by tag, so it keeps document order across any split of the page. */
  lemma {:induction false} ExtractLinksAppend(a: seq<StartTag>, b: seq<StartTag>)
    ensures ExtractLinks(a + b) == ExtractLinks(a) + ExtractLinks(b)
    decreases |b|
  {
    if b == [] {
      assert a + b == a;
    } else {
      var b' := b[..|b| - 1];
      assert (a + b)[..|a + b| - 1] == a + b';
      assert (a + b)[|a + b| - 1] == b[|b| - 1];
      ExtractLinksAppend(a, b');
    }
  }

  /** Every extracted link is non-empty and is the href of some anchor tag of the page. */
  lemma {:induction false} ExtractedLinksAreAnchorHrefs(tags: seq<StartTag>)
    ensures forall link :: link in ExtractLinks(tags) ==>
      link != "" && exists t :: t in tags && IsAnchorWithHref(t, link)
  {
    if tags != [] {
      var init := tags[..|tags| - 1];
      var last := tags[|tags| - 1];
      ExtractedLinksAreAnchorHrefs(init);
      AnchorTagNames(last.name);
      assert forall t :: t in init ==> t in tags;
      assert last in tags;
    }
  }

  /** `DirectoryListingParser`: collects the hrefs of anchor tags into `links`. */
  class DirectoryListingParser {

    var links: seq<string>

    constructor ()
      ensures links == []
    {
      links := [];
    }

    /** `handle_starttag`: append the href of an `a` tag (in any case) when it is present and not empty. */
    method HandleStartTag(name: string, attrs: seq<Attribute>)
      modifies this
      ensures links == old(links) + AnchorHref(name, attrs)
    {
      if Lower(name) != "a" {
        return;
      }
      var href := LookupAttr(attrs, "href");
      if href.Some? && href.value.Some? && href.value.value != "" {
        links := links + [href.value.value];
      }
    }

    /** The `handle_starttag` calls `feed` makes for the start tags of a page, in document order. */
    method FeedStartTags(tags: seq<StartTag>)
      modifies this
      ensures links == old(links) + ExtractLinks(tags)
    {
      for i := 0 to |tags|
        invariant links == old(links) + ExtractLinks(tags[..i])
      {
        HandleStartTag(tags[i].name, tags[i].attrs);
        assert tags[..i + 1][..i] == tags[..i];
      }
      assert tags[..|tags|] == tags;
    }
  }

  /** `fetch_links` after the page has been downloaded: a fresh parser fed the page's start tags. */
  method FetchLinks(page: seq<StartTag>) returns (links: seq<string>)
    ensures links == ExtractLinks(page)
  {
    var parser := new DirectoryListingParser();
    parser.FeedStartTags(page);
    links := parser.links;
  }
}
