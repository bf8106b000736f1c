/** The extraction cases of the service's own tests, stated for any page
    of the same shape: the texts are arbitrary, and the elements before the
    head elements (`html`, `head`, ...) and after them (the body) include no
    `title` or `meta` element. */
module ExtractionExamples {
  import opened Wrappers
  import opened PhpText
  import opened MetadataFetcher

  function Meta(key: string, name: string, content: string): Element {
    Element("meta", map[key := name, "content" := content], "")
  }

  function Plain(tag: string, text: string): Element {
    Element(tag, map[], text)
  }

  /** Already trimmed: no trim character at either end. */
  predicate Tidy(s: string) {
    s != [] ==> !IsTrimChar(s[0]) && !IsTrimChar(s[|s| - 1])
  }

  /** Body content that no selector of the service picks out. */
  predicate NoHeadElements(body: seq<Element>) {
    forall k :: 0 <= k < |body| ==> body[k].tag != "title" && body[k].tag != "meta"
  }

  /** The page: elements before the head elements, the head elements,
      the rest of the page. */
  function Page(pre: seq<Element>, heads: seq<Element>, body: seq<Element>): Document {
    pre + heads + body
  }

  /** A selector of the service only ever picks `title` or `meta` elements. */
  predicate HeadSelector(sel: Selector) {
    sel.name == "title" || sel.name == "meta"
  }

  /** A selector that picks none of the head elements picks nothing on the
      page. */
  lemma AbsentFromPage(pre: seq<Element>, heads: seq<Element>, body: seq<Element>, sel: Selector)
    requires NoHeadElements(pre) && NoHeadElements(body) && HeadSelector(sel)
    requires forall j :: 0 <= j < |heads| ==> !Matches(heads[j], sel)
    ensures NoMatch(Page(pre, heads, body), sel)
  {
    var doc := Page(pre, heads, body);
    forall i | 0 <= i < |doc| ensures !Matches(doc[i], sel) {
      if i < |pre| {
        assert doc[i] == pre[i];
      } else if i < |pre| + |heads| {
        assert doc[i] == heads[i - |pre|];
      } else {
        assert doc[i] == body[i - |pre| - |heads|];
      }
    }
  }

  /** The first head element a selector picks is its first match on the
      page. */
  lemma FirstOnPage(pre: seq<Element>, heads: seq<Element>, body: seq<Element>, sel: Selector, k: nat)
    requires NoHeadElements(pre) && HeadSelector(sel)
    requires k < |heads| && Matches(heads[k], sel)
    requires forall j :: 0 <= j < k ==> !Matches(heads[j], sel)
    ensures FirstMatchAt(Page(pre, heads, body), sel, |pre| + k)
    ensures Page(pre, heads, body)[|pre| + k] == heads[k]
  {
    var doc := Page(pre, heads, body);
    forall i | 0 <= i < |pre| + k ensures !Matches(doc[i], sel) {
      if i < |pre| {
        assert doc[i] == pre[i];
      } else {
        assert doc[i] == heads[i - |pre|];
      }
    }
  }

  /** A plain page: the title is the <title> text. */
  lemma PlainPageTitle(pre: seq<Element>, t: string, d: string, body: seq<Element>)
    requires Tidy(t) && NoHeadElements(pre) && NoHeadElements(body)
    ensures ExtractMetadata(Page(pre, [Plain("title", t), Meta("name", "description", d)], body))[TitleKey] == Some(t)
  {
    var heads := [Plain("title", t), Meta("name", "description", d)];
    var doc := Page(pre, heads, body);
    AbsentFromPage(pre, heads, body, OgTitle);
    FirstOnPage(pre, heads, body, TitleTag, 0);
    TitleFromTitleTag(doc, |pre|);
    TrimUnchanged(t);
  }

  /** A plain page: the description is the plain description tag. */
  lemma PlainPageDescription(pre: seq<Element>, t: string, d: string, body: seq<Element>)
    requires Tidy(d) && NoHeadElements(pre) && NoHeadElements(body)
    ensures ExtractMetadata(Page(pre, [Plain("title", t), Meta("name", "description", d)], body))[DescriptionKey] == Some(d)
  {
    var heads := [Plain("title", t), Meta("name", "description", d)];
    var doc := Page(pre, heads, body);
    AbsentFromPage(pre, heads, body, OgDescription);
    FirstOnPage(pre, heads, body, MetaDescription, 1);
    DescriptionFromMetaDescription(doc, |pre| + 1);
    assert AttrOrEmpty(heads[1], ContentAttr) == d;
    TrimUnchanged(d);
  }

  /** og:title wins over an earlier <title>. */
  lemma OpenGraphTitleWins(pre: seq<Element>, t: string, ogT: string, ogD: string, d: string, body: seq<Element>)
    requires Tidy(ogT) && NoHeadElements(pre)
    ensures ExtractMetadata(Page(pre, [Plain("title", t), Meta("property", "og:title", ogT), Meta("property", "og:description", ogD), Meta("name", "description", d)], body))[TitleKey] == Some(ogT)
  {
    var heads := [Plain("title", t), Meta("property", "og:title", ogT), Meta("property", "og:description", ogD), Meta("name", "description", d)];
    var doc := Page(pre, heads, body);
    FirstOnPage(pre, heads, body, OgTitle, 1);
    TitleFromOpenGraph(doc, |pre| + 1);
    assert AttrOrEmpty(heads[1], ContentAttr) == ogT;
    TrimUnchanged(ogT);
  }

  /** og:description wins over the plain description. */
  lemma OpenGraphDescriptionWins(pre: seq<Element>, t: string, ogT: string, ogD: string, d: string, body: seq<Element>)
    requires Tidy(ogD) && NoHeadElements(pre)
    ensures ExtractMetadata(Page(pre, [Plain("title", t), Meta("property", "og:title", ogT), Meta("property", "og:description", ogD), Meta("name", "description", d)], body))[DescriptionKey] == Some(ogD)
  {
    var heads := [Plain("title", t), Meta("property", "og:title", ogT), Meta("property", "og:description", ogD), Meta("name", "description", d)];
    var doc := Page(pre, heads, body);
    FirstOnPage(pre, heads, body, OgDescription, 2);
    DescriptionFromOpenGraph(doc, |pre| + 2);
    assert AttrOrEmpty(heads[2], ContentAttr) == ogD;
    TrimUnchanged(ogD);
  }

  /** <title> beats twitter:title. */
  lemma TitleTagBeatsTwitter(pre: seq<Element>, t: string, twT: string, twD: string, body: seq<Element>)
    requires Tidy(t) && NoHeadElements(pre) && NoHeadElements(body)
    ensures ExtractMetadata(Page(pre, [Plain("title", t), Meta("name", "twitter:title", twT), Meta("name", "twitter:description", twD)], body))[TitleKey] == Some(t)
  {
    var heads := [Plain("title", t), Meta("name", "twitter:title", twT), Meta("name", "twitter:description", twD)];
    var doc := Page(pre, heads, body);
    AbsentFromPage(pre, heads, body, OgTitle);
    FirstOnPage(pre, heads, body, TitleTag, 0);
    TitleFromTitleTag(doc, |pre|);
    TrimUnchanged(t);
  }

  /** Without Open Graph or plain description, twitter:description is used. */
  lemma TwitterDescriptionFallback(pre: seq<Element>, t: string, twT: string, twD: string, body: seq<Element>)
    requires Tidy(twD) && NoHeadElements(pre) && NoHeadElements(body)
    ensures ExtractMetadata(Page(pre, [Plain("title", t), Meta("name", "twitter:title", twT), Meta("name", "twitter:description", twD)], body))[DescriptionKey] == Some(twD)
  {
    var heads := [Plain("title", t), Meta("name", "twitter:title", twT), Meta("name", "twitter:description", twD)];
    var doc := Page(pre, heads, body);
    AbsentFromPage(pre, heads, body, OgDescription);
    AbsentFromPage(pre, heads, body, MetaDescription);
    FirstOnPage(pre, heads, body, TwitterDescription, 2);
    DescriptionFromTwitter(doc, |pre| + 2);
    assert AttrOrEmpty(heads[2], ContentAttr) == twD;
    TrimUnchanged(twD);
  }

  /** A page without metadata elements: both fields are null. */
  lemma NothingFound(body: seq<Element>)
    requires NoHeadElements(body)
    ensures ExtractMetadata(body)[TitleKey].None? && ExtractMetadata(body)[DescriptionKey].None?
  {
    TitleAbsent(body);
    DescriptionAbsent(body);
  }

  /** Surrounding whitespace is trimmed off a found value, whatever runs
      of trim characters stand before and after it. */
  lemma SurroundingWhitespaceTrimmed(pre: seq<Element>, left: string, t: string, right: string, body: seq<Element>)
    requires AllTrimChars(left) && AllTrimChars(right) && Tidy(t) && NoHeadElements(pre) && NoHeadElements(body)
    ensures ExtractMetadata(Page(pre, [Plain("title", left + t + right)], body))[TitleKey] == Some(t)
  {
    var heads := [Plain("title", left + t + right)];
    var doc := Page(pre, heads, body);
    AbsentFromPage(pre, heads, body, OgTitle);
    FirstOnPage(pre, heads, body, TitleTag, 0);
    TitleFromTitleTag(doc, |pre|);
    TrimOfPadded(left, t, right);
  }
}
