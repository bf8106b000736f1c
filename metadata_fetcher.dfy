/** The metadata fetcher service: one HTTP GET of the bookmarked page and
    the extraction of a title and a description from its HTML by ordered
    fallback chains of selector lookups.

    The HTML parser and CSS selector engine are a foreign library; the
    document is modelled as the list of its elements in document order, a
    selector as a tag name with an optional attribute-equals test. */
module MetadataFetcher {
  import opened Wrappers
  import opened PhpText

  /** One parsed HTML element: its (lower-case) tag name, its attributes
      and its text content. */
  datatype Element = Element(tag: string, attrs: map<string, string>, text: string)

  /** A parsed HTML document: its elements in document order. */
  type Document = seq<Element>

  /** The two selector shapes the service uses: `title` and
      `meta[property="og:title"]`. */
  datatype Selector =
    | Tag(name: string)
    | TagWithAttr(name: string, attr: string, value: string)

  predicate Matches(e: Element, sel: Selector) {
    match sel
    case Tag(name) => e.tag == name
    case TagWithAttr(name, attr, value) =>
      e.tag == name && attr in e.attrs && e.attrs[attr] == value
  }

  predicate NoMatch(doc: Document, sel: Selector) {
    forall i :: 0 <= i < |doc| ==> !Matches(doc[i], sel)
  }

  /** `doc[i]` is the first element of `doc` that `sel` selects. */
  predicate FirstMatchAt(doc: Document, sel: Selector, i: nat) {
    i < |doc| && Matches(doc[i], sel)
    && forall j :: 0 <= j < i ==> !Matches(doc[j], sel)
  }

  /** The crawler's `filter($selector)`: the selected elements, in document
      order. */
  function Filter(doc: Document, sel: Selector): (r: seq<Element>)
    ensures forall k :: 0 <= k < |r| ==> Matches(r[k], sel)
    ensures |r| == 0 <==> NoMatch(doc, sel)
  {
    if doc == [] then []
    else
      var rest := Filter(doc[1..], sel);
      assert NoMatch(doc[1..], sel) <==> forall i :: 1 <= i < |doc| ==> !Matches(doc[i], sel);
      if Matches(doc[0], sel) then [doc[0]] + rest else rest
  }

  /** The node an attribute or text lookup reads is the first selected
      element. */
  lemma {:induction false} FilterFirst(doc: Document, sel: Selector, i: nat)
    requires FirstMatchAt(doc, sel, i)
    ensures |Filter(doc, sel)| > 0 && Filter(doc, sel)[0] == doc[i]
  {
    if i > 0 {
      FilterFirst(doc[1..], sel, i - 1);
    }
  }

  /** The crawler's `attr('content')` of an element, as `trim()` sees it:
      a missing attribute reads as null, and PHP's `trim(null)` is "". */
  function AttrOrEmpty(e: Element, attr: string): string {
    if attr in e.attrs then e.attrs[attr] else ""
  }

  const ContentAttr: string := "content"

  /** `extractContent`: the trimmed attribute (or, without an attribute
      name, the trimmed text) of the first selected element, or null when
      nothing is selected. A present element yields a value even when that
      value trims to "". */
  function ExtractContent(doc: Document, sel: Selector, attribute: Option<string>): (r: Option<string>)
    ensures r.None? <==> NoMatch(doc, sel)
    ensures r.Some? ==> Trim(r.value) == r.value
  {
    var found := Filter(doc, sel);
    if |found| > 0 then
      var raw := if !Falsy(attribute) then AttrOrEmpty(found[0], attribute.value) else found[0].text;
      TrimIdempotent(raw);
      Some(Trim(raw))
    else None
  }

  /** With a first selected element, the lookup reads that element. */
  lemma ExtractContentAt(doc: Document, sel: Selector, attribute: Option<string>, i: nat)
    requires FirstMatchAt(doc, sel, i)
    ensures ExtractContent(doc, sel, attribute)
            == Some(Trim(if !Falsy(attribute) then AttrOrEmpty(doc[i], attribute.value) else doc[i].text))
  {
    FilterFirst(doc, sel, i);
  }

  /** A `content` lookup on a first selected element reads that element's
      `content` attribute. */
  lemma ContentAt(doc: Document, sel: Selector, i: nat)
    requires FirstMatchAt(doc, sel, i)
    ensures ExtractContent(doc, sel, Some(ContentAttr)) == Some(Trim(AttrOrEmpty(doc[i], ContentAttr)))
  {
    assert !Falsy(Some(ContentAttr)) by { assert |ContentAttr| == 7; }
    ExtractContentAt(doc, sel, Some(ContentAttr), i);
  }

  const OgTitle := TagWithAttr("meta", "property", "og:title")
  const TitleTag := Tag("title")
  const TwitterTitle := TagWithAttr("meta", "name", "twitter:title")
  const OgDescription := TagWithAttr("meta", "property", "og:description")
  const MetaDescription := TagWithAttr("meta", "name", "description")
  const TwitterDescription := TagWithAttr("meta", "name", "twitter:description")

  const TitleKey: string := "title"
  const DescriptionKey: string := "description"

  /** The PHP array the service returns: key to nullable string. */
  type Metadata = map<string, Option<string>>

  function ResolveTitle(doc: Document): Option<string> {
    ExtractContent(doc, OgTitle, Some(ContentAttr))
      .OrElse(ExtractContent(doc, TitleTag, None))
      .OrElse(ExtractContent(doc, TwitterTitle, Some(ContentAttr)))
  }

  function ResolveDescription(doc: Document): Option<string> {
    ExtractContent(doc, OgDescription, Some(ContentAttr))
      .OrElse(ExtractContent(doc, MetaDescription, Some(ContentAttr)))
      .OrElse(ExtractContent(doc, TwitterDescription, Some(ContentAttr)))
  }

  /** `extractMetadata`: total on every document; the result has exactly
      the keys "title" and "description", each resolved by its own chain. */
  function ExtractMetadata(doc: Document): (r: Metadata)
    ensures r.Keys == {TitleKey, DescriptionKey}
    ensures r[TitleKey].Some? ==> Trim(r[TitleKey].value) == r[TitleKey].value
    ensures r[DescriptionKey].Some? ==> Trim(r[DescriptionKey].value) == r[DescriptionKey].value
  {
    map[TitleKey := ResolveTitle(doc), DescriptionKey := ResolveDescription(doc)]
  }

  /** Each key of the result holds its own chain's value. */
  lemma MetadataFields(doc: Document)
    ensures ExtractMetadata(doc)[TitleKey] == ResolveTitle(doc)
    ensures ExtractMetadata(doc)[DescriptionKey] == ResolveDescription(doc)
  {
    assert TitleKey != DescriptionKey by { assert TitleKey[0] != DescriptionKey[0]; }
  }

  // ---------------------------------------------------------------------------
  // The title chain: og:title content, then <title> text, then twitter:title.

  /** The title is the first non-null of the og:title content, the
      <title> text and the twitter:title content. */
  lemma TitleIsFirstPresent(doc: Document)
    ensures ExtractMetadata(doc)[TitleKey] == FirstPresent([
      ExtractContent(doc, OgTitle, Some(ContentAttr)),
      ExtractContent(doc, TitleTag, None),
      ExtractContent(doc, TwitterTitle, Some(ContentAttr))])
  {
    MetadataFields(doc);
    OrElseChainIsFirstPresent(
      ExtractContent(doc, OgTitle, Some(ContentAttr)),
      ExtractContent(doc, TitleTag, None),
      ExtractContent(doc, TwitterTitle, Some(ContentAttr)));
  }

  lemma TitleFromOpenGraph(doc: Document, i: nat)
    requires FirstMatchAt(doc, OgTitle, i)
    ensures ExtractMetadata(doc)[TitleKey] == Some(Trim(AttrOrEmpty(doc[i], ContentAttr)))
  {
    MetadataFields(doc);
    ContentAt(doc, OgTitle, i);
  }

  lemma TitleFromTitleTag(doc: Document, i: nat)
    requires NoMatch(doc, OgTitle)
    requires FirstMatchAt(doc, TitleTag, i)
    ensures ExtractMetadata(doc)[TitleKey] == Some(Trim(doc[i].text))
  {
    MetadataFields(doc);
    assert ExtractContent(doc, OgTitle, Some(ContentAttr)).None?;
    ExtractContentAt(doc, TitleTag, None, i);
  }

  lemma TitleFromTwitter(doc: Document, i: nat)
    requires NoMatch(doc, OgTitle) && NoMatch(doc, TitleTag)
    requires FirstMatchAt(doc, TwitterTitle, i)
    ensures ExtractMetadata(doc)[TitleKey] == Some(Trim(AttrOrEmpty(doc[i], ContentAttr)))
  {
    MetadataFields(doc);
    assert ExtractContent(doc, OgTitle, Some(ContentAttr)).None?;
    assert ExtractContent(doc, TitleTag, None).None?;
    ContentAt(doc, TwitterTitle, i);
  }

  lemma TitleAbsent(doc: Document)
    ensures ExtractMetadata(doc)[TitleKey].None? <==>
              NoMatch(doc, OgTitle) && NoMatch(doc, TitleTag) && NoMatch(doc, TwitterTitle)
  {
    MetadataFields(doc);
  }

  // ---------------------------------------------------------------------------
  // The description chain: og:description, then meta name=description, then
  // twitter:description, each by its content attribute.

  /** The description is the first non-null of the og:description, the
      meta description and the twitter:description contents. */
  lemma DescriptionIsFirstPresent(doc: Document)
    ensures ExtractMetadata(doc)[DescriptionKey] == FirstPresent([
      ExtractContent(doc, OgDescription, Some(ContentAttr)),
      ExtractContent(doc, MetaDescription, Some(ContentAttr)),
      ExtractContent(doc, TwitterDescription, Some(ContentAttr))])
  {
    MetadataFields(doc);
    OrElseChainIsFirstPresent(
      ExtractContent(doc, OgDescription, Some(ContentAttr)),
      ExtractContent(doc, MetaDescription, Some(ContentAttr)),
      ExtractContent(doc, TwitterDescription, Some(ContentAttr)));
  }

  lemma DescriptionFromOpenGraph(doc: Document, i: nat)
    requires FirstMatchAt(doc, OgDescription, i)
    ensures ExtractMetadata(doc)[DescriptionKey] == Some(Trim(AttrOrEmpty(doc[i], ContentAttr)))
  {
    MetadataFields(doc);
    ContentAt(doc, OgDescription, i);
  }

  lemma DescriptionFromMetaDescription(doc: Document, i: nat)
    requires NoMatch(doc, OgDescription)
    requires FirstMatchAt(doc, MetaDescription, i)
    ensures ExtractMetadata(doc)[DescriptionKey] == Some(Trim(AttrOrEmpty(doc[i], ContentAttr)))
  {
    MetadataFields(doc);
    assert ExtractContent(doc, OgDescription, Some(ContentAttr)).None?;
    ContentAt(doc, MetaDescription, i);
  }

  lemma DescriptionFromTwitter(doc: Document, i: nat)
    requires NoMatch(doc, OgDescription) && NoMatch(doc, MetaDescription)
    requires FirstMatchAt(doc, TwitterDescription, i)
    ensures ExtractMetadata(doc)[DescriptionKey] == Some(Trim(AttrOrEmpty(doc[i], ContentAttr)))
  {
    MetadataFields(doc);
    assert ExtractContent(doc, OgDescription, Some(ContentAttr)).None?;
    assert ExtractContent(doc, MetaDescription, Some(ContentAttr)).None?;
    ContentAt(doc, TwitterDescription, i);
  }

  lemma DescriptionAbsent(doc: Document)
    ensures ExtractMetadata(doc)[DescriptionKey].None? <==>
              NoMatch(doc, OgDescription) && NoMatch(doc, MetaDescription) && NoMatch(doc, TwitterDescription)
  {
    MetadataFields(doc);
  }

  /** A present og:title whose content is blank still ends the chain: the
      title is "" even when a <title> element follows. */
  lemma BlankOpenGraphTitleStopsChain(doc: Document, i: nat)
    requires FirstMatchAt(doc, OgTitle, i)
    requires AllTrimChars(AttrOrEmpty(doc[i], ContentAttr))
    ensures ExtractMetadata(doc)[TitleKey] == Some("")
  {
    TitleFromOpenGraph(doc, i);
  }

  /** A lookup sees a document only through what the selector picks out. */
  lemma ExtractContentSeesOnlyFilter(d1: Document, d2: Document, sel: Selector, attribute: Option<string>)
    requires Filter(d1, sel) == Filter(d2, sel)
    ensures ExtractContent(d1, sel, attribute) == ExtractContent(d2, sel, attribute)
  {
    var f := Filter(d1, sel);
    if |f| > 0 {
      var raw := if !Falsy(attribute) then AttrOrEmpty(f[0], attribute.value) else f[0].text;
      assert ExtractContent(d1, sel, attribute) == Some(Trim(raw));
      assert ExtractContent(d2, sel, attribute) == Some(Trim(raw));
    }
  }

  /** The title chain reads only the elements its own three selectors pick
      out, so the description elements never influence it: the two fields
      may come from different metadata families. */
  lemma ChainsAreIndependent(d1: Document, d2: Document)
    requires Filter(d1, OgTitle) == Filter(d2, OgTitle)
    requires Filter(d1, TitleTag) == Filter(d2, TitleTag)
    requires Filter(d1, TwitterTitle) == Filter(d2, TwitterTitle)
    ensures ExtractMetadata(d1)[TitleKey] == ExtractMetadata(d2)[TitleKey]
  {
    MetadataFields(d1);
    MetadataFields(d2);
    ExtractContentSeesOnlyFilter(d1, d2, OgTitle, Some(ContentAttr));
    ExtractContentSeesOnlyFilter(d1, d2, TitleTag, None);
    ExtractContentSeesOnlyFilter(d1, d2, TwitterTitle, Some(ContentAttr));
  }

  /** The mirror image: the description reads only the elements its own
      three selectors pick out, so the title elements never influence it. */
  lemma DescriptionChainIsIndependent(d1: Document, d2: Document)
    requires Filter(d1, OgDescription) == Filter(d2, OgDescription)
    requires Filter(d1, MetaDescription) == Filter(d2, MetaDescription)
    requires Filter(d1, TwitterDescription) == Filter(d2, TwitterDescription)
    ensures ExtractMetadata(d1)[DescriptionKey] == ExtractMetadata(d2)[DescriptionKey]
  {
    MetadataFields(d1);
    MetadataFields(d2);
    ExtractContentSeesOnlyFilter(d1, d2, OgDescription, Some(ContentAttr));
    ExtractContentSeesOnlyFilter(d1, d2, MetaDescription, Some(ContentAttr));
    ExtractContentSeesOnlyFilter(d1, d2, TwitterDescription, Some(ContentAttr));
  }

  // ---------------------------------------------------------------------------
  // fetch: the HTTP response is an input; the GET itself is not modelled.

  /** What the HTTP client hands back: a response with a status code and a
      (parsed) body, or a connection-level exception with its message. */
  datatype HttpResponse =
    | Response(status: nat, body: Document)
    | ConnectionFailure(message: string)

  /** The HTTP client's `successful()`: a 2xx status. */
  predicate Successful(status: nat) {
    200 <= status < 300
  }

  const FetchErrorPrefix: string := "Error fetching metadata: "
  const StatusErrorText: string := "Failed to fetch URL: HTTP status "

  /** `fetch`: extraction on a 2xx body; every other outcome is an
      exception whose message starts with the fixed prefix. */
  function Fetch(response: HttpResponse): (r: Result<Metadata, string>)
    ensures r.Ok? <==> response.Response? && Successful(response.status)
    ensures r.Err? ==> |r.error| >= |FetchErrorPrefix| && r.error[..|FetchErrorPrefix|] == FetchErrorPrefix
  {
    match response
    case Response(status, body) =>
      if Successful(status) then Ok(ExtractMetadata(body))
      else Err(FetchErrorPrefix + StatusErrorText + Decimal(status))
    case ConnectionFailure(message) =>
      Err(FetchErrorPrefix + message)
  }

  /** A 2xx response yields exactly the extracted metadata. */
  lemma FetchSuccess(status: nat, body: Document)
    requires Successful(status)
    ensures Fetch(Response(status, body)) == Ok(ExtractMetadata(body))
  {
  }

  /** A non-2xx response fails with "HTTP status <code>" in the message, the
      code can be read back from the message, and the body is not looked at. */
  lemma FetchStatusFailure(status: nat, body: Document, other: Document)
    requires !Successful(status)
    ensures var r := Fetch(Response(status, body));
      && r.Err?
      && r == Fetch(Response(status, other))
      && var at := |FetchErrorPrefix| + |"Failed to fetch URL: "|;
         at <= |r.error|
         && r.error[at..] == "HTTP status " + Decimal(status)
         && var code := r.error[|FetchErrorPrefix + StatusErrorText|..];
            AllDigits(code) && ParseDecimal(code) == status
  {
    var r := Fetch(Response(status, body));
    var at := |FetchErrorPrefix| + |"Failed to fetch URL: "|;
    assert r.error[at..] == "HTTP status " + Decimal(status);
    assert r.error[|FetchErrorPrefix + StatusErrorText|..] == Decimal(status);
    DecimalRoundTrip(status);
  }

  /** A connection error is rethrown with the prefix, its own message intact. */
  lemma FetchConnectionFailure(message: string)
    ensures var r := Fetch(ConnectionFailure(message));
      r.Err? && r.error == FetchErrorPrefix + message
      && r.error[|FetchErrorPrefix|..] == message
  {
    var r := Fetch(ConnectionFailure(message));
    assert r.error[|FetchErrorPrefix|..] == message;
  }
}
