/** The content script (content.js): collecting the result links of a search
    page and driving the citation download of an article or chapter page. The
    page itself is replaced by what the script observes of it. */
module Content {
  import opened Wrappers
  import opened Text
  import opened Seqs
  import opened Messages

  // ---------------------------------------------------------------------------
  // The result count (content.js:17-24)

  const DefaultTotalResults := 20

  /** `/of (\d+) results/` matches at i: "of ", a run of digits and " results".
      The run is the whole run of digits there, since a shorter one is followed
      by a digit and not by a space. */
  predicate MatchAt(text: string, i: int) {
    && 0 <= i
    && OccursAt(text, "of ", i)
    && var k := LeadingDigits(text[i + 3..]);
       k > 0 && StartsWith(text[i + 3 + k..], " results")
  }

  /** The leftmost match at or after i, as the regular expression finds it. */
  function FindMatch(text: string, i: nat): (r: Option<nat>)
    ensures r.Some? ==> i <= r.value && MatchAt(text, r.value)
    ensures r.Some? ==> forall j :: i <= j < r.value ==> !MatchAt(text, j)
    ensures r.None? ==> forall j :: i <= j ==> !MatchAt(text, j)
    decreases |text| - i
  {
    if i > |text| then None
    else if MatchAt(text, i) then Some(i)
    else FindMatch(text, i + 1)
  }

  /** `parseInt` of the digits captured at a match. */
  function MatchedCount(text: string, i: int): nat
    requires MatchAt(text, i)
  {
    var k := LeadingDigits(text[i + 3..]);
    DecimalValue(text[i + 3..][..k])
  }

  /** The result count read from the optional results span. */
  function ParseTotalResults(span: Option<string>): int {
    match span
    case None => DefaultTotalResults
    case Some(text) =>
      match FindMatch(text, 0)
      case None => DefaultTotalResults
      case Some(i) => MatchedCount(text, i)
  }

  /** The count is the number at the leftmost match; without a span or without
      a match it is the default of 20. */
  lemma ParseTotalResultsSpec(span: Option<string>)
    ensures span.None? ==> ParseTotalResults(span) == DefaultTotalResults
    ensures span.Some? && (forall j :: !MatchAt(span.value, j)) ==> ParseTotalResults(span) == DefaultTotalResults
    ensures forall i :: (span.Some? && MatchAt(span.value, i) && (forall j :: 0 <= j < i ==> !MatchAt(span.value, j))
      ==> ParseTotalResults(span) == MatchedCount(span.value, i))
  {
    if span.Some? {
      var r := FindMatch(span.value, 0);
      if r.None? {
        assert forall j :: 0 <= j ==> !MatchAt(span.value, j);
      }
    }
  }

  /** A count written as "of N results" is read back as N. */
  lemma ResultCountReadsBack(n: nat)
    ensures ParseTotalResults(Some("of " + DecimalString(n) + " results")) == n
  {
    var ds := DecimalString(n);
    var text := "of " + ds + " results";
    assert text[3..] == ds + " results";
    LeadingDigitsOf(ds, " results");
    assert text[3..][..|ds|] == ds;
    assert text[3 + |ds|..] == " results";
    assert MatchAt(text, 0);
    DecimalRoundTrip(n);
  }

  const SeparatedCountText := "of 1,234 results"

  lemma NoLaterOf(j: int)
    requires 1 <= j
    ensures !OccursAt(SeparatedCountText, "of ", j)
  {
    var text := SeparatedCountText;
    if j + 3 <= |text| {
      assert text[j..j + 3][0] == text[j];
      assert text[1..] == "f 1,234 results";
      assert text[j] in text[1..];
    }
  }

  /** A count with a thousands separator does not match: the default is kept. */
  lemma SeparatedCountFallsBack()
    ensures ParseTotalResults(Some(SeparatedCountText)) == DefaultTotalResults
  {
    var text := SeparatedCountText;
    assert text == "of 1" + ",234 results";
    LeadingDigitsOf("1", ",234 results");
    assert text[3..] == "1" + ",234 results";
    assert text[4..][0] == ',';
    assert !MatchAt(text, 0);
    forall j | 1 <= j
      ensures !MatchAt(text, j)
    {
      NoLaterOf(j);
    }
    var r := FindMatch(text, 0);
    assert r.None?;
  }

  // ---------------------------------------------------------------------------
  // Links and titles (content.js:26-50)

  /** An element matched by one of the four card selectors, in the order the
      four queries return them: its own `href` ("" when it has none), its text,
      whether it is a span, and the `href` of its parent element. */
  datatype Element = Element(href: string, text: string, isSpan: bool, parentHref: string)

  /** For a span the parent anchor carries the link. */
  function LinkHref(e: Element): string {
    if e.isSpan then e.parentHref else e.href
  }

  predicate Qualifies(e: Element) {
    LinkHref(e) != "" && (Contains(LinkHref(e), "/article/") || Contains(LinkHref(e), "/chapter/"))
  }

  /** The links of the qualifying elements, repeats included. */
  function QualifyingHrefs(es: seq<Element>): seq<string> {
    if es == [] then []
    else
      var e := es[|es| - 1];
      QualifyingHrefs(es[..|es| - 1]) + (if Qualifies(e) then [LinkHref(e)] else [])
  }

  /** The non-empty trimmed texts of the qualifying elements, repeats included. */
  function QualifyingTitles(es: seq<Element>): seq<string> {
    if es == [] then []
    else
      var e := es[|es| - 1];
      QualifyingTitles(es[..|es| - 1]) + (if Qualifies(e) && Trim(e.text) != "" then [Trim(e.text)] else [])
  }

  /** The forEach callback of content.js:36-47: one element added to the two
      Sets. */
  method VisitElement(element: Element, links: seq<string>, titles: seq<string>)
    returns (links': seq<string>, titles': seq<string>)
    ensures links' == if Qualifies(element) && LinkHref(element) !in links then links + [LinkHref(element)] else links
    ensures titles' == if Qualifies(element) && Trim(element.text) != "" && Trim(element.text) !in titles
      then titles + [Trim(element.text)] else titles
  {
    links', titles' := links, titles;
    var linkHref := if element.isSpan then element.parentHref else element.href;
    if linkHref != "" && (Contains(linkHref, "/article/") || Contains(linkHref, "/chapter/")) {
      if linkHref !in links' {
        links' := links' + [linkHref];
      }
      var title := Trim(element.text);
      if title != "" && title !in titles' {
        titles' := titles' + [title];
      }
    }
  }

  lemma HrefsStep(matched: seq<Element>, i: nat)
    requires i < |matched|
    ensures var e := matched[i]; var links := Dedup(QualifyingHrefs(matched[..i]));
      Dedup(QualifyingHrefs(matched[..i + 1]))
        == if Qualifies(e) && LinkHref(e) !in links then links + [LinkHref(e)] else links
  {
    var e := matched[i];
    var p := QualifyingHrefs(matched[..i]);
    assert matched[..i + 1][..i] == matched[..i];
    assert QualifyingHrefs(matched[..i + 1]) == p + (if Qualifies(e) then [LinkHref(e)] else []);
    if Qualifies(e) {
      DedupPush(p, LinkHref(e));
    } else {
      assert p + [] == p;
    }
  }

  lemma TitlesStep(matched: seq<Element>, i: nat)
    requires i < |matched|
    ensures var e := matched[i]; var titles := Dedup(QualifyingTitles(matched[..i]));
      Dedup(QualifyingTitles(matched[..i + 1]))
        == if Qualifies(e) && Trim(e.text) != "" && Trim(e.text) !in titles then titles + [Trim(e.text)] else titles
  {
    var e := matched[i];
    var p := QualifyingTitles(matched[..i]);
    assert matched[..i + 1][..i] == matched[..i];
    assert QualifyingTitles(matched[..i + 1]) == p + (if Qualifies(e) && Trim(e.text) != "" then [Trim(e.text)] else []);
    if Qualifies(e) && Trim(e.text) != "" {
      DedupPush(p, Trim(e.text));
    } else {
      assert p + [] == p;
    }
  }

  /** The two Set-filling loops of content.js:33-48. */
  method GatherLinks(matched: seq<Element>) returns (links: seq<string>, titles: seq<string>)
    ensures links == Dedup(QualifyingHrefs(matched))
    ensures titles == Dedup(QualifyingTitles(matched))
  {
    links, titles := [], [];
    for i := 0 to |matched|
      invariant links == Dedup(QualifyingHrefs(matched[..i]))
      invariant titles == Dedup(QualifyingTitles(matched[..i]))
    {
      HrefsStep(matched, i);
      TitlesStep(matched, i);
      links, titles := VisitElement(matched[i], links, titles);
    }
    assert matched[..|matched|] == matched;
  }

  lemma {:induction false} QualifyingHrefsMembers(es: seq<Element>)
    ensures forall l :: l in QualifyingHrefs(es) <==> exists e :: e in es && Qualifies(e) && LinkHref(e) == l
  {
    if es != [] {
      var p := es[..|es| - 1];
      QualifyingHrefsMembers(p);
      assert es == p + [es[|es| - 1]];
    }
  }

  lemma {:induction false} QualifyingTitlesMembers(es: seq<Element>)
    ensures forall t :: t in QualifyingTitles(es) <==> exists e :: e in es && Qualifies(e) && Trim(e.text) == t && t != ""
  {
    if es != [] {
      var p := es[..|es| - 1];
      QualifyingTitlesMembers(p);
      assert es == p + [es[|es| - 1]];
    }
  }

  /** The collected links are distinct, and are exactly the links of the
      qualifying elements (the parent's for a span); each names an article or a
      chapter. */
  lemma CollectedLinks(matched: seq<Element>)
    ensures var links := Dedup(QualifyingHrefs(matched));
      && Distinct(links)
      && (forall l :: l in links <==> exists e :: e in matched && Qualifies(e) && LinkHref(e) == l)
      && (forall l :: l in links ==> Contains(l, "/article/") || Contains(l, "/chapter/"))
  {
    QualifyingHrefsMembers(matched);
  }

  /** The collected titles are distinct, non-empty, trimmed texts of qualifying
      elements and nothing else. */
  lemma CollectedTitles(matched: seq<Element>)
    ensures var titles := Dedup(QualifyingTitles(matched));
      && Distinct(titles)
      && (forall t :: t in titles <==> exists e :: e in matched && Qualifies(e) && Trim(e.text) == t && t != "")
      && (forall t :: t in titles ==> IsTrimmed(t))
  {
    QualifyingTitlesMembers(matched);
    forall t | t in Dedup(QualifyingTitles(matched)) ensures IsTrimmed(t) {
      var e :| e in matched && Qualifies(e) && Trim(e.text) == t && t != "";
      TrimSpec(e.text);
    }
  }

  /** Titles are gathered apart from links: two cards with different links and
      the same title give two links and one title, so the lists are not
      aligned by index. */
  lemma TitlesNotAlignedWithLinks(e1: Element, e2: Element)
    requires Qualifies(e1) && Qualifies(e2) && LinkHref(e1) != LinkHref(e2)
    requires Trim(e1.text) == Trim(e2.text) != ""
    ensures |Dedup(QualifyingHrefs([e1, e2]))| == 2
    ensures |Dedup(QualifyingTitles([e1, e2]))| == 1
  {
    QualifyingPair(e1, e2);
    DedupPair(LinkHref(e1), LinkHref(e2));
    DedupPair(Trim(e1.text), Trim(e2.text));
  }

  lemma QualifyingPair(e1: Element, e2: Element)
    requires Qualifies(e1) && Qualifies(e2) && Trim(e1.text) != "" && Trim(e2.text) != ""
    ensures QualifyingHrefs([e1, e2]) == [LinkHref(e1), LinkHref(e2)]
    ensures QualifyingTitles([e1, e2]) == [Trim(e1.text), Trim(e2.text)]
  {
    assert [e1, e2][..1] == [e1];
    assert [e1][..0] == [];
    assert QualifyingHrefs([e1]) == [LinkHref(e1)];
    assert QualifyingTitles([e1]) == [Trim(e1.text)];
  }

  // ---------------------------------------------------------------------------
  // The whole of collectLinks (content.js:14-75)

  const NoLinksError := "没有找到有效链接"

  /** The next-page anchor found within two seconds, if any. */
  datatype NextButton = NextButton(disabled: bool, href: string)

  /** The next-page report of content.js:63-69. */
  function NextPageMessages(button: Option<NextButton>): seq<Message> {
    if button.Some? && !button.value.disabled && button.value.href != "" then [NextPageFound(button.value.href)] else []
  }

  /** collectLinks: with no qualifying link it fails and sends nothing; else it
      reports the links, titles and count, then the next page when the button
      exists, is enabled and has a link. */
  method CollectLinks(span: Option<string>, matched: seq<Element>, nextButton: Option<NextButton>)
    returns (result: ScriptResult, sent: seq<Message>)
    ensures Dedup(QualifyingHrefs(matched)) == [] ==> result == Failed(NoLinksError) && sent == []
    ensures Dedup(QualifyingHrefs(matched)) != [] ==>
      && result == Succeeded
      && sent == [LinksCollected(Some(Dedup(QualifyingHrefs(matched))), Dedup(QualifyingTitles(matched)), ParseTotalResults(span))]
                 + NextPageMessages(nextButton)
    ensures forall m :: m in sent && m.LinksCollected? ==> m.urls.Some? && m.urls.value != []
    ensures forall m :: m in sent && m.NextPageFound? ==> m.url != ""
  {
    var totalResults := ParseTotalResults(span);
    var uniqueLinks, titles := GatherLinks(matched);
    if |uniqueLinks| == 0 {
      return Failed(NoLinksError), [];
    }
    sent := [LinksCollected(Some(uniqueLinks), titles, totalResults)];
    if nextButton.Some? && !nextButton.value.disabled {
      var nextPageUrl := nextButton.value.href;
      if nextPageUrl != "" {
        sent := sent + [NextPageFound(nextPageUrl)];
      }
    }
    result := Succeeded;
  }

  // ---------------------------------------------------------------------------
  // The citation download (content.js:78-138)

  const MaxRetries := 2

  const ArticleCite := "a[href=\"#citeas\"][data-track-action=\"cite this article\"]"
  const ChapterCite := "a[href=\"#citeas\"][data-track-action=\"cite this chapter\"]"
  const ArticleDownload := "a[data-test=\"citation-link\"][data-track-action=\"download article citation\"]"
  const ChapterDownload := "a[data-test=\"citation-link\"][data-track-action=\"download chapter citation\"]"

  const CiteMissingError := "找不到Cite按钮"
  const DownloadMissingError := "找不到Download citation按钮"

  /** What one attempt sees of the page: the exception it raised, or the
      selectors for which an element turned up within five seconds. */
  datatype AttemptView = Threw(message: string) | Shown(present: set<string>)

  /** A page whose address names an article uses the article selectors; any
      other page the chapter selectors. */
  function CiteSelector(pageUrl: string): string {
    if Contains(pageUrl, "/article/") then ArticleCite else ChapterCite
  }

  function DownloadSelector(pageUrl: string): string {
    if Contains(pageUrl, "/article/") then ArticleDownload else ChapterDownload
  }

  datatype AttemptOutcome = Found | Missing(error: string)

  /** One attempt on its own: both buttons found, or the error naming the step
      that failed. */
  function Attempt(pageUrl: string, view: AttemptView): AttemptOutcome {
    match view
    case Threw(message) => Missing(message)
    case Shown(present) =>
      if CiteSelector(pageUrl) !in present then Missing(CiteMissingError)
      else if DownloadSelector(pageUrl) !in present then Missing(DownloadMissingError)
      else Found
  }

  /** downloadCitation, given what each of the at most three attempts would see.
      It succeeds at the first attempt that finds both buttons, and fails only
      after the third attempt, with that attempt's error. */
  method DownloadCitation(pageUrl: string, views: seq<AttemptView>) returns (result: ScriptResult, attempts: nat)
    requires |views| == MaxRetries + 1
    ensures 1 <= attempts <= MaxRetries + 1
    ensures forall i :: 0 <= i < attempts - 1 ==> Attempt(pageUrl, views[i]).Missing?
    ensures result == Succeeded <==> Attempt(pageUrl, views[attempts - 1]) == Found
    ensures result.Failed? ==> attempts == MaxRetries + 1 && result.error == Attempt(pageUrl, views[MaxRetries]).error
    ensures result == Succeeded <==> exists i :: 0 <= i <= MaxRetries && Attempt(pageUrl, views[i]) == Found
  {
    var retryCount := 0;
    while retryCount <= MaxRetries
      invariant 0 <= retryCount <= MaxRetries
      invariant forall i :: 0 <= i < retryCount ==> Attempt(pageUrl, views[i]).Missing?
      decreases MaxRetries - retryCount
    {
      match views[retryCount]
      case Threw(message) =>
        if retryCount == MaxRetries {
          return Failed(message), retryCount + 1;
        }
        retryCount := retryCount + 1;
      case Shown(present) =>
        var isArticle := Contains(pageUrl, "/article/");
        var citeSelector := if isArticle then ArticleCite else ChapterCite;
        if citeSelector !in present {
          if retryCount == MaxRetries {
            return Failed(CiteMissingError), retryCount + 1;
          }
          retryCount := retryCount + 1;
        } else {
          var downloadSelector := if isArticle then ArticleDownload else ChapterDownload;
          if downloadSelector !in present {
            if retryCount == MaxRetries {
              return Failed(DownloadMissingError), retryCount + 1;
            }
            retryCount := retryCount + 1;
          } else {
            return Succeeded, retryCount + 1;
          }
        }
    }
    assert false;
  }
}
