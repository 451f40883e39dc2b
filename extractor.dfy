/** Main-text extraction from an article's web page. DOM parsing and the
    removal of script, style, navigation and similar elements are not
    modelled: the page is given as the text contents of the elements the
    extractor looks at, after that removal. */
module Extractor {
  import opened Types
  import opened Text

  /** Below this trimmed length a candidate text is considered too short. */
  const MinLength: nat := 200
  /** The cap on the extracted text, to bound the prompt size. */
  const MaxLength: nat := 3000

  /** The text contents of the first `article` element, of the main element
      (`main`, else `[role="main"]`) and of the body; `None` where the page
      has no such element. */
  datatype Page = Page(article: Option<string>, main: Option<string>, body: Option<string>)

  /** The page request: it threw (network error, the 15-second abort), or it
      answered with a status flag and, when read, the parsed page. */
  datatype Fetched = Threw | Response(ok: bool, page: Page)

  /** `!content || content.trim().length < 200`. */
  predicate Short(content: string)
  {
    content == "" || |Trim(content)| < MinLength
  }

  /** The candidate the fallback chain ends on, by cases: the article text
      when it is long enough; otherwise the main text when there is one and
      it is long enough; otherwise the body text ('' without a body). */
  function Selected(p: Page): string
  {
    var a := p.article.GetOr("");
    if !Short(a) then a
    else if p.main.Some? && !Short(p.main.value) then p.main.value
    else p.body.GetOr("")
  }

  /** The extracted text: the selected candidate with whitespace runs
      collapsed and trimmed, cut to the cap. */
  function Extracted(p: Page): string
  {
    Prefix(Normalize(Selected(p)), MaxLength)
  }

  /** `extractFromHtml`: `content` is reassigned along the chain article,
      then main, then body, and finally cleaned up and cut. */
  method ExtractFromHtml(page: Page) returns (r: string)
    ensures r == Extracted(page)
  {
    var content := "";
    if page.article.Some? {
      content := page.article.value;
    }
    ghost var a := content;
    if content == "" || |Trim(content)| < MinLength {
      if page.main.Some? {
        content := page.main.value;
      }
    }
    assert content == if Short(a) && page.main.Some? then page.main.value else a;
    if content == "" || |Trim(content)| < MinLength {
      content := page.body.GetOr("");
    }
    assert content == Selected(page);
    content := Normalize(content);
    r := Prefix(content, MaxLength);
  }

  /** What `extractContent` makes of the page request's outcome. */
  function ContentOf(f: Fetched): string
  {
    match f
    case Threw => ""
    case Response(ok, page) => if ok then Extracted(page) else ""
  }

  /** `extractContent(url)`: a thrown request or a non-OK status gives ''. */
  method ExtractContent(url: string, fetch: string -> Fetched) returns (r: string)
    ensures fetch(url).Threw? ==> r == ""
    ensures fetch(url).Response? && !fetch(url).ok ==> r == ""
    ensures fetch(url).Response? && fetch(url).ok ==> r == Extracted(fetch(url).page)
    ensures r == ContentOf(fetch(url))
  {
    var response := fetch(url);
    match response {
      case Threw =>
        r := "";
      case Response(ok, page) =>
        if !ok {
          return "";
        }
        r := ExtractFromHtml(page);
    }
  }

  /** The chain ends on a candidate that is long enough, or on the body. */
  lemma SelectedLongOrBody(p: Page)
    ensures !Short(Selected(p)) || Selected(p) == p.body.GetOr("")
  {
  }

  /** A long-enough article text wins over main and body; a short article
      gives way to a long-enough main text, and both give way to the body
      when neither is long enough. */
  lemma SelectedFallback(p: Page)
    ensures p.article.Some? && !Short(p.article.value) ==> Selected(p) == p.article.value
    ensures (p.article.None? || Short(p.article.value)) && p.main.Some? && !Short(p.main.value)
            ==> Selected(p) == p.main.value
    ensures (p.article.None? || Short(p.article.value)) && (p.main.None? || Short(p.main.value))
            ==> Selected(p) == p.body.GetOr("")
  {
  }

  /** The extracted text is at most 3000 characters, a prefix of the
      collapsed candidate, uses only plain spaces, never two in a row, and
      does not start with one; it also does not end with one unless the cut
      fell right after a space. Non-space characters keep their order. */
  lemma ExtractedShape(p: Page)
    ensures |Extracted(p)| <= MaxLength
    ensures Extracted(p) <= Normalize(Selected(p))
    ensures SpacesPlain(Extracted(p)) && NoDoubleSpace(Extracted(p))
    ensures Extracted(p) == [] || !IsSpace(Extracted(p)[0])
    ensures |Extracted(p)| < MaxLength ==> Extracted(p) == Normalize(Selected(p)) && Trimmed(Extracted(p))
    ensures |Normalize(Selected(p))| <= MaxLength ==> NonSpace(Extracted(p)) == NonSpace(Selected(p))
  {
    NormalizeShape(Selected(p));
    PrefixCollapsed(Normalize(Selected(p)), MaxLength);
  }

  /** Cleaning up an extracted text again changes nothing. */
  lemma ExtractedStable(p: Page)
    ensures |Normalize(Selected(p))| <= MaxLength ==> Normalize(Extracted(p)) == Extracted(p)
  {
    NormalizeIdempotent(Selected(p));
  }
}
