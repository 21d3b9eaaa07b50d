/** The decision logic of `WebDocumentLoader.load` and `_extract_title`.
    The HTTP exchange, trafilatura, BeautifulSoup, MD5 and the clock are
    foreign; they enter as parameters. A foreign call that may raise is a
    function returning `Result`, whose `Failure` carries the exception text. */
module WebLoader {
  import opened Wrappers
  import opened PyText
  import opened Documents
  import Factory

  /** Below this many characters of stripped text a page counts as empty. */
  const MinContentLength: nat := 100

  /** The title recorded when the page has none or it cannot be read. */
  const Untitled: string := "Untitled"

  /** An MD5 hexdigest: 32 lower-case hexadecimal digits. */
  type Digest = s: string | |s| == 32 && forall i :: 0 <= i < |s| ==> s[i] in "0123456789abcdef"
    witness "00000000000000000000000000000000"

  /** A completed HTTP GET: the status code and the decoded body. */
  datatype Response = Response(status: int, body: string)

  /** The foreign extractors, each a function of the raw HTML:
      - `trafilatura`: `trafilatura.extract(html)`, which may return `None`;
      - `visibleText`: BeautifulSoup with script/style/nav/header/footer
        removed, then `get_text(separator=' ', strip=True)`;
      - `titleText`: the stripped text of the first `<title>` tag, `None`
        when the page has none;
      - `md5`: the hexdigest of the UTF-8 encoding of a text. */
  datatype Extractors = Extractors(
    trafilatura: string -> Result<Option<string>, string>,
    visibleText: string -> Result<string, string>,
    titleText: string -> Result<Option<string>, string>,
    md5: string -> Digest)

  /** Which extractor produced the text (`extraction_method_used`). */
  datatype Method = Trafilatura | BeautifulSoupFallback | BeautifulSoup

  datatype Extraction = Extraction(text: Option<string>, usedMethod: Method)

  /** `not text or len(text.strip()) < 100`. An empty string is covered by the
      second half, since it strips to length 0. */
  predicate TooSparse(text: Option<string>) {
    text.None? || |Strip(text.value)| < MinContentLength
  }

  /** Text extraction. With the default method, trafilatura runs first and the
      structural BeautifulSoup pass replaces its output exactly when that
      output is missing or too short; any other method goes straight to
      BeautifulSoup. A raising extractor makes the whole extraction fail. */
  function Extract(extractMethod: string, html: string, ex: Extractors): (r: Result<Extraction, string>)
    ensures extractMethod == Factory.DefaultExtractMethod ==>
              (r.Success? <==> ex.trafilatura(html).Success?
                               && (!TooSparse(ex.trafilatura(html).value) || ex.visibleText(html).Success?))
    ensures extractMethod == Factory.DefaultExtractMethod && r.Success? ==>
              ex.trafilatura(html).Success?
              && (r.value.usedMethod == BeautifulSoupFallback <==> TooSparse(ex.trafilatura(html).value))
              && (r.value.usedMethod == Trafilatura <==> !TooSparse(ex.trafilatura(html).value))
    ensures extractMethod != Factory.DefaultExtractMethod ==> (r.Success? <==> ex.visibleText(html).Success?)
    ensures r.Success? && r.value.usedMethod == Trafilatura ==>
              ex.trafilatura(html).Success? && r.value.text == ex.trafilatura(html).value
    ensures r.Success? && r.value.usedMethod != Trafilatura ==>
              ex.visibleText(html).Success? && r.value.text == Some(ex.visibleText(html).value)
    ensures r.Success? && r.value.usedMethod == BeautifulSoup <==> extractMethod != Factory.DefaultExtractMethod && r.Success?
  {
    if extractMethod == Factory.DefaultExtractMethod then
      match ex.trafilatura(html)
      case Failure(e) => Failure(e)
      case Success(primary) =>
        if TooSparse(primary) then
          match ex.visibleText(html)
          case Failure(e) => Failure(e)
          case Success(text) => Success(Extraction(Some(text), BeautifulSoupFallback))
        else
          Success(Extraction(primary, Trafilatura))
    else
      match ex.visibleText(html)
      case Failure(e) => Failure(e)
      case Success(text) => Success(Extraction(Some(text), BeautifulSoup))
  }

  /** `_extract_title`: the `<title>` text, or "Untitled" when the page has no
      title tag or reading it raises. An empty title tag yields "". */
  function ExtractTitle(html: string, ex: Extractors): (title: string)
    ensures ex.titleText(html).Failure? ==> title == Untitled
    ensures ex.titleText(html) == Success(None) ==> title == Untitled
    ensures ex.titleText(html).Success? && ex.titleText(html).value.Some? ==> title == ex.titleText(html).value.value
  {
    match ex.titleText(html)
    case Failure(_) => Untitled
    case Success(None) => Untitled
    case Success(Some(t)) => t
  }

  /** The metadata of a successfully loaded page: the fixed source type, the
      URL, the hash, the clock reading, the title and the untrimmed length. */
  function WebMetadata(url: string, text: string, title: string, hash: Digest, now: string): (m: Metadata)
    ensures m.Keys == {"source_type", "source_url", ContentHashKey, "processed_at", "title", "content_length"}
    ensures m["source_type"] == Str("web") && m["source_url"] == Str(url)
    ensures m[ContentHashKey] == Str(hash) && Truthy(m[ContentHashKey])
    ensures m["processed_at"] == Str(now) && m["title"] == Str(title)
    ensures m["content_length"] == Int(|text|)
  {
    map[
      "source_type" := Str("web"),
      "source_url" := Str(url),
      ContentHashKey := Str(hash),
      "processed_at" := Str(now),
      "title" := Str(title),
      "content_length" := Int(|text|)
    ]
  }

  /** `WebDocumentLoader.load`. `fetched` is the GET (a `Failure` for any
      raise while connecting, reading or decoding) and `now` the clock
      reading. Every failure path, a non-200 status included, ends in the
      `except` branch or the sparse-text check and yields `[]`; nothing
      raises out of the loader. */
  function Load(url: string, extractMethod: string, fetched: Result<Response, string>,
                ex: Extractors, now: string): (docs: seq<Document>)
    ensures |docs| <= 1
    ensures fetched.Failure? || fetched.value.status != 200 ==> docs == []
    ensures |docs| == 1 <==>
              && fetched.Success? && fetched.value.status == 200
              && Extract(extractMethod, fetched.value.body, ex).Success?
              && !TooSparse(Extract(extractMethod, fetched.value.body, ex).value.text)
    ensures |docs| == 1 ==>
              var html := fetched.value.body;
              var text := Extract(extractMethod, html, ex).value.text.value;
              docs[0] == Document(text, WebMetadata(url, text, ExtractTitle(html, ex), ex.md5(text), now))
              && |Strip(text)| >= MinContentLength
              && HashKey(docs[0]) == Some(Str(ex.md5(text)))
  {
    match fetched
    case Failure(_) => []
    case Success(response) =>
      if response.status != 200 then []
      else
        match Extract(extractMethod, response.body, ex)
        case Failure(_) => []
        case Success(extraction) =>
          if TooSparse(extraction.text) then []
          else
            var text := extraction.text.value;
            var hash := ex.md5(text);
            [Document(text, WebMetadata(url, text, ExtractTitle(response.body, ex), hash, now))]
  }

  /** A non-default extraction method never consults trafilatura: replacing
      it changes nothing. */
  lemma NonDefaultMethodIgnoresTrafilatura(url: string, extractMethod: string, fetched: Result<Response, string>,
                                           ex: Extractors, other: string -> Result<Option<string>, string>, now: string)
    requires extractMethod != Factory.DefaultExtractMethod
    ensures Load(url, extractMethod, fetched, ex, now) == Load(url, extractMethod, fetched, ex.(trafilatura := other), now)
  {
  }

  /** With the default method, a usable trafilatura result is kept as is and
      the BeautifulSoup pass is never consulted. */
  lemma UsablePrimaryIgnoresFallback(url: string, fetched: Result<Response, string>,
                                     ex: Extractors, other: string -> Result<string, string>, now: string)
    requires fetched.Success?
    requires ex.trafilatura(fetched.value.body).Success? && !TooSparse(ex.trafilatura(fetched.value.body).value)
    ensures Load(url, Factory.DefaultExtractMethod, fetched, ex, now)
         == Load(url, Factory.DefaultExtractMethod, fetched, ex.(visibleText := other), now)
  {
  }

  /** The extraction-fallback scenario: trafilatura finds almost nothing, the
      visible text is long enough, so the loader returns one document holding
      the visible text and the page title. */
  lemma FallbackProducesDocument(url: string, html: string, ex: Extractors, now: string, visible: string, title: string)
    requires ex.trafilatura(html).Success? && TooSparse(ex.trafilatura(html).value)
    requires ex.visibleText(html) == Success(visible) && |Strip(visible)| >= MinContentLength
    requires ex.titleText(html) == Success(Some(title))
    ensures Load(url, Factory.DefaultExtractMethod, Success(Response(200, html)), ex, now)
         == [Document(visible, WebMetadata(url, visible, title, ex.md5(visible), now))]
  {
    var e := Extract(Factory.DefaultExtractMethod, html, ex);
    assert e == Success(Extraction(Some(visible), BeautifulSoupFallback));
    assert !TooSparse(e.value.text);
    assert ExtractTitle(html, ex) == title;
    var docs := Load(url, Factory.DefaultExtractMethod, Success(Response(200, html)), ex, now);
    assert |docs| == 1;
    assert docs[0] == Document(visible, WebMetadata(url, visible, title, ex.md5(visible), now));
  }

  /** A page served with status 200 whose trafilatura text is long enough
      yields one document carrying that text, the loader's URL and a content
      hash, with the title taken from the page. */
  lemma SuccessfulPageScenario(url: string, html: string, ex: Extractors, now: string, text: string, title: string)
    requires ex.trafilatura(html) == Success(Some(text)) && |Strip(text)| >= MinContentLength
    requires ex.titleText(html) == Success(Some(title))
    ensures var docs := Load(url, Factory.DefaultExtractMethod, Success(Response(200, html)), ex, now);
            && |docs| == 1
            && docs[0].content == text && |docs[0].content| > 0
            && docs[0].metadata["source_url"] == Str(url)
            && docs[0].metadata["title"] == Str(title)
            && ContentHashKey in docs[0].metadata
  {
    var e := Extract(Factory.DefaultExtractMethod, html, ex);
    assert e == Success(Extraction(Some(text), Trafilatura));
    assert ExtractTitle(html, ex) == title;
  }
}
