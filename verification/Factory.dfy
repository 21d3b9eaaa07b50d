/** The loader factory (`create_document_loader`): a case-sensitive string
    classifier that checks the URL scheme first and the `.pdf` extension
    second, and rejects everything else. It never consults the filesystem. */
module Factory {
  import opened Wrappers
  import opened PyText

  /** The extraction method a web loader gets when none is given. */
  const DefaultExtractMethod: string := "trafilatura"

  /** The two loader variants, each bound to its source at construction. */
  datatype Loader =
    | WebDocumentLoader(url: string, extractMethod: string)
    | PdfDocumentLoader(pdfPath: string)
  {
    /** The source string the loader was built from. */
    function Source(): string {
      match this
      case WebDocumentLoader(url, _) => url
      case PdfDocumentLoader(path) => path
    }
  }

  /** `source.startswith(('http://', 'https://'))`. */
  predicate IsUrl(source: string) {
    StartsWith(source, "http://") || StartsWith(source, "https://")
  }

  /** `source.endswith('.pdf')`. */
  predicate IsPdfPath(source: string) {
    EndsWith(source, ".pdf")
  }

  /** The `ValueError` message for a source neither check accepts. */
  function UnsupportedMessage(source: string): string {
    "Unsupported document source: " + source
  }

  /** Classifies `source`: a URL gets a web loader with the default method
      (whatever its suffix), any other `.pdf` path a PDF loader, and anything
      else is refused with the `ValueError` message. */
  function CreateDocumentLoader(source: string): (r: Result<Loader, string>)
    ensures r.Success? <==> IsUrl(source) || IsPdfPath(source)
    ensures r.Success? ==> r.value.Source() == source
    ensures r.Success? ==> (r.value.WebDocumentLoader? <==> IsUrl(source))
    ensures r.Success? && r.value.WebDocumentLoader? ==> r.value.extractMethod == DefaultExtractMethod
    ensures r.Failure? ==> r.error == UnsupportedMessage(source)
  {
    if IsUrl(source) then Success(WebDocumentLoader(source, DefaultExtractMethod))
    else if IsPdfPath(source) then Success(PdfDocumentLoader(source))
    else Failure(UnsupportedMessage(source))
  }

  /** The scheme check wins: a URL whose path ends in `.pdf` still gets a web loader. */
  lemma UrlWinsOverPdfSuffix(rest: string)
    ensures CreateDocumentLoader("http://" + rest + ".pdf") == Success(WebDocumentLoader("http://" + rest + ".pdf", DefaultExtractMethod))
    ensures CreateDocumentLoader("https://" + rest + ".pdf") == Success(WebDocumentLoader("https://" + rest + ".pdf", DefaultExtractMethod))
  {
    assert ("http://" + rest + ".pdf")[..7] == "http://";
    assert ("https://" + rest + ".pdf")[..8] == "https://";
  }

  /** Appending `.pdf` cannot create a URL scheme: neither scheme contains a `.`. */
  lemma {:induction false} PdfSuffixKeepsScheme(stem: string, suffix: string)
    requires suffix == ".pdf" || suffix == ".PDF"
    requires !IsUrl(stem)
    ensures !IsUrl(stem + suffix)
  {
    var s := stem + suffix;
    forall scheme | scheme == "http://" || scheme == "https://"
      ensures !StartsWith(s, scheme)
    {
      if |scheme| <= |stem| {
        assert s[..|scheme|] == stem[..|scheme|];
      } else {
        assert s[|stem|] == '.';
        assert forall k :: 0 <= k < |scheme| ==> scheme[k] != '.';
      }
    }
  }

  /** Any non-URL string ending in `.pdf` gets a PDF loader for that exact path. */
  lemma PdfSuffixGivesPdfLoader(stem: string)
    requires !IsUrl(stem)
    ensures CreateDocumentLoader(stem + ".pdf") == Success(PdfDocumentLoader(stem + ".pdf"))
  {
    PdfSuffixKeepsScheme(stem, ".pdf");
    assert (stem + ".pdf")[|stem + ".pdf"| - 4..] == ".pdf";
  }

  /** The extension check is case-sensitive: `.PDF` is refused when the source
      is not a URL. */
  lemma UpperCasePdfSuffixRejected(stem: string)
    requires !IsUrl(stem)
    ensures CreateDocumentLoader(stem + ".PDF") == Failure(UnsupportedMessage(stem + ".PDF"))
  {
    PdfSuffixKeepsScheme(stem, ".PDF");
    var s := stem + ".PDF";
    assert s[|s| - 1] == 'F';
  }

  /** The scheme check is case-sensitive too: `HTTP://` is not a URL scheme,
      so such a source never gets a web loader. It is refused, or, when it
      ends in `.pdf`, treated as a local PDF path. */
  lemma UpperCaseSchemeNotUrl(rest: string)
    ensures CreateDocumentLoader("HTTP://" + rest).Failure? || CreateDocumentLoader("HTTP://" + rest).value.PdfDocumentLoader?
    ensures CreateDocumentLoader("HTTP://" + rest + ".pdf") == Success(PdfDocumentLoader("HTTP://" + rest + ".pdf"))
    ensures !IsPdfPath("HTTP://" + rest) ==> CreateDocumentLoader("HTTP://" + rest) == Failure(UnsupportedMessage("HTTP://" + rest))
  {
    assert ("HTTP://" + rest)[0] == 'H';
    assert !IsUrl("HTTP://" + rest);
    PdfSuffixGivesPdfLoader("HTTP://" + rest);
  }
}
