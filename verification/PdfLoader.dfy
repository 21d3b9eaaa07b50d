/** The metadata loop of `PDFDocumentLoader.load`. `load_and_split` is
    PyPDFLoader's work and enters as its outcome: a list of documents that
    the code calls `pages`, though the default text splitter may cut a page
    into several. The model covers what the loader does to each element it
    gets back; "page" below means such an element. */
module PdfLoader {
  import opened Wrappers
  import opened Documents
  import Dedup

  /** The keys the loader writes into every page's metadata. */
  const StampKeys: set<string> := {"source_type", "source_path", "processed_at"}

  /** `page.metadata.update({...})` for one page: the three stamp keys are
      set, overriding earlier values, and every other key is left alone. */
  function Stamp(page: Document, pdfPath: string, now: string): (r: Document)
    ensures r.content == page.content
    ensures r.metadata.Keys == page.metadata.Keys + StampKeys
    ensures r.metadata["source_type"] == Str("pdf")
    ensures r.metadata["source_path"] == Str(pdfPath)
    ensures r.metadata["processed_at"] == Str(now)
    ensures forall k :: k in page.metadata && k !in StampKeys ==> r.metadata[k] == page.metadata[k]
  {
    page.(metadata := page.metadata + map[
      "source_type" := Str("pdf"),
      "source_path" := Str(pdfPath),
      "processed_at" := Str(now)
    ])
  }

  /** The loop over the split pages. `clock(i)` is the reading of
      `datetime.now()` taken while stamping page `i`. Page count, order and
      text are kept, and so is each page's deduplication key, since
      `content_hash` is not among the stamped keys. */
  function StampPages(pages: seq<Document>, pdfPath: string, clock: nat -> string): (stamped: seq<Document>)
    ensures |stamped| == |pages|
    ensures forall i :: 0 <= i < |pages| ==> stamped[i] == Stamp(pages[i], pdfPath, clock(i))
    ensures forall i :: 0 <= i < |pages| ==> stamped[i].content == pages[i].content && HashKey(stamped[i]) == HashKey(pages[i])
  {
    seq(|pages|, i requires 0 <= i < |pages| => Stamp(pages[i], pdfPath, clock(i)))
  }

  /** `PDFDocumentLoader.load`: a raise from the splitter propagates out of
      the loader; otherwise every element the splitter returned comes back
      stamped with the `i`-th clock reading, its other metadata values kept. */
  function Load(pdfPath: string, split: Result<seq<Document>, string>, clock: nat -> string): (r: Result<seq<Document>, string>)
    ensures split.Failure? ==> r == Failure(split.error)
    ensures split.Success? ==> r.Success? && |r.value| == |split.value|
    ensures split.Success? ==> forall i :: 0 <= i < |split.value| ==>
              r.value[i].content == split.value[i].content
              && r.value[i].metadata.Keys == split.value[i].metadata.Keys + StampKeys
              && r.value[i].metadata["source_type"] == Str("pdf")
              && r.value[i].metadata["source_path"] == Str(pdfPath)
    ensures split.Success? ==> forall i :: 0 <= i < |split.value| ==>
              && r.value[i].metadata["processed_at"] == Str(clock(i))
              && forall k :: k in split.value[i].metadata && k !in StampKeys ==>
                   r.value[i].metadata[k] == split.value[i].metadata[k]
    ensures split.Success? ==> r.value == StampPages(split.value, pdfPath, clock)
  {
    match split
    case Failure(e) => Failure(e)
    case Success(pages) => Success(StampPages(pages, pdfPath, clock))
  }

  /** Stamping never touches `content_hash`: pages that arrive without a
      usable hash (PyPDFLoader sets none) all survive deduplication. */
  lemma UnhashedPagesSurviveDedup(pages: seq<Document>, pdfPath: string, clock: nat -> string)
    requires forall i :: 0 <= i < |pages| ==> HashKey(pages[i]).None?
    ensures Dedup.KeepFirsts(StampPages(pages, pdfPath, clock)) == StampPages(pages, pdfPath, clock)
  {
    var s := StampPages(pages, pdfPath, clock);
    Dedup.DistinctKeepsAll(s, |s|);
    assert s[..|s|] == s;
  }
}
