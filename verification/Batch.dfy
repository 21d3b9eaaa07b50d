/** `BatchDocumentLoader.load_documents`: the outcomes of all loaders, in
    loader order as `asyncio.gather` returns them, are flattened with failing
    entries skipped, then deduplicated. For `max_concurrent >= 1` the
    semaphore only bounds how many loaders run at once and does not change
    the outcomes, so it is not part of this module; `Throttle` models it,
    including the values below 1 that stall or raise. */
module Batch {
  import opened Wrappers
  import opened Documents
  import Seqs
  import Dedup
  import Factory
  import WebLoader
  import PdfLoader

  /** One entry of `gather(..., return_exceptions=True)`: the loader raised,
      returned a list, or returned something that is not a list. */
  datatype LoadResult = Raised(message: string) | Returned(docs: seq<Document>) | NonList

  /** What one entry adds to the flattened list: a returned list, or nothing. */
  function Contribution(r: LoadResult): seq<Document> {
    if r.Returned? then r.docs else []
  }

  /** How many documents the returned lists hold together. */
  function ReturnedCount(results: seq<LoadResult>): nat
    decreases |results|
  {
    if |results| == 0 then 0
    else ReturnedCount(results[..|results| - 1]) + |Contribution(results[|results| - 1])|
  }

  /** The flattening loop: returned lists concatenated in result order. */
  function Flatten(results: seq<LoadResult>): (docs: seq<Document>)
    ensures |docs| == ReturnedCount(results)
    decreases |results|
  {
    if |results| == 0 then []
    else Flatten(results[..|results| - 1]) + Contribution(results[|results| - 1])
  }

  /** A document is in the flattened list exactly when some loader returned it. */
  lemma {:induction false} FlattenMembership(results: seq<LoadResult>, d: Document)
    ensures d in Flatten(results) <==> exists i :: 0 <= i < |results| && d in Contribution(results[i])
    decreases |results|
  {
    if |results| > 0 {
      var init := results[..|results| - 1];
      FlattenMembership(init, d);
      assert forall i :: 0 <= i < |init| ==> init[i] == results[i];
    }
  }

  /** What the batch returns for the given loader outcomes. */
  function BatchResult(results: seq<LoadResult>): seq<Document> {
    Dedup.KeepFirsts(Flatten(results))
  }

  /** `load_documents` after the gather: skip exceptions and non-lists,
      extend with each list, then deduplicate. */
  method LoadDocuments(results: seq<LoadResult>) returns (unique: seq<Document>)
    ensures unique == Dedup.KeepFirsts(Flatten(results))
  {
    var documents: seq<Document> := [];
    for i := 0 to |results|
      invariant documents == Flatten(results[..i])
    {
      Seqs.PrefixStep(results, i + 1);
      match results[i]
      case Raised(_) =>
      case Returned(docs) =>
        documents := documents + docs;
      case NonList =>
    }
    Seqs.WholePrefix(results);
    unique := Dedup.Deduplicate(documents);
  }

  /** Flattening distributes over concatenation of the outcome list. */
  lemma {:induction false} FlattenAppend(a: seq<LoadResult>, b: seq<LoadResult>)
    ensures Flatten(a + b) == Flatten(a) + Flatten(b)
    decreases |b|
  {
    if |b| == 0 {
      assert a + b == a;
    } else {
      var b' := b[..|b| - 1];
      FlattenAppend(a, b');
      Seqs.DropLastOfAppend(a, b);
      Seqs.AppendAssoc(Flatten(a), Flatten(b'), Contribution(b[|b| - 1]));
    }
  }

  /** Each loader's documents appear in the flattened list as one contiguous
      block, in their own order, between those of the loaders before and
      after it. */
  lemma FlattenLayout(results: seq<LoadResult>, i: nat)
    requires i < |results|
    ensures Flatten(results) == Flatten(results[..i]) + Contribution(results[i]) + Flatten(results[i + 1..])
  {
    var pre, post := results[..i], results[i + 1..];
    Seqs.SplitAt(results, i);
    FlattenAppend(pre + [results[i]], post);
    FlattenAppend(pre, [results[i]]);
    FlattenSingleton(results[i]);
  }

  lemma FlattenSingleton(r: LoadResult)
    ensures Flatten([r]) == Contribution(r)
  {
    assert [r][..0] == [];
  }

  /** Failure isolation: an entry that raised, returned a non-list or returned
      nothing leaves the batch exactly as if that loader had not been there;
      every other loader's documents keep their content, count and order. */
  lemma FailureIsolation(results: seq<LoadResult>, i: nat)
    requires i < |results|
    requires Contribution(results[i]) == []
    ensures Flatten(results) == Flatten(results[..i] + results[i + 1..])
    ensures BatchResult(results) == BatchResult(results[..i] + results[i + 1..])
  {
    FlattenLayout(results, i);
    FlattenAppend(results[..i], results[i + 1..]);
    assert Flatten(results[..i]) + [] == Flatten(results[..i]);
  }

  /** The foreign world a batch runs in, keyed by source: the GET outcome
      for each URL, the HTML extractors, the PDF splitter outcome for each
      path, the clock reading a web loader takes for each URL, and the
      successive readings a PDF loader takes for each path. */
  datatype Environment = Environment(
    fetch: string -> Result<WebLoader.Response, string>,
    extractors: WebLoader.Extractors,
    splitPdf: string -> Result<seq<Document>, string>,
    webClock: string -> string,
    pdfClock: string -> (nat -> string))

  /** The outcome `gather` records for one loader. A web loader catches every
      exception itself, so it always records a list of at most one document,
      empty when its GET fails or is not answered with 200. A PDF loader
      records an exception exactly when its splitter raised, and otherwise
      every element the splitter returned, stamped. Neither records a non-list:
      the outcome is exactly what the loader's own `load()` returns. */
  function RunLoader(loader: Factory.Loader, env: Environment): (r: LoadResult)
    ensures !r.NonList?
    ensures loader.WebDocumentLoader? ==> r.Returned? && |r.docs| <= 1
    ensures loader.WebDocumentLoader? ==>
              (env.fetch(loader.url).Failure? || env.fetch(loader.url).value.status != 200 ==> r == Returned([]))
    ensures loader.PdfDocumentLoader? ==> (r.Raised? <==> env.splitPdf(loader.pdfPath).Failure?)
    ensures loader.PdfDocumentLoader? && r.Raised? ==> r.message == env.splitPdf(loader.pdfPath).error
    ensures loader.PdfDocumentLoader? && r.Returned? ==>
              var pages := env.splitPdf(loader.pdfPath).value;
              && |r.docs| == |pages|
              && forall i :: 0 <= i < |pages| ==>
                   && r.docs[i].content == pages[i].content
                   && "source_type" in r.docs[i].metadata && r.docs[i].metadata["source_type"] == Str("pdf")
                   && "source_path" in r.docs[i].metadata && r.docs[i].metadata["source_path"] == Str(loader.pdfPath)
    ensures loader.WebDocumentLoader? ==>
              r == Returned(WebLoader.Load(loader.url, loader.extractMethod, env.fetch(loader.url),
                                           env.extractors, env.webClock(loader.url)))
    ensures loader.PdfDocumentLoader? && r.Returned? ==>
              r.docs == PdfLoader.StampPages(env.splitPdf(loader.pdfPath).value, loader.pdfPath, env.pdfClock(loader.pdfPath))
  {
    match loader
    case WebDocumentLoader(url, extractMethod) =>
      Returned(WebLoader.Load(url, extractMethod, env.fetch(url), env.extractors, env.webClock(url)))
    case PdfDocumentLoader(path) =>
      match PdfLoader.Load(path, env.splitPdf(path), env.pdfClock(path))
      case Failure(e) => Raised(e)
      case Success(pages) => Returned(pages)
  }

  /** `gather` over the loaders: one outcome per loader, in loader order. */
  function RunAll(loaders: seq<Factory.Loader>, env: Environment): (results: seq<LoadResult>)
    ensures |results| == |loaders|
    ensures forall i :: 0 <= i < |loaders| ==> results[i] == RunLoader(loaders[i], env)
  {
    seq(|loaders|, i requires 0 <= i < |loaders| => RunLoader(loaders[i], env))
  }

  /** Running the loaders with one of them removed gives the outcome list
      with that entry removed. */
  lemma RunAllWithout(loaders: seq<Factory.Loader>, i: nat, env: Environment)
    requires i < |loaders|
    ensures RunAll(loaders[..i] + loaders[i + 1..], env) == RunAll(loaders, env)[..i] + RunAll(loaders, env)[i + 1..]
  {
    var rest := loaders[..i] + loaders[i + 1..];
    var all := RunAll(loaders, env);
    forall k | 0 <= k < |rest|
      ensures RunAll(rest, env)[k] == all[if k < i then k else k + 1]
    {
      assert rest[k] == loaders[if k < i then k else k + 1];
    }
    Seqs.RemovedAt(all, RunAll(rest, env), i);
  }

  /** A URL answered with an error status (404, say) or not reached at all
      contributes nothing: the batch equals the batch of the other loaders. */
  lemma RejectedUrlContributesNothing(loaders: seq<Factory.Loader>, i: nat, env: Environment)
    requires i < |loaders| && loaders[i].WebDocumentLoader?
    requires env.fetch(loaders[i].url).Failure? || env.fetch(loaders[i].url).value.status != 200
    ensures BatchResult(RunAll(loaders, env)) == BatchResult(RunAll(loaders[..i] + loaders[i + 1..], env))
  {
    var results := RunAll(loaders, env);
    assert results[i] == Returned([]);
    FailureIsolation(results, i);
    RunAllWithout(loaders, i, env);
  }
}
