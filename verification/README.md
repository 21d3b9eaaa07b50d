# Ingestion pipeline of the QA/RAG system, modelled in Dafny

This project models the pure decision logic of the document-ingestion
pipeline of a retrieval-augmented question-answering system, together with
its command-line cross-argument check:

- **Loader factory** (`create_document_loader`): a source string becomes a web
  loader (`http://` / `https://` prefix, checked first), a PDF loader (`.pdf`
  suffix) or a `ValueError`.
- **Web loader** (`WebDocumentLoader.load`, `_extract_title`): a non-200
  status or any exception yields `[]`; trafilatura runs first and the
  structural BeautifulSoup pass replaces its output when that output is
  missing or strips to fewer than 100 characters; the final text must pass
  the same threshold; a success yields one document with fixed metadata.
- **PDF loader** (`PDFDocumentLoader.load`): every document the splitter
  returns (a page or a piece of one) gets
  `source_type`, `source_path` and `processed_at` merged into its metadata.
- **Batch loader** (`BatchDocumentLoader.load_documents`,
  `_deduplicate_documents`): the per-loader outcomes, in loader order, are
  flattened (exceptions and non-lists skipped) and deduplicated by
  `content_hash`, keeping the first document per hash and every document
  without one.
- **CLI** (`validate_args`, `create_parser` defaults): each sub-command needs
  one field to be truthy; no action is an error; unknown actions pass.

Foreign code is a parameter. `Extractors` carries trafilatura, the
BeautifulSoup text pass, the title lookup and MD5 as uninterpreted
functions. A call that may raise returns `Result`, whose `Failure` is the
exception. The HTTP exchange is a `Result<Response, string>`. PyPDFLoader's
split is a `Result<seq<Document>, string>`, and `datetime.now()` is a clock
parameter.

Modules: `Wrappers` (Option/Result/Outcome), `PyText` (Python `isspace`,
`strip`, `startswith`, `endswith`), `Documents` (document, metadata values,
truthiness, hash key), `Dedup`, `Batch`, `Factory`, `WebLoader`,
`PdfLoader`, `Throttle` (the semaphore), `Cli`, and `Seqs` (generic slice
and concatenation facts).

The code's behaviour, which the model follows:
- The factory is case-sensitive and never looks at the filesystem. So
  `report.PDF` and `HTTP://host` are refused, and `HTTPS://host/a.pdf` gets a
  PDF loader.
- `gather` keeps loader order, so the flattened list is in loader order
  rather than in completion order.
- A PDF splitter failure is an exception that escapes `load` and is then
  absorbed by the batch. It is not caught inside the loader.
- There is no "no valid loader at all" batch error.

## Model

| member | source | states |
|---|---|---|
| Dedup.Deduplicate | src/utils/document_loader.py:219-235 | the single pass with a seen-hash set returns exactly the first-occurrence filter: a document is kept iff it has no usable hash or no earlier document has its hash |
| Dedup.FirstIffUnseen | src/utils/document_loader.py:225-232 | a document is skipped iff its hash is truthy and already in the set of hashes met before it |
| Dedup.HashesOfMembership | src/utils/document_loader.py:221-231 | a hash is in the seen set after a prefix iff some document of that prefix carries it |
| Dedup.DedupSelectsFirstOccurrences | src/utils/document_loader.py:219-235 | the output is the input restricted to a strictly increasing list of indices, so it is a subsequence in original order, and those indices are exactly the hash-less documents and the first carrier of each hash |
| Dedup.DedupKeepsUnhashed | src/utils/document_loader.py:225-232 | a document whose `content_hash` is missing or falsy is never dropped: every copy of it survives |
| Dedup.DedupHashes | src/utils/document_loader.py:225-235 | no two survivors share a usable hash, the set of usable hashes is unchanged, and the output length is the number of hash-less documents plus the number of distinct hashes |
| Dedup.DedupIdempotent | src/utils/document_loader.py:219-235 | deduplicating twice equals deduplicating once |
| Documents.HashKey | src/utils/document_loader.py:225-226 | the dedup key is present iff `content_hash` is in the metadata and truthy |
| Batch.Flatten | src/utils/document_loader.py:204-210 | the flattened list holds as many documents as the returned lists together |
| Batch.FlattenMembership | src/utils/document_loader.py:204-210 | a document is in the flattened list iff some loader returned it in a list |
| Batch.LoadDocuments | src/utils/document_loader.py:198-212 | the loop skips exceptions and non-lists, extends with lists in result order, then deduplicates |
| Batch.FlattenAppend | src/utils/document_loader.py:204-210 | flattening distributes over concatenation of the outcome list |
| Batch.FlattenLayout | src/utils/document_loader.py:204-210 | each loader's documents form one contiguous block, in their own order, between the blocks of the loaders before and after it |
| Batch.FailureIsolation | src/utils/document_loader.py:204-212 | an entry that raised, is not a list or is empty leaves the flattened list and the batch result exactly as if that loader were absent |
| Batch.RunLoader | src/utils/document_loader.py:214-217 | the outcome is exactly what the loader's `load()` gives: a web loader's outcome is the list `WebLoader.Load` returns for its URL, always at most one document and empty when the GET fails or is not answered with 200; a PDF loader yields an exception iff its splitter raised, carrying the splitter's error, and otherwise the splitter's elements stamped as `PdfLoader.StampPages` states, one per element with that element's text, `source_type` "pdf" and its path; no loader yields a non-list |
| Batch.RunAll | src/utils/document_loader.py:200-201 | gather yields one outcome per loader, in loader order |
| Batch.RejectedUrlContributesNothing | src/utils/document_loader.py:96-97 | a web loader whose GET fails or answers with a non-200 status (404, say) contributes nothing: the batch equals the batch of the other loaders |
| Factory.CreateDocumentLoader | src/utils/document_loader.py:238-245 | succeeds iff the source has a URL scheme or a `.pdf` suffix; the loader keeps the source unchanged; it is a web loader with the default method iff the scheme matched; otherwise the error carries the unsupported-source message |
| Factory.UrlWinsOverPdfSuffix | src/utils/document_loader.py:240-243 | a URL ending in `.pdf` still gets a web loader |
| Factory.PdfSuffixKeepsScheme | src/utils/document_loader.py:240 | appending `.pdf` or `.PDF` to a non-URL never produces a string the scheme check accepts |
| Factory.PdfSuffixGivesPdfLoader | src/utils/document_loader.py:242-243 | for every non-URL stem, `stem + ".pdf"` gets a PDF loader for that exact path |
| Factory.UpperCasePdfSuffixRejected | src/utils/document_loader.py:242-245 | for every non-URL stem, `stem + ".PDF"` is refused |
| Factory.UpperCaseSchemeNotUrl | src/utils/document_loader.py:240-245 | for every tail `rest`, `HTTP://` + `rest` never gets a web loader: it is refused with the unsupported-source message unless it ends in `.pdf`, and `HTTP://` + `rest` + `.pdf` gets a PDF loader for that exact path |
| PyText.StripLeft | src/utils/document_loader.py:110 | the result is the suffix left after removing leading Python whitespace, and it does not start with whitespace |
| PyText.StripRight | src/utils/document_loader.py:110 | the result is the prefix left after removing trailing Python whitespace, and it does not end with whitespace |
| PyText.Strip | src/utils/document_loader.py:110 | the stripped text is the slice of the input that starts right after the leading whitespace, everything before and after that slice is whitespace, the slice has no whitespace at either end, and it is empty iff the input is all whitespace |
| WebLoader.Extract | src/utils/document_loader.py:105-126 | with the default method the extraction succeeds iff trafilatura does not raise and, when its output is absent or strips to fewer than 100 characters, the BeautifulSoup pass does not raise either; the fallback is used iff that output is too sparse, and otherwise the trafilatura text is kept; any other method uses BeautifulSoup alone and succeeds iff it does not raise |
| WebLoader.ExtractTitle | src/utils/document_loader.py:173-180 | the title is the `<title>` text, or "Untitled" when the tag is missing or the lookup raises |
| WebLoader.WebMetadata | src/utils/document_loader.py:141-151 | the metadata has exactly the six keys: `source_type` "web", the URL, the hash (truthy), the timestamp, the title and the untrimmed length |
| WebLoader.Load | src/utils/document_loader.py:71-171 | at most one document; `[]` on fetch failure or non-200; one document iff the status is 200, extraction does not raise and the final text strips to at least 100 characters; that document holds the text, the fixed metadata and a usable hash of the text |
| WebLoader.NonDefaultMethodIgnoresTrafilatura | src/utils/document_loader.py:120-126 | with a non-default method the result does not depend on trafilatura at all |
| WebLoader.UsablePrimaryIgnoresFallback | src/utils/document_loader.py:105-110 | when trafilatura's text is long enough, the result does not depend on the BeautifulSoup pass |
| WebLoader.FallbackProducesDocument | src/utils/document_loader.py:109-119 | sparse trafilatura output plus long enough visible text gives one document with the visible text and the page title |
| WebLoader.SuccessfulPageScenario | tests/test_web_processing.py:44-55 | a 200 page with enough extracted text gives one document with non-empty content, the loader's URL, the page title and a `content_hash` |
| PdfLoader.Stamp | src/utils/document_loader.py:46-51 | a page keeps its text and every other metadata key; the three stamp keys are added or overridden with "pdf", the path and the clock reading |
| PdfLoader.StampPages | src/utils/document_loader.py:46-53 | the number and order of the split elements are kept; each is stamped with its own clock reading; text and dedup key are unchanged |
| PdfLoader.Load | src/utils/document_loader.py:40-53 | a splitter failure propagates; otherwise every element the splitter returned comes back, in order, with its text, its keys plus the three stamp keys, "pdf", the path and the `i`-th clock reading, and every other metadata value it already had kept |
| PdfLoader.UnhashedPagesSurviveDedup | src/utils/document_loader.py:46-53 | pages that arrive without a usable hash all survive deduplication after stamping |
| Throttle.NewSemaphore | src/utils/document_loader.py:194-196 | the unchecked constructor: a negative `max_concurrent` raises `ValueError` with the semaphore's message, and every other value, 0 included, becomes the permit count |
| Throttle.StuckIff | src/utils/document_loader.py:214-217 | the tasks cannot move exactly when no load is running and either no permit is free or no task is waiting |
| Throttle.RunKeepsTotals | src/utils/document_loader.py:214-217 | along every schedule, free plus held permits stay equal to the initial permits, and waiting plus running plus finished tasks stay equal to the number of loaders |
| Throttle.RunBoundsConcurrency | src/utils/document_loader.py:194-196 | no schedule ever runs more loads at once than the semaphore's initial permits |
| Throttle.ZeroPermitsStall | src/utils/document_loader.py:194-201 | with `max_concurrent` 0 and at least one loader, the semaphore is built, no task can ever take a step, and none has finished, so `gather` never returns |
| Throttle.StuckMeansFinished | src/utils/document_loader.py:214-217 | with at least one permit, every schedule that cannot go on has finished all loaders |
| Throttle.Drain | src/utils/document_loader.py:214-217 | with at least one permit held or free, a concrete schedule exists that ends with nothing waiting or running and every task finished |
| Throttle.CheckedSemaphore | src/utils/document_loader.py:194-196 | the corrected constructor succeeds iff `max_concurrent` is at least 1, and then builds the same semaphore as the unchecked one |
| Throttle.CheckedPoolCompletes | src/utils/document_loader.py:194-217 | after the corrected check, some schedule finishes every loader while never running more than `max_concurrent` at once, and every schedule that stops has finished every loader |
| Cli.Error | src/utils/cli.py:98-101 | the error carries the message and exits through the parser iff a parser was given, else is a `ValueError` |
| Cli.ValidateArgs | src/utils/cli.py:92-125 | a missing or empty action fails; `process`, `process-urls`, `process-batch` and `query` pass iff `pdf_path`, a non-empty `urls`, `sources_file` or `sources`, and `question` are given, respectively; any other action passes |
| Cli.ValidateMatchesRequirements | src/utils/cli.py:103-123 | validation equals a per-action requirement table with one message per requirement |
| Cli.OnlyRequiredFieldMatters | src/utils/cli.py:103-125 | two namespaces with the same action whose required field is equally given get the same verdict |
| Cli.NumericOptionsNeverChecked | src/utils/cli.py:103-125 | changing `max_concurrent`, `chunk_size`, `chunk_overlap` or `top_k` never changes the verdict |
| Cli.ParsedNamespace | src/utils/cli.py:17-71 | parsing a bare sub-command gives defaults 5, 4000 and 20, `top_k` 3 under `query`, and no sub-command option given |
| Cli.DefaultsAloneFail | src/utils/cli.py:103-123 | any of the four sub-commands with nothing else fails validation |
| Cli.CommandLineCases | tests/test_cli.py:12-37 | bare `query`, `process-urls` and `process-batch` exit through the parser with their messages; a query with a question and `--top_k 2` passes |

## Left out

- Network I/O: the aiohttp session, headers, 60-second timeout and TLS context (src/utils/document_loader.py:74-99) are outside the model. The outcome of the GET is a parameter. TLS verification is switched off unconditionally in the code; the model cannot express this.
- Concurrency: `asyncio.gather`'s scheduling is modelled only as counts of waiting, running and finished tasks (`Throttle`), and not as an interleaving of the loaders' own awaits. The batch outcomes (`Batch`) are the per-loader outcomes in loader order. They are what `gather` returns once every task has finished, which happens for `max_concurrent >= 1` (`Throttle.CheckedPoolCompletes`).
- `max_concurrent` below 1 is not checked anywhere: `BatchDocumentLoader.__init__` builds the semaphore from it as given, and `validate_args` never checks the CLI option of that name (`Cli.NumericOptionsNeverChecked`); no caller in the source forwards that option to the batch loader. With 0, `load_documents` waits forever once there is a loader (`Throttle.ZeroPermitsStall`). A negative value raises `ValueError` in the constructor (`Throttle.NewSemaphore`). The batch outcomes assume at least 1; see "## Findings".
- Foreign code: trafilatura, BeautifulSoup, PyPDFLoader and MD5 are uninterpreted functions. The clock is a parameter.
- Logging is not modelled. This includes the error-type classification at src/utils/document_loader.py:156-169, which only picks a log message; the result is `[]` either way.
- `get_metadata` of both loaders is not modelled. The PDF variant queries the filesystem, and the web variant reports the `_content_hash` field left over from the last load.
- Exceptions outside `Exception` are not modelled. For example, a cancellation would escape the web loader's `except Exception`.
- The chunker (src/utils/text_processer.py) is not modelled. It wraps LangChain's splitter, whose algorithm is not part of this model.
- The loader environment is keyed by source: the GET outcome and the clock readings are functions of the URL or the PDF path, not of the loader's position. So two loaders for the same URL in one batch see the same response and the same `processed_at` value, whereas the running code could see two different responses and timestamps.
- Metadata dictionaries are maps, so key order is not modelled.
- argparse itself is not modelled: parsing, sub-command dispatch, `parse_args` and the `--verbose` log level. Only the namespace parsing produces is modelled (`Cli.ParsedNamespace`).
- The vector store, the LLM chain, environment keys and the scripts are outside the ingestion core and are not modelled.

## Findings

| source | as written | input that shows it | evidently intended | confidence | as-written member | corrected member |
|---|---|---|---|---|---|---|
| src/utils/document_loader.py:194-196 | `asyncio.Semaphore(max_concurrent)` is built without a check on `max_concurrent` | `BatchDocumentLoader(max_concurrent=0).load_documents([loader])` with one loader: no task ever acquires the semaphore and `load_documents` never returns; `BatchDocumentLoader(max_concurrent=-1)` raises `ValueError` in the constructor | refuse a `max_concurrent` below 1 before the semaphore is built | not executed; high for the stall, since the semaphore starts with no permits and nothing ever releases one | Throttle.ZeroPermitsStall | Throttle.CheckedPoolCompletes |
