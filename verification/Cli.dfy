/** The command-line surface: the option defaults `create_parser` declares and
    the cross-argument check `validate_args` performs after parsing. */
module Cli {
  import opened Wrappers

  const DefaultMaxConcurrent: int := 5
  const DefaultChunkSize: int := 4000
  const DefaultChunkOverlap: int := 20
  const DefaultTopK: int := 3

  /** The parsed namespace. An attribute the chosen sub-command does not
      define reads as `None` through `getattr(args, name, None)`, exactly like
      one left at its `None` default, so both are `None` here. */
  datatype Args = Args(
    action: Option<string>,
    pdfPath: Option<string>,
    urls: Option<seq<string>>,
    sourcesFile: Option<string>,
    sources: Option<seq<string>>,
    question: Option<string>,
    topK: Option<int>,
    model: Option<string>,
    maxConcurrent: int,
    chunkSize: int,
    chunkOverlap: int,
    verbose: bool,
    config: Option<string>,
    dryRun: bool)

  /** Python truthiness of an optional string and of an optional list. */
  predicate GivenText(o: Option<string>) {
    o.Some? && o.value != ""
  }

  predicate GivenList(o: Option<seq<string>>) {
    o.Some? && |o.value| > 0
  }

  /** How a failed validation surfaces: `parser.error` (which exits) when a
      parser was passed, `ValueError` otherwise. */
  datatype CliError = ParserExit(message: string) | ValueError(message: string)

  const NoActionMessage: string := "No action specified. Choose one of: process, process-urls, process-batch, query"
  const PdfPathMessage: string := "--pdf_path required for 'process' action."
  const UrlsMessage: string := "--urls required for 'process-urls' action."
  const SourcesMessage: string := "Either --sources_file or --sources required for 'process-batch' action."
  const QuestionMessage: string := "--question required for 'query' action."

  /** The `_error` helper. */
  function Error(message: string, hasParser: bool): (e: CliError)
    ensures e.message == message
    ensures e.ParserExit? <==> hasParser
  {
    if hasParser then ParserExit(message) else ValueError(message)
  }

  /** `validate_args(args, parser)`; `hasParser` says whether a parser was given. */
  function ValidateArgs(args: Args, hasParser: bool): (r: Outcome<CliError>)
    ensures !GivenText(args.action) ==> r == Fail(Error(NoActionMessage, hasParser))
    ensures args.action == Some("process") ==> (r.Pass? <==> GivenText(args.pdfPath))
    ensures args.action == Some("process-urls") ==> (r.Pass? <==> GivenList(args.urls))
    ensures args.action == Some("process-batch") ==> (r.Pass? <==> GivenText(args.sourcesFile) || GivenList(args.sources))
    ensures args.action == Some("query") ==> (r.Pass? <==> GivenText(args.question))
    ensures GivenText(args.action) && args.action.value !in KnownActions ==> r.Pass?
    ensures r.Fail? ==> r.error.ParserExit? == hasParser
  {
    var action := args.action;
    if !GivenText(action) then Fail(Error(NoActionMessage, hasParser))
    else if action.value == "process" then
      if !GivenText(args.pdfPath) then Fail(Error(PdfPathMessage, hasParser)) else Pass
    else if action.value == "process-urls" then
      if !GivenList(args.urls) then Fail(Error(UrlsMessage, hasParser)) else Pass
    else if action.value == "process-batch" then
      if !GivenText(args.sourcesFile) && !GivenList(args.sources) then Fail(Error(SourcesMessage, hasParser)) else Pass
    else if action.value == "query" then
      if !GivenText(args.question) then Fail(Error(QuestionMessage, hasParser)) else Pass
    else
      Pass
  }

  /** The sub-commands the parser defines. */
  const KnownActions: set<string> := {"process", "process-urls", "process-batch", "query"}

  /** What each action demands, as a table independent of the if-chain in `ValidateArgs`. */
  datatype Requirement = NeedsPdfPath | NeedsUrls | NeedsSourcesFileOrSources | NeedsQuestion | NoRequirement

  function RequirementOf(action: string): Requirement {
    match action
    case "process" => NeedsPdfPath
    case "process-urls" => NeedsUrls
    case "process-batch" => NeedsSourcesFileOrSources
    case "query" => NeedsQuestion
    case _ => NoRequirement
  }

  predicate Meets(args: Args, req: Requirement) {
    match req
    case NeedsPdfPath => GivenText(args.pdfPath)
    case NeedsUrls => GivenList(args.urls)
    case NeedsSourcesFileOrSources => GivenText(args.sourcesFile) || GivenList(args.sources)
    case NeedsQuestion => GivenText(args.question)
    case NoRequirement => true
  }

  function MissingMessage(req: Requirement): string {
    match req
    case NeedsPdfPath => PdfPathMessage
    case NeedsUrls => UrlsMessage
    case NeedsSourcesFileOrSources => SourcesMessage
    case NeedsQuestion => QuestionMessage
    case NoRequirement => ""
  }

  /** Validation agrees with the requirement table: no action is an error,
      otherwise the action's one requirement decides, with its own message. */
  lemma ValidateMatchesRequirements(args: Args, hasParser: bool)
    ensures ValidateArgs(args, hasParser) ==
      if !GivenText(args.action) then Fail(Error(NoActionMessage, hasParser))
      else if Meets(args, RequirementOf(args.action.value)) then Pass
      else Fail(Error(MissingMessage(RequirementOf(args.action.value)), hasParser))
  {
  }

  /** The outcome depends only on the action and whether its one required
      field is given; the numeric options, the flags and every other field
      are never looked at. */
  lemma OnlyRequiredFieldMatters(a: Args, b: Args, hasParser: bool)
    requires a.action == b.action
    requires GivenText(a.action) ==> (Meets(a, RequirementOf(a.action.value)) <==> Meets(b, RequirementOf(b.action.value)))
    ensures ValidateArgs(a, hasParser) == ValidateArgs(b, hasParser)
  {
    ValidateMatchesRequirements(a, hasParser);
    ValidateMatchesRequirements(b, hasParser);
  }

  /** Changing the numeric options never changes the verdict. */
  lemma NumericOptionsNeverChecked(args: Args, hasParser: bool, maxConcurrent: int, chunkSize: int, chunkOverlap: int, topK: Option<int>)
    ensures ValidateArgs(args.(maxConcurrent := maxConcurrent, chunkSize := chunkSize, chunkOverlap := chunkOverlap, topK := topK), hasParser)
         == ValidateArgs(args, hasParser)
  {
    OnlyRequiredFieldMatters(args, args.(maxConcurrent := maxConcurrent, chunkSize := chunkSize, chunkOverlap := chunkOverlap, topK := topK), hasParser);
  }

  /** The namespace `parse_args([action])` builds when no option is given:
      the global defaults, `None` for every sub-command option, and the
      `top_k` default under `query`. */
  function ParsedNamespace(action: Option<string>): (args: Args)
    ensures args.action == action
    ensures args.maxConcurrent == DefaultMaxConcurrent && args.chunkSize == DefaultChunkSize
    ensures args.chunkOverlap == DefaultChunkOverlap
    ensures args.topK == (if action == Some("query") then Some(DefaultTopK) else None)
    ensures !GivenText(args.pdfPath) && !GivenList(args.urls) && !GivenText(args.sourcesFile)
    ensures !GivenList(args.sources) && !GivenText(args.question)
  {
    Args(action, None, None, None, None, None,
         if action == Some("query") then Some(DefaultTopK) else None,
         None, DefaultMaxConcurrent, DefaultChunkSize, DefaultChunkOverlap, false, None, false)
  }

  /** Naming one of the four sub-commands and nothing else never validates:
      each of them has a requirement the defaults leave unmet. */
  lemma DefaultsAloneFail(action: string, hasParser: bool)
    requires action in KnownActions
    ensures ValidateArgs(ParsedNamespace(Some(action)), hasParser).Fail?
  {
  }

  /** The command-line test cases: `query`, `process-urls` and
      `process-batch` alone exit through the parser; a query with a question
      and `--top_k 2` passes and keeps both values. */
  lemma CommandLineCases()
    ensures ValidateArgs(ParsedNamespace(Some("query")), true) == Fail(ParserExit(QuestionMessage))
    ensures ValidateArgs(ParsedNamespace(Some("process-urls")), true) == Fail(ParserExit(UrlsMessage))
    ensures ValidateArgs(ParsedNamespace(Some("process-batch")), true) == Fail(ParserExit(SourcesMessage))
    ensures var args := ParsedNamespace(Some("query")).(question := Some("What is RAG?"), topK := Some(2));
            ValidateArgs(args, true) == Pass && args.question == Some("What is RAG?") && args.topK == Some(2)
  {
  }
}
