# Scholar-AI paper assistant: a Dafny model of its decision logic

This project models the core of a retrieval-augmented assistant for academic
papers. It covers five parts:

- **Segmentation.** `PaperParser.extract_sections` cuts the extracted text of a
  PDF into a title and named sections. `clean_text` tidies text.
- **Chunk preparation.** `DocumentProcessor.process_paper_sections` and
  `_clean_content` turn the sections into documents, in a fixed order, with
  chunk metadata.
- **Question answering.** `PaperQASystem` does retrieval post-processing:
  similarity hits followed by MMR hits, deduplication, relevance filtering
  and the confidence estimate. It also builds the context and sources,
  parses keypoints, and applies the rules that skip the model call.
- **Summaries.** `PaperSummarizer` builds the overall, per-section,
  innovation, methodology and findings summaries. This includes the text
  parse of the innovation analysis.
- **Model client.** `ModelManager` keeps the profile table, maps tasks to
  profiles, runs the bounded retry loop and applies the JSON fallback chain.

The PDF library, the embedding model, the vector store, the text splitter,
`json.loads` and the Qwen model are external. They enter the model as
function-valued parameters (oracles). A model call is
`(Profile, Prompt) -> Result<string>`, where `Err` carries the text of the
exception. "The model is not called" is stated as "the result is the same
whatever the oracle answers". A Python `Dict[str, str]` is an association list
(`Dicts.Dict`) because insertion order matters: chunk preparation visits the
remaining keys in insertion order (core/embeddings.py:66).

Modules follow the source files: `PdfParser`, `Embeddings`, `QaChain`,
`Summarizer` and `LlmClient`. `Prompts` holds the prompt values and the
list-answer parser that keypoints and findings share. `Text`, `Dicts` and
`Common` model the parts of Python's `str`, `dict` and exceptions that the
code relies on.

A keyword anywhere in a line makes it a header, so the line "Z is the
result." is a `results` header and is dropped
(`PdfParser.ResultLineIsHeader`).

## Model

| member | source | states |
|---|---|---|
| `PdfParser.MatchSection` | core/pdf_parser.py:13-20 | a header line selects one of the six section names abstract … references |
| `PdfParser.MatchSectionFirst` | core/pdf_parser.py:73-78 | patterns are tried in the fixed order; the first that matches decides the section |
| `PdfParser.MatchSectionNone` | core/pdf_parser.py:73-82 | no section is matched exactly when none of the six patterns finds one of its keywords in the line |
| `PdfParser.ResultLineIsHeader` | core/pdf_parser.py:13-20 | a keyword anywhere in the line counts: "Z is the result." is a `results` header |
| `PdfParser.CursorInHeaders` | core/pdf_parser.py:60-78 | the current-section pointer always names one of the six header sections |
| `PdfParser.TitleTaken` | core/pdf_parser.py:68-70 | the title is set iff some stripped line has length strictly between 10 and 200; it is one of the lines, else "" |
| `PdfParser.TitleIsFirstCandidate` | core/pdf_parser.py:68-70 | the title is the first such line, and that line is taken as title rather than tested against the patterns |
| `PdfParser.NoTitle` | core/pdf_parser.py:68-70 | with no line of a suitable length the title stays empty |
| `PdfParser.NoHeadersAllIntroduction` | core/pdf_parser.py:60-82 | with no header line, every non-empty non-title line goes to `introduction` in order, and the other sections stay empty |
| `PdfParser.SegmentStripped` | core/pdf_parser.py:85-86 | every value of the result has no whitespace at either end |
| `PdfParser.SegmentShape` | core/pdf_parser.py:47-56 | the result has exactly the eight keys, once each, in order, with stripped values |
| `PdfParser.StripRaw` | core/pdf_parser.py:81-86 | stripping the accumulated `line + '\n'` values gives each section's lines joined by '\n' |
| `PdfParser.ScanLine` | core/pdf_parser.py:62-82 | one loop pass: blank lines skipped, title taken once, a header moves the pointer and is dropped, other lines appended to the current section |
| `PdfParser.ScanLines` | core/pdf_parser.py:47-82 | the line loop leaves the dict that the line-by-line specification describes |
| `Dicts.MapEach` | core/pdf_parser.py:85-86 | the final loop replaces every value by its image (here its stripped form) in place and keeps the keys |
| `PdfParser.ExtractSections` | core/pdf_parser.py:43-89 | the result is the segmentation: eight keys, and `full_text` is the input only stripped |
| `PdfParser.MarkerAt` | core/pdf_parser.py:117 | a `--- Page N ---` marker (at least one digit) is at least 14 characters long |
| `PdfParser.RemovePageMarkers` | core/pdf_parser.py:117 | marker deletion never lengthens the text and adds no character |
| `PdfParser.CleanText` | core/pdf_parser.py:110-119 | collapse newline runs, then space runs, then delete markers, then strip; the result is stripped |
| `PdfParser.NoMarkerUnchanged` | core/pdf_parser.py:117 | text with no marker passes the marker step unchanged |
| `PdfParser.CleanTextNoRuns` | core/pdf_parser.py:113-119 | without markers, the cleaned text has no "\n\n" and no two spaces in a row |
| `PdfParser.MarkerLeavesRun` | core/pdf_parser.py:113-119 | because markers are deleted last, the text with its marker cut out is what remains: "a\n--- Page 1 ---\nb" cleans to "a\n\nb" and "a --- Page 1 --- b" to "a  b" |
| `PdfParser.MarkerBreaksNoRun` | core/pdf_parser.py:113-119 | each sample has no doubled separator (newline, or space) before cleaning and has one after |
| `Embeddings.OtherSections` | core/embeddings.py:66 | the other sections are exactly the keys that are neither priority sections nor `full_text` |
| `Embeddings.SectionOrder` | core/embeddings.py:65-68 | the visiting order is abstract, introduction, methodology, results, conclusion, then the other keys; `full_text` never appears |
| `Embeddings.OtherSectionsOrder` | core/embeddings.py:66 | the other keys keep the dict's insertion order |
| `Embeddings.ReplaceSeparators` | core/embeddings.py:116 | no U+2028 or U+2029 is left, and no character other than '\n' is introduced |
| `Embeddings.KeptLines` | core/embeddings.py:119-124 | every kept line has a stripped length above 5 and holds no bad character, and no more lines come out than went in |
| `Embeddings.KeptLinesComplete` | core/embeddings.py:119-124 | every line that passes that test is kept |
| `Embeddings.KeptLinesOrder` | core/embeddings.py:119-126 | the surviving lines keep their relative order (a subsequence of the lines) |
| `Embeddings.CleanContent` | core/embeddings.py:113-133 | the line-filtering loop and the substitutions compute the cleaned text |
| `Embeddings.CleanedShape` | core/embeddings.py:116-133 | cleaned text has no U+2028, U+2029 or U+FFFD, is stripped, and has no "\n\n" and no two spaces in a row |
| `Embeddings.ShortLinesVanish` | core/embeddings.py:119-126 | if no line is longer than 5 characters once stripped, cleaning leaves "" (the 50-character test runs before cleaning) |
| `Embeddings.MakeDoc` | core/embeddings.py:79-90 | a section's document holds the cleaned stripped text; its metadata is the section name, its title case and the cleaned length, with no chunk fields |
| `Embeddings.SectionDocsSpec` | core/embeddings.py:70-91 | a section yields a document iff it is present, non-empty, not `full_text` and at least 50 characters once stripped |
| `Embeddings.SectionDocsAppend` | core/embeddings.py:70-91 | documents follow the visiting order |
| `Embeddings.Stamp` | core/embeddings.py:98-105 | piece i of n keeps the text and the parent metadata, plus `chunk_id = i`, `total_chunks = n` and `original_section` |
| `Embeddings.StampChunks` | core/embeddings.py:100-105 | the `metadata.update` loop stamps every piece |
| `Embeddings.BuildSectionDocs` | core/embeddings.py:62-91 | the first loop builds the section documents in visiting order |
| `Embeddings.SplitDocuments` | core/embeddings.py:94-108 | the second loop replaces each long document by its stamped pieces |
| `Embeddings.ProcessPaperSections` | core/embeddings.py:60-111 | the result is the specification `ProcessedDocs` |
| `Embeddings.PiecesSpec` | core/embeddings.py:96-108 | a document of at most 800 characters passes alone with no chunk fields; a longer one becomes n stamped chunks |
| `Embeddings.SplitAllAppend` | core/embeddings.py:94-108 | the output is in document order, then chunk order |
| `Embeddings.ProcessedOrder` | core/embeddings.py:65-108 | the priority sections' output comes first, in priority order, before the other sections' output |
| `Embeddings.SplitAllOrigin` | core/embeddings.py:94-108 | every output document carries a parent's section, title and content length; an unstamped one is the parent itself |
| `Embeddings.ProcessedShape` | core/embeddings.py:70-108 | every output document comes from a kept section other than `full_text`; an unsplit one has its cleaned text and records its length (≤ 800) |
| `Embeddings.KeptSectionsCovered` | core/embeddings.py:70-91 | a section's document is produced iff the section is kept |
| `LlmClient.OrElse` | core/llm_client.py:22 | `a or b` on strings yields a unless a is empty; the result is "" only when both are |
| `LlmClient.NewQwenLlm` | core/llm_client.py:14-31 | construction fails with the key message iff both the given key and the configured key are empty; otherwise it stores the given key, or the configured key when the given one is empty, the given or configured model name, the temperature and the token limit |
| `LlmClient.ProfileTable` | core/llm_client.py:89-108 | the table has exactly the three profiles, each configured with the manager's key |
| `LlmClient.ProfileTableContents` | core/llm_client.py:89-108 | fast = qwen-turbo/1500, smart = qwen-plus/2000, creative = qwen-turbo/2000; only creative has the high temperature |
| `LlmClient.ProfileFor` | core/llm_client.py:116-132 | smart exactly for summary, analysis and comparison; creative exactly for review and writing; fast otherwise |
| `LlmClient.ProfileForTable` | core/llm_client.py:116-133 | each listed task maps to its profile, and any other task maps to fast |
| `LlmClient.RetryFrom` | core/llm_client.py:144-152 | the loop makes at most `max_retries` calls; with no attempts left it fails with the generic message |
| `LlmClient.RetryFromShape` | core/llm_client.py:144-150 | the result is the last call's answer, every earlier call failed, and a failure uses all attempts |
| `LlmClient.RetryContract` | core/llm_client.py:142-152 | returns the first success; if every call fails, the last failure propagates; with `max_retries <= 0` no call is made |
| `LlmClient.ModelManager.constructor` | core/llm_client.py:77-82 | a manager with a usable key holds the three-profile table |
| `LlmClient.ModelManager.Create` | core/llm_client.py:77-84 | construction fails with the key message iff no key is available; otherwise the table is built |
| `LlmClient.ModelManager.InitModels` | core/llm_client.py:86-112 | the profiles are built, or on an empty key the error is raised and `models` is unchanged |
| `LlmClient.ModelManager.GetModel` | core/llm_client.py:114-133 | returns the table entry of the task's profile, and the fast entry for unknown tasks |
| `LlmClient.ModelManager.CallWithRetry` | core/llm_client.py:135-152 | the loop's result and call count are those of the retry specification |
| `LlmClient.BraceSpan` | core/llm_client.py:162 | the span starts with '{' and ends with '}' |
| `LlmClient.BraceSpanSpec` | core/llm_client.py:161-163 | a span exists iff some '{' precedes some '}'; it runs from the first '{' to the last '}' (the greedy DOTALL match) |
| `LlmClient.ParseJsonResponse` | core/llm_client.py:154-171 | a direct parse that succeeds is the result |
| `LlmClient.ParseJsonFallbacks` | core/llm_client.py:156-171 | after the direct parse, the brace span is tried; otherwise the result is the error record whose `raw_response` is the input |
| `Prompts.ListItem` | core/qa_chain.py:241-246 | a bullet line yields its text after the bullet, stripped; any other non-empty line yields itself unless it starts with a skipped prefix; an empty line yields nothing |
| `Prompts.ItemsFromSpec` | core/qa_chain.py:240-246 | every item comes from one line of the answer, and every line that yields an item is represented |
| `Prompts.ListItemsSpec` | core/qa_chain.py:240-248 | a list answer gives at most `cap` items, each from one of its lines |
| `Prompts.ParseLines` | core/qa_chain.py:240-246 | the parse loop collects each line's item in order |
| `Prompts.ParseList` | core/summarizer.py:284-293 | the parse loop followed by the cap, shared with the findings parser |
| `QaChain.DedupLoop` | core/qa_chain.py:148-154 | the `seen_content` loop computes the first-occurrence dedup |
| `QaChain.SmartRetrieve` | core/qa_chain.py:122-160 | the method returns the retrieval specification `Retrieved` |
| `QaChain.DedupFromKeys` | core/qa_chain.py:148-154 | no kept result has a key seen before, and no two kept results share a 100-character prefix |
| `QaChain.DedupFromSubseq` | core/qa_chain.py:148-154 | dedup keeps an order-preserving subsequence |
| `QaChain.DedupFromFirst` | core/qa_chain.py:148-154 | each kept result is the first occurrence of its prefix |
| `QaChain.DedupFromCovers` | core/qa_chain.py:148-154 | every prefix not seen before is represented in the result |
| `QaChain.DedupCovers` | core/qa_chain.py:150-154 | before the cap, every prefix of the pool is represented |
| `QaChain.RetrievedSpec` | core/qa_chain.py:122-160 | the pool is the similarity hits (k=6), then the MMR hits (k=4, fetch_k=10); a failed MMR leaves the similarity hits; a failed search gives []; the result is a subsequence of at most 8 with distinct prefixes, first occurrences winning |
| `QaChain.FilterRelevantDocs` | core/qa_chain.py:162-189 | the filter loop returns `Filtered`, with no dependence on the question |
| `QaChain.RelevantDocsSpec` | core/qa_chain.py:171-187 | the relevant documents are exactly those of the input that pass, in input order |
| `QaChain.IsRelevant` | core/qa_chain.py:171-186 | a passage is kept iff its lower-cased text holds none of the five test phrases and its stripped text is longer than 20 characters |
| `QaChain.FilteredSpec` | core/qa_chain.py:162-189 | at most 6 items, order-preserving, each one relevant; empty input gives empty output; with at most 6 relevant passages all are kept |
| `QaChain.FilteredPassesTests` | core/qa_chain.py:173-189 | each kept passage has stripped length > 20 and no denylist phrase in its lowercased text |
| `QaChain.ContextParts` | core/qa_chain.py:288-292 | part i is document i's section tag followed by its stripped text |
| `QaChain.BuildContext` | core/qa_chain.py:286-294 | the loop's context is the parts joined by blank lines |
| `QaChain.ContextHoldsEach` | core/qa_chain.py:286-294 | every document's tagged part and stripped text appear in the context |
| `QaChain.Preview` | core/qa_chain.py:302 | text of at most 100 characters is shown whole; longer text shows its first 100 characters followed by "..." |
| `QaChain.FormatSources` | core/qa_chain.py:296-305 | one source per document, in order |
| `QaChain.Sources` | core/qa_chain.py:296-305 | the value-level source list: entry i describes document i |
| `QaChain.SourceSpec` | core/qa_chain.py:299-304 | a source names its document's section and chunk_id (default 0) and shows at most 103 characters of the document's text |
| `QaChain.EstimateConfidence` | core/qa_chain.py:307-332 | the two loops compute the confidence specification |
| `QaChain.RelevanceBounds` | core/qa_chain.py:320-326 | one document's lexical overlap lies in [0, 1] |
| `QaChain.RelevanceSumBounds` | core/qa_chain.py:321-328 | the sum of overlaps over n documents lies in [0, n] |
| `QaChain.ConfidenceSpec` | core/qa_chain.py:307-332 | 0 with no documents; each sub-score is in [0, 1]; the result is in [0, 0.95]; the count score is 1 from 4 documents on |
| `QaChain.BuildSummaryContent` | core/qa_chain.py:261-269 | the loop builds the paper-summary content |
| `QaChain.SummaryContentSpec` | core/qa_chain.py:262-269 | with none of title, abstract, introduction or conclusion present, the content is `full_text[:1500]`; otherwise each present part is in it |
| `QaChain.Respond` | core/qa_chain.py:60-112 | after retrieval: nothing retrieved gives the not-found refusal; nothing left after filtering gives the low-relevance refusal; a model failure gives the error text; otherwise the answer carries the filtered documents' sources and confidence |
| `QaChain.PaperQASystem.constructor` | core/qa_chain.py:18-21 | a new system has no store and no paper |
| `QaChain.PaperQASystem.LoadPaper` | core/qa_chain.py:23-45 | on success, stores the new index, the title (`paper_title` or the sections' title) and the document count; on a build failure returns false and changes nothing |
| `QaChain.PaperQASystem.AskQuestion` | core/qa_chain.py:47-120 | the answer is `AnswerFor` the current store |
| `QaChain.PaperQASystem.ExplainTerm` | core/qa_chain.py:191-218 | the explanation follows the no-store, search-failure, no-relevant-passage and model-failure rules |
| `QaChain.PaperQASystem.GetSectionKeypoints` | core/qa_chain.py:220-252 | the method returns `KeypointsFor`: [] for no paper, an unknown or empty section, or a model failure; otherwise the parsed list items, at most 10 |
| `QaChain.PaperQASystem.GetPaperSummary` | core/qa_chain.py:254-284 | the summary of the loaded paper, or the upload request when none is loaded |
| `QaChain.NoStoreAnswer` | core/qa_chain.py:49-54 | without a store the answer is "请先上传论文" with no sources and confidence 0 |
| `QaChain.ShortCircuitAnswer` | core/qa_chain.py:58-75 | when retrieval or filtering leaves nothing, the answer is a fixed message with no sources and confidence 0, whatever the model |
| `QaChain.AnsweredFromSpec` | core/qa_chain.py:60-112 | once passages are retrieved, an answer from the model echoes the question, has 1 to 6 sources, each from a relevant retrieved passage, and a confidence in [0, 0.95] |
| `QaChain.AnsweredSpec` | core/qa_chain.py:77-112 | an answer from the model echoes the question, has 1 to 6 sources, each from a relevant retrieved passage, and a confidence in [0, 0.95] |
| `QaChain.ShortCircuitExplanation` | core/qa_chain.py:197-204 | with no relevant passage the fixed not-found text comes back, whatever the model |
| `QaChain.KeypointsSkipped` | core/qa_chain.py:222-228 | no paper, or a missing or empty section, gives [] with no model call |
| `QaChain.KeypointsParsed` | core/qa_chain.py:230-252 | a model failure gives []; otherwise at most 10 keypoints, each from a line of the answer |
| `Summarizer.BuildOverallContent` | core/summarizer.py:60-74 | the loop builds the overall-summary content |
| `Summarizer.OverallContentSpec` | core/summarizer.py:63-74 | parts come in section order; each present section's part (uppercase name, ":\n", first 800 characters) is in the content; with none, the content is `full_text[:2000]` |
| `Summarizer.GenerateOverallSummary` | core/summarizer.py:60-82 | the model's summary, or the failure text on error |
| `Summarizer.SectionSummary` | core/summarizer.py:105-130 | content shorter than 100 characters is its own summary |
| `Summarizer.ShortSectionVerbatim` | core/summarizer.py:105-130 | a short section is summarized without the model; a model failure gives "" |
| `Summarizer.ExtractSectionSummaries` | core/summarizer.py:84-103 | the loop builds the per-section summaries |
| `Summarizer.SummariesOfSpec` | core/summarizer.py:88-101 | a key appears iff it is one of the six, its section is non-empty and its summary is non-empty; its value is that summary |
| `Summarizer.ClassifySpec` | core/summarizer.py:184-202 | blank, header, bullet and plain lines, with the header test before the bullet test |
| `Summarizer.DetectCategory` | core/summarizer.py:189-199 | the loop's header test picks the category `HeaderOf` names |
| `Summarizer.HeaderOfFirst` | core/summarizer.py:189-199 | with the five (category, Chinese marker, English marker) entries in test order, a line announces an entry's category exactly when it carries that entry's markers and none of an earlier entry's |
| `Summarizer.HeaderOfNone` | core/summarizer.py:189-199 | a line announces no category exactly when it carries none of the ten markers |
| `Summarizer.ScanInnovationLine` | core/summarizer.py:184-206 | one loop pass is one `Step` of the text parse |
| `Summarizer.ParseInnovationLines` | core/summarizer.py:183-206 | the loop over the lines computes the parse |
| `Summarizer.ParseInnovationsFromText` | core/summarizer.py:172-208 | the method returns `ParsedInnovations` of the text |
| `Summarizer.NoHeaderNoItems` | core/summarizer.py:183-206 | bullets before any category header are dropped: with no header the record is unchanged |
| `Summarizer.NoHeaderText` | core/summarizer.py:172-208 | a text with no header line parses to the empty five-key record |
| `Summarizer.PracticalKeepsLast` | core/summarizer.py:203-206 | under `practical_value` each bullet overwrites the string, leaving the last bullet's item |
| `Summarizer.StepShape` | core/summarizer.py:200-206 | a line either leaves the record alone or adds its own bullet item under the current category |
| `Summarizer.AddItemList` | core/summarizer.py:203-204 | an item extends only its own category's list |
| `Summarizer.AddItemPractical` | core/summarizer.py:203-206 | only `practical_value` is replaced by an item |
| `Summarizer.ParseFromItems` | core/summarizer.py:184-206 | each list only grows at its end, and every added item is the text of a bullet line |
| `Summarizer.ParseFromPractical` | core/summarizer.py:196-206 | `practical_value` ends as it started, or as a bullet line's text |
| `Summarizer.ParsedItemsFromBullets` | core/summarizer.py:172-208 | every item of the parsed record is the text of a bullet line of the answer |
| `Summarizer.BulletHeaderSwitches` | core/summarizer.py:190-200 | "- 新方法" is a methodological header, not an item |
| `Summarizer.BuildInnovationContent` | core/summarizer.py:134-142 | the loop builds the innovation-analysis content |
| `Summarizer.AnalyzeInnovations` | core/summarizer.py:132-170 | the method returns `AnalysisFor` |
| `Summarizer.HasErrorCases` | core/summarizer.py:157-170 | `"error" in x` raises (and the default record is returned) on null, booleans and numbers; on an object it asks for an `"error"` key, on an array for an `"error"` element, on a string for an `"error"` substring |
| `Summarizer.AnswerFallbacks` | core/summarizer.py:151-170 | for any model answer: the error record leads to the text parse, a failure to the failure record, and a JSON result never has an "error" member |
| `Summarizer.AnalysisFallbacks` | core/summarizer.py:151-170 | when the JSON parse falls back to the error record, the answer's text parse is used; a model failure gives the fixed failure record; a JSON value is returned only when it has no "error" member |
| `Summarizer.FirstMethodIndex` | core/summarizer.py:215-219 | the first section whose lowercased name contains method, approach or technique, or none |
| `Summarizer.FirstMethodAt` | core/summarizer.py:215-219 | the first matching position is what the search finds |
| `Summarizer.MethodologyContentOf` | core/summarizer.py:212-219 | the search loop picks the methodology content |
| `Summarizer.SummarizeMethodology` | core/summarizer.py:210-243 | the method returns `MethodologySummary` |
| `Summarizer.MethodologySpec` | core/summarizer.py:210-222 | methodology if non-empty, else the first method-like section; with neither, the fixed text comes back without a model call |
| `Summarizer.ExtractMainFindings` | core/summarizer.py:245-297 | the method returns `FindingsFor` |
| `Summarizer.FindingsSpec` | core/summarizer.py:247-293 | no content gives ["未找到明确的研究发现"] without a model call; otherwise at most 5 findings, each from an answer line |
| `Summarizer.GenerateComprehensiveSummary` | core/summarizer.py:20-47 | the bundle has the six entries of the comprehensive summary |
| `Summarizer.ComprehensiveSpec` | core/summarizer.py:22-47 | the title is the sections' title or "未知标题"; section-summary keys are among the six summary sections |
| `Text.Strip` | core/pdf_parser.py:63 | `str.strip`: the result has no whitespace at either end, is no longer than the input and adds no character |
| `Text.StripPadded` | core/pdf_parser.py:63 | stripping removes exactly the whitespace around an already stripped core |
| `Text.Split` | core/pdf_parser.py:59 | `str.split(sep)`: at least one piece, no piece holds the separator, and the pieces joined by it give the input back |
| `Text.SplitJoin` | core/embeddings.py:119-126 | splitting a join of separator-free parts gives the parts back |
| `Text.Squeeze` | core/pdf_parser.py:113-114 | `re.sub(c+, c)`: no run of c remains, the first character is kept and none is introduced |
| `Text.SqueezeFixpoint` | core/pdf_parser.py:113-114 | the substitution changes a text iff the text has a run of c |
| `Text.SqueezeKeepsNoRun` | core/pdf_parser.py:113-114 | collapsing space runs cannot create a newline run |
| `Text.StripKeepsNoRun` | core/pdf_parser.py:119 | stripping cannot create a run |
| `Text.IsSpaceChars` | core/qa_chain.py:320 | the white-space test accepts exactly the 29 characters of `str.isspace`, listed one by one |
| `Text.WordsFrom` | core/qa_chain.py:320-323 | `str.split()`: every word is non-empty and, when the pending word has no white space, no word has any |
| `Text.WordsConcat` | core/qa_chain.py:320-323 | splitting loses only white space: the words glued together are the non-space characters of the text, in order |
| `Text.WordsEmpty` | core/qa_chain.py:320-323 | the split is empty exactly when the text is all white space |
| `Text.WordSet` | core/qa_chain.py:320-323 | `set(s.split())`: no member is empty or holds white space, and the set is empty exactly when the text is all white space |
| `Text.ContainsSplit` | core/summarizer.py:157 | `sub in s` holds exactly when `s` is some text, then `sub`, then some text |
| `Text.Lower` | core/qa_chain.py:172 | `str.lower` on ASCII: same length, character by character |
| `Text.TitleCase` | core/embeddings.py:86 | `str.title` on ASCII: same length, non-letters unchanged, a letter at the start or after a non-letter upper-cased, a letter after a letter lower-cased |
| `Dicts.Set` | core/pdf_parser.py:82 | `d[k] = v`: k then maps to v; an existing key keeps its place and a new key goes last |
| `Dicts.SetOther` | core/pdf_parser.py:82 | an assignment leaves every other key's value alone |
| `Dicts.Present` | core/summarizer.py:65-66 | the names that are keys with a non-empty value, in the given order |
| `Dicts.GatherParts` | core/summarizer.py:65-67 | the loop renders every present name, in order |

## Left out

- PDF reading (`extract_text_from_pdf`, `extract_metadata`) is left out: segmentation starts from the extracted text.
- The vector store is an oracle: `create_vectorstore`, `load_vectorstore`, Chroma persistence, collection names, similarity and MMR ranking. So are the embedding model, the LangChain splitter (a function from text to pieces) and `json.loads` (a function from text to an optional JSON value).
- The Qwen network call (`QwenLLM._call`, `QwenLangChainLLM`) is an oracle that may fail. Prompts keep the values they embed but not the fixed template wording (utils/prompts.py is not part of this model).
- The UI, HTTP and start-up scripts are not part of this model. Neither is logging, nor the uuid document ids.
- PdfParser.MatchSection: a case-insensitive substring search stands in for the regexes. Lower-casing covers ASCII letters only. The `methodology` and `1\.\s*introduction` alternatives are omitted because every text they match already contains `method` or `introduction`.
- PdfParser.MarkerAt: only the ASCII digits '0' to '9' count as `\d`; Python's `str` regexes also accept the other Unicode decimal digits. The markers the parser itself inserts use ASCII digits.
- Embeddings.KeptLines: a line is dropped for U+FFFD but not for the lone surrogate U+D835, which a Dafny string cannot hold.
- QaChain.DedupLoop: the dedup key is the 100-character prefix itself rather than its Python `hash()`, so hash collisions are not modelled.
- QaChain.EstimateConfidence: exact rational arithmetic replaces floats, and the final `round(…, 2)` is omitted. Lower-casing is an ASCII-only approximation of `str.lower()`; word splitting follows `str.split()` over the full `str.isspace` set.
- Summarizer.GenerateComprehensiveSummary: the outer `except` branch is not modelled. Every sub-step catches its own model failures, and nothing else in the model can raise.
- LlmClient.ModelManager.CallWithRetry: the model call is an oracle indexed by attempt number; the warning logged after each failed attempt is not modelled.
- Text.Lower, Text.TitleCase: only ASCII letters change case; Python's Unicode case mapping is not modelled.
