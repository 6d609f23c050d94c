# GPAI backend core, modelled in Dafny

This project models the deterministic core of the GPAI backend. GPAI is a resource-scoped STEM
solver:

- it cuts course documents into token windows (chunks) and indexes them in a vector store;
- it retrieves and reranks chunks for a question;
- it prompts a language model in strict or prefer mode;
- it parses the answer into numbered, cited steps;
- it checks every step against the retrieved chunks, textually (similarity and 3-gram overlap)
  or symbolically (expression equivalence).

An OCR front end also recognises math in images.

There is one module per source file, plus two shared modules:

| module | source file | form |
|---|---|---|
| `Text` | (shared) | Python string semantics: `strip`, `lower`, `split`, `join`, `str(int)`, `int(str)` |
| `Meta` | (shared) | metadata values: str, int, float, bool, other |
| `Ingest` | `backend/ingest.py` | the chunking `while` loop and the page/slide loops as methods, dispatch as functions |
| `Retrieve` | `backend/retrieve.py` | reranking, page retrieval, context windows and chunk packing as methods over sequences |
| `Generator` | `backend/generator.py` | step parsing and chunk formatting as loops, citation extraction and prompt selection as functions |
| `Validator` | `backend/validator.py` | solution and n-gram loops as methods, step verdicts and normalisation as functions |
| `Indexer` | `backend/embed_and_index.py` | a class whose methods send requests to the store |
| `Ocr` | `backend/ocr_math.py` | the heuristic as a function, the OCR fallback and the batch loop as methods |

Outside code the model cannot see is passed in as function parameters:

- the tokenizer;
- text extraction from PDF, DOCX and PPTX;
- the vector store's answers;
- the embedding similarity;
- the language model;
- sympy's equivalence check;
- the regular-expression math extractor;
- the OCR engines.

Nothing is assumed about these functions beyond their types.

Each loop in the source is a method with loop invariants. Its postcondition ties the result to a
specification function, and lemmas prove what the source promises about that function.

## Model

| member | source | states |
|---|---|---|
| Ingest.ChunkText | backend/ingest.py:182-216 | the page gives ceil(n / (chunk_size - overlap)) chunks; chunk i is built from window i (Python's `tokens[start:end]`, a negative end counting from the end) with index i, id `{file}_p{page}_c{i}`, stripped decoded text and the page's provenance |
| Ingest.PageChunks | backend/ingest.py:190-214 | the number of chunks of a page is ceil(n / stride) |
| Ingest.ChunkExistsIff | backend/ingest.py:190 | chunk i exists exactly when its window start i·stride is inside the token list |
| Ingest.ChunkCountZeroIff | backend/ingest.py:190 | no tokens give no chunks; any token gives at least one |
| Ingest.ChunkWindow | backend/ingest.py:191-202 | chunk i holds tokens [i·stride, min(i·stride + size, n)); its token count is between 1 and chunk_size |
| Ingest.NegativeChunkSizeCountsFromEnd | backend/ingest.py:191-192 | with chunk_size -1 and overlap -3 the slice end is negative and counts from the end: five tokens give three chunks, the first holding four tokens and the second none |
| Ingest.ConsecutiveChunksOverlap | backend/ingest.py:191-214 | consecutive windows share min(overlap, n - next start) tokens: the tail of one is the head of the next |
| Ingest.ChunksCoverTokens | backend/ingest.py:190-191 | every token position lies inside some chunk's window |
| Ingest.LastChunkEndsAtEnd | backend/ingest.py:190-191 | the last window of a non-empty page ends exactly at n |
| Ingest.ChunkIdInjective | backend/ingest.py:195 | two chunk ids of one page are equal only when their indices are |
| Ingest.PageChunksIndexedAndDistinct | backend/ingest.py:195-211 | chunks are indexed 0,1,… in order, carry filename, page, type, priority, trust and `metadata or {}`, and have distinct ids |
| Ingest.Dispatch | backend/ingest.py:53-67 | the lower-cased extension picks the reader; an unknown one is the `Unsupported file type: {ext}` error |
| Ingest.ExtensionOfName | backend/ingest.py:54 | `splitext` of `stem.rest`, with no dot in rest, gives `.rest` |
| Ingest.IngestPdf | backend/ingest.py:74-94 | the page loop chunks each non-blank page as page num+1 with its text blocks, in page order |
| Ingest.PdfChunksFromNonBlankPages | backend/ingest.py:81-91 | every PDF chunk comes from a numbered non-blank page and carries that page's blocks |
| Ingest.IngestDocx | backend/ingest.py:101-106 | the non-blank paragraphs, joined by newlines, are chunked as page 1 of type docx |
| Ingest.CollectShapeTexts | backend/ingest.py:116-118 | a slide contributes the non-blank texts of its shapes that have text, in order |
| Ingest.IngestPptx | backend/ingest.py:113-132 | every slide with shape text is chunked under its 1-based number, in order |
| Ingest.PptxChunksFromTextSlides | backend/ingest.py:113-130 | every PPTX chunk comes from a slide, numbered from 1, that has shape text |
| Ingest.ImageChunk | backend/ingest.py:144-155 | an image gives one placeholder chunk `{file}_img_1` on page 1, index 0, 0 tokens, type image, with its file path |
| Ingest.IngestFile | backend/ingest.py:41-67 | the outcome is the selected reader's chunks, and an error exactly when the extension is unknown |
| Ingest.SinglePageFormats | backend/ingest.py:106-139 | DOCX and plain-text files are chunked entirely as page 1 |
| Ingest.BlankTextFileStillChunked | backend/ingest.py:134-139 | a plain-text file is chunked even when it is whitespace only, provided it has tokens |
| Retrieve.SortDescSorted | backend/retrieve.py:124 | the descending sort yields non-increasing keys |
| Retrieve.SortDescStable | backend/retrieve.py:124 | the sort is stable: elements with one key keep their relative order |
| Retrieve.SortDescPerm | backend/retrieve.py:124 | the sort is a permutation of its input |
| Retrieve.HitOf | backend/retrieve.py:67-74 | a hit takes the match's id and rank i; similarity is 1 - distance, or distance 0 and similarity 1 without distances |
| Retrieve.PriorityWeight | backend/retrieve.py:99-113 | the weight is in [1.0, 1.3] and exceeds 1.0 exactly for rubric, slides and textbook |
| Retrieve.BoostFactor | backend/retrieve.py:108-117 | the boost is the priority weight (missing means normal), times 1.1 when trusted (missing means trusted); it is in [1.0, 1.43] |
| Retrieve.ApplyPriorityBoost | backend/retrieve.py:89-130 | the loop gives the boosted chunks, sorted by boosted similarity and re-ranked |
| Retrieve.RerankSpec | backend/retrieve.py:107-128 | reranking is a permutation of the boosted chunks, in non-increasing boosted order, stable, with ranks 0..n-1 |
| Retrieve.RerankCarriesBoost | backend/retrieve.py:120-121 | after reranking every chunk records its boost and boosted similarity |
| Retrieve.LargerBoostRanksFirst | backend/retrieve.py:107-128 | of two chunks with equal positive similarity, the one with the larger boost is ranked before the other |
| Retrieve.RubricTrustedOutranksNormal | backend/retrieve.py:99-128 | at equal positive similarity a trusted rubric chunk is ranked before an untrusted normal one |
| Retrieve.NegativeSimilarityInvertsBoost | backend/retrieve.py:107-128 | at equal negative similarity (distance above 1) the untrusted normal chunk is ranked before the trusted rubric one |
| Retrieve.PyPrefix | backend/retrieve.py:82 | `s[:k]` is a prefix of length min(k, n), and a negative k drops -k elements from the end |
| Retrieve.FetchSize | backend/retrieve.py:58 | the store is asked for 2k results when boosting and k otherwise |
| Retrieve.RetrieveChunks | backend/retrieve.py:34-87 | retrieval returns the first k of the (possibly reranked) hits of the store's answer to the over-sized query |
| Retrieve.RetrieveBounded | backend/retrieve.py:65-82 | at most k chunks are returned; an empty answer gives none; the result is a prefix of the hits or reranked hits |
| Retrieve.RetrieveUnboosted | backend/retrieve.py:66-82 | without boosting, hit i is match i with similarity 1 - distance and rank i |
| Retrieve.RetrieveBoostedOrder | backend/retrieve.py:78-82 | with boosting the result is ranked 0.. in non-increasing boosted similarity |
| Retrieve.RetrieveByPage | backend/retrieve.py:132-188 | page retrieval gives the page's chunks with similarity 1.0, re-scored and re-ranked when a query is given |
| Retrieve.PageChunks | backend/retrieve.py:161-170 | every stored record of the page becomes one hit, in store order, with similarity 1.0 and rank equal to its position |
| Retrieve.RerankPage | backend/retrieve.py:173-186 | the re-ranked page is the re-scored hits sorted by non-increasing similarity (a permutation, stable on equal similarities, by SortDescPerm, SortDescSorted and SortDescStable) with ranks 0..n-1 |
| Retrieve.RescorePage | backend/retrieve.py:177-180 | each hit keeps everything but its similarity, which becomes the store's cosine similarity between the query and the hit's text |
| Retrieve.RankHits | backend/retrieve.py:184-186 | each hit keeps everything but its rank, which becomes its position |
| Retrieve.PageResultSpec | backend/retrieve.py:161-187 | one hit per stored chunk, ranked 0..n-1; with a query they are ordered by non-increasing similarity; without one hit i is record i with similarity 1.0 |
| Retrieve.KeptOffsetsSpec | backend/retrieve.py:272-278 | the kept offsets are exactly those in the window that are the centre or give a non-negative index, ascending |
| Retrieve.CollectCandidates | backend/retrieve.py:271-278 | the loop asks for the centre id verbatim and `{base}_c{i+o}` for every other kept offset |
| Retrieve.CandidatesSpec | backend/retrieve.py:272-278 | the centre id is requested exactly when the window size is non-negative; at most 2w+1 ids, for ascending offsets in [-w, w]; every other id is `{base}_c{index+o}` with a non-negative index |
| Retrieve.FetchContext | backend/retrieve.py:281-298 | the fetched chunks are the store's records for the ids, in the store's order; a failed store call gives none |
| Retrieve.GetContextWindow | backend/retrieve.py:246-298 | the window as written: split on every "_c", an invalid index raises |
| Retrieve.ContextWindowCases | backend/retrieve.py:263-268 | an id that does not split into exactly two parts gives []; the call fails exactly when the index part is not an integer |
| Retrieve.AsWrittenMissesUnderscoreCFile | backend/retrieve.py:263-265 | as written, no chunk of a file whose name contains "_c" has a context window |
| Retrieve.AsWrittenExample | backend/retrieve.py:263-265 | as written, "lab_calc.txt_p1_c0" gives [] |
| Retrieve.GetContextWindowCorrected | backend/retrieve.py:246-298 | the window with the id split at its last "_c" |
| Retrieve.CorrectedParsesChunkerIds | backend/retrieve.py:263-278 | corrected, every chunker id parses back to its page prefix and index, and the neighbour ids are chunker ids |
| Retrieve.CorrectedWindowOfChunkerId | backend/retrieve.py:263-298 | corrected, the window of a chunker id is the store's answer for the ids of its neighbours |
| Retrieve.PackCountSpec | backend/retrieve.py:315-328 | the packed entries are a prefix that fits the budget, and the next entry would not fit |
| Retrieve.FormatRetrievedChunks | backend/retrieve.py:301-330 | the loop joins the packed entries with "\n---\n" |
| Retrieve.FormatPacksPrefix | backend/retrieve.py:315-330 | the output joins, with "\n---\n", the longest prefix of the entries that fits the budget; the next entry would not fit |
| Generator.ExtractCitations | backend/generator.py:292-300 | every extracted citation is `[doc:` + one or more non-`]` characters + `]` |
| Generator.CitationsOccur | backend/generator.py:297-298 | every extracted citation occurs in the text |
| Generator.ExtractCitationsFindAll | backend/generator.py:297-298 | the citations are `re.findall`'s: matches at ascending, non-overlapping positions, and every match of the pattern is one of them or starts inside one |
| Generator.CitationRoundTrip | backend/generator.py:297-298 | a well-formed citation alone extracts to itself |
| Generator.ChunkEntryCitations | backend/generator.py:232-233 | the entry of a chunk whose fields hold no `]` extracts to its own citation, then the citations of its text |
| Generator.FormatChunks | backend/generator.py:220-235 | the loop joins `Chunk i: citation\ntext` entries, numbered from 1, with "\n\n---\n\n" |
| Generator.StrictTemplateIff | backend/generator.py:99-102 | the prompt starts with the strict instructions exactly in strict mode, and with the prefer instructions otherwise |
| Generator.ConstraintClauseIff | backend/generator.py:105-107 | the method-constraint clause ends the prompt exactly when constraints are given |
| Generator.NewGenerator | backend/generator.py:53-70 | construction succeeds exactly when the lower-cased provider is ollama, openai or gemini; otherwise it fails with the unsupported-provider message |
| Generator.FillPrompt | backend/generator.py:98-107 | the prompt is the mode's template (strict only for "strict") filled with the chunks and the question, followed by the constraint clause exactly when constraints are given |
| Generator.GenerateSolution | backend/generator.py:72-126 | the record holds the provider's answer to the built prompt, the mode, model, provider, number of chunks and prompt length |
| Generator.ConstructedGeneratorAsks | backend/generator.py:110-117 | a constructed generator always reaches its provider, never the error text |
| Generator.ParseSolutionSteps | backend/generator.py:237-290 | the loop gives the steps the parser specification defines |
| Generator.ParseSpec | backend/generator.py:252-288 | every stripped non-blank line lands in exactly one buffer, in order; no buffer is empty; a line opens a new buffer exactly when it is the first, follows a blank line or is numbered, so every other line continues the current buffer; numbers go up by one per numbered line |
| Generator.StepsSpec | backend/generator.py:256-288 | every step has text; its citations are well formed and occur in it; its flag says whether it holds "(UNSUPPORTED)"; step numbers never decrease |
| Generator.NumberedSolution | backend/generator.py:267-277 | when every step opens with a numbered line, the steps are numbered 1, 2, 3, … |
| Generator.EmptySolutionHasNoSteps | backend/generator.py:248-290 | an empty solution has no steps |
| Validator.ArgMax | backend/validator.py:188 | the index of the first maximum |
| Validator.BucketMonotone | backend/validator.py:200-205 | confidence never drops as similarity grows; similarity at the threshold is at least MEDIUM |
| Validator.TextualSupport | backend/validator.py:177-178 | no chunks give unsupported, similarity 0, LOW |
| Validator.TextualSupportSpec | backend/validator.py:181-213 | support is judged on the first most similar chunk: it holds iff similarity ≥ threshold and 3-gram overlap ≥ minimum, and confidence is the bucket |
| Validator.CollectNGrams | backend/validator.py:328-336 | the loop collects exactly the n-grams of the token list |
| Validator.ComputeNgramOverlap | backend/validator.py:311-341 | the method returns the number of shared n-grams of the lower-cased, split texts |
| Validator.NgramOverlapSymmetric | backend/validator.py:324-339 | the overlap is symmetric and ignores case |
| Validator.ShortTextNoOverlap | backend/validator.py:329 | a text with fewer than n tokens shares no n-gram |
| Validator.NgramOverlapBounded | backend/validator.py:339 | the overlap is at most either text's number of n-grams |
| Validator.NormalizeIsNormal | backend/validator.py:299-309 | a normalised expression holds no whitespace, no upper-case letter, no `*` and no `×` |
| Validator.NormalizeIdempotent | backend/validator.py:299-309 | normalising twice is normalising once |
| Validator.NormalizeConcat | backend/validator.py:299-309 | normalisation distributes over concatenation |
| Validator.FallbackEquivalence | backend/validator.py:292-297 | when sympy gives no answer, equivalence is normalised equality: reflexive, symmetric and transitive |
| Validator.CleanExpressionsSpec | backend/validator.py:265 | extracted expressions are stripped and non-empty |
| Validator.FirstPairFrom | backend/validator.py:232-234 | the first equivalent (step, chunk) expression pair in loop order, or none when no pair is equivalent |
| Validator.SymbolicSupport | backend/validator.py:215-243 | symbolic support is the first chunk with an equivalent pair, labelled `chunk_i`; none without step expressions or chunks |
| Validator.ValidateStep | backend/validator.py:121-168 | a step is supported iff its confidence is not LOW; no chunks give the fixed unsupported verdict |
| Validator.StepPrecedence | backend/validator.py:145-168 | textual support wins over symbolic; unsupported steps report their best textual similarity and chunk |
| Validator.ValidateSteps | backend/validator.py:68-91 | the loop validates the non-blank steps and clears the flag exactly when one is unsupported |
| Validator.ValidationsSpec | backend/validator.py:68-88 | only non-blank steps are validated, in order, keeping their number, citations and flag |
| Validator.CountSupportedSpec | backend/validator.py:101-113 | the supported count is at most the total and equals it exactly when all steps are supported |
| Validator.Verdict | backend/validator.py:94-114 | the result counts all and supported steps and sets all_supported exactly when every step is supported |
| Validator.StrictVerdict | backend/validator.py:94-99 | strict mode fails with the fixed refusal exactly when some step is unsupported, and passes otherwise |
| Validator.PreferVerdict | backend/validator.py:100-104 | other modes never fail, pass exactly when all steps are supported, and report `s/t steps supported` |
| Validator.ValidateSolution | backend/validator.py:44-119 | the result is the verdict on the validations of the steps against the chunks |
| Validator.NoChunksNoSupport | backend/validator.py:177-243 | with no chunks no step is supported |
| Validator.ValidateStrictMode | backend/validator.py:361-387 | valid exactly when every parsed step is supported; returns the solution or the fixed refusal |
| Validator.EmptySolutionPassesStrict | backend/validator.py:361-387 | an empty solution passes strict validation: with no steps, the strict branch of validate_solution (lines 94-99) reports PASSED |
| Indexer.StoreMetadataFixed | backend/embed_and_index.py:143-151 | a stored record holds the seven fixed fields with the chunk's values |
| Indexer.StoreMetadataCustom | backend/embed_and_index.py:153-156 | a custom entry is copied as `meta_k` exactly when its value is str, int, float or bool |
| Indexer.StoreMetadataNothingElse | backend/embed_and_index.py:143-158 | a record has no key besides the fixed fields and the copied entries |
| Indexer.CopyCustom | backend/embed_and_index.py:153-156 | the loop over custom entries adds exactly the copied entries |
| Indexer.SlicesPartition | backend/embed_and_index.py:130-131 | the batches, concatenated, give the chunk list back; none is empty; all but the last hold batch_size chunks |
| Indexer.AddRequestAligned | backend/embed_and_index.py:134-166 | a batch whose texts embed gives one add request whose ids, documents and metadata are index-aligned with the batch, and whose embeddings are the encoder's answer for those documents |
| Indexer.RequestsOfEmbedded | backend/embed_and_index.py:130-166 | when every batch embeds, exactly one add request per batch is issued, in batch order |
| Indexer.FirstFailure | backend/embed_and_index.py:130-166 | the first batch whose embedding or `add` raises: every earlier batch raised nothing, that one raised |
| Indexer.SentBeforeFailure | backend/embed_and_index.py:130-168 | before the first exception every batch was stored, in order; a batch whose embedding fails sends nothing more, one the store refuses is the last request issued |
| Indexer.IndexAllStored | backend/embed_and_index.py:130-171 | when nothing raises, one add request per batch and the result is len(chunks) |
| Indexer.EmbeddingIndexer.IndexChunks | backend/embed_and_index.py:113-171 | an empty list sends nothing and gives 0; a zero batch size raises and a negative one sends nothing and gives 0; a positive one sends the batches' add requests in order up to the first exception of the encoder or the store, which it raises, and otherwise gives len(chunks) |
| Indexer.EmbeddingIndexer.AddBatches | backend/embed_and_index.py:127-171 | for a positive batch size, the add requests of consecutive slices of at most batch_size chunks, in order, appended to what was sent before, up to and including the first slice that raises; that exception, or len(chunks) |
| Indexer.EmbeddingIndexer.AddBatch | backend/embed_and_index.py:131-166 | one batch: an embedding failure raises and sends nothing; otherwise its add request is sent and the store's exception, if any, is raised |
| Indexer.IncrementSpec | backend/embed_and_index.py:204-205 | incrementing bumps one count and the total by one, adds only that key and keeps keys distinct |
| Indexer.TallySpec | backend/embed_and_index.py:200-205 | the tally counts each key as often as it occurs, holds each key once and sums to the sample size |
| Indexer.CollectionStatsSpec | backend/embed_and_index.py:190-219 | an empty collection has no histograms; otherwise both histograms count every sampled record, with the "unknown" and "normal" defaults |
| Indexer.SampleBounded | backend/embed_and_index.py:194 | when the store keeps to the limit, at most min(10, count) records are tallied |
| Indexer.EmbeddingIndexer.GetCollectionStats | backend/embed_and_index.py:182-221 | the loop gives the statistics the specification defines; a failed store call gives the error |
| Indexer.DeletedCount | backend/embed_and_index.py:239-245 | the count is positive exactly when ids matched and deletion succeeded, and is then their number |
| Indexer.EmbeddingIndexer.DeleteByFilename | backend/embed_and_index.py:223-245 | one delete request for the matched ids when there are any, and nothing otherwise |
| Indexer.EmbeddingIndexer.constructor | backend/embed_and_index.py:35-47 | the embedding model is OpenAI's exactly when OpenAI is asked for and a key is given; batches are embedded as `embed_batch` does (backend/embed_and_index.py:103-111); nothing has been sent yet |
| Indexer.AsWrittenOpenaiWithoutKeyFails | backend/embed_and_index.py:38-47 | with `use_openai` set and no key, `embed_batch` fails on the missing OpenAI client for every batch |
| Indexer.CorrectedEncoderFollowsConstructor | backend/embed_and_index.py:38-47 | the corrected encoder is OpenAI's exactly when the constructor chose OpenAI's model, the local one otherwise, and agrees with `embed_batch` in every other case |
| Ocr.AnyIndicator | backend/ocr_math.py:162 | true exactly when some listed indicator occurs in the text |
| Ocr.EmptyTextIsNotMath | backend/ocr_math.py:155-162 | the empty text is not mathematical |
| Ocr.IndicatorIsMath | backend/ocr_math.py:155-162 | any text containing an indicator is mathematical |
| Ocr.DetectIgnoresCase | backend/ocr_math.py:162 | only the lower-cased text matters, so "SIN" counts |
| Ocr.DetectMonotone | backend/ocr_math.py:162 | a text containing a mathematical text is mathematical |
| Ocr.NewMathOcr | backend/ocr_math.py:30-38 | pix2tex is used exactly when requested, installed and initialised |
| Ocr.OcrImage | backend/ocr_math.py:48-100 | the method fills the record the OCR specification defines; an image that does not open raises |
| Ocr.Pix2texOnlyWhenAsked | backend/ocr_math.py:69 | pix2tex's answer matters only when math detection is requested and pix2tex is in use |
| Ocr.OcrOutcomeSpec | backend/ocr_math.py:61-100 | the method is pix2tex (text = latex, confidence 0.9) exactly when pix2tex is asked and succeeds; failed ("[OCR failed]", 0.0) exactly when tesseract then raises; otherwise pytesseract with stripped text; latex is empty unless pix2tex |
| Ocr.BatchOcr | backend/ocr_math.py:164-193 | the loop gives one record per path in order |
| Ocr.BatchResultsSpec | backend/ocr_math.py:175-193 | each record carries the path's base name; an image that does not open gives "", "", failed, 0.0 and the error; the others their OCR result |

## Left out

- Tokenizer, embeddings, the vector store, the language models, sympy, the regular-expression
  engine, pix2tex and tesseract are parameters. Their numerics and internals are not modelled:
  IEEE floating point, cosine similarity, `simplify`, pattern matching, image decoding.
- `Text.Lower` and the digit test know ASCII only. Python's Unicode `lower()` and `isdigit()`
  are not modelled.
- Python dicts with `.get` defaults become typed records. A chunk missing `chunk_text` or
  `metadata` cannot be expressed.
- Logging to files (`_log_retrieval`, `_log_validation`), `print`, the clock, temporary files,
  `get_page_image`, `get_text_coordinates`, `extract_file_metadata` and `create_faiss_index` are
  I/O outside the core.
- The HTTP and SDK calls of the three providers, the API-key environment check, and the
  `max_tokens`/`temperature` parameters are not modelled. `Generator.NewGenerator` models only
  provider validation.
- `clear_collection`, `_initialize_collection` and `embed_text`/`embed_batch` are calls into the
  store and the encoder.
- `ocr_pdf_page` and the convenience functions `extract_latex_from_image` and
  `extract_text_from_image` are not modelled. They render PDF pages to temporary files or wrap
  one call of `ocr_image`.
- The average of tesseract word confidences (backend/ocr_math.py:87-92) is an engine answer.
- Ingest.ChunkText: requires the stride `chunk_size - chunk_overlap` to be positive when the text
  has tokens. Otherwise the source loop never ends.
- Indexer.EmbeddingIndexer.IndexChunks: the store is seen through the requests sent to it. `add`
  is not an upsert, so nothing is claimed about re-indexing the same ids. An exception is the
  message it carries; its type and traceback are not modelled.
- Indexer.AddRequestAligned: the embeddings column is the encoder's answer for the batch texts.
  That it has one vector per text is the encoder's promise, not the indexer's.
- Indexer.SampleBounded: the bound min(10, count) holds only if the store honours the limit.
- Generator.ChunkEntryCitations: holds per entry only. A chunk text holding an unclosed `[doc:`
  can join with the next entry into one citation.
- Retrieve.NegativeSimilarityInvertsBoost: boosting multiplies the similarity, so a negative one
  is pushed further down by a larger boost. The source does not say what it wants there, so no
  corrected ranking is modelled.
- The in-place mutation of retrieved dictionaries (`_apply_priority_boost` writes into the
  caller's list) is modelled on values. Aliasing of that list is not modelled.

## Findings

| source | as written | input that shows it | evidently intended | confidence | as-written member | corrected member |
|---|---|---|---|---|---|---|
| backend/retrieve.py:263-265 | `chunk_id.split('_c')` must give exactly two parts | the id "lab_calc.txt_p1_c0", produced by the chunker for the file "lab_calc.txt", splits into three parts, so the context window is [] | split at the last "_c" only, so every id the chunker produces is understood | not executed | Retrieve.AsWrittenMissesUnderscoreCFile | Retrieve.CorrectedParsesChunkerIds |
| backend/embed_and_index.py:103-108 | the constructor builds the OpenAI client only when `use_openai` and a key are both given, but `embed_batch` tests `use_openai` alone | `use_openai=True` with no key: the sentence-transformers encoder is built and reported, then the first batch raises AttributeError on `self.openai_client` | embed with the encoder the constructor built | not executed | Indexer.AsWrittenOpenaiWithoutKeyFails | Indexer.CorrectedEncoderFollowsConstructor |
