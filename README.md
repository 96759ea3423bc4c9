# Student assistant: a verified model of the document pipeline and the question API

The student assistant answers students' questions about their school's rules,
timetables, procedures, grading and FAQs. It has two halves, and this project
models both in Dafny.

- **The offline pipeline** (`scripts/`):
  - parse the PDF, DOCX and DOC files of five category folders into documents;
  - clean each document's text and cut it into overlapping windows of 500 words;
  - check the chunks file;
  - load the chunks into a vector collection in batches of 32.
- **The backend** (`backend/app/`):
  - the request and response models of the API, with their bounds and defaults;
  - a conversation store that keeps one JSON record per conversation;
  - the retrieval-augmented answering service: scores, context, prompt, answer
    and cited sources;
  - the HTTP routes, which keep one service per session and record each exchange.

The modules follow the repository's files:

| module | file |
|---|---|
| `Wrappers` | `Option`, `Result` and `Outcome` |
| `Strings` | the Python string primitives the code relies on: `split()`, `split(sep)`, `join`, `strip()`, slicing and decimal formatting |
| `Arith` | the step count of a `range(0, n, step)` loop |
| `Parsing` | `scripts/parse_documents.py` |
| `Chunking` | `scripts/chunk_documents.py` |
| `Validation` | `scripts/validate_data.py` |
| `Indexing` | `scripts/index_documents.py` |
| `Schemas` | `backend/app/models/schemas.py` |
| `Conversations` | `backend/app/core/conversation_manager.py` |
| `Rag` | `backend/app/services/rag_service.py` |
| `Routes` | `backend/app/api/routes.py` |

The code is written in the form it has in the source:

- Pure computations are functions, often with a lemma about them.
- Loops are methods with `while` or `for` loops, proved against a function that
  specifies them. Examples are the chunking loop, the batch loop of the indexer,
  the folder and file loops of the parser, the loop that builds the context, and
  the metadata loop of the validator.
- Objects whose state changes are classes:
  - the conversation manager, whose files are a `map` from id to record;
  - the vector collection, which records the `add` calls it receives;
  - the route module's service registry.

Anything the code calls outside itself is a parameter of the model, and the
model does not look inside it:

- the libraries that read PDF and Word files (given as the text they return, or
  their exception);
- the embedding model (a function from text to vector);
- the vector search (a function from query vector and count to rows);
- the chat-completion endpoint (a function from request to completion or
  exception);
- the uuid generator (the hex string it drew);
- the clock (a tick `now`).

## Model

| member | source | states |
|---|---|---|
| `Strings.Words` | scripts/chunk_documents.py:80 | `str.split()` gives words that are non-empty and free of whitespace, and no word exactly when the text is blank |
| `Strings.JoinSplitOn` | scripts/chunk_documents.py:43-44 | joining the pieces of `s.split(sep)` with `sep` gives back `s` |
| `Strings.WordsOfJoin` | scripts/chunk_documents.py:95 | splitting a space-join of words gives back those words |
| `Strings.Strip` | scripts/chunk_documents.py:52 | `strip()` gives a slice of the input that neither starts nor ends with whitespace, and is empty only for an all-whitespace input |
| `Strings.ParseNatToString` | scripts/chunk_documents.py:174 | the decimal text of a number reads back as that number |
| `Strings.NatToStringInjective` | scripts/chunk_documents.py:174 | different numbers have different decimal texts |
| `Strings.PairTextInjective` | scripts/chunk_documents.py:174 | `f"{a}_{b}"` determines both `a` and `b` |
| `Strings.LowerAscii` | scripts/parse_documents.py:186 | ASCII lower-casing keeps the length and leaves no upper-case ASCII letter |
| `Arith.CeilDivSteps` | scripts/index_documents.py:88-93 | a loop from 0 in steps of `step` that stops once `start >= n` runs `(n + step - 1) // step` times |
| `Chunking.CollapseSpaces` | scripts/chunk_documents.py:37 | `re.sub(r' +', ' ', ...)` leaves no two adjacent spaces and never lengthens the text |
| `Chunking.CollapseNewlines` | scripts/chunk_documents.py:40 | `re.sub(r'\n{3,}', ...)` never lengthens the text and creates no double space |
| `Chunking.StripLinesKeeps` | scripts/chunk_documents.py:43-44 | stripping each line never lengthens the text and creates no double space |
| `Chunking.ReplaceDashes` | scripts/chunk_documents.py:47 | after the two replacements no em or en dash is left; the length is kept; no double space is created |
| `Chunking.DropSpaceBeforePunctDone` | scripts/chunk_documents.py:50 | after `re.sub(r'\s+([.,;:!?])', r'\1', ...)` no whitespace comes right before a punctuation mark |
| `Chunking.DropSpaceBeforePunctChars` | scripts/chunk_documents.py:50 | that substitution only deletes characters |
| `Chunking.DropSpaceBeforePunctSpaces` | scripts/chunk_documents.py:50 | that substitution creates no double space |
| `Chunking.CleanTextGuarantees` | scripts/chunk_documents.py:20-52 | the cleaned text is no longer than the input; it neither starts nor ends with whitespace; it has no long dash, no double space and no whitespace before punctuation |
| `Chunking.ChunkText` | scripts/chunk_documents.py:59-103 | the `while` loop returns exactly the chunk list of the specification, under the condition the source needs to terminate (the text fits in one chunk, or the overlap is smaller than the chunk size) |
| `Chunking.ChunkTextCases` | scripts/chunk_documents.py:80-84 | a text of at most `size` words, blank texts included, comes back unchanged as the only chunk; a longer one gives `ceil(n / (size - overlap))` chunks |
| `Chunking.ChunkWords` | scripts/chunk_documents.py:89-101 | chunk `k` starts at word `k * step` inside the text and holds the words `words[k*step : k*step + size]`: between 1 and `size` of them |
| `Chunking.ConsecutiveChunksOverlap` | scripts/chunk_documents.py:91-101 | when chunk `k` is full, its words after the first `step` are the first `size - step` words of chunk `k + 1` |
| `Chunking.EveryWordCovered` | scripts/chunk_documents.py:86-101 | every word of the text lies in chunk `j // step`, at offset `j - (j // step) * step` |
| `Chunking.DocstringExample` | scripts/chunk_documents.py:72-77 | with size 4 and overlap 2, eight words give four chunks (words 1-4, 3-6, 5-8 and 7-8), not the three the docstring shows |
| `Chunking.ChunkIdsDistinct` | scripts/chunk_documents.py:174 | the ids `f"{doc_idx}_{chunk_idx}"` are distinct across different (document, chunk) pairs |
| `Chunking.AttachMetadata` | scripts/chunk_documents.py:164-184 | one chunk object per chunk, in order, with the chunk's text, its id, its index, the total, and its character and word counts |
| `Chunking.ChunkDocument` | scripts/chunk_documents.py:148-184 | a document becomes the chunk objects of its cleaned text, cut into chunks of 500 words with an overlap of 100 |
| `Chunking.AttachedChunksOfLongText` | scripts/chunk_documents.py:155-184 | the chunk objects of a long text record between 1 and `size` words each and have pairwise distinct ids |
| `Parsing.NameStart` | scripts/parse_documents.py:44 | the name starts after the last `/` of the path, and no `/` follows |
| `Parsing.NameIsLastComponent` | scripts/parse_documents.py:44 | `Path(p).name` is a `/`-free suffix of the path |
| `Parsing.SuffixShape` | scripts/parse_documents.py:186 | `Path(p).suffix` is empty, or a dot followed by at least one character and no other dot, at the end of the name |
| `Parsing.FormatOfExtension` | scripts/parse_documents.py:186-196 | the pdf, docx and doc extractors are chosen exactly for the lower-cased suffixes `.pdf`, `.docx` and `.doc`, and no extractor for any other suffix |
| `Parsing.NonBlankPages` | scripts/parse_documents.py:36-39 | every kept page is a page read that is not blank, and every page that is not blank is kept |
| `Parsing.NonBlankPagesAppend` | scripts/parse_documents.py:36-41 | the kept pages of a concatenation are those of each part, in order, so each page keeps its place and its multiplicity |
| `Parsing.NonBlankPagesOne` | scripts/parse_documents.py:38-39 | a single page is kept, unstripped, exactly when it is not blank |
| `Parsing.StrippedParagraphs` | scripts/parse_documents.py:83-87 | at most one paragraph is kept per paragraph read |
| `Parsing.StrippedParagraphsStripped` | scripts/parse_documents.py:84-86 | each kept paragraph is stripped and not empty |
| `Parsing.StrippedParagraphsAppend` | scripts/parse_documents.py:83-87 | the kept paragraphs of a concatenation are those of each part, in order |
| `Parsing.StrippedParagraphsOne` | scripts/parse_documents.py:84-86 | a single paragraph is kept, stripped, exactly when it is not blank |
| `Parsing.StrippedParagraphsFrom` | scripts/parse_documents.py:83-87 | each kept paragraph is one of the paragraphs read, stripped |
| `Parsing.StrippedParagraphsAt` | scripts/parse_documents.py:83-87 | a paragraph that is not blank is kept, stripped, right after the paragraphs kept before it |
| `Parsing.StrippedParagraphsEmpty` | scripts/parse_documents.py:83-87 | no paragraph is kept exactly when every paragraph is blank |
| `Parsing.ApproxPages` | scripts/parse_documents.py:93-94 | `max(1, words // 500)` is at least 1, and otherwise the number of whole 500-word pages |
| `Parsing.JoinedParagraphsBlank` | scripts/parse_documents.py:144-148 | the joined paragraphs are blank exactly when no paragraph was kept, which is when the .doc extractor gives up |
| `Parsing.PdfDocument` | scripts/parse_documents.py:41-55 | the PDF document records its page count, its character count and the pdf format |
| `Parsing.WordDocument` | scripts/parse_documents.py:90-109 | the Word document records the kept-paragraph count, the character count, at least one page and its format |
| `Parsing.ExtractTextFromPdf` | scripts/parse_documents.py:22-59 | None when reading fails; otherwise the PDF document of the pages |
| `Parsing.CollectParagraphs` | scripts/parse_documents.py:83-87 | the paragraph loop keeps exactly the stripped non-empty paragraphs, in order |
| `Parsing.ExtractTextFromDocx` | scripts/parse_documents.py:66-113 | None when reading fails; otherwise the Word document of the paragraphs |
| `Parsing.ExtractTextFromDoc` | scripts/parse_documents.py:120-172 | None when reading fails or no text is left; otherwise the Word document with the .doc warning |
| `Parsing.ExtractedFormat` | scripts/parse_documents.py:179-196 | an extracted document's format is the one its suffix selects |
| `Parsing.ExtractTextFromFile` | scripts/parse_documents.py:179-196 | the dispatch on the suffix gives what the chosen extractor gives, and None for other suffixes |
| `Parsing.DocumentFiles` | scripts/parse_documents.py:237-240 | every kept entry is a regular file with one of the three extensions |
| `Parsing.DocumentFilesFrom` | scripts/parse_documents.py:237-240 | every kept entry is one of the entries |
| `Parsing.DocumentFilesKeep` | scripts/parse_documents.py:237-240 | every regular file with one of the three extensions is kept |
| `Parsing.FolderDocumentsShape` | scripts/parse_documents.py:249-263 | a folder gives no more documents than it has files, and each carries that folder's category |
| `Parsing.CountFormatTotal` | scripts/parse_documents.py:216-221 | the three format counts add up to the number of documents |
| `Parsing.TallyKept` | scripts/parse_documents.py:266-267 | counting a kept document keeps each counter equal to the number of documents of its format |
| `Parsing.ExtractFolder` | scripts/parse_documents.py:249-274 | the file loop appends the folder's documents; each format counter equals the number of documents of that format; the failures account for the rest of the files |
| `Parsing.ExtractCategories` | scripts/parse_documents.py:226-274 | the folder loop gives the documents of the folders in order; the counts add up to the number of files; every document carries a visited category |
| `Parsing.ExtractAllDocuments` | scripts/parse_documents.py:203-284 | the documents of the five folders in their fixed order; the format counts and failures add up to the files seen; every document is tagged with its folder |
| `Validation.EmptyChunks` | scripts/validate_data.py:42 | `KeyError('text')` exactly when some chunk has no text; otherwise the empty chunks are the blank chunks, in order |
| `Validation.BlankChunksMembers` | scripts/validate_data.py:42 | the blank chunks are exactly the chunks that have a text and whose text is blank |
| `Validation.BlankChunksAppend` | scripts/validate_data.py:42 | the blank chunks of a concatenation are those of each part, in order, so each keeps its place and multiplicity |
| `Validation.BlankChunksOne` | scripts/validate_data.py:42 | a single chunk is blank exactly when it has a text and the text is blank |
| `Validation.CheckMetadata` | scripts/validate_data.py:52-59 | the loop over `chunks[:10]` returns the count of problems, or the `KeyError` it raises, as the specification gives them |
| `Validation.IssuesBound` | scripts/validate_data.py:52-59 | each checked chunk adds at most two problems |
| `Validation.IssuesFailure` | scripts/validate_data.py:53-59 | the check raises `KeyError('metadata')` exactly when a checked chunk has no metadata |
| `Validation.IssuesWithTexts` | scripts/validate_data.py:42-59 | once every chunk has a text, the problems counted are the checked chunks whose metadata lacks a required key |
| `Validation.FirstMissing` | scripts/validate_data.py:67-76 | the first chunk on which the metadata read raises, or None when the read succeeds on every chunk |
| `Validation.Categories` | scripts/validate_data.py:67 | the list of the chunks' categories, or the `KeyError` of the first chunk without one |
| `Validation.ChunkSizes` | scripts/validate_data.py:76 | the list of the chunks' word counts, or the `KeyError` of the first chunk without one |
| `Validation.CounterCounts` | scripts/validate_data.py:68 | `Counter(categories)` has one entry per distinct category, holding its number of occurrences; the counts sum to the number of chunks |
| `Validation.MinOf` | scripts/validate_data.py:78 | `min` returns an element that is at most every element |
| `Validation.MaxOf` | scripts/validate_data.py:79 | `max` returns an element that is at least every element |
| `Validation.Examples` | scripts/validate_data.py:88-93 | one example per shown chunk: the first 50 characters of its source, its word count and the first 100 characters of its text |
| `Validation.ExamplesFailure` | scripts/validate_data.py:88-93 | the examples raise exactly when a shown chunk lacks its source, word count or text, with the `KeyError` of the first such chunk's first missing key |
| `Validation.ValidateData` | scripts/validate_data.py:15-98 | the script returns the outcome, the report or the exception that the specification function gives |
| `Validation.ValidationOutcome` | scripts/validate_data.py:25-31 | False exactly when a file is missing; otherwise True with a report, or an exception |
| `Validation.ValidationReport` | scripts/validate_data.py:52-93 | the report of a successful run is consistent: the empty-chunk count is the number of blank chunks (`BlankChunks`), at most two problems per checked chunk, category counts summing to the total, minimum at most maximum, and `min(2, n)` examples |
| `Validation.EmptyChunksFileRaises` | scripts/validate_data.py:76-77 | an empty chunks file passes every check and then raises `ZeroDivisionError` on the average |
| `Validation.ChunkerOutputValidates` | scripts/validate_data.py:48-98 | any non-empty output of the chunking step validates: True, with the right total and no problems |
| `Indexing.CallFor` | scripts/index_documents.py:98-116 | the `add` call of a batch holds aligned lists: each chunk's id, text, metadata and embedding at the same position |
| `Indexing.Calls` | scripts/index_documents.py:88-116 | a run makes `(n + 31) // 32` aligned calls |
| `Indexing.Entries` | scripts/index_documents.py:111-116 | a call adds one record per id |
| `Indexing.VectorStore.DeleteCollection` | scripts/index_documents.py:69-74 | afterwards there is no collection, whether or not there was one |
| `Indexing.VectorStore.CreateCollection` | scripts/index_documents.py:76-80 | creation succeeds exactly when no collection exists, and gives an empty one |
| `Indexing.VectorStore.Add` | scripts/index_documents.py:111-116 | the call is appended to the calls the collection has received |
| `Indexing.IndexDocuments` | scripts/index_documents.py:31-116 | a missing chunks file returns False and changes nothing; otherwise the collection is recreated and receives one call per batch, and ends holding one record per chunk, in chunk order |
| `Indexing.BatchBounds` | scripts/index_documents.py:93-98 | batch `b` holds between 1 and 32 chunks, starting at chunk `32 b` |
| `Indexing.ContentPrefix` | scripts/index_documents.py:93-116 | after `k` calls the collection holds the records of the first `min(32 k, n)` chunks |
| `Indexing.RunContent` | scripts/index_documents.py:84-116 | a complete run leaves exactly the records of all the chunks, in order |
| `Schemas.RequiredErrors` | backend/app/models/schemas.py:30-31 | a required field gives no error exactly when it is given |
| `Schemas.LengthErrors` | backend/app/models/schemas.py:32-33 | a given string gives no error exactly when its length is within bounds |
| `Schemas.RangeErrors` | backend/app/models/schemas.py:46-47 | a given integer gives no error exactly when it is within bounds |
| `Schemas.NotNullErrors` | backend/app/models/schemas.py:44-54 | a field with a non-optional default gives no error exactly when it is not `null` |
| `Schemas.ParseQuestionRequest` | backend/app/models/schemas.py:17-60 | a question request validates exactly when it meets the bounds (3-500 characters, 1-10 results); the defaults are None, 3, True and None |
| `Schemas.QuestionRequestRoundTrip` | backend/app/models/schemas.py:17-60 | serialising a valid request and validating it again gives the same request |
| `Schemas.QuestionRequestDefaults` | backend/app/models/schemas.py:38-60 | a payload with only a valid question gets every default |
| `Schemas.ParseFeedbackRequest` | backend/app/models/schemas.py:63-91 | feedback validates exactly when the rating is -1, 0 or 1 and the comment, when given, is at most 500 characters |
| `Schemas.FeedbackRequestRoundTrip` | backend/app/models/schemas.py:63-91 | serialising valid feedback and validating it again gives the same feedback |
| `Schemas.ParseSource` | backend/app/models/schemas.py:98-106 | a source validates exactly when source, category and score are given; the excerpt defaults to None |
| `Schemas.ParseQuestionResponse` | backend/app/models/schemas.py:109-136 | a response validates exactly when its four leading fields are given and metadata is not `null`; the four carry the payload's values; session id and reformulated query default to None, metadata to `{}` |
| `Schemas.NewSource` | backend/app/api/routes.py:102-106 | the source the routes build is one that the response model accepts |
| `Conversations.ConversationId` | backend/app/core/conversation_manager.py:36 | a conversation id is `conv_` followed by at most 12 hex characters |
| `Conversations.MessageId` | backend/app/core/conversation_manager.py:78 | a message id is `msg_` followed by at most 8 hex characters |
| `Conversations.NewConversation` | backend/app/core/conversation_manager.py:38-46 | a new record has its id, no messages and a count of 0 |
| `Conversations.AppendKeepsWellFormed` | backend/app/core/conversation_manager.py:85-87 | appending keeps the earlier messages, puts the new one last, and keeps the count equal to the number of messages |
| `Conversations.AppendRecountsMessages` | backend/app/core/conversation_manager.py:87 | after an append the count equals the number of messages, even if it was off before |
| `Conversations.Preview` | backend/app/core/conversation_manager.py:132 | the preview is empty exactly when there are no messages; otherwise it is the first 50 characters of the first message followed by `...` |
| `Conversations.SortDescending` | backend/app/core/conversation_manager.py:136 | the sort is a permutation in descending order of `updated_at` |
| `Conversations.ConversationManager.ListedIds` | backend/app/core/conversation_manager.py:122 | the glob `conv_*.json` matches exactly the stored ids that begin with `conv_` |
| `Conversations.ConversationManager.Load` | backend/app/core/conversation_manager.py:92-109 | None exactly when no record has that id; otherwise the stored record |
| `Conversations.ConversationManager.Save` | backend/app/core/conversation_manager.py:161-173 | overwrites the record of that id and no other |
| `Conversations.ConversationManager.CreateConversation` | backend/app/core/conversation_manager.py:28-50 | stores a new empty record under a fresh `conv_` id, keeps the manager's invariant, and changes no other record |
| `Conversations.ConversationManager.AddMessage` | backend/app/core/conversation_manager.py:53-89 | for a stored id, appends one message to that record alone; for a missing id, creates a conversation under a fresh id and then raises the `TypeError`, since the reload of the requested id still finds nothing; keeps the manager's invariant |
| `Conversations.ConversationManager.DeleteConversation` | backend/app/core/conversation_manager.py:141-158 | True exactly when the record existed; afterwards it is gone and the other records are untouched |
| `Conversations.ConversationManager.ListConversations` | backend/app/core/conversation_manager.py:112-138 | one summary per listed id, sorted newest first |
| `Conversations.CreateThenLoad` | backend/app/core/conversation_manager.py:28-50 | loading a conversation just created gives an empty record with a `conv_` id, and every other record is untouched |
| `Conversations.DeleteThenLoad` | backend/app/core/conversation_manager.py:141-158 | loading a conversation just deleted gives None |
| `Rag.Score` | backend/app/services/rag_service.py:103 | `1 / (1 + abs(d))` lies in (0, 1] and equals 1 only at distance 0 |
| `Rag.ScoreDecreasing` | backend/app/services/rag_service.py:103 | the score strictly decreases as the absolute distance grows |
| `Rag.Hits` | backend/app/services/rag_service.py:95-104 | one hit per row of the shortest of the three result lists, carrying its text, metadata and score |
| `Rag.RetrieveDocuments` | backend/app/services/rag_service.py:65-106 | the loop gives the hits of the search for the query's embedding; a failure of the embedding or of the search propagates with its message |
| `Rag.RetrieveIgnoresFilter` | backend/app/services/rag_service.py:87-91 | the documents found, or the failure, do not depend on the category filter |
| `Rag.Block` | backend/app/services/rag_service.py:131-135 | the block of document `i` starts with the header `[Document i]` |
| `Rag.GeneratePrompt` | backend/app/services/rag_service.py:109-157 | the accumulating loop gives the prompt of the whole context, filled into the template |
| `Rag.EmptyContext` | backend/app/services/rag_service.py:125-135 | the context is empty exactly when there are no documents |
| `Rag.ContextPrefix` | backend/app/services/rag_service.py:125-135 | the context of the first `k` documents is a prefix of the whole context |
| `Rag.BlockInOrder` | backend/app/services/rag_service.py:126-135 | the block of document `k`, numbered `k + 1`, comes right after the blocks before it |
| `Rag.PromptContains` | backend/app/services/rag_service.py:138-155 | the prompt holds the whole context, then the question label, then the query |
| `Rag.AnswerOf` | backend/app/services/rag_service.py:178-195 | the first choice's content, stripped; every exception (no choice, no content, a failing call) becomes the error answer |
| `Rag.AnswerRequest` | backend/app/services/rag_service.py:180-189 | the request sends one user message holding the prompt, to the configured model |
| `Rag.FailureIndistinguishable` | backend/app/services/rag_service.py:191-195 | a completion whose text is the error answer cannot be told from a failing call |
| `Rag.Excerpt` | backend/app/services/rag_service.py:248 | the excerpt is the first 200 characters followed by `...`, whatever the length |
| `Rag.SourceViews` | backend/app/services/rag_service.py:243-251 | one source per document, in order, with its source, category, score and excerpt |
| `Rag.Ask` | backend/app/services/rag_service.py:198-263 | a failing retrieval propagates out of `ask`; otherwise the answer is the one for the prompt built from the retrieved documents, the sources are their views, and the documents are counted |
| `Routes.FormatSources` | backend/app/api/routes.py:101-108 | one response source per source, in order, copying source, category and score, with no excerpt |
| `Routes.BuildResponse` | backend/app/api/routes.py:97-132 | the response validates against the response model; it has a `q_` id, the session id, no reformulated query, and metadata counting its sources |
| `Routes.Api.GetRagService` | backend/app/api/routes.py:42-61 | a truthy session id gets its own service, created on first use; otherwise the global service; no two sessions share one |
| `Routes.Api.AskQuestion` | backend/app/api/routes.py:68-140 | asks the session's service and builds the response, and a failing service gives a 500 error. When the session's conversation is stored, or a freshly drawn conversation id is the session id, both messages are recorded. Otherwise the orphan conversations are created and the request fails with the `TypeError` before the service is asked |
| `Routes.Api.SaveQuestion` | backend/app/api/routes.py:75-88 | the session's conversation is created when missing and the user message is added to it, or the `TypeError` when the reload still finds nothing, with the exact new store in each case |
| `Routes.Api.GetHistory` | backend/app/api/routes.py:143-174 | 404 exactly for a session without a service; otherwise that service's history |
| `Routes.Api.ClearHistory` | backend/app/api/routes.py:177-193 | 404 exactly for a session without a service; otherwise that service's history is cleared |
| `Routes.Api.GetConversation` | backend/app/api/routes.py:309-327 | the stored record, or 404 exactly when there is none |
| `Routes.Api.DeleteConversation` | backend/app/api/routes.py:330-350 | 404, changing nothing, exactly when no record has that id; otherwise that record is deleted |
| `Routes.SameServiceTwice` | backend/app/api/routes.py:42-61 | two calls with the same session id give the same service, and at most one service is created |
| `Routes.GetCategories` | backend/app/api/routes.py:257-273 | the five categories, in the order of the listing |
| `Routes.CategoriesAreFolders` | backend/app/api/routes.py:265-271 | the listed ids are the parser's folders, in another order |

## Left out

- Printing, progress bars, timings, averages and percentages shown to the user (`scripts/chunk_documents.py:205-218`, `scripts/validate_data.py:70-84`, `scripts/index_documents.py:118-121`): output only, nothing is computed from them.
- The test queries at the end of `index_documents`, `test_rag_service`, and the scripts under `backend/test_*.py` and `check_install.py`: manual checks that print.
- The loading, statistics and saving around the document loop of `process_documents`: file I/O. The modelled part is the work done for each document (`scripts/chunk_documents.py:148-184`), and `doc_idx` is a parameter.
- `save_extracted_documents` and the JSON files themselves: file I/O. Each file is given as its parsed contents, or None when it is missing.
- The PDF and Word libraries, the embedding model, the vector search and the chat endpoint: foreign code. They are function parameters, and their results (or the message of the exception they raise) are inputs. An exception of the PDF or Word library is caught by the extractor, one of the chat endpoint by `generate_answer`, and one of the embedding model or the vector search propagates out of `ask`.
- `Indexing.IndexDocuments`: `model.encode` is applied to each text separately rather than to the whole batch. This is the same whenever the model encodes each text independently.
- Indexing: Chroma's rejection of duplicate ids is not modelled. Ids are distinct anyway (`Chunking.ChunkIdsDistinct`).
- `RAGService()` construction is assumed to succeed. Each new service is an opaque token.
- The conversational part of the service (`ask(..., use_history=...)`, `conversation_history`, `clear_history`): the routes call it, but `backend/app/services/rag_service.py` as shown does not define it. The routes take `ask` as a function of (service, question, count, use_history), which may fail, and history as a function of the service. Clearing returns the token of the service cleared.
- `Routes.Api.AskQuestion`: `reformulated_query` is always None and `is_greeting` always false, as this version of the service provides neither.
- `Routes.Api.AskQuestion`: `get_rag_service` is called before the missing conversation is created rather than after. It touches no conversation, so the final state is the same.
- `Rag.GeneratePrompt` and `Rag.Ask` take the prompt's fixed text as a template parameter. The service's own wording is `Rag.Prompt`, and the contracts hold for every template.
- One clock reading `now` serves a whole call, although the source reads the clock several times.
- Timestamps are ticks compared as numbers. The source compares ISO strings, which sort the same way as long as the format does not change.
- `Conversations.ConversationManager.ListConversations`: the order of `glob` is not specified. Among records with the same `updated_at`, the result is some descending order, not the particular one Python's stable sort gives.
- Floating point: distances, scores and temperatures are `real`, and rounding is not modelled.
- `Strings.LowerAscii`: only ASCII letters are lowered, where Python's `str.lower` follows Unicode and can change the length ('İ' becomes two characters). The extension test is unaffected, since no non-ASCII character lowers into `.pdf`, `.docx` or `.doc`.
- Paths are strings split at `/`. `pathlib`'s normalisation (repeated or trailing separators, `.` components, Windows separators) is not modelled.
- `rglob` order is an input, and each entry carries its path relative to its category folder `data/raw/<category>`.
- `Chunking.CleanTextGuarantees`: no idempotence is claimed. A line of only whitespace between two blank lines leaves three newlines after stripping, which a second cleaning would collapse.
- `Chunking.DocstringExample`: it records that the code gives four chunks where the `chunk_text` docstring shows three. The code's behaviour is what is modelled.
- `Routes.CategoriesAreFolders`: the categories endpoint lists "faqs" before "notes", while the parser visits "notes" first. Both orders are modelled as written.
- `Validation.ValidateData`: only the four metadata keys the script reads are modelled. Values of the wrong JSON type (a text that is not a string, a word count that is not a number) and the `AttributeError` or `TypeError` they would raise are not modelled.
- `Validation.ValidationReport`: the category distribution is kept in first-appearance order. The `most_common()` order is used only for printing and is not modelled.
- Pydantic's type coercion, extra fields and exact error messages: a field is absent, `null`, or a value of its declared type. Errors carry the field name and an error kind.
- `submit_feedback`, `health_check`, and the create and list conversation routes: thin wrappers around logging or the manager's methods, which are modelled.
- `async` handlers, concurrency between requests, and the FastAPI application setup in `backend/app/main.py` and `backend/app/core/config.py`.
- The Streamlit front end (`frontend/streamlit_app.py`): user interface only.
