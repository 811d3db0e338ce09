# Repair-case RAG assistant: a verified model of its core

The system answers questions about tank-repair cases from a folder of knowledge
files (`.txt`). An administrator logs in and maintains the folder: listing, reading,
creating and deleting files. A retrieval service builds a vector index over the files.
That index may be saved and reloaded, and the service searches it for the chunks
closest to a query. To answer, it puts the retrieved chunks into a prompt together with
the case numbers found in them and the case summary, then asks a language model for
an answer, retrying while the model reports a rate limit. It then takes the "判断理由"
(reasons) section out of the answer. HTTP routes wrap these operations:

- the search, answer and index routes;
- a route that names the Word documents it generates (the estimate and the order);
- a document service that escapes text and fills the placeholders of the order template;
- a script that copies the saved index's chunks into a database table.

The model is one Dafny module per part of the program:

- `Wrappers`, `Http` and `PyText` hold the datatypes and the Python string operations the
  rest relies on. These include `str.strip`, `split`, `join` and `replace`, slicing, and
  `str(n)`.
- `KnowledgeService` models the knowledge folder as a map from file names to entries. It
  covers listing, reading and classifying the files.
- `Auth` models the admin session store, as a class whose token set is updated in place.
- `AdminKnowledge` models the admin file routes as functions from a folder to a new folder
  and a response.
- `Rag` models the retrieval service as a class with its in-memory index and the index
  saved on disk. It covers index creation, loading, search and answer generation with the
  retry loop. The parser, the retriever and the language model are oracles passed in an
  `Env`. The retriever and the model take the number of the call within one request, so
  each attempt of the retry loop may see a different search outcome and a different
  reply. The fixed output requirements that end every prompt are held in a constant
  field of the service, so the answer's contract names them without restating the text.
- `SearchResults`, `CaseNumbers`, `Contractors`, `RagPrompt` and `Reasoning` cover the
  parts of answer generation: shaping the results, the seven case-number regular
  expressions, the contractor mapping, the prompt, and extracting the reasons.
- `RagRoutes` models the search, answer, index-creation, re-index and status routes,
  including the log record the answer route saves.
- `DocumentsRoutes` and `DocumentService` model the download file names, the text
  escaping, the order number, the placeholder table and the in-place filling of the
  template's paragraphs.
- `ChunkImport` models the import script as a class holding the `chunks` table.

## Model

| member | source | states |
|---|---|---|
| PyText.IsSpace | app/api/routes/rag_search.py:31 | the characters Python's `str.isspace()` accepts, which `strip()` removes |
| PyText.Strip | app/api/routes/rag_search.py:31-36 | `str.strip()`: no whitespace at either end, and empty exactly for an all-whitespace string |
| PyText.Take | app/services/rag_service.py:336 | `s[:n]`: the first `n` characters, or the whole string when shorter |
| PyText.Truncate | app/services/document_service.py:93 | the text itself when it has at most `limit` characters, else its first `limit` characters and "..." |
| PyText.LowerChar | app/services/rag_service.py:479 | `str.lower()` on one character, for the ASCII letters |
| PyText.Lower | app/services/rag_service.py:479 | the model's `str.lower()`: each character is mapped by `LowerChar` (the ASCII capitals to their small letters, every other character kept), one for one |
| PyText.ReplaceAll | app/services/document_service.py:60-62 | `str.replace`: occurrences found left to right, without overlap, each replaced |
| PyText.Split | app/services/rag_service.py:449 | `str.split(sep)`: at least one piece, the first a prefix of the text |
| PyText.Join | app/services/rag_service.py:457 | `sep.join(parts)`: the pieces with `sep` between neighbours |
| PyText.UniversalNewlines | app/services/knowledge_service.py:82 | what `read_text` returns for written text: no carriage return left, and never longer |
| PyText.NoCarriageReturnUnchanged | app/services/knowledge_service.py:82 | text without a carriage return reads back unchanged |
| PyText.UniversalNewlinesIdempotent | app/services/knowledge_service.py:82 | translating the line endings twice is translating them once |
| KnowledgeService.FileType | app/services/knowledge_service.py:96-133 | the category is always one of the fourteen labels the classifier returns |
| KnowledgeService.UnknownMeansNoRule | app/services/knowledge_service.py:106-133 | "unknown" only when no prefix rule and neither exact name applies |
| KnowledgeService.NoRuleMeansUnknown | app/services/knowledge_service.py:106-133 | a name matching no rule is classified "unknown" (the converse) |
| KnowledgeService.ExactNameLabels | app/services/knowledge_service.py:128-131 | "case_study" and "lessons" are given only to the two exact file names |
| KnowledgeService.NoPrefixByName | app/services/knowledge_service.py:106-133 | a name with no rule prefix is classified by the two exact-name tests alone, else "unknown" |
| KnowledgeService.PastHeadHasNoPrefix | app/services/knowledge_service.py:106-129 | a name starting "past_" (so "past_case_study.txt") starts with none of the rule prefixes |
| KnowledgeService.CommonHeadHasNoPrefix | app/services/knowledge_service.py:106-129 | a name starting "commo" (so "common_mistakes_lessons.txt") starts with none of the rule prefixes |
| KnowledgeService.ExactNamesClassified | app/services/knowledge_service.py:128-131 | the two exact names get their own labels |
| KnowledgeService.LegalAndSafetyShareCategory | app/services/knowledge_service.py:112-113 | both "legal_" and "safety_" files are "legal_safety" |
| KnowledgeService.IsTraversal | app/services/knowledge_service.py:69-70 | a name containing "..", "/" or "\\" |
| KnowledgeService.KnowledgeError.Message | app/services/knowledge_service.py:69-85 | the text of each error `get_file_content` raises: "Invalid filename", or "File not found: ", "Not a file: " or "File encoding error: " followed by the name |
| KnowledgeService.GetFileContent | app/services/knowledge_service.py:51-94 | "Invalid filename" exactly for a traversal name; "Not a file" for "", "." or a folder; "File not found" for any other absent name; an encoding error for a regular file whose content cannot be decoded; success exactly for a readable regular file, returning its name, content, size and time |
| KnowledgeService.Insert | app/services/knowledge_service.py:34-47 | inserting keeps the names sorted and adds exactly the new name |
| KnowledgeService.SortNames | app/services/knowledge_service.py:34-47 | `sorted(glob(...))`: sorted, and holds exactly the given names |
| KnowledgeService.Filenames | app/services/knowledge_service.py:36-47 | the names of the listed entries, in order |
| KnowledgeService.AppendKeepsSorted | app/services/knowledge_service.py:34-47 | appending the next sorted name to a sorted selection keeps it sorted |
| KnowledgeService.Describe | app/services/knowledge_service.py:35-46 | the record of a listed file carries its name, type, size and time |
| KnowledgeService.ListingStep | app/services/knowledge_service.py:34-46 | appending the next name's record keeps the listing sorted and adds exactly that name |
| KnowledgeService.ListingSkip | app/services/knowledge_service.py:34-36 | skipping a name that is not a `.txt` regular file leaves the listed names unchanged |
| KnowledgeService.GetFileList | app/services/knowledge_service.py:18-49 | the listing is sorted by name, holds exactly the `.txt` regular files, and describes each with its type, size and time |
| Auth.IsAdmin | app/core/auth.py:41-53 | a session is valid exactly when a token is given and it is in the session store |
| Auth.VerifyPassword | app/core/auth.py:15-25 | accepted exactly when the password equals the configured one |
| Auth.RequireAdmin | app/core/auth.py:66-83 | no error exactly when the cookie holds a live session token; otherwise 401 "Admin authentication required" |
| Auth.AdminSessions.Verify | app/core/auth.py:41-53 | a missing token is refused; otherwise valid exactly when it is in the store |
| Auth.AdminSessions.Create | app/core/auth.py:28-38 | the issued token is added and becomes valid; no other token changes validity |
| Auth.AdminSessions.Delete | app/core/auth.py:56-63 | the token is removed and is no longer valid; deleting an unknown token changes nothing; no other token changes validity |
| Auth.AdminSessions.Require | app/core/auth.py:66-83 | the store-based check agrees with `RequireAdmin` and fails exactly when the cookie is not a valid session |
| AdminKnowledge.NormalizeName | app/api/routes/admin_knowledge.py:107-109 | the stripped name, with ".txt" appended unless it already ends so |
| AdminKnowledge.NormalizeIdempotent | app/api/routes/admin_knowledge.py:107-109 | normalising twice is normalising once |
| AdminKnowledge.CheckedName | app/api/routes/admin_knowledge.py:104-113 | 400 "Filename is required" exactly for a blank name, 400 "Invalid filename" exactly for a traversal, otherwise the normalised name |
| AdminKnowledge.CreateFile | app/api/routes/admin_knowledge.py:85-134 | 401 without a session; name errors; 400 when the file exists; success exactly when admin, valid, new and written, and the folder gains that file, which reads back as the content with its line endings translated |
| AdminKnowledge.DeleteFile | app/api/routes/admin_knowledge.py:137-185 | 401 without a session; name errors; 404 when absent; success exactly when admin, valid and a regular file, and the folder loses it |
| AdminKnowledge.ContentName | app/api/routes/admin_knowledge.py:66-67 | ".txt" is appended unless the name already ends so |
| AdminKnowledge.GetContent | app/api/routes/admin_knowledge.py:48-82 | 401 without a session; 404 "File not found" exactly for a missing file; 400 exactly for a traversal, a folder or undecodable content; success exactly for a readable regular file, returning its name, content, size and time |
| AdminKnowledge.CreateThenRead | app/api/routes/admin_knowledge.py:85-134 | a created file reads back with the content it was created with, its line endings translated; content without a carriage return reads back unchanged |
| AdminKnowledge.DeleteThenNotFound | app/api/routes/admin_knowledge.py:137-185 | a deleted file is then reported missing with 404 |
| DocumentsRoutes.SafeChars | app/api/routes/documents.py:50 | same length; alphanumerics, "-" and "_" kept, every other character turned into "_" |
| DocumentsRoutes.SafeStem | app/api/routes/documents.py:48-51 | between 1 and 50 kept characters: the first 50 safe characters, or "case" when the name is empty |
| DocumentsRoutes.Attachment | app/api/routes/documents.py:53-58 | always ASCII; the prefixed stem when it is ASCII, otherwise the fixed fallback name |
| DocumentsRoutes.DownloadName | app/api/routes/documents.py:98-108 | the download file name is always ASCII |
| DocumentsRoutes.PlainNamePassesThrough | app/api/routes/documents.py:48-58 | a short ASCII name of safe characters is used as it is |
| DocumentsRoutes.NonAsciiFallsBack | app/api/routes/documents.py:98-108 | a non-ASCII letter within the first 50 characters makes the name fall back to "order_case.docx" or "estimate_case.docx" |
| DocumentsRoutes.StemLength | app/api/routes/documents.py:51 | the stem of a non-empty name has the name's length capped at 50 |
| DocumentService.Escaped | app/services/document_service.py:57-63 | each selected character replaced by its entity, one character at a time (the reference definition of the escape) |
| DocumentService.Unsanitize | app/services/document_service.py:57-63 | the reverse replacements "&lt;", "&gt;", then "&amp;" (the partner of the escape) |
| DocumentService.Sanitize | app/services/document_service.py:47-63 | the three chained replacements equal escaping each "&", "<" and ">" by its entity |
| DocumentService.SanitizeRoundTrip | app/services/document_service.py:57-63 | un-escaping the sanitised text gives the text back |
| DocumentService.SanitizedWellFormed | app/services/document_service.py:57-63 | the output holds no "<" or ">", and every "&" begins an entity |
| DocumentService.PlainTextUnchanged | app/services/document_service.py:57-63 | text without "&", "<" and ">" is unchanged |
| DocumentService.EstimateAnswer | app/services/document_service.py:93 | at most 5003 characters; the answer itself when it has at most 5000, else its first 5000 characters and "..." |
| DocumentService.PdfAnswer | app/services/document_service.py:256 | the per-character escape of the answer cut to 2000 characters (plus "..." when longer); it un-escapes to that cut, holds no "<" or ">", and every "&" in it begins an entity |
| DocumentService.NotesValue | app/services/document_service.py:168 | always ends in the disclaimer, preceded by the notes and a newline when notes are given |
| DocumentService.Pad4 | app/services/document_service.py:144 | four digits whose value is the number |
| DocumentService.OrderSuffix | app/services/document_service.py:144 | four digits whose value is the hash modulo 10000 |
| DocumentService.OrderNumber | app/services/document_service.py:144 | "ORD-", then the date stamp at index 4, then "-" and the four-digit suffix |
| DocumentService.Replacements | app/services/document_service.py:147-169 | one entry per placeholder in order, with the contractor, the case name and the notes in their places |
| DocumentService.PlaceholderKeysValid | app/services/document_service.py:147-169 | every placeholder key is non-empty |
| DocumentService.Substitute | app/services/document_service.py:174-175 | a paragraph holding the key becomes one run with every occurrence replaced; any other paragraph is kept |
| DocumentService.Filled | app/services/document_service.py:172-176 | a paragraph after all the replacement pairs, applied in dictionary order |
| DocumentService.SubstituteReplacesEvery | app/services/document_service.py:172-176 | a replacement cuts the paragraph at every key occurrence, the pieces hold no key, and they are rejoined with the value |
| DocumentService.NoKeyUntouched | app/services/document_service.py:172-176 | a paragraph with no placeholder keeps its runs |
| DocumentService.OrderTemplate.Fill | app/services/document_service.py:172-184 | every body paragraph and every table-cell paragraph becomes its filled version |
| DocumentService.FillAll | app/services/document_service.py:172-176 | every paragraph of the array becomes its filled version |
| ChunkImport.SliceBound | scripts/import_chunks_to_db.py:118 | a Python slice bound clamped into the string |
| ChunkImport.PySlice | scripts/import_chunks_to_db.py:118 | `s[start:end]` equals the Dafny slice in range and runs to the end past it |
| ChunkImport.Window | scripts/import_chunks_to_db.py:112-118 | a window exists exactly when its start (index times 350) is inside the text, and it is the up-to-400 characters from there |
| ChunkImport.WindowOverlap | scripts/import_chunks_to_db.py:112-118 | a full window shares its last 50 characters with the next window |
| ChunkImport.ChunkText | scripts/import_chunks_to_db.py:92-121 | truthy docstore text wins. Otherwise, with a file name and a chunk index, the text is the window of the file's content, and None when the read fails. Any other text needs a file name and a chunk index |
| ChunkImport.Preview | scripts/import_chunks_to_db.py:142-145 | present exactly for truthy text; the text itself when it has at most 200 characters, else its first 200 characters and "..." |
| ChunkImport.TextLength | scripts/import_chunks_to_db.py:163 | present exactly for truthy text, and then its positive length |
| ChunkImport.Dimension | scripts/import_chunks_to_db.py:148-153 | present exactly for a non-empty vector, and then its length |
| ChunkImport.DocumentId | scripts/import_chunks_to_db.py:130 | `document_id`, else `doc_id`, else the reference document id |
| ChunkImport.FileUpdatedAt | scripts/import_chunks_to_db.py:132-140 | none for a missing or zero `updated_at`; otherwise `datetime.fromtimestamp` of it, none when that conversion raises |
| ChunkImport.RowFor | scripts/import_chunks_to_db.py:124-171 | every column of the `Chunk` row: the chunk id; file name and type, "unknown" when missing; chunk index and file size from the metadata; the text by `ChunkText`, its preview and length; the document id and the reference document id; `file_updated_at` by `FileUpdatedAt`; the vector and its dimension; and `metadata_json` standing for the node's whole metadata |
| ChunkImport.ResolveText | scripts/import_chunks_to_db.py:99-121 | the text read through `file_content_cache` is `ChunkText`; only successful reads are cached, and a file is read again only after a failed read |
| ChunkImport.ChunkTable.Import | scripts/import_chunks_to_db.py:53-174 | the table is emptied; with no vector store nothing is imported; otherwise one row per embedding, in order, each with all the columns `RowFor` gives (including `file_updated_at` and `metadata_json`), and the count; a file is read again only after a failed read |
| Rag.Documents | app/services/rag_service.py:56-75 | at most one document per listed file |
| Rag.DocumentsExact | app/services/rag_service.py:56-75 | a document is loaded exactly for each listed file that reads successfully |
| Rag.ChunksComeFromDocuments | app/services/rag_service.py:92-100 | every chunk is a numbered piece of a loaded document |
| Rag.ChunkCount | app/services/rag_service.py:92-100 | the chunk count is the total number of pieces |
| Rag.Create | app/services/rag_service.py:32-127 | success exactly when an index is built; a failure reports zero files and chunks; a success reports the files indexed and the chunk count |
| Rag.CreatedFromReadableFiles | app/services/rag_service.py:56-119 | a successful build indexes exactly the readable files, and every chunk is a piece of one of them |
| Rag.NoReadableNoDocuments | app/services/rag_service.py:56-75 | no readable file means no document |
| Rag.NothingToIndex | app/services/rag_service.py:77-83 | with no readable file no index is built, and the message says so |
| Rag.NumberChunks | app/services/rag_service.py:92-100 | one chunk per piece, numbered from 0, carrying the document's metadata |
| Rag.CollectDocuments | app/services/rag_service.py:56-75 | the document loop loads `Documents` |
| Rag.ChunkDocuments | app/services/rag_service.py:92-100 | the chunking loop yields `AllChunks` |
| Rag.Loadable | app/services/rag_service.py:129-153 | a saved index that loads without an error |
| Rag.Fetched | app/services/rag_service.py:164-178 | memory first, then the saved index, then a build from the listing, kept and saved only when it succeeds |
| Rag.Hits | app/services/rag_service.py:231-255 | the result list of a search: one shaped result per retrieved node, in retrieval order |
| Rag.SearchResult | app/services/rag_service.py:191-274 | the report of retrieval number `n`: no index gives the "Index not found" report; a retrieval error gives "Search error: "; otherwise one shaped result per node, each file once, and the count |
| Rag.FetchFailsOnlyIfCreateFails | app/services/rag_service.py:164-178 | getting the index yields none exactly when nothing was loaded or loadable and creating one failed |
| Rag.SearchesAgree | app/services/rag_service.py:191-274 | two searches of the same index with the same retrieval outcome agree on everything but the order of the referenced files |
| Rag.SearchCounts | app/services/rag_service.py:228-263 | a successful search counts the retrieved chunks and lists each referenced file once |
| Rag.NoDuplicatesCount | app/services/rag_service.py:255-263 | a duplicate-free list of a set's elements has the set's size |
| Rag.IsRateLimit | app/services/rag_service.py:479 | "rate limit" in the lower-cased message, or "429" in the message |
| Rag.OutcomeAt | app/services/rag_service.py:299-311 | how attempt `a` ends: "Index not found", "Search error: " with the retriever's error, or "No search results found" when that attempt's search fails or is empty; otherwise the model's reply to the prompt built from that attempt's results |
| Rag.OutcomeOfSearch | app/services/rag_service.py:299-311 | an attempt ends as its search report says: a failed or empty search ends it with the report's message, whatever the model would say; otherwise the model is asked with the prompt built from the report's results |
| Rag.RateLimited | app/services/rag_service.py:478-482 | the model raised an error that the rate-limit test accepts |
| Rag.Attempts | app/services/rag_service.py:298-500 | the attempts from attempt `a` on: a failed or empty search, an answer or a non-rate-limit error ends them; a rate limit before the last attempt waits `retry_delay * (attempt + 1)` and tries again; a rate limit on the last gives the rate-limit message |
| Rag.AttemptsBounded | app/services/rag_service.py:295-298 | at most two waits, of 1 and then 2 seconds |
| Rag.FirstOtherOutcomeDecides | app/services/rag_service.py:298-500 | the first attempt that is not rate-limited decides the outcome, whether its search failed, the model answered or the model raised another error; there is one growing wait per rate-limited attempt before it |
| Rag.RateLimitedThrice | app/services/rag_service.py:478-491 | three rate-limited attempts end in the rate-limit message after waiting 1 and 2 seconds |
| Rag.Failure | app/services/rag_service.py:303-311 | the failed-answer dictionary: not a success, the query, an empty answer, reasoning and file list, and the given message; the same shape is returned at lines 485-491 and 494-500 |
| Rag.AnswerFrom | app/services/rag_service.py:276-509 | the answer from the outcome of every attempt: a success carries non-empty reasons, the results and the referenced files of the search that ended the call, and no message; a failure carries a message |
| Rag.SearchFailureStops | app/services/rag_service.py:301-311 | a failed or empty first search ends the call at once with its message, without a wait |
| Rag.SearchFailsOnRetry | app/services/rag_service.py:298-311 | a search that fails on the retry after a rate limit ends the call with that search's message, after the one-second wait |
| Rag.RagService.constructor | app/services/rag_service.py:20-30 | no index in memory; the saved index as given; the fixed output requirements that close every prompt |
| Rag.RagService.CreateIndex | app/services/rag_service.py:32-127 | the report is `Create`'s; on success the index is kept and saved, otherwise both stay as they were |
| Rag.RagService.LoadIndex | app/services/rag_service.py:129-153 | loaded exactly when the saved index is loadable, and then it becomes the index |
| Rag.RagService.GetIndex | app/services/rag_service.py:164-178 | returns the index in memory after trying memory, then disk, then a fresh build |
| Rag.RagService.IsIndexReady | app/services/rag_service.py:180-189 | ready exactly when an index is in memory or the saved one loads |
| Rag.RagService.Search | app/services/rag_service.py:191-274 | the report is retrieval number `n` over the index as it is after fetching it |
| Rag.RagService.EngineIndex | app/services/rag_service.py:431-434 | the query engine runs on the index in memory, which stays unchanged |
| Rag.RagService.Attempt | app/services/rag_service.py:299-437 | attempt `a` searches with retrieval number `a`; it ends with the search's message when the search fails or is empty, and otherwise with the model's reply for this attempt; the ending is `OutcomeAt` |
| Rag.RagService.RunAttempts | app/services/rag_service.py:295-500 | every attempt searches again. The answer and waits are `AnswerFrom` of all attempts' outcomes, and `s` is the search of the attempt that ended the call, the one after the last wait. A success comes from a search that found results |
| Rag.RagService.GenerateAnswer | app/services/rag_service.py:276-509 | the retry loop, with each attempt's prompt built from the query, the case summary and that attempt's results |
| Rag.PendingStart | app/services/rag_service.py:295-299 | before the first attempt nothing is decided |
| Rag.PendingStep | app/services/rag_service.py:479-482 | a rate-limited attempt that is not the last adds a wait of `retry_delay * (attempt + 1)` |
| Rag.Concluded | app/services/rag_service.py:301-311 | the final report of the attempt that ends the call: it succeeds exactly when the model answered, and then carries the answer, the results and the referenced files; a failed or empty search gives its own message |
| Rag.Conclude | app/services/rag_service.py:301-500 | the report that the attempt ending the call builds is `Concluded` |
| Rag.AnswerFromTries | app/services/rag_service.py:301-500 | the attempt that stops the loop decides the answer: its search's message, success with the extracted reasons, the rate-limit message, or "Error generating answer: " and the error |
| SearchResults.BareNodeDefaults | app/services/rag_service.py:233-244 | a node without text, score or metadata gets "", 0.0, "unknown", "unknown" and -1 |
| SearchResults.PresentMetadataKept | app/services/rag_service.py:236-240 | metadata that is present is copied unchanged |
| SearchResults.FileNames | app/services/rag_service.py:229-255 | exactly the file names of the results |
| SearchResults.ListOfSet | app/services/rag_service.py:261 | `list(set)`: each element once, and nothing else |
| SearchResults.ShapeHit | app/services/rag_service.py:232-255 | one result dictionary, with "", 0.0, "unknown", "unknown" and -1 for missing values |
| SearchResults.ShapeResults | app/services/rag_service.py:228-261 | one result per node in order, and the referenced files are each result's file name, once |
| CaseNumbers.GapEnd | app/services/rag_service.py:320-328 | the end of the longest run of gap characters |
| CaseNumbers.CharMatch | app/services/rag_service.py:320-328 | IGNORECASE on one character: equal, the same ASCII letter in the other case, or the long s for "s" |
| CaseNumbers.DigitsEnd | app/services/rag_service.py:320-328 | the end of the longest run of digits |
| CaseNumbers.MatchAt | app/services/rag_service.py:320-328 | a match at an index has the marker there and captures a non-empty run of digits |
| CaseNumbers.FindAll | app/services/rag_service.py:329-330 | every capture is a non-empty run of digits |
| CaseNumbers.FindAllStep | app/services/rag_service.py:329-330 | unfolding lemma for one step of the `re.findall` scan: the match at the index is taken and the scan resumes at its end, or with no match there the scan moves on by one character |
| CaseNumbers.NoMatchBefore | app/services/rag_service.py:329-330 | no match starts between two indices |
| CaseNumbers.FirstMatchFound | app/services/rag_service.py:329-330 | the first match at or after the start is found first, and the scan resumes at its end |
| CaseNumbers.NoMarkerNoMatch | app/services/rag_service.py:329-330 | without the marker, `findall` finds nothing |
| CaseNumbers.FoundAreMatches | app/services/rag_service.py:329-330 | every capture comes from a match at some index |
| CaseNumbers.MatchesOf | app/services/rag_service.py:329-331 | every collected capture is a non-empty run of digits |
| CaseNumbers.NoMatchNoFind | app/services/rag_service.py:329-330 | no match anywhere means nothing found |
| CaseNumbers.NoMatchPastStart | app/services/rag_service.py:329-330 | when only index 0 could start a match and it does not, nothing is found |
| CaseNumbers.NumberAfterNoDot | app/services/rag_service.py:321 | the first pattern finds "6" in "事例No.6" |
| CaseNumbers.SpacesOnlyGapRejectsNoDot | app/services/rag_service.py:326 | the whitespace-only pattern finds nothing in "事例No.6" |
| CaseNumbers.InMatchesOfOne | app/services/rag_service.py:329-331 | a capture of one pattern is among the collected captures |
| CaseNumbers.CaptureSlice | app/services/rag_service.py:329-330 | every capture is a slice of the text |
| CaseNumbers.MatchesSlice | app/services/rag_service.py:329-331 | every collected capture is a slice of the text |
| CaseNumbers.SoleDigit | app/services/rag_service.py:329-331 | when the text has a single digit, every capture is that digit |
| CaseNumbers.DedupConstant | app/services/rag_service.py:332 | de-duplicating copies of one value leaves it once |
| CaseNumbers.OneNumber | app/services/rag_service.py:315-332 | a text whose only digit some pattern captures has exactly that case number |
| CaseNumbers.NoDotExample | app/services/rag_service.py:315-332 | "事例No.6" yields ["6"] |
| CaseNumbers.PlainExample | app/services/rag_service.py:315-332 | "事例6" yields ["6"] |
| CaseNumbers.CaseExample | app/services/rag_service.py:315-332 | "Case 6" yields ["6"] |
| CaseNumbers.KatakanaExample | app/services/rag_service.py:315-332 | "ケース6" yields ["6"] |
| CaseNumbers.Dedup | app/services/rag_service.py:332 | `list(set(xs))`: no duplicates, exactly the elements of the input, no longer than it |
| CaseNumbers.CaseNumbersOf | app/services/rag_service.py:315-332 | distinct non-empty digit strings, the captures of the seven `Patterns` in order |
| CaseNumbers.ExtractCaseNumbers | app/services/rag_service.py:315-332 | the seven `findall`s, extended and de-duplicated, give `CaseNumbersOf` |
| CaseNumbers.DedupList | app/services/rag_service.py:332 | the element loop computes `Dedup` |
| CaseNumbers.NoMarkerNoCaseNumbers | app/services/rag_service.py:315-332 | a text without any marker yields no case numbers |
| CaseNumbers.NothingFound | app/services/rag_service.py:329-331 | patterns that each find nothing collect nothing |
| CaseNumbers.InsertBy | app/services/rag_service.py:346 | insertion keeps the order by key and adds exactly the inserted element |
| CaseNumbers.InsertPermutes | app/services/rag_service.py:346 | insertion adds exactly one copy of the element |
| CaseNumbers.SortBy | app/services/rag_service.py:346 | `sorted(..., key=...)`: ordered by key and a permutation of the input |
| CaseNumbers.InsertKeepsDistinct | app/services/rag_service.py:346 | inserting a new element keeps a list duplicate-free |
| CaseNumbers.SortKey | app/services/rag_service.py:346 | `int(x) if x.isdigit() else 0` |
| CaseNumbers.SortKeepsDistinct | app/services/rag_service.py:346 | sorting keeps a list duplicate-free |
| Contractors.LineEnd | app/services/rag_service.py:353 | the first newline at or after the index, or the end of the text |
| Contractors.LastNonNewline | app/services/rag_service.py:353 | the last character in the range that is not a newline, if there is one |
| Contractors.CaptureAt | app/services/rag_service.py:353 | a capture has the label there, is non-empty and lies on one line |
| Contractors.FirstMatch | app/services/rag_service.py:353 | `re.search`: the leftmost index where the pattern matches, or none anywhere |
| Contractors.ContractorOf | app/services/rag_service.py:353-355 | the contractor lies on one line and has no whitespace at either end |
| Contractors.ContractorLeftmost | app/services/rag_service.py:353-355 | no contractor exactly when the pattern matches nowhere; otherwise the stripped leftmost capture |
| Contractors.NoLabelNoContractor | app/services/rag_service.py:353-355 | a text without the label names no contractor |
| Contractors.LabelLineNamesContractor | app/services/rag_service.py:353-355 | a label line names the rest of that line |
| Contractors.TrailingLabelNamesEmpty | app/services/rag_service.py:353-355 | a label followed only by a space yields the empty name |
| Contractors.LineEndAt | app/services/rag_service.py:353 | `LineEnd` is the first newline |
| Contractors.FoldKeys | app/services/rag_service.py:349-361 | a contractor is a key exactly when some contribution names it |
| Contractors.FoldListsNonEmpty | app/services/rag_service.py:349-361 | with non-empty contributions every list is non-empty |
| Contractors.FoldListsSound | app/services/rag_service.py:349-361 | every listed number comes from a contribution naming that contractor |
| Contractors.FoldListsComplete | app/services/rag_service.py:349-361 | every number a contribution brings is on the list of the contractor it names |
| Contractors.Entry | app/services/rag_service.py:350-361 | what one result adds: its contractor and case numbers, when it has both |
| Contractors.MapEach | app/services/rag_service.py:349-358 | the loop visits every result once, in order: element `i` of the contributions is that of result `i`, and there are as many as results |
| Contractors.MappingShape | app/services/rag_service.py:348-361 | a key exactly for each contractor named by a result with case numbers; non-empty lists; a number is listed under a contractor exactly when it is a case number of a result naming that contractor |
| Contractors.Contribute | app/services/rag_service.py:350-358 | one text's contractor and case numbers |
| Contractors.Accumulate | app/services/rag_service.py:358-361 | the numbers are appended to the contractor's list, which starts empty |
| Contractors.MappingOf | app/services/rag_service.py:348-361 | the mapping after the loop: each result's entry folded in order with `setdefault` and `extend` |
| Contractors.BuildMapping | app/services/rag_service.py:348-361 | the loop computes `MappingOf` |
| RagPrompt.ContextBlock | app/services/rag_service.py:337 | a block is "[n] ", the first 1000 characters of the text, and the source line |
| RagPrompt.BlockAt | app/services/rag_service.py:336-339 | block `i` is result `i`'s, numbered `i + 1` |
| RagPrompt.BlocksNumbered | app/services/rag_service.py:336-339 | block `i` is result `i`'s, numbered `i + 1` |
| RagPrompt.ContextText | app/services/rag_service.py:335-339 | the blocks of the first ten results joined by a blank line |
| RagPrompt.ContextUsesFirstTen | app/services/rag_service.py:335-339 | only the first ten results reach the context |
| RagPrompt.InFlatten | app/services/rag_service.py:342-345 | an element of the concatenation comes from one list, and back |
| RagPrompt.PerResultAt | app/services/rag_service.py:342-345 | entry `i` is result `i`'s extraction |
| RagPrompt.CollectedFrom | app/services/rag_service.py:342-345 | a number is collected exactly when some result's text yields it |
| RagPrompt.CollectStep | app/services/rag_service.py:342-345 | one more result appends its case numbers to the collection |
| RagPrompt.CollectCaseNumbers | app/services/rag_service.py:342-345 | the loop collects `Collected` |
| RagPrompt.SortedSetSpec | app/services/rag_service.py:346 | `sorted(set(xs))`: each element once, ordered by numeric key |
| RagPrompt.SortedCaseNumbers | app/services/rag_service.py:342-346 | the collected case numbers de-duplicated and sorted by numeric key |
| RagPrompt.SortedCaseNumbersSpec | app/services/rag_service.py:342-346 | each case number of the results once, ordered by numeric key |
| RagPrompt.CaseLine | app/services/rag_service.py:385 | the first ten labelled numbers joined by ", ", or "なし" |
| RagPrompt.Labels | app/services/rag_service.py:385 | "事例No." in front of each number |
| RagPrompt.CaseLineShape | app/services/rag_service.py:385 | "なし" exactly when there are no case numbers, otherwise the first label first |
| RagPrompt.ListedAreSmallest | app/services/rag_service.py:346-385 | a listed number is never larger than an unlisted one |
| RagPrompt.CaseContext | app/services/rag_service.py:365-372 | empty exactly when the case summary is missing or empty |
| RagPrompt.Layout | app/services/rag_service.py:374-428 | each part of the prompt's concatenation sits at its offset |
| RagPrompt.PromptFor | app/services/rag_service.py:374-428 | the prompt of `generate_answer`: the case context, the query, the context text and the case line for the results, closed by the output requirements |
| RagPrompt.Prompt | app/services/rag_service.py:374-428 | the introduction, the case context, the query, the context and the case line, in that order, and the fixed output requirements at the end |
| Reasoning.HeadingEnd | app/services/rag_service.py:444 | the index just after the heading |
| Reasoning.SectionEnd | app/services/rag_service.py:444 | the lazy match stops at the first "4." or the end |
| Reasoning.FirstHeading | app/services/rag_service.py:444 | `re.search`: the leftmost heading, or none anywhere |
| Reasoning.Section | app/services/rag_service.py:444 | `match.group(0)` of the heading pattern: from the first heading to the next "4." or the end |
| Reasoning.FirstMarked | app/services/rag_service.py:452-456 | the first line mentioning the key |
| Reasoning.FilesLine | app/services/rag_service.py:460-461 | the fallback line starts with its fixed prefix |
| Reasoning.ReasoningOf | app/services/rag_service.py:439-461 | never empty; the referenced-files line when the key is absent; otherwise stripped text |
| Reasoning.ExtractReasoning | app/services/rag_service.py:439-461 | the line-collecting loop computes `ReasoningOf` |
| Reasoning.LinesFallback | app/services/rag_service.py:447-457 | the lines from the first one mentioning the key on, rejoined and stripped |
| Reasoning.Extracted | app/services/rag_service.py:442-457 | empty without the key; otherwise the matched section without the spaced heading, stripped, or else the line fallback |
| Reasoning.LinesFallbackKeepsKey | app/services/rag_service.py:447-457 | without a heading match the line fallback is used, and it keeps the key |
| Reasoning.SectionBefore | app/services/rag_service.py:444 | the section runs from the heading to the next "4." |
| Reasoning.SpacedHeadingAtStart | app/services/rag_service.py:444 | "3. **判断理由**" matches the pattern |
| Reasoning.UnspacedHeadingAtStart | app/services/rag_service.py:444 | "3.**判断理由**" matches the pattern too |
| Reasoning.LaidOutSection | app/services/rag_service.py:444-446 | a heading, reasons without "4.", then "4.": the match is heading and reasons |
| Reasoning.HeadedSectionExtracted | app/services/rag_service.py:442-446 | for the layout the prompt asks for, the reasons are extracted without the heading |
| Reasoning.HeadedSectionMatched | app/services/rag_service.py:444-446 | for that layout the match is the heading and the reasons |
| Reasoning.LeadingHeadingRemoved | app/services/rag_service.py:446 | the literal heading at the front is removed |
| Reasoning.UnspacedHeadingKept | app/services/rag_service.py:444-446 | the heading without a space is matched but not removed |
| Reasoning.UnspacedNotReplaced | app/services/rag_service.py:446 | the literal replacement leaves that heading in place |
| RagRoutes.TopKOf | app/api/routes/rag_search.py:35-38 | `top_k or 5`: 5 for a missing or zero value, otherwise the value |
| RagRoutes.SearchRoute | app/api/routes/rag_search.py:16-48 | 400 for a blank query, with nothing changed; otherwise a search for the stripped query; 200 exactly when it succeeds; otherwise a 500 whose detail is the service's message ("Search failed" when there is none) |
| RagRoutes.TextPreview | app/api/routes/rag_search.py:97 | none exactly for empty text; otherwise its first 200 characters |
| RagRoutes.Detail | app/api/routes/rag_search.py:91-98 | the logged detail of one result: its chunk id, file name, file type, chunk index and score, and the preview of its text |
| RagRoutes.Details | app/api/routes/rag_search.py:88-98 | the first five results, each logged from its own fields |
| RagRoutes.CaseId | app/api/routes/rag_search.py:86 | the case id exactly when the summary is present and holds one |
| RagRoutes.AnswerLog | app/api/routes/rag_search.py:85-112 | the log records the query, the summary, the answer, the reasons, the files, five results and the top-k |
| RagRoutes.AnswerRoute | app/api/routes/rag_search.py:51-135 | 400 for a blank query; otherwise the service's answer for the stripped query, over all its attempts; 200 and a log record exactly when it succeeds; 500 with the service's message otherwise |
| RagRoutes.CreateIndexRoute | app/api/routes/rag_index.py:12-37 | 401 without a session, with nothing changed; otherwise the build's report, 500 on failure, and the index kept only on success |
| RagRoutes.ReindexRoute | app/api/routes/rag_index.py:40-69 | like creation, but the index in memory is dropped first and stays dropped after a failure |
| RagRoutes.StatusRoute | app/api/routes/rag_index.py:72-88 | ready exactly when an index is in memory or the saved one loads, with the matching message |

## Left out

- The parser, the embedding retriever and the language model: the `Env` functions `parse`, `retrieve` and `generate` stand in for them. Rankings and scores are their outputs and are not modelled.
- Persistence of the index: `saved` holds the index on disk, and `Loadable` says whether loading it succeeds. The storage format is not modelled.
- `time.sleep`: the waits are returned as a list of seconds. Clocks (`processing_time`, timestamps, the order date) are parameters.
- Floating point: scores are kept as reals and never computed on. The price formatting `{price:,.0f}` is not modelled.
- Python's `hash` of the case name is a parameter of the order number.
- `secrets.token_urlsafe`: the session token is a parameter of `Create`.
- The database and the log service: the answer route returns the log record it would save. A failure to save cannot change the response, so it is not modelled.
- The failure log of the answer route is not modelled, because it does not change the response.
- The route-level `except Exception` branches are not modelled. Every failure the model can produce is already mapped to its own response.
- Rendering of Word documents and PDFs, fonts and layout: only the text put into them is modelled.
- Concurrency: two requests sharing the service or the session store are not modelled.
- Rag.SearchesAgree: the order of `referenced_files` depends on Python's set iteration order, so it is left unspecified (each file once).
- Rag.Create: splitting a document into chunks is the `parse` oracle's. Chunk sizes are not modelled.
- CaseNumbers.Dedup: `list(set(...))` has no defined order; the model keeps first occurrences. The results are sorted afterwards, so only the order of equal keys depends on this.
- PyText.LowerChar: lower-casing covers ASCII only, which is all the rate-limit test needs.
- PyText.Lower: Python's `str.lower()` also lowers non-ASCII letters, and for a few of them ("İ") the result is longer than the input. The model keeps every non-ASCII character as it is.
- ChunkImport.RowFor: `metadata_json` is represented by the metadata value it serialises. The JSON text (key order, escaping) and metadata keys other than the modelled ones are not modelled. `updated_at` is modelled as a number; a value of another type is a conversion that raises, so `fromTimestamp` returns none for it.
- ChunkImport.ChunkTable.Import: the same limits on `metadata_json` and `updated_at` as for `RowFor`. `datetime.fromtimestamp` is the parameter `fromTimestamp`, which depends on the local time zone.
- CaseNumbers: `\d` is limited to ASCII digits. The case numbers the prompt asks for and the knowledge files use ("事例No.6") are ASCII; for text writing them with other Unicode digits (full-width "６"), the source finds a number the model does not.
- SearchResults.ShapeHit: a missing `score` stands for a node without a `score` attribute, which the code turns into 0.0. A `score` attribute holding None makes `float(None)` raise inside `search`; that error is the retriever's `Err` outcome, "Search error: …", and is not modelled separately.
- AdminKnowledge.CreateFile: `write_text` is taken to write the text as given (a POSIX line separator); reading it back translates "\r\n" and "\r" to "\n". A text that cannot be encoded as UTF-8 is a write error, the `writeError` parameter.
- Non-string values in the case summary are not modelled; the summary is a map from strings to strings.
- Contractors.BuildMapping: the contractor mapping is computed on every attempt but never used, so it does not reach the answer.
- Rag.AnswerFrom: the fallback after the retry loop in `generate_answer` cannot be reached, because the last attempt always returns. It is not modelled.
- The index's documents are not exposed by `Index`. Only its chunks are visible to the model.
- The admin log routes, the knowledge browsing routes, the session login and logout routes, configuration and the Azure functions are not part of this model.
- The template-creation script is not part of this model.
