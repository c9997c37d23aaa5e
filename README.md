# FTX legal assistant: a verified model of its core

The system is a retrieval-augmented chat assistant for the FTX bankruptcy
court documents. An administrator uploads PDFs. The browser extracts their
text and cuts it into overlapping chunks of about 3500 characters. A server
function embeds the chunks in batches of 50 and inserts them into a vector
database. A chat function embeds each question and searches the database.
It filters the hits, keeps the first five as citations and builds the
model's context from them. The web client holds the transcript, a guest
query quota of seven, a guest token and the chat settings. It also names
chat sessions from their first user message.

This project models that core in Dafny and proves what it promises:

| file | module | what it models |
|---|---|---|
| `wrappers.dfy` | `Wrappers` | `Option` and `Result` |
| `text.dfy` | `Text` | JavaScript `trim`, `\s`, `join`, `Math.min`, ASCII lower/upper case, decimal rendering, subsequences, concatenation |
| `filtering.dfy` | `Filtering` | `Array.prototype.filter` and a reference definition of what it keeps |
| `patterns.dfy` | `Patterns` | the fixed regular expressions the core uses: global deletion, the `\n{3,}` collapse, the two splits, counting |
| `types.dfy` | `Types` | `Citation`, `Message`, `Role` |
| `chunker.dfy` | `Chunker` | `createBetterChunks` and the guards of `handleUpload` |
| `retrieval.dfy` | `Retrieval` | the filter, the top-five cut, the citations and the context string of the chat function |
| `summary.dfy` | `ChatSummary` | `generateChatSummary` |
| `batches.dfy` | `ProcessDocument` | the batch loop of the document-processing function |
| `chat.dfy` | `ChatHook` | the `useChat` hook, as a class `Chat` |
| `app.dfy` | `AppShell` | the mode machine, guest quota and settings of `App`, as a class `App` |

The chunker is specified on *segments*. A segment is an overlap seed plus
the whole paragraphs packed after it. `Chunker.CreateBetterChunks` keeps
the source's string buffer and loop, and is proved to compute
`Chunker.BetterChunks`. The lemmas about chunks are proved on the
segments. Network services (OpenAI, the vector database, Supabase) are
function parameters or given responses. Message ids are also parameters.

## Model

| member | source | states |
|---|---|---|
| Text.Trim | src/components/AdminDashboard.tsx:118 | `String.prototype.trim`: the result has no white space at either end and is no longer than the input |
| Text.TrimSlice | src/components/AdminDashboard.tsx:118 | the result is the slice of the input that starts after the leading white space; everything dropped before and after it is white space, and the result itself is trimmed |
| Text.TrimEmptyIff | src/hooks/useChat.ts:32 | the result is empty exactly when the input is all white space, which is what the blank-message test relies on |
| Text.ToLower | supabase/functions/chat/index.ts:127 | lower-casing keeps the length and maps each character on its own |
| Text.JoinLength | supabase/functions/chat/index.ts:155 | `join(sep)` has the summed part lengths plus one separator between each pair of neighbours |
| Text.JoinPartAt | supabase/functions/chat/index.ts:155 | the i-th part of a join sits at the summed lengths of the earlier parts plus i separators |
| Text.TrimIsSubsequence | src/components/AdminDashboard.tsx:118 | trimming only removes characters |
| Patterns.DeleteAll | src/components/AdminDashboard.tsx:111-116 | `replace(/…/g, '')` is never longer than its input and only removes characters |
| Patterns.CollapseNewlines | src/components/AdminDashboard.tsx:117 | `replace(/\n{3,}/g, '\n\n')` only removes characters, leaves no run of three line feeds, and starts with a line feed exactly when the input does |
| Patterns.SentencePiecesHaveNoTerminator | src/components/AdminDashboard.tsx:141 | the pieces of `split(/[.!?]+/)` contain no `.`, `!` or `?` |
| Patterns.CountMatches | src/components/AdminDashboard.tsx:172 | the number of non-overlapping matches is at most the text length |
| Chunker.DeleteBoilerplate | src/components/AdminDashboard.tsx:111-116 | the six deletions together only remove characters |
| Chunker.CleanText | src/components/AdminDashboard.tsx:110-118 | the cleaned text is a subsequence of the input, trimmed, and has no run of three line feeds |
| Chunker.KeepLongParagraphs | src/components/AdminDashboard.tsx:121 | keeps, untrimmed, every piece whose trimmed length is more than 50 and no other, in input order and as often as each occurs (`Selects`) |
| Chunker.Candidates | src/components/AdminDashboard.tsx:128-134 | each paragraph is classified on its own and in order, as its trimmed text plus a skip flag; a paragraph that is not skipped is non-empty and trimmed |
| Chunker.Sentences | src/components/AdminDashboard.tsx:141 | the overlap sentences are exactly the trimmed pieces of `split(/[.!?]+/)` longer than 20 characters, every one of them and no other, in order and once per occurrence (`Selects`); each is trimmed |
| Chunker.OverlapSeedIsLongestFit | src/components/AdminDashboard.tsx:142-154 | the overlap is a suffix of the sentences whose length sum is at most 700, and one more sentence would pass 700 |
| Chunker.OverlapSeedUnique | src/components/AdminDashboard.tsx:142-154 | the longest fitting suffix is the only suffix with that property |
| Chunker.OverlapSentences | src/components/AdminDashboard.tsx:142-154 | the backwards loop with `break` returns a suffix within 700 characters whose next sentence does not fit, and on non-empty sentences it is the longest fitting suffix |
| Chunker.StepValid | src/components/AdminDashboard.tsx:136-159 | one paragraph step keeps the loop invariant: every buffer holds whole, trimmed, non-empty paragraphs, flushed buffers are never empty, and the buffer is empty only before the first paragraph |
| Chunker.PackValid | src/components/AdminDashboard.tsx:128-160 | the whole loop keeps that invariant |
| Chunker.StepChained | src/components/AdminDashboard.tsx:137-156 | after a flush the new buffer's seed is the overlap of the buffer just flushed |
| Chunker.PackChained | src/components/AdminDashboard.tsx:128-160 | the loop keeps the seed chain |
| Chunker.SeedsFollowOverlap | src/components/AdminDashboard.tsx:137-156 | the first chunk has no seed, and each later one starts with the overlap of its predecessor |
| Chunker.FlushOnlyWhenFull | src/components/AdminDashboard.tsx:137-159 | a paragraph flushes the buffer exactly when the buffer is non-empty and the two lengths pass 3500; otherwise it is appended after a blank line, and a buffer that already held paragraphs stays within 3502 characters |
| Chunker.StepKeepsParagraphs | src/components/AdminDashboard.tsx:128-160 | one step adds the paragraph to the packed paragraphs when it is not skipped and nothing otherwise |
| Chunker.ParagraphsInOrder | src/components/AdminDashboard.tsx:128-160 | the segments' paragraphs, read in order, are exactly the accepted paragraphs in input order: none lost, none repeated |
| Chunker.SeedStartsWithSentence | src/components/AdminDashboard.tsx:147-156 | an overlap seed never starts with white space |
| Chunker.NextSeedStartsClean | src/components/AdminDashboard.tsx:147-156 | the overlap rule of the source meets the clean-start condition the chunk lemmas need |
| Chunker.SegmentTextTrimmed | src/components/AdminDashboard.tsx:156-158 | a buffer made of a clean seed and trimmed paragraphs is already trimmed |
| Chunker.SegmentsTrimmed | src/components/AdminDashboard.tsx:138 | every buffer the loop builds is already trimmed, so `trim()` at the flush changes nothing |
| Chunker.FlushedTexts | src/components/AdminDashboard.tsx:138 | the flushed chunks are the trimmed buffers, one per flush, in order |
| Chunker.ChunksTrimmed | src/components/AdminDashboard.tsx:162-165 | every raw chunk is trimmed |
| Chunker.ChunksOfShape | src/components/AdminDashboard.tsx:162-165 | the raw chunks are the flushed ones followed by the last buffer when it is not blank |
| Chunker.ChunksAreWholeSegments | src/components/AdminDashboard.tsx:128-165 | each raw chunk is exactly its seed followed by whole paragraphs joined by blank lines; no paragraph is cut |
| Chunker.RawChunksAreWholeSegments | src/components/AdminDashboard.tsx:120-165 | the same, for the paragraphs of a cleaned text and the source's overlap rule |
| Chunker.PostFilter | src/components/AdminDashboard.tsx:168-174 | keeps every chunk of at least 200 characters with fewer than one marker per ten words and no other, in order and as often as each occurs (`Selects`) |
| Chunker.BetterChunks | src/components/AdminDashboard.tsx:108-175 | the result is exactly the viable raw chunks of the cleaned text's paragraphs, in document order (`Selects`); each is trimmed, at least 200 characters long and below the marker ratio |
| Chunker.StepOnBuffer | src/components/AdminDashboard.tsx:136-159 | the segment step, read on the buffer string: a skipped paragraph changes nothing; a flush pushes the trimmed buffer and restarts with the overlap plus the paragraph; otherwise the paragraph is appended after a blank line |
| Chunker.OverlapText | src/components/AdminDashboard.tsx:141-156 | the seed text computed from the buffer is the longest fitting sentence suffix, joined by spaces, plus a space when non-empty |
| Chunker.AddParagraph | src/components/AdminDashboard.tsx:129-159 | one loop iteration on the chunk list and the buffer string computes the segment step |
| Chunker.PackNext | src/components/AdminDashboard.tsx:128-160 | one iteration keeps the chunk list and buffer in step with the segment packing |
| Chunker.PackParagraphs | src/components/AdminDashboard.tsx:123-160 | the loop's chunk list and buffer are those of the segment packing of the paragraphs |
| Chunker.FinishChunks | src/components/AdminDashboard.tsx:162-174 | the final push and the filter give the post-filtered raw chunks |
| Chunker.CreateBetterChunks | src/components/AdminDashboard.tsx:108-175 | the imperative chunker returns `BetterChunks(text)`: trimmed chunks of at least 200 characters |
| Chunker.PrepareFileGuards | src/components/AdminDashboard.tsx:190-203 | a file yields a request exactly when its text was extracted, has at least 100 characters and gives at least one chunk; the request carries the file name and those chunks |
| Chunker.PrepareAll | src/components/AdminDashboard.tsx:183-203 | every file is checked on its own, in order |
| Chunker.UploadStopsAtFirstFailure | src/components/AdminDashboard.tsx:182-218 | requests go out in file order, one per file, each the file's prepared request; the run ends without error exactly when every file prepares and uploads; otherwise the error is that of the first file that failed its checks or the upload |
| Chunker.SentRequestsArePrepared | src/components/AdminDashboard.tsx:183-212 | the k-th request sent is the prepared request of the k-th file |
| Chunker.PrepareUpload | src/components/AdminDashboard.tsx:190-203 | the per-file checks in statement form compute `PrepareFile` |
| Chunker.PrepareNext | src/components/AdminDashboard.tsx:184-203 | the checks of file i agree with the specification of all files |
| Chunker.UploadLoop | src/components/AdminDashboard.tsx:183-212 | the `for` loop with early exit computes the specified outcome |
| Chunker.HandleUpload | src/components/AdminDashboard.tsx:177-221 | the handler sends what the specification sends, and clears the file list only when nothing failed |
| Retrieval.KeepIff | supabase/functions/chat/index.ts:126-145 | a hit is kept exactly when its text is longer than 100 characters and, if shorter than 200, matches none of the eight boilerplate patterns |
| Filtering.AcceptedPositionsAccepted | supabase/functions/chat/index.ts:125-145 | every position the reference definition lists holds an element the callback accepts |
| Filtering.AcceptedPositionsIncreasing | supabase/functions/chat/index.ts:125-145 | the listed positions are strictly increasing |
| Filtering.AcceptedPositionsComplete | supabase/functions/chat/index.ts:125-145 | every position whose element the callback accepts is listed |
| Filtering.FilterInOrder | supabase/functions/chat/index.ts:125-145 | `filter` returns exactly the elements at the listed positions, in order |
| Filtering.FilterSelects | supabase/functions/chat/index.ts:125-145 | `filter` selects exactly the accepted elements, in order, as often as each occurs |
| Filtering.FilterMembers | supabase/functions/chat/index.ts:125-145 | every kept element is accepted and comes from the input, every accepted element is kept, and nothing is added |
| Filtering.FilterAppend | supabase/functions/chat/index.ts:125-145 | filtering a concatenation is concatenating the filtered parts |
| Filtering.FilterAllAccepted | supabase/functions/chat/index.ts:125-145 | a list whose every element is accepted comes back whole |
| Filtering.FilterNoneAccepted | supabase/functions/chat/index.ts:125-145 | a list with no accepted element gives the empty list |
| Retrieval.CitationsAreFirstKept | supabase/functions/chat/index.ts:125-153 | there are min(5, kept) citations, and the i-th one copies key, document, page, text and distance of the i-th kept hit |
| Retrieval.Entries | supabase/functions/chat/index.ts:155 | one context entry per citation, in order |
| Retrieval.ContextHasEachEntry | supabase/functions/chat/index.ts:155 | each citation's entry appears whole in the context at its offset, and the entries are separated by blank lines |
| Retrieval.BuildCitationsOutcome | supabase/functions/chat/index.ts:120-155 | a malformed search response is exactly the error case; otherwise there are at most five citations, and the context is empty exactly when there are none |
| ChatSummary.FirstUserContent | src/utils/chatSummary.ts:3 | the content of the first message with role `user`, and none exactly when no message has that role |
| ChatSummary.StripPunctuation | src/utils/chatSummary.ts:25 | `replace(/[^\w\s]/g, '')` keeps every word and white-space character and no other, in order and as often as each occurs (`Selects`) |
| ChatSummary.SplitOnSpaces | src/utils/chatSummary.ts:26 | `split(/\s+/)` gives at least one piece; the pieces, concatenated in order, are the text without its white space; only the first and the last piece can be empty, and the first is empty exactly when the text is empty or starts with white space |
| ChatSummary.PiecesSpellText | src/utils/chatSummary.ts:26 | from any start, the pieces concatenated in order are the non-white-space characters of the rest of the text |
| ChatSummary.InnerPiecesNonEmpty | src/utils/chatSummary.ts:26 | every piece strictly between the first and the last is non-empty, and a piece starting on a non-white-space character is non-empty |
| ChatSummary.PiecesHaveNoSpace | src/utils/chatSummary.ts:26 | no piece of the split contains white space |
| ChatSummary.Candidates | src/utils/chatSummary.ts:27 | keeps every piece longer than two characters that is not a stop word and no other, in order and as often as each occurs (`Selects`), so the first three words are the first three such pieces |
| ChatSummary.WordsAreCandidates | src/utils/chatSummary.ts:10-27 | every word is longer than two characters, not a stop word, and made of lower-case letters, digits and underscores |
| ChatSummary.Capitalize | src/utils/chatSummary.ts:78 | the first character upper-cased and the rest unchanged |
| ChatSummary.RelevantShapeUpTo | src/utils/chatSummary.ts:71-80 | after any prefix of the words, the list is the topic titles in reverse order followed by the first non-topic words, at most three of them, and a non-topic word is dropped only when the list already holds three |
| ChatSummary.RelevantOrder | src/utils/chatSummary.ts:71-80 | the same for the whole word list |
| ChatSummary.NoTopicsFirstThree | src/utils/chatSummary.ts:73-80 | without topic keywords the list is the first three words, capitalised |
| ChatSummary.RelevantGrows | src/utils/chatSummary.ts:73-80 | the list never shrinks, and is non-empty once any word has been read |
| ChatSummary.RelevantWords | src/utils/chatSummary.ts:71-80 | the loop with `unshift` and `push` computes the specified list |
| ChatSummary.Title | src/utils/chatSummary.ts:83-92 | the title is never empty |
| ChatSummary.SummaryShapes | src/utils/chatSummary.ts:1-93 | never empty; `New Chat Session` without a user message; `General FTX Query` without candidate words; otherwise the one-, two- and three-word shapes |
| ChatSummary.GenerateChatSummary | src/utils/chatSummary.ts:1-93 | the method computes the specified title, which is never empty |
| ProcessDocument.BatchAt | supabase/functions/process-document/index.ts:39 | a batch holds between 1 and 50 chunks |
| ProcessDocument.BatchesPartition | supabase/functions/process-document/index.ts:18-39 | the batches concatenate back to the chunks; there are ceil(n/50) of them; all but the last hold exactly 50 |
| ProcessDocument.RecordsOf | supabase/functions/process-document/index.ts:51-56 | one record per chunk, with the chunk's text, the file name, page 1 and the embedding at the same index |
| ProcessDocument.RunOutcome | supabase/functions/process-document/index.ts:38-67 | the loop inserts the batches in order, each as its own records, up to the first failing batch; it succeeds exactly when every batch is inserted; an error carries the failing service's body |
| ProcessDocument.SuccessInsertsEveryChunk | supabase/functions/process-document/index.ts:38-72 | on success every chunk is inserted once, in order, under the file name with page 1 |
| ProcessDocument.TextsOfBatches | supabase/functions/process-document/index.ts:51-56 | the texts of the records of a batch sequence are its chunks |
| ProcessDocument.ProcessChecksFirst | supabase/functions/process-document/index.ts:26-33 | a missing key or a missing field fails before anything is embedded; an empty chunk list succeeds |
| ProcessDocument.ProcessBatch | supabase/functions/process-document/index.ts:39-66 | one iteration gives the records inserted, or the error that ends the run |
| ProcessDocument.HandleProcessDocument | supabase/functions/process-document/index.ts:25-79 | the handler with its `i += 50` loop computes the specified outcome |
| ChatHook.DropLast | src/hooks/useChat.ts:55 | `slice(0, -1)` drops the last entry, and keeps an empty list empty |
| ChatHook.Answer | src/hooks/useChat.ts:47-66 | the answer carries the server's message and citations; a failure gives the apology without citations |
| ChatHook.SendAppendsExchange | src/hooks/useChat.ts:41-66 | a whole send keeps the earlier messages and appends the user message and the answer; no placeholder is left |
| ChatHook.CompleteReplacesPlaceholder | src/hooks/useChat.ts:41-55 | completing replaces exactly the placeholder appended by the send |
| ChatHook.FromHistory | src/hooks/useChat.ts:76-81 | one message per stored message, with id, content and role kept and the citations dropped |
| ChatHook.TokenToSend | src/hooks/useChat.ts:45 | a token is sent only in guest mode, and it is the guest token |
| ChatHook.NextTokenChangesOnlyInGuestMode | src/hooks/useChat.ts:56-58 | the token changes only in guest mode, and only to a non-empty token from a successful answer |
| ChatHook.Chat.constructor | src/hooks/useChat.ts:16-21 | starts with the welcome message, not loading, no session, and the stored token when non-empty |
| ChatHook.Chat.BeginSend | src/hooks/useChat.ts:32-42 | blank content changes nothing; otherwise the user message and the placeholder are appended and loading starts |
| ChatHook.Chat.RequestToken | src/hooks/useChat.ts:45 | the token sent with the request |
| ChatHook.Chat.CompleteSend | src/hooks/useChat.ts:55-69 | the placeholder is replaced by the answer, the token is updated and storage follows it, loading stops |
| ChatHook.Chat.SendMessage | src/hooks/useChat.ts:31-70 | blank content changes nothing; otherwise the exchange is appended, loading stops and the token follows the answer |
| ChatHook.Chat.LoadMessages | src/hooks/useChat.ts:72-90 | a loaded history replaces the transcript and opens the session; a failure leaves only the error message |
| ChatHook.Chat.StartNewChat | src/hooks/useChat.ts:92-96 | the welcome message alone and no session; the guest token is kept |
| ChatHook.Chat.SetCurrentSessionId | src/hooks/useChat.ts:105 | sets the open session and nothing else |
| AppShell.Merge | src/App.tsx:84-93 | each of the seven fields present in the saved object wins, and each absent field keeps its default |
| AppShell.MergeLaws | src/App.tsx:84-104 | saved settings merge back to themselves; an empty object gives the defaults; merging twice is merging once |
| AppShell.SaveThenLoad | src/App.tsx:78-104 | settings saved and loaded again are the settings saved |
| AppShell.GuestSend | src/App.tsx:106-114 | a guest at the limit sends nothing; a guest below it spends one query; an admin's count is unchanged |
| AppShell.GuestCountBounded | src/App.tsx:106-114 | from a count at most 7 the count stays at most 7 after any number of sends; a guest reaches min(7, count + sends); an admin's count never moves |
| AppShell.SendAllowedIffBelowLimit | src/App.tsx:107-139 | a send goes out exactly when the limit flag is off |
| AppShell.App.constructor | src/App.tsx:21-37 | logged out, no queries, default settings, storage as found, and a fresh chat with the welcome message, not loading, no session and the stored token when non-empty |
| AppShell.App.RestoreSession | src/App.tsx:40-46 | an existing session makes the user an admin; no session leaves the mode alone; nothing else changes |
| AppShell.App.OnAuthEvent | src/App.tsx:48-59 | signing in makes an admin; signing out logs out and starts a new chat; other events change nothing; the count, settings, stored values, guest token and loading flag are unchanged |
| AppShell.App.EnterGuestMode | src/App.tsx:70-75 | entering guest mode reads the count from session storage, 0 when absent; settings and storage are unchanged |
| AppShell.App.HandleSendMessage | src/App.tsx:106-114 | the count follows `GuestSend` and the new count is stored before the send; a blocked send or a blank message leaves transcript and loading flag alone; otherwise the exchange is appended, loading stops and the guest token follows the answer; the session, mode and settings are unchanged |
| AppShell.App.GuestLogout | src/App.tsx:141-146 | logged out, count 0 in state and storage, and a new chat; settings, guest token and loading flag are unchanged |
| AppShell.App.LoadSettings | src/App.tsx:78-98 | saved settings override the defaults field by field; text that does not parse, or nothing saved, keeps the settings; mode, count and storage are unchanged |
| AppShell.App.HandleSettingsChange | src/App.tsx:101-104 | the new settings are set and stored verbatim; mode, count and stored count are unchanged |

## Left out

- PDF text extraction (src/components/AdminDashboard.tsx:27-97) runs in a foreign library. A file carries its extracted text, or none when extraction throws.
- Upload progress percentages are floating-point display values. They are not modelled.
- `fileService.uploadDocumentChunks` is a network call. Each file instead carries whether the service accepts its chunks.
- Network calls are not executed. OpenAI, the vector database, the chat server and the history service appear as given responses or function parameters.
- Message ids, timestamps, `Date.now()` and console logging are left out. Logging includes the average chunk size, which is NaN for zero chunks.
- Character lengths are counted in Unicode scalar values, not UTF-16 code units. The two differ only for characters outside the Basic Multilingual Plane.
- `toLowerCase` and `toUpperCase` are modelled on ASCII letters only. Case-insensitive regular expressions are matched on the ASCII lower-cased text.
- The regular expressions are modelled by a small matcher for exactly the forms used. These are literals, `\s`, `\d`, `\d{5}`, `\d+`, the lazy `.*?` that stops at line terminators, and the alternations. The matcher follows JavaScript's leftmost, non-overlapping global semantics. No general regular-expression engine is modelled.
- Chunker.Viable: the floating-point test `markers / words < 0.1` is stated as the integer test `10 * markers < words`. `words` is at least 1, so there is no division by zero. The two tests agree while rounding the quotient cannot cross 0.1, which holds for any chunk far below about 10^14 words.
- The prompt text of the chat function (supabase/functions/chat/index.ts:156-170) and the model call that consumes it are outside the model. Only the context string is modelled.
- The citation `url` field and the citation rendering components are not part of this model.
- `embeddingData.data.map(...)` is modelled as a list of vectors. A response body that does not parse as that shape is not modelled. A missing embedding at index j gives a record with no vector, as `embeddings[j]` would be `undefined`.
- The process-document function's `OPTIONS` pre-flight and CORS headers are left out.
- JSON body parsing in process-document is left out. The request arrives already parsed, with each field present or absent.
- Guest mode's `parseInt` of the stored count is left out. Session storage holds the count as an integer.
- Settings parsed from something other than an object are left out. For example, `null` or a number spreads as no fields, and behaves like an empty object.
- Extra keys in the saved settings object are ignored by the model. The source would carry them along.
- Concurrency is not modelled. Two sends in flight at once, or a stale `guestToken` captured by `useCallback`, are outside a sequential model. A send is its two steps back to back.
- Session-list refresh, scrolling, the source modal and the sidebars (src/App.tsx:64-68, 116-133) are rendering concerns and are left out.
- Text.Trim: its own contract states only that the result is trimmed and no longer than the input. That it is the slice between the leading and the trailing white space, with only white space dropped, is stated by `Text.TrimSlice`. It is kept out of `Trim` so that the many callers of `Trim` do not carry it.
- ChatSummary.TopicKeywords: the topic table is a finite map of its 37 listed keys. The source looks words up in a plain object (src/utils/chatSummary.ts:74), so keys the object inherits count as topics too. After lower-casing, two such keys are `constructor` and `__proto__`. They pass the strip, length and stop-word tests, and their lookups give the truthy `Object` and `Object.prototype`. For the first user message "constructor" the source titles the chat "function Object() { [native code] } Related Query", and for "__proto__" it titles it "[object Object] Related Query". The model treats both as ordinary words: "Constructor Related Query" and "__proto__ Related Query".
- ChatSummary.SummaryShapes: does not state the converse that the `General FTX Query` title arises only when there is no candidate word. Proving that would require showing that no one-, two- or three-word title can spell that string.
- AppShell.App.HandleSendMessage: a guest's query is counted even when the message is blank and the hook then sends nothing. The source behaves the same way (src/App.tsx:106-113).
- Message citations are a list. An undefined citation list in the source is modelled as the empty list.
