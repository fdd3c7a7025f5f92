# arc-pdf-backend: a Dafny model of the chat/session core

The backend answers questions about uploaded PDFs. It keeps every chat
session in one in-memory registry. This project models that core:

- `MemoryStore` (`store.dfy`). It keeps three maps keyed by chat id: the
  chat histories, the uploaded-file lists and the last-active times. It also
  keeps the `has_memory` flag and the epoch token `session_id`. It is a class
  whose methods update these fields, with the ghost invariant `Valid()`: the
  flag is only set while some chat exists, and each history holds only
  entries of its own chat.
- `ConnectionManager` (`connections.dfy`): the list of open WebSocket
  connections.
- `mock_pdf_qa` (`answering.dfy`): the placeholder answerer. It picks a
  template from the question's keywords and credits one file or several.
- The logic inside the route handlers of `app/main.py`:
  - the streaming chunker (`streaming.dfy`);
  - the upload acceptance rule and its all-or-nothing batch (`uploads.dfy`);
  - the chat-summary list and its stable newest-first sort (`summaries.dfy`);
  - the handlers themselves, with their 404 guards and totals (`routes.dfy`).
- The Python `str` operations these rely on (`text.dfy`): `isspace`,
  `lower`, `in`, `endswith`, `strip`, `split()`, `" ".join`, string
  ordering and decimal rendering.

`uuid.uuid4()` and `datetime.now().isoformat()` are parameters: a fresh id
string and a clock string. In a loop, the `k`-th draw is `freshId(k)` or
`clock(k)`. `add_chat` reads the clock at most twice: once when it has to
create the chat or its last-active time, and once for the entry. The entry's
timestamp then overwrites the last-active time, so only that one value
survives in the final state, and the model passes `add_chat` one clock value.

Some behaviours of the code look accidental; the model keeps them as written:

- Neither kind of reset touches the last-active map. A full reset keeps the
  file lists unless `clear_files` is set.
- `touch_chat` creates a last-active entry for an unknown chat.
- `delete_file` and `clear_files` create an empty file list for an unknown
  chat.
- `reset_session` clears files only when `chat_id` is absent. An empty
  `chat_id` is falsy, so the store does a full reset but keeps the files
  (`Routes.ResetSession` states this case).

## Model

| member | source | states |
|---|---|---|
| Store.MemoryStore.constructor | app/utils.py:16-21 | A new store has no chats, no files, no last-active times, the flag unset and the given epoch token. |
| Store.MemoryStore.Reset | app/utils.py:23-38 | A truthy id removes only that chat's history and file list and keeps the epoch. Otherwise all histories go, the file lists go exactly when `clear_files` is set, and the epoch is replaced. The last-active map never changes. Afterwards the flag holds exactly when some chat remains. |
| Store.MemoryStore.CreateChat | app/utils.py:40-46 | The returned id maps to an empty history, an empty file list and the given last-active time. Nothing else changes. |
| Store.MemoryStore.AddChat | app/utils.py:49-86 | One entry lands at the end of the chat's history. It carries that chat's id and the given id, question, answer, source and timestamp. The chat is created when no id is given. Missing records of an unknown id are created. Other chats and earlier entries are unchanged. The last-active time becomes the entry's timestamp, the flag is set, and the message total grows by one. |
| Store.MemoryStore.InitMissing | app/utils.py:62-68 | Each of the chat's three records is created if missing and kept if present. |
| Store.MemoryStore.Record | app/utils.py:80-85 | The entry is appended to its chat's history, its timestamp becomes the last-active time, and the flag is set. |
| Store.AppendKeepsOwned | app/utils.py:71-81 | Appending an entry of chat `c` to `c`'s history keeps every history holding only its own chat's entries. |
| Store.MemoryStore.GetChatHistory | app/utils.py:88-90 | The result is empty exactly for an unknown chat or an empty history. Under `Valid()` every returned entry belongs to the chat. |
| Store.MemoryStore.GetAllChats | app/utils.py:92-94 | The map has one history per registered chat, and under `Valid()` each history holds only that chat's entries. |
| Store.MemoryStore.TotalChatCount | app/utils.py:96-98 | The total is at least the length of every history, and zero exactly when every history is empty. |
| Store.MemoryStore.GetTotalChatCount | app/utils.py:96-98 | The loop over the histories returns the sum of their lengths. |
| Store.SumLengthsBound | app/utils.py:96-98 | No single history is longer than the total. |
| Store.SumLengthsRemove | app/utils.py:96-98 | The sum of history lengths does not depend on the order in which the chats are visited. |
| Store.SumLengthsUpdate | app/utils.py:96-98 | Replacing one history changes the total by the difference of the two lengths. |
| Store.SumLengthsZero | app/utils.py:96-98 | The total is zero exactly when every history is empty. |
| Store.MemoryStore.ChatSessionsCount | app/utils.py:100-102 | The session count is zero exactly when no chat is registered. |
| Store.MemoryStore.AddFiles | app/utils.py:106-109 | The chat's new file list is its old list (or empty) followed by the given files in order. Nothing else changes. |
| Store.MemoryStore.GetFiles | app/utils.py:111-112 | The result is empty exactly for an unknown chat or an empty list. |
| Store.RemoveById | app/utils.py:114-117 | The filter keeps exactly the files whose id differs from the one deleted, and never lengthens the list. |
| Store.RemoveByIdAbsent | app/utils.py:114-117 | Deleting an id no file carries leaves the list as it is. |
| Store.RemoveByIdIdempotent | app/utils.py:114-117 | Deleting the same id twice is the same as deleting it once. |
| Store.RemoveByIdAppend | app/utils.py:114-117 | The filter keeps the order of the files it keeps (it distributes over concatenation). |
| Store.MemoryStore.DeleteFile | app/utils.py:114-117 | The chat's list becomes the filtered old list, and the key is present afterwards even for an unknown chat. Nothing else changes. |
| Store.MemoryStore.ClearFiles | app/utils.py:119-120 | The chat's list becomes empty, and the key is present even for an unknown chat. Nothing else changes. |
| Store.MemoryStore.TouchChat | app/utils.py:124-126 | Only the chat's last-active time changes. It is created if absent. |
| Connections.ConnectionManager.constructor | app/utils.py:132-133 | A new manager has no connections. |
| Connections.ConnectionManager.Connect | app/utils.py:135-138 | The connection is appended to the list. |
| Connections.ConnectionManager.Disconnect | app/utils.py:140-143 | The first occurrence of the connection is removed. A connection not in the list leaves it unchanged. |
| Connections.RemoveFirst | app/utils.py:140-143 | `list.remove` drops exactly one occurrence (as a multiset) when the element is present, and changes nothing when it is absent. |
| Connections.RemoveFirstUndoesAppend | app/utils.py:135-143 | Disconnecting a connection that was not open before connecting restores the list. |
| Connections.RemoveFirstOnce | app/utils.py:140-143 | Removing the only occurrence leaves none, so a second disconnect is a no-op. |
| Answering.Classify | app/utils.py:159-176 | The summary branch is taken exactly when the lower-cased question contains "summary" or "summarize". The what/how/why branch is taken exactly when it does not but contains one of those three words. |
| Answering.MockPdfQa | app/utils.py:151-155 | With no files the answer is the fixed "upload some PDFs first" text and the source is empty. |
| Answering.SourceAttribution | app/utils.py:169-198 | Whatever the branch, several files are credited as "Multiple sources (n files)" and a single file by its filename. |
| Answering.SourceCountReadsBack | app/utils.py:170 | The count in a multi-file source is all digits and reads back as the number of files. |
| Answering.CaseInsensitive | app/utils.py:159-176 | An upper-cased question takes the same branch and credits the same source. |
| Answering.SummaryTakesPrecedence | app/utils.py:162-168 | A question containing "summarize" gets the summary answer even if it also contains what/how/why. |
| Answering.AnswerQuotesQuestion | app/utils.py:176-193 | Outside the summary branch the answer contains the question verbatim. |
| Answering.Template | app/utils.py:162-193 | The summary template quotes the file count, the other two quote the question. |
| Answering.Credit | app/utils.py:169-198 | Several files are credited as "Multiple sources (n files)", and a single file by its name, whichever of the first or last file the branch reads. |
| Text.Lower | app/utils.py:159 | Lower-casing keeps the length and leaves no capital letter. Each capital becomes the small letter at the same place in the alphabet, and every other character is kept. |
| Text.LowerOfUpper | app/utils.py:159 | Lower-casing an upper-cased string gives the lower-cased original. |
| Text.LStrip | app/main.py:231 | The result is a suffix of the input that is empty or starts with a non-space, and every character removed is whitespace. |
| Text.RStrip | app/main.py:273 | The result is a prefix of the input that is empty or ends with a non-space, and every character removed is whitespace. |
| Text.Words | app/main.py:254 | `split()` yields non-empty tokens free of whitespace, and none exactly when the input is blank. |
| Text.WordsKeepText | app/main.py:254 | `split()` loses nothing but whitespace: its tokens written one after the other are the input with its whitespace taken out. |
| Text.WordsOfJoin | app/main.py:254-259 | `split()` undoes `" ".join` on a list of words. |
| Text.JoinAppend | app/main.py:259-260 | Joining two non-empty runs of words puts exactly one space between them. |
| Text.StripJoinBlank | app/main.py:273 | Stripping a join of words followed by one blank gives the join back. |
| Text.StripBlankEnd | app/main.py:273 | A string with non-space ends, followed by one blank, strips back to itself. |
| Text.Strip | app/main.py:114 | `strip()` leaves a result that is empty or has non-space ends, and it is empty exactly when the input is blank (the test behind the 400 of `chat`). |
| Text.Join | app/main.py:259 | `" ".join` of a non-empty list starts with its first token. |
| Text.Contains | app/utils.py:162 | `sub in s` holds exactly when `sub` occurs in `s` at some position. |
| Text.EndsWith | app/main.py:90 | `s.endswith(suffix)` holds exactly when `s` is some string followed by `suffix`. |
| Text.BelowTransitive | app/main.py:202 | String order is transitive. |
| Text.BelowTotal | app/main.py:202 | Two different strings are ordered one way or the other. |
| Text.AtLeastTransitive | app/main.py:202 | "Not below" is transitive, so a descending sort is consistent. |
| Text.EmptyIsLeast | app/main.py:202 | The empty string is the only string that no string is below. |
| Text.NatToString | app/utils.py:167 | The rendering of a count is non-empty, all digits, and has no leading zero unless the count is zero. |
| Text.DecimalRoundTrip | app/utils.py:170 | Reading back the rendering of a count gives the count. |
| Uploads.Rejection | app/main.py:89-94 | A file is refused exactly when its lower-cased name does not end in ".pdf" or it is larger than 10 MiB. The status is 400 exactly when the name is wrong, whatever the size (the suffix is checked first), and 413 otherwise. |
| Uploads.FirstRejected | app/main.py:89-94 | Every file before the returned position is accepted, and the file at it, if any, is refused. |
| Uploads.CollectInfos | app/main.py:88-102 | The batch succeeds exactly when every file is accepted. It then yields one record per file, in order, with its name, size, time and id. Otherwise it fails with the first refused file's error. |
| Uploads.SizeBoundary | app/main.py:68 | A PDF of exactly 10 MiB passes, and one byte more is refused with 413. |
| Uploads.UploadExamples | app/main.py:90-94 | `report.PDF` of 9 MiB passes; `notes.txt` gets 400; an 11 MiB `report.pdf` gets 413. |
| Streaming.ChunkFrames | app/main.py:258-268 | The reference chunking yields only chunk frames. |
| Streaming.StreamChunks | app/main.py:255-269 | The index loop sends exactly the reference chunks, and the accumulated text is their concatenated content. |
| Streaming.StreamReply | app/main.py:254-273 | Streaming an answer sends the reference chunks of its words and stores the words joined by single spaces. |
| Streaming.ChunkCount | app/main.py:258 | There are ceil(len(words)/3) chunks. |
| Streaming.ChunkAt | app/main.py:258-259 | Chunk k holds words 3k to 3k+2 (those that exist), at least one, joined by single spaces, plus one trailing space. |
| Streaming.OnlyLastIsFinal | app/main.py:266 | `is_final` is set on exactly the last chunk. |
| Streaming.ContentsOfChunks | app/main.py:259-260 | The chunks put together are the joined words plus one trailing space, or nothing for no words. |
| Streaming.StreamedAnswer | app/main.py:254-273 | An answer with no words yields no chunks. The streamed text, stripped, is the answer's words joined by single spaces. |
| Streaming.RestreamIsStable | app/main.py:254-273 | Splitting the stored answer gives the same words, so streaming it again sends the same chunks. |
| Summaries.Summarize | app/main.py:187-199 | The first question and last-message time exist exactly when the chat has messages. The last-active time falls back to the last message's time, and is missing only when both are. |
| Summaries.TouchedTimeShows | app/main.py:189 | A recorded last-active time wins over the message times. |
| Summaries.SortKey | app/main.py:202 | The key is the last-active time when there is one, and it is the empty string exactly when the time is missing or empty. |
| Summaries.BuildSummaries | app/main.py:184-199 | The loop builds one summary per chat, in enumeration order. |
| Summaries.Insert | app/main.py:202 | Inserting adds exactly the one summary (as a multiset). |
| Summaries.SortByActivity | app/main.py:202 | Sorting is a permutation of the summaries. |
| Summaries.InsertSorted | app/main.py:202 | Inserting into a newest-first list keeps it newest first. |
| Summaries.SortIsSorted | app/main.py:202 | The sorted list is newest first by `last_active_time or ""`. |
| Summaries.InsertWithKey | app/main.py:202 | Inserting keeps the relative order of summaries with equal keys. |
| Summaries.InsertWithKeyStep | app/main.py:202 | Moving a summary past one with a higher key does not change the order within any one key. |
| Summaries.SortIsStable | app/main.py:202 | The sort is stable: summaries with equal keys keep their input order. |
| Summaries.MissingTimesLast | app/main.py:202 | Chats without any time come after every chat that has one. |
| Summaries.MessageTotalInsert | app/main.py:202 | Inserting a summary adds its message count to the listed total. |
| Summaries.MessageTotalSorted | app/main.py:202 | Sorting does not change the listed message total. |
| Routes.ChosenChat | app/main.py:118 | A truthy id is used as sent, and anything else gets the fresh id. The chosen chat is never the empty id while fresh ids are not empty. |
| Routes.OpenChat | app/main.py:118-121 | A truthy id is used as given and leaves the store alone. Otherwise a fresh chat with no files is created. The files read are the chat's files. |
| Routes.Persist | app/main.py:127 | After `OpenChat`, the entry lands at the end of the chat's prior history (empty for a chat just created). The file list is the chat's own, and the last-active time is the entry's. |
| Routes.AppendAfterOpen | app/main.py:118-127 | Creating a chat and then appending to it is the same as appending to an empty history. |
| Routes.TotalSizeCovers | app/main.py:215 | The size total is at least the size of each file, and zero exactly when every file is empty. |
| Routes.TotalSizeAppend | app/main.py:215 | The size total of two lists is the sum of their totals. |
| Routes.TotalSizeRemove | app/main.py:215 | Deleting a file never increases the size total. |
| Routes.TotalSizeBound | app/main.py:215 | Files within the limit total at most one limit per file. |
| Routes.GetFiles | app/main.py:211-216 | `total_files` is the list's length and `total_size_bytes` the sum of the sizes. The list is empty exactly for an unknown chat or an empty list. |
| Routes.RegisterSession | app/main.py:79-86 | An unknown chat gets an empty history and, if missing, an empty file list, but no last-active time. A known chat is left alone. |
| Routes.AddBatch | app/main.py:104 | The accepted records are appended to the chat's file list, the size total grows by their sizes, and nothing else changes. |
| Routes.UploadFiles | app/main.py:71-109 | An empty batch gets 400 and changes nothing. Otherwise the session is created on the fly. The batch succeeds exactly when every file is accepted, and then its records are appended in order and the size total grows by their sizes. Otherwise the first refused file's error is returned and no file of the batch is stored. |
| Routes.DeleteFile | app/main.py:318-323 | 404 exactly when the chat has no file list. Otherwise the file is gone, the size total does not grow, and nothing else changes. |
| Routes.DeleteAllFiles | app/main.py:326-335 | 404 exactly when the chat has no file list. Otherwise the list is empty with zero totals, and nothing else changes. |
| Routes.AnswerQuestion | app/main.py:117-134 | The question, as sent, is answered from the chat's files (none for a new chat) and appended to that chat's history. The reply carries the entry's id, time and chat. |
| Routes.Chat | app/main.py:112-134 | 400 exactly when the question is blank after stripping, and then nothing is stored. Otherwise the reply is `mock_pdf_qa` on the unstripped question and the chosen chat's files (none for a new chat). Its entry is appended to that chat's prior history (empty for a new chat) and is now the last one. The chat's last-active time is the entry's time, the flag is set, and the other chats, the other file lists and the epoch are unchanged. |
| Routes.ResetSession | app/main.py:146-164 | Files are cleared only when no id is sent. The message names the chat exactly when the id is truthy. A full reset leaves zero sessions and zero messages. The reply carries the store's epoch. |
| Routes.GetChatHistory | app/main.py:167-178 | 404 exactly when the chat is not registered. The chat's last-active time is recorded even then, and nothing else changes. |
| Routes.EnumerationCounts | app/main.py:204-207 | Listing each chat once gives as many chats as sessions, and their histories add up to the message total. |
| Routes.MessageTotalOfSummaries | app/main.py:186-199 | The summaries' message counts add up to the listed chats' history lengths. |
| Routes.ChatListTotals | app/main.py:204-207 | There are as many summaries as chats, and their message counts, sorted or not, add up to the store's total. |
| Routes.GetAllChats | app/main.py:181-208 | The list is the sorted summaries of all chats. The session total equals the number of listed chats. The message total equals the sum of their message counts and the store's total. |
| Routes.StreamAnswer | app/main.py:239-287 | A typing frame, the reference chunks of the answer's words, then a complete frame. The stored and completed answer is those words joined by single spaces, with the stripped question. The frames and the new store are those `QuestionTurn` gives. |
| Routes.AskedQuestion | app/main.py:231 | The stripped question is empty exactly when none was sent or it is blank, and otherwise has non-space ends. |
| Routes.Respond | app/main.py:229-296 | One message as a function of the store: it always gets a lone error frame or frames ending in a complete frame. The error comes exactly when the message asks nothing, and then the store is unchanged. A question's complete frame carries the entry that now closes its chat's history; that chat's last-active time is the entry's, the flag is set, and the epoch is kept. |
| Routes.QuestionTurn | app/main.py:239-287 | A non-blank question gets a typing frame, chunks and a complete frame, and its entry closes the chosen chat's history. |
| Routes.RespondTouchesOneChat | app/main.py:239-274 | A question leaves every other chat's history, file list and last-active time as they were. |
| Routes.RespondCountsOne | app/main.py:272-274 | A question to a chat sent by id, or to a fresh id no chat has, adds exactly one message to the store's total. |
| Routes.HandleMessage | app/main.py:226-296 | Bad JSON, a raised error or a blank question yields exactly one error frame and stores nothing. Otherwise the frames are the typing frame, the reference chunks of the answer's words and the complete frame of the stored entry, whose answer is the stripped streamed text. The entry is appended to the chat's prior history, the chat's files are read (none for a new chat), the last-active time is the entry's, the flag is set and the epoch is kept. The frames and new store are those `Respond` gives. |
| Routes.Serve | app/main.py:225-296 | Handling messages in order from a store: every message gets its frames, each a lone error frame or ending in a complete frame, and the epoch is kept. |
| Routes.ServeQuiet | app/main.py:229-237 | Messages that ask nothing leave the store as it was, and each gets one error frame. |
| Routes.ServeMessages | app/main.py:225-296 | The frames sent and the store left behind are those `Serve` gives: message k is handled by `Respond` on the store the earlier messages left, with the k-th fresh chat id, entry id and clock value. No message ends the loop. |
| Routes.WebsocketChat | app/main.py:219-299 | The connection is registered, the messages are handled as `Serve` says, and the connection is then dropped. A connection that was not open before is gone again afterwards. |

## Left out

- FastAPI routing, CORS, pydantic response models and uvicorn startup are framework plumbing. The replies are plain datatypes.
- WebSocket I/O is not modelled: `accept`, `receive_text`, `send_json`, the disconnect exception and the `asyncio.sleep` pacing. The frames one message produces are an output sequence. The messages a client sends before leaving are an input sequence.
- `json.loads` is not modelled. A payload that fails to parse is the `InvalidJson` input.
- The generic exception catch is modelled only as the `Faulty` input carrying the exception text: a payload that is not a JSON object, or whose `question` is not a string, raises there. Chat ids are strings in the model, so a payload whose `chat_id` is another JSON value (a number, say, which the code would accept and use as a key) is not modelled.
- `time.sleep(0.5)` in `mock_pdf_qa` and `await file.read()` are timing and I/O only. An upload is its filename and its byte length.
- `uuid.uuid4()` and `datetime.now()` are parameters. Nothing is assumed about their uniqueness or their order.
- Concurrency between requests is not modelled: each handler runs to completion on one store.
- The second `/api/reset` definition at app/main.py:338-342 is shadowed by the first and is not modelled.
- `create_chat` as a route (app/main.py:137-143), `get_status`, `/health` and the root route only forward store values and are not part of this model.
- Text.Lower: only ASCII letters are lower-cased. Python's `str.lower` also folds other scripts. That only matters for keyword matching and for the `.pdf` test, and both compare against ASCII.
- Routes.GetAllChats: dictionary insertion order is not tracked. The order in which the history map lists its chats is an input, required to list each chat once.
- Summaries.SortByActivity: `list.sort` works in place. It is modelled as a stable insertion sort on a sequence value.
- Routes.TotalSize: `f.get("size", 0)` is a plain field read. Every stored record has a size.
- Store.MemoryStore.GetAllChats: it returns the live dictionary, and the aliasing is not modelled. Callers in the model only read it.
- Entries with the same id are not excluded: uniqueness relies on `uuid4`.
- Store.MemoryStore.GetTotalChatCount: a method, because the map's values can only be visited one by one in compiled Dafny; the specification function it is proved against is `TotalChatCount`.
