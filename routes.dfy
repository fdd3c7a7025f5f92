/** The route handlers of app/main.py, reduced to what they do to the
    store and what they answer: upload, chat, reset, history lookup, chat
    list, file listing, file deletion and the WebSocket chat loop.

    Each `uuid.uuid4()` and `datetime.now()` the handlers draw is a
    parameter; in a loop, the `k`-th draw is `freshId(k)` or `clock(k)`. */
module Routes {
  import opened Text
  import opened Records
  import opened Store
  import opened Answering
  import opened Streaming
  import opened Uploads
  import opened Summaries
  import opened Connections

  datatype UploadReport = UploadReport(message: string, files: seq<FileMeta>)

  datatype ChatReport = ChatReport(answer: string, source: string, id: string, timestamp: string, chatId: string)

  datatype ResetReport = ResetReport(message: string, sessionId: string, chatId: Option<string>)

  datatype HistoryReport = HistoryReport(chatId: string, messages: seq<Entry>, messageCount: nat)

  datatype ChatList = ChatList(chats: seq<ChatSummary>, totalSessions: nat, totalMessages: nat)

  datatype FilesReport = FilesReport(files: seq<FileMeta>, totalFiles: nat, totalSizeBytes: nat)

  /** The chat a request lands in: `request.chat_id or memory.create_chat()`.
      A truthy id is used as sent, anything else gets the fresh id, so the
      chat is never the empty id while fresh ids are not empty. */
  function ChosenChat(chatId: Option<string>, freshChatId: string): (c: string)
    ensures Truthy(chatId) ==> c == chatId.value
    ensures c == freshChatId || (chatId.Some? && c == chatId.value)
    ensures freshChatId != "" ==> c != ""
  {
    if Truthy(chatId) then chatId.value else freshChatId
  }

  /** Runs `chat_id or memory.create_chat()` and reads the chat's files:
      a truthy id is used as given and leaves the store alone; otherwise a
      chat is created, with no files. */
  method OpenChat(store: MemoryStore, chatId: Option<string>, freshChatId: string, now: string)
    returns (c: string, files: seq<FileMeta>)
    requires store.Valid()
    modifies store
    ensures store.Valid()
    ensures c == ChosenChat(chatId, freshChatId)
    ensures files == if Truthy(chatId) then Get(old(store.uploadedFiles), c) else []
    ensures store.chatHistory == if Truthy(chatId) then old(store.chatHistory) else old(store.chatHistory)[c := []]
    ensures store.uploadedFiles == if Truthy(chatId) then old(store.uploadedFiles) else old(store.uploadedFiles)[c := []]
    ensures store.chatLastActive ==
              if Truthy(chatId) then old(store.chatLastActive) else old(store.chatLastActive)[c := now]
    ensures store.hasMemory == old(store.hasMemory) && store.sessionId == old(store.sessionId)
  {
    if Truthy(chatId) {
      c := chatId.value;
    } else {
      c := store.CreateChat(freshChatId, now);
    }
    files := store.GetFiles(c);
  }

  /** `memory.add_chat(question, answer, source, chat_id)` on the chat
      `OpenChat` gave, stated against the store as it was before
      `OpenChat` (`h0`, `f0`, `a0`): the entry lands at the end of the
      chat's prior history, which is empty unless the chat was `given`. */
  method Persist(store: MemoryStore, c: string, question: string, answer: string, source: string,
                 entryId: string, now: string, ghost given: bool,
                 ghost h0: map<string, seq<Entry>>, ghost f0: map<string, seq<FileMeta>>,
                 ghost a0: map<string, string>)
    returns (entry: Entry)
    requires store.Valid()
    requires store.chatHistory == if given then h0 else h0[c := []]
    requires store.uploadedFiles == if given then f0 else f0[c := []]
    requires store.chatLastActive == if given then a0 else a0[c := now]
    modifies store
    ensures store.Valid()
    ensures entry == Entry(entryId, question, answer, source, now, c)
    ensures store.chatHistory == h0[c := (if given then Get(h0, c) else []) + [entry]]
    ensures store.uploadedFiles == f0[c := if given then Get(f0, c) else []]
    ensures store.chatLastActive == a0[c := now]
    ensures store.hasMemory && store.sessionId == old(store.sessionId)
  {
    ghost var h1, f1 := store.chatHistory, store.uploadedFiles;
    entry := store.AddChat(question, answer, source, Some(c), c, entryId, now);
    AppendAfterOpen(h0, h1, c, given, [entry]);
    AppendAfterOpen(f0, f1, c, given, []);
    assert Get(f1, c) + [] == Get(f1, c);
  }

  /** After `OpenChat` and an append of `v` to the chat's list, the map is
      the original one with `v` appended to the chat's prior list (empty
      unless the chat was `given`). */
  lemma AppendAfterOpen<V>(m0: map<string, seq<V>>, m1: map<string, seq<V>>, c: string, given: bool, v: seq<V>)
    requires m1 == if given then m0 else m0[c := []]
    ensures m1[c := Get(m1, c) + v] == m0[c := (if given then Get(m0, c) else []) + v]
  {
  }

  // ---------------------------------------------------------------- files

  /** `sum(f.get("size", 0) for f in files)`. */
  function TotalSize(files: seq<FileMeta>): nat {
    if files == [] then 0 else files[0].size + TotalSize(files[1..])
  }

  /** The total is at least the size of each file, and zero exactly when
      every file is empty. */
  lemma {:induction false} TotalSizeCovers(files: seq<FileMeta>)
    ensures forall k :: 0 <= k < |files| ==> files[k].size <= TotalSize(files)
    ensures TotalSize(files) == 0 <==> forall k :: 0 <= k < |files| ==> files[k].size == 0
    decreases |files|
  {
    if files != [] {
      TotalSizeCovers(files[1..]);
      assert forall k :: 1 <= k < |files| ==> files[k] == files[1..][k - 1];
    }
  }

  lemma {:induction false} TotalSizeAppend(a: seq<FileMeta>, b: seq<FileMeta>)
    ensures TotalSize(a + b) == TotalSize(a) + TotalSize(b)
    decreases |a|
  {
    if a == [] {
      assert a + b == b;
    } else {
      assert (a + b)[1..] == a[1..] + b;
      TotalSizeAppend(a[1..], b);
    }
  }

  /** Deleting a file never makes the reported total grow. */
  lemma {:induction false} TotalSizeRemove(files: seq<FileMeta>, fileId: string)
    ensures TotalSize(RemoveById(files, fileId)) <= TotalSize(files)
    decreases |files|
  {
    if files != [] {
      TotalSizeRemove(files[1..], fileId);
      var head := if files[0].id != fileId then [files[0]] else [];
      TotalSizeAppend(head, RemoveById(files[1..], fileId));
    }
  }

  /** Files that each passed the size limit total at most one limit per file. */
  lemma {:induction false} TotalSizeBound(files: seq<FileMeta>)
    requires forall k :: 0 <= k < |files| ==> files[k].size <= MAX_FILE_SIZE
    ensures TotalSize(files) <= |files| * MAX_FILE_SIZE
    decreases |files|
  {
    if files != [] {
      TotalSizeBound(files[1..]);
    }
  }

  /** `get_files`: the chat's files, how many there are and their total size. */
  function GetFiles(store: MemoryStore, chatId: string): (r: FilesReport)
    reads store
    ensures r.files == [] <==> chatId !in store.uploadedFiles || store.uploadedFiles[chatId] == []
    ensures r.totalFiles == |r.files|
    ensures r.totalSizeBytes == TotalSize(r.files)
  {
    var files := store.GetFiles(chatId);
    FilesReport(files, |files|, TotalSize(files))
  }

  /** The on-the-fly session of `upload_files`: an unknown chat gets an
      empty history and, if it has none, an empty file list; a known chat
      is left alone. */
  method RegisterSession(store: MemoryStore, chatId: string)
    requires store.Valid()
    modifies store
    ensures store.Valid()
    ensures store.chatHistory == old(store.chatHistory)[chatId := Get(old(store.chatHistory), chatId)]
    ensures store.uploadedFiles ==
              if chatId in old(store.chatHistory) then old(store.uploadedFiles)
              else old(store.uploadedFiles)[chatId := Get(old(store.uploadedFiles), chatId)]
    ensures Get(store.uploadedFiles, chatId) == Get(old(store.uploadedFiles), chatId)
    ensures store.chatLastActive == old(store.chatLastActive)
    ensures store.hasMemory == old(store.hasMemory) && store.sessionId == old(store.sessionId)
  {
    if chatId !in store.chatHistory {
      store.chatHistory := store.chatHistory[chatId := []];
      if chatId !in store.uploadedFiles {
        store.uploadedFiles := store.uploadedFiles[chatId := []];
      }
    }
  }

  /** The accepted batch appended to the chat's file list: the reported
      size total grows by the batch's size. */
  method AddBatch(store: MemoryStore, chatId: string, infos: seq<FileMeta>)
    requires store.Valid()
    modifies store
    ensures store.Valid()
    ensures store.uploadedFiles == old(store.uploadedFiles)[chatId := Get(old(store.uploadedFiles), chatId) + infos]
    ensures store.chatHistory == old(store.chatHistory) && store.chatLastActive == old(store.chatLastActive)
    ensures store.hasMemory == old(store.hasMemory) && store.sessionId == old(store.sessionId)
    ensures GetFiles(store, chatId).totalSizeBytes == old(GetFiles(store, chatId).totalSizeBytes) + TotalSize(infos)
  {
    ghost var before := Get(store.uploadedFiles, chatId);
    store.AddFiles(chatId, infos);
    TotalSizeAppend(before, infos);
  }

  /** `upload_files`: an empty batch is refused; otherwise an unknown chat
      gets a history and a file list (but no last-active time), then the
      whole batch is either accepted and appended, or refused with the
      error of its first bad file, none of it stored. */
  method UploadFiles(store: MemoryStore, chatId: string, files: seq<Upload>,
                     clock: nat -> string, freshId: nat -> string)
    returns (r: Result<UploadReport, HttpError>)
    requires store.Valid()
    modifies store
    ensures store.Valid()
    ensures files == [] ==> r == Failure(HttpError(400, "No files provided")) && unchanged(store)
    ensures files != [] ==>
              && store.chatHistory == old(store.chatHistory)[chatId := Get(old(store.chatHistory), chatId)]
              && store.chatLastActive == old(store.chatLastActive)
              && store.hasMemory == old(store.hasMemory) && store.sessionId == old(store.sessionId)
              && (r.Success? <==> forall k :: 0 <= k < |files| ==> Accepted(files[k]))
    ensures r.Success? ==>
              && r.value.message == "Uploaded " + NatToString(|files|) + " file(s)"
              && |r.value.files| == |files|
              && (forall k :: 0 <= k < |files| ==> r.value.files[k] == FileMeta(files[k].filename, files[k].size, clock(k), freshId(k)))
              && store.uploadedFiles ==
                   old(store.uploadedFiles)[chatId := Get(old(store.uploadedFiles), chatId) + r.value.files]
              && GetFiles(store, chatId).totalSizeBytes ==
                   old(GetFiles(store, chatId).totalSizeBytes) + TotalSize(r.value.files)
              && TotalSize(r.value.files) <= |files| * MAX_FILE_SIZE
    ensures files != [] && r.Failure? ==>
              && (var k := FirstRejected(files); k < |files| && r.error == Rejection(files[k]).value)
              && store.uploadedFiles ==
                   if chatId in old(store.chatHistory) then old(store.uploadedFiles)
                   else old(store.uploadedFiles)[chatId := Get(old(store.uploadedFiles), chatId)]
  {
    if files == [] {
      return Failure(HttpError(400, "No files provided"));
    }
    RegisterSession(store, chatId);
    var collected := CollectInfos(files, clock, freshId);
    if collected.Failure? {
      return Failure(collected.error);
    }
    var infos := collected.value;
    AddBatch(store, chatId, infos);
    TotalSizeBound(infos);
    r := Success(UploadReport("Uploaded " + NatToString(|infos|) + " file(s)", infos));
  }

  /** `delete_file`: 404 exactly when the chat has no file list; otherwise
      the file is gone from the list and nothing else changes. */
  method DeleteFile(store: MemoryStore, chatId: string, fileId: string) returns (r: Result<string, HttpError>)
    requires store.Valid()
    modifies store
    ensures store.Valid()
    ensures r.Failure? <==> chatId !in old(store.uploadedFiles)
    ensures r.Failure? ==> r.error == HttpError(404, "chat_id not found") && unchanged(store)
    ensures r.Success? ==>
              && r.value == "File deleted"
              && store.uploadedFiles ==
                   old(store.uploadedFiles)[chatId := RemoveById(old(store.uploadedFiles)[chatId], fileId)]
              && store.chatHistory == old(store.chatHistory) && store.chatLastActive == old(store.chatLastActive)
              && store.hasMemory == old(store.hasMemory) && store.sessionId == old(store.sessionId)
              && (forall f :: f in GetFiles(store, chatId).files ==> f.id != fileId)
              && GetFiles(store, chatId).totalSizeBytes <= old(GetFiles(store, chatId).totalSizeBytes)
  {
    if chatId !in store.uploadedFiles {
      return Failure(HttpError(404, "chat_id not found"));
    }
    TotalSizeRemove(store.uploadedFiles[chatId], fileId);
    store.DeleteFile(chatId, fileId);
    r := Success("File deleted");
  }

  /** `delete_all_files`: 404 exactly when the chat has no file list;
      otherwise the list becomes empty and nothing else changes. */
  method DeleteAllFiles(store: MemoryStore, chatId: string) returns (r: Result<string, HttpError>)
    requires store.Valid()
    modifies store
    ensures store.Valid()
    ensures r.Failure? <==> chatId !in old(store.uploadedFiles)
    ensures r.Failure? ==> r.error == HttpError(404, "chat_id " + chatId + " not found") && unchanged(store)
    ensures r.Success? ==>
              && r.value == "All files deleted"
              && store.uploadedFiles == old(store.uploadedFiles)[chatId := []]
              && store.chatHistory == old(store.chatHistory) && store.chatLastActive == old(store.chatLastActive)
              && store.hasMemory == old(store.hasMemory) && store.sessionId == old(store.sessionId)
              && GetFiles(store, chatId) == FilesReport([], 0, 0)
  {
    if chatId !in store.uploadedFiles {
      return Failure(HttpError(404, "chat_id " + chatId + " not found"));
    }
    store.ClearFiles(chatId);
    r := Success("All files deleted");
  }

  // ---------------------------------------------------------------- chat

  /** Steps 1 to 4 of `chat` for a non-blank question: the question, as
      sent, is answered from the chat's files and stored at the end of the
      chat's history. */
  method AnswerQuestion(store: MemoryStore, question: string, chatId: Option<string>,
                        freshChatId: string, entryId: string, now: string)
    returns (r: ChatReport)
    requires store.Valid()
    modifies store
    ensures store.Valid()
    ensures var c := ChosenChat(chatId, freshChatId);
            var files := if Truthy(chatId) then Get(old(store.uploadedFiles), c) else [];
            var reply := MockPdfQa(question, files);
            var e := Entry(entryId, question, reply.answer, reply.source, now, c);
            && r == ChatReport(reply.answer, reply.source, entryId, now, c)
            && store.chatHistory ==
                 old(store.chatHistory)[c := (if Truthy(chatId) then Get(old(store.chatHistory), c) else []) + [e]]
            && store.uploadedFiles == old(store.uploadedFiles)[c := files]
            && store.chatLastActive == old(store.chatLastActive)[c := now]
            && store.hasMemory && store.sessionId == old(store.sessionId)
  {
    ghost var h0, f0, a0 := store.chatHistory, store.uploadedFiles, store.chatLastActive;
    var c, files := OpenChat(store, chatId, freshChatId, now);
    var reply := MockPdfQa(question, files);
    var entry := Persist(store, c, question, reply.answer, reply.source, entryId, now, Truthy(chatId), h0, f0, a0);
    r := ChatReport(reply.answer, reply.source, entry.id, entry.timestamp, c);
  }

  /** `chat`: a blank question is refused with 400 and stores nothing;
      otherwise the question is answered, and the answer is the last entry
      of the chat's history. */
  method Chat(store: MemoryStore, question: string, chatId: Option<string>,
              freshChatId: string, entryId: string, now: string)
    returns (r: Result<ChatReport, HttpError>)
    requires store.Valid()
    modifies store
    ensures store.Valid()
    ensures r.Failure? <==> Strip(question) == ""
    ensures r.Failure? ==> r.error == HttpError(400, "Question cannot be empty") && unchanged(store)
    ensures r.Success? ==>
              var c := ChosenChat(chatId, freshChatId);
              var files := if Truthy(chatId) then Get(old(store.uploadedFiles), c) else [];
              var reply := MockPdfQa(question, files);
              var e := Entry(entryId, question, reply.answer, reply.source, now, c);
              && r.value == ChatReport(reply.answer, reply.source, entryId, now, c)
              && store.chatHistory ==
                   old(store.chatHistory)[c := (if Truthy(chatId) then Get(old(store.chatHistory), c) else []) + [e]]
              && store.uploadedFiles == old(store.uploadedFiles)[c := files]
              && store.chatLastActive == old(store.chatLastActive)[c := now]
              && store.hasMemory && store.sessionId == old(store.sessionId)
    ensures r.Success? ==>
              var h := store.GetChatHistory(r.value.chatId);
              h != [] && h[|h| - 1] == Entry(entryId, question, r.value.answer, r.value.source, now, r.value.chatId)
  {
    if Strip(question) == "" {
      return Failure(HttpError(400, "Question cannot be empty"));
    }
    var report := AnswerQuestion(store, question, chatId, freshChatId, entryId, now);
    r := Success(report);
  }

  // ---------------------------------------------------------------- reset

  /** `reset_session`: files are cleared only when no `chat_id` is sent at
      all; the message names the chat when the id is truthy. An empty
      `chat_id` therefore resets every chat but keeps the files. */
  method ResetSession(store: MemoryStore, chatId: Option<string>, newEpoch: string) returns (r: ResetReport)
    requires store.Valid()
    modifies store
    ensures store.Valid()
    ensures Truthy(chatId) ==>
              && store.chatHistory == old(store.chatHistory) - {chatId.value}
              && store.uploadedFiles == old(store.uploadedFiles) - {chatId.value}
              && store.sessionId == old(store.sessionId)
              && r.message == "Chat " + chatId.value + " reset successfully"
    ensures !Truthy(chatId) ==>
              && store.chatHistory == map[]
              && store.uploadedFiles == (if chatId.None? then map[] else old(store.uploadedFiles))
              && store.sessionId == newEpoch
              && r.message == "All chats and files reset successfully"
              && store.ChatSessionsCount() == 0 && store.TotalChatCount() == 0
    ensures store.chatLastActive == old(store.chatLastActive)
    ensures store.hasMemory <==> store.chatHistory != map[]
    ensures r.sessionId == store.sessionId && r.chatId == chatId
  {
    var clearFiles := chatId.None?;
    store.Reset(chatId, clearFiles, newEpoch);
    var message := if Truthy(chatId) then "Chat " + chatId.value + " reset successfully"
                   else "All chats and files reset successfully";
    r := ResetReport(message, store.sessionId, chatId);
  }

  // ---------------------------------------------------------------- history

  /** `get_chat_history`: the chat is touched first, so even a lookup that
      fails records a last-active time; the lookup fails with 404 exactly
      when the chat is not registered. */
  method GetChatHistory(store: MemoryStore, chatId: string, now: string)
    returns (r: Result<HistoryReport, HttpError>)
    requires store.Valid()
    modifies store
    ensures store.Valid()
    ensures r.Failure? <==> chatId !in old(store.chatHistory)
    ensures r.Failure? ==> r.error == HttpError(404, "Chat ID " + chatId + " not found")
    ensures r.Success? ==>
              var messages := old(store.chatHistory)[chatId];
              r.value == HistoryReport(chatId, messages, |messages|)
    ensures store.chatLastActive == old(store.chatLastActive)[chatId := now]
    ensures store.chatHistory == old(store.chatHistory) && store.uploadedFiles == old(store.uploadedFiles)
    ensures store.hasMemory == old(store.hasMemory) && store.sessionId == old(store.sessionId)
  {
    store.TouchChat(chatId, now);
    var messages := store.GetChatHistory(chatId);
    if messages == [] && chatId !in store.chatHistory {
      return Failure(HttpError(404, "Chat ID " + chatId + " not found"));
    }
    r := Success(HistoryReport(chatId, messages, |messages|));
  }

  // ---------------------------------------------------------------- chat list

  /** The messages of the chats `chatIds`, counted one chat at a time. */
  function CountOver(chatIds: seq<string>, history: map<string, seq<Entry>>): nat
    requires forall k :: 0 <= k < |chatIds| ==> chatIds[k] in history
  {
    if chatIds == [] then 0 else |history[chatIds[0]]| + CountOver(chatIds[1..], history)
  }

  /** No chat id is listed twice. */
  predicate Distinct(chatIds: seq<string>) {
    forall i, j :: 0 <= i < j < |chatIds| ==> chatIds[i] != chatIds[j]
  }

  /** `chatIds` lists every chat of `history` exactly once. */
  ghost predicate Enumerates(chatIds: seq<string>, history: map<string, seq<Entry>>) {
    Distinct(chatIds) && forall c :: c in history <==> c in chatIds
  }

  /** Listing the chats of `history` once each: there are as many as the
      map has keys, and their messages add up to the map's total. */
  lemma {:induction false} EnumerationCounts(chatIds: seq<string>, history: map<string, seq<Entry>>)
    requires Enumerates(chatIds, history)
    ensures |chatIds| == |history|
    ensures CountOver(chatIds, history) == SumLengths(history)
    decreases |chatIds|
  {
    if chatIds == [] {
      assert history.Keys == {};
    } else {
      var rest := history - {chatIds[0]};
      EnumerationTail(chatIds, history);
      EnumerationCounts(chatIds[1..], rest);
      SumLengthsRemove(history, chatIds[0]);
      CountOverRestrict(chatIds[1..], history, rest);
    }
  }

  /** Without its first chat, a listing lists the rest of the map. */
  lemma EnumerationTail(chatIds: seq<string>, history: map<string, seq<Entry>>)
    requires chatIds != [] && Enumerates(chatIds, history)
    ensures Enumerates(chatIds[1..], history - {chatIds[0]})
    ensures |history - {chatIds[0]}| == |history| - 1
  {
    var rest := history - {chatIds[0]};
    assert rest.Keys == history.Keys - {chatIds[0]};
    forall d ensures d in rest <==> d in chatIds[1..] {
      if d in chatIds[1..] {
        var j :| 0 <= j < |chatIds[1..]| && chatIds[1..][j] == d;
        assert chatIds[j + 1] == d;
      }
      if d in history && d != chatIds[0] {
        var j :| 0 <= j < |chatIds| && chatIds[j] == d;
        assert chatIds[1..][j - 1] == d;
      }
    }
  }

  lemma {:induction false} CountOverRestrict(chatIds: seq<string>, history: map<string, seq<Entry>>,
                                             rest: map<string, seq<Entry>>)
    requires forall k :: 0 <= k < |chatIds| ==> chatIds[k] in rest
    requires forall c :: c in rest ==> c in history && history[c] == rest[c]
    ensures CountOver(chatIds, history) == CountOver(chatIds, rest)
    decreases |chatIds|
  {
    if chatIds != [] {
      CountOverRestrict(chatIds[1..], history, rest);
    }
  }

  lemma {:induction false} MessageTotalOfSummaries(chatIds: seq<string>, history: map<string, seq<Entry>>,
                                                   lastActive: map<string, string>)
    requires forall k :: 0 <= k < |chatIds| ==> chatIds[k] in history
    ensures MessageTotal(SummariesOf(chatIds, history, lastActive)) == CountOver(chatIds, history)
    decreases |chatIds|
  {
    if chatIds != [] {
      MessageTotalOfSummaries(chatIds[1..], history, lastActive);
      assert SummariesOf(chatIds, history, lastActive)[1..] == SummariesOf(chatIds[1..], history, lastActive);
    }
  }

  /** The totals of the chat list: as many summaries as chats, and their
      message counts, sorted or not, add up to the store's total. */
  lemma ChatListTotals(chatIds: seq<string>, history: map<string, seq<Entry>>, lastActive: map<string, string>)
    requires Enumerates(chatIds, history)
    ensures var sorted := SortByActivity(SummariesOf(chatIds, history, lastActive));
            && |sorted| == |history|
            && MessageTotal(sorted) == SumLengths(history)
  {
    var summaries := SummariesOf(chatIds, history, lastActive);
    EnumerationCounts(chatIds, history);
    MessageTotalOfSummaries(chatIds, history, lastActive);
    MessageTotalSorted(summaries);
    assert |multiset(SortByActivity(summaries))| == |multiset(summaries)|;
  }

  /** `get_all_chats`, given the order in which the history dictionary
      enumerates its chats: one summary per chat, sorted newest first; the
      session total is the number of listed chats and the message total is
      the sum of their message counts. */
  method GetAllChats(store: MemoryStore, chatIds: seq<string>) returns (r: ChatList)
    requires Enumerates(chatIds, store.chatHistory)
    ensures r.chats == SortByActivity(SummariesOf(chatIds, store.chatHistory, store.chatLastActive))
    ensures r.totalSessions == |r.chats| == |store.chatHistory|
    ensures r.totalMessages == MessageTotal(r.chats) == SumLengths(store.chatHistory)
  {
    var all := store.GetAllChats();
    var summaries := BuildSummaries(chatIds, all, store.chatLastActive);
    var sorted := SortByActivity(summaries);
    var sessions := store.ChatSessionsCount();
    var messages := store.GetTotalChatCount();
    ChatListTotals(chatIds, all, store.chatLastActive);
    r := ChatList(sorted, sessions, messages);
  }

  // ---------------------------------------------------------------- websocket

  /** One text message of the WebSocket as the handler sees it: not JSON,
      a payload whose fields are not the strings the handler needs (the
      exception text is `detail`), or a payload with its optional
      `question` and `chat_id`. */
  datatype Inbound =
    | InvalidJson
    | Faulty(detail: string)
    | Payload(question: Option<string>, chatId: Option<string>)

  /** `payload.get("question", "").strip()`: empty exactly when no
      question was sent or it is blank. */
  function AskedQuestion(question: Option<string>): (q: string)
    ensures q == "" <==> question.None? || forall i :: 0 <= i < |question.value| ==> IsSpace(question.value[i])
    ensures q == "" || (!IsSpace(q[0]) && !IsSpace(q[|q| - 1]))
  {
    Strip(if question.Some? then question.value else "")
  }

  /** The message asks something: a payload whose question is not blank. */
  predicate Asks(msg: Inbound) {
    msg.Payload? && AskedQuestion(msg.question) != ""
  }

  /** The frames one message gets: a lone error frame, or a typing frame,
      chunks and a closing complete frame. */
  predicate Answered(out: seq<Frame>) {
    && out != []
    && (out[|out| - 1].Error? ==> |out| == 1)
    && (out[|out| - 1].Error? || out[|out| - 1].Complete?)
  }

  /** The store after one message, and the frames the message got. */
  datatype Turn = Turn(state: Snapshot, frames: seq<Frame>)

  /** What one message of the WebSocket loop does, as a function of the
      store before it: a message that asks nothing gets one error frame and
      leaves the store as it was; a question gets its answer streamed and
      completed, and that entry closes its chat's history. */
  function Respond(s: Snapshot, msg: Inbound, freshChatId: string, entryId: string, now: string): (t: Turn)
    ensures Answered(t.frames)
    ensures t.frames[|t.frames| - 1].Error? <==> !Asks(msg)
    ensures !Asks(msg) ==> t.state == s
    ensures Asks(msg) ==>
              var c := ChosenChat(msg.chatId, freshChatId);
              && c in t.state.chatHistory && t.state.chatHistory[c] != []
              && t.frames[|t.frames| - 1] == Complete(t.state.chatHistory[c][|t.state.chatHistory[c]| - 1])
              && c in t.state.chatLastActive && t.state.chatLastActive[c] == now
              && t.state.hasMemory
    ensures t.state.sessionId == s.sessionId
  {
    match msg
    case InvalidJson => Turn(s, [Error("Invalid JSON format")])
    case Faulty(detail) => Turn(s, [Error("An error occurred: " + detail)])
    case Payload(q, chatId) =>
      var question := AskedQuestion(q);
      if question == "" then Turn(s, [Error("Question cannot be empty")]) else QuestionTurn(s, question, chatId, freshChatId, entryId, now)
  }

  /** A non-blank question: the answer's chunks are streamed between a
      typing frame and the complete frame of the entry that now closes the
      chat's history. */
  function QuestionTurn(s: Snapshot, question: string, chatId: Option<string>,
                        freshChatId: string, entryId: string, now: string): (t: Turn)
    ensures Answered(t.frames) && t.frames[|t.frames| - 1].Complete?
    ensures var c := ChosenChat(chatId, freshChatId);
            && c in t.state.chatHistory && t.state.chatHistory[c] != []
            && t.frames[|t.frames| - 1] == Complete(t.state.chatHistory[c][|t.state.chatHistory[c]| - 1])
            && c in t.state.chatLastActive && t.state.chatLastActive[c] == now
            && t.state.hasMemory && t.state.sessionId == s.sessionId
  {
    var c := ChosenChat(chatId, freshChatId);
    var files := if Truthy(chatId) then Get(s.uploadedFiles, c) else [];
    var reply := MockPdfQa(question, files);
    var words := Words(reply.answer);
    var e := Entry(entryId, question, Join(words), reply.source, now, c);
    var prior := if Truthy(chatId) then Get(s.chatHistory, c) else [];
    Turn(Snapshot(s.uploadedFiles[c := files], s.chatHistory[c := prior + [e]], s.chatLastActive[c := now],
                  true, s.sessionId),
         [Typing("Analyzing documents...")] + ChunkFrames(words) + [Complete(e)])
  }

  /** A question leaves every other chat alone: its history, its file list
      and its last-active time are what they were. */
  lemma RespondTouchesOneChat(s: Snapshot, msg: Inbound, freshChatId: string, entryId: string, now: string,
                              d: string)
    requires Asks(msg) && d != ChosenChat(msg.chatId, freshChatId)
    ensures var t := Respond(s, msg, freshChatId, entryId, now).state;
            && (d in t.chatHistory <==> d in s.chatHistory)
            && (d in s.chatHistory ==> t.chatHistory[d] == s.chatHistory[d])
            && (d in t.uploadedFiles <==> d in s.uploadedFiles)
            && (d in s.uploadedFiles ==> t.uploadedFiles[d] == s.uploadedFiles[d])
            && (d in t.chatLastActive <==> d in s.chatLastActive)
            && (d in s.chatLastActive ==> t.chatLastActive[d] == s.chatLastActive[d])
  {
    var t := Respond(s, msg, freshChatId, entryId, now);
    assert t == QuestionTurn(s, AskedQuestion(msg.question), msg.chatId, freshChatId, entryId, now);
  }

  /** A question to a chat that was sent by id, or to a fresh id no chat
      has yet, adds exactly one message to the store's total. */
  lemma RespondCountsOne(s: Snapshot, msg: Inbound, freshChatId: string, entryId: string, now: string)
    requires Asks(msg)
    requires Truthy(msg.chatId) || freshChatId !in s.chatHistory
    ensures SumLengths(Respond(s, msg, freshChatId, entryId, now).state.chatHistory) == SumLengths(s.chatHistory) + 1
  {
    var c := ChosenChat(msg.chatId, freshChatId);
    var h := Respond(s, msg, freshChatId, entryId, now).state.chatHistory;
    SumLengthsUpdate(s.chatHistory, c, h[c]);
  }

  /** Steps 2 to 7 of the WebSocket loop for a non-blank question. */  method StreamAnswer(store: MemoryStore, question: string, chatId: Option<string>,
                      freshChatId: string, entryId: string, now: string)
    returns (out: seq<Frame>)
    requires store.Valid()
    modifies store
    ensures store.Valid()
    ensures var c := ChosenChat(chatId, freshChatId);
            var files := if Truthy(chatId) then Get(old(store.uploadedFiles), c) else [];
            var reply := MockPdfQa(question, files);
            var words := Words(reply.answer);
            var e := Entry(entryId, question, Join(words), reply.source, now, c);
            && out == [Typing("Analyzing documents...")] + ChunkFrames(words) + [Complete(e)]
            && store.chatHistory ==
                 old(store.chatHistory)[c := (if Truthy(chatId) then Get(old(store.chatHistory), c) else []) + [e]]
            && store.uploadedFiles == old(store.uploadedFiles)[c := files]
            && store.chatLastActive == old(store.chatLastActive)[c := now]
            && store.hasMemory && store.sessionId == old(store.sessionId)
    ensures Turn(store.State(), out) == QuestionTurn(old(store.State()), question, chatId, freshChatId, entryId, now)
  {
    ghost var h0, f0, a0 := store.chatHistory, store.uploadedFiles, store.chatLastActive;
    var c, files := OpenChat(store, chatId, freshChatId, now);
    var typing := Typing("Analyzing documents...");
    var reply := MockPdfQa(question, files);
    var chunks, stored := StreamReply(reply.answer);
    var entry := Persist(store, c, question, stored, reply.source, entryId, now, Truthy(chatId), h0, f0, a0);
    out := [typing] + chunks + [Complete(entry)];
  }

  /** The body of the WebSocket loop for one message. A blank question or
      a failure yields one error frame and stores nothing. Otherwise the
      stripped question is answered: the stored and completed answer is
      the streamed text, stripped, which is the answer's words joined by
      single spaces. */
  method HandleMessage(store: MemoryStore, msg: Inbound, freshChatId: string, entryId: string, now: string)
    returns (out: seq<Frame>)
    requires store.Valid()
    modifies store
    ensures store.Valid()
    ensures Answered(out)
    ensures msg.InvalidJson? ==> out == [Error("Invalid JSON format")] && unchanged(store)
    ensures msg.Faulty? ==> out == [Error("An error occurred: " + msg.detail)] && unchanged(store)
    ensures msg.Payload? && AskedQuestion(msg.question) == "" ==>
              out == [Error("Question cannot be empty")] && unchanged(store)
    ensures msg.Payload? && AskedQuestion(msg.question) != "" ==>
              var c := ChosenChat(msg.chatId, freshChatId);
              var files := if Truthy(msg.chatId) then Get(old(store.uploadedFiles), c) else [];
              var reply := MockPdfQa(AskedQuestion(msg.question), files);
              var words := Words(reply.answer);
              var e := Entry(entryId, AskedQuestion(msg.question), Join(words), reply.source, now, c);
              && out == [Typing("Analyzing documents...")] + ChunkFrames(words) + [Complete(e)]
              && Strip(Contents(ChunkFrames(words))) == e.answer
              && store.chatHistory ==
                   old(store.chatHistory)[c := (if Truthy(msg.chatId) then Get(old(store.chatHistory), c) else []) + [e]]
              && store.uploadedFiles == old(store.uploadedFiles)[c := files]
              && store.chatLastActive == old(store.chatLastActive)[c := now]
              && store.hasMemory && store.sessionId == old(store.sessionId)
    ensures Turn(store.State(), out) == Respond(old(store.State()), msg, freshChatId, entryId, now)
  {
    match msg
    case InvalidJson =>
      out := [Error("Invalid JSON format")];
    case Faulty(detail) =>
      out := [Error("An error occurred: " + detail)];
    case Payload(q, chatId) =>
      var question := AskedQuestion(q);
      if question == "" {
        out := [Error("Question cannot be empty")];
      } else {
        out := StreamAnswer(store, question, chatId, freshChatId, entryId, now);
        ghost var reply := MockPdfQa(question, if Truthy(chatId) then Get(old(store.uploadedFiles), ChosenChat(chatId, freshChatId)) else []);
        StreamedAnswer(reply.answer);
      }
  }

  /** A conversation so far: the store after it, and the frames each
      message got. */
  datatype Conversation = Conversation(state: Snapshot, sent: seq<seq<Frame>>)

  /** The messages of `inbox` handled in order from the store `s`; message
      `k` draws `freshChatId(k)`, `entryId(k)` and `clock(k)`. Every message
      gets its frames and the epoch never changes. */
  function Serve(s: Snapshot, inbox: seq<Inbound>,
                 freshChatId: nat -> string, entryId: nat -> string, clock: nat -> string): (r: Conversation)
    ensures |r.sent| == |inbox|
    ensures forall k :: 0 <= k < |inbox| ==> Answered(r.sent[k])
    ensures r.state.sessionId == s.sessionId
    decreases |inbox|
  {
    if inbox == [] then Conversation(s, [])
    else
      var k := |inbox| - 1;
      var prior := Serve(s, inbox[..k], freshChatId, entryId, clock);
      var t := Respond(prior.state, inbox[k], freshChatId(k), entryId(k), clock(k));
      Conversation(t.state, prior.sent + [t.frames])
  }

  /** Messages that ask nothing leave the store as it was, and each gets a
      single error frame. */
  lemma {:induction false} ServeQuiet(s: Snapshot, inbox: seq<Inbound>,
                                      freshChatId: nat -> string, entryId: nat -> string, clock: nat -> string)
    requires forall k :: 0 <= k < |inbox| ==> !Asks(inbox[k])
    ensures var r := Serve(s, inbox, freshChatId, entryId, clock);
            && r.state == s
            && forall k :: 0 <= k < |inbox| ==> |r.sent[k]| == 1 && r.sent[k][0].Error?
    decreases |inbox|
  {
    if inbox != [] {
      var k := |inbox| - 1;
      ServeQuiet(s, inbox[..k], freshChatId, entryId, clock);
    }
  }

  /** The `while True` loop of `websocket_chat` over the messages a client
      sends before it leaves: a blank or faulty message does not end the
      loop, and message `k` is handled as `Respond` says, on the store the
      earlier messages left. */
  method ServeMessages(store: MemoryStore, inbox: seq<Inbound>,
                       freshChatId: nat -> string, entryId: nat -> string, clock: nat -> string)
    returns (sent: seq<seq<Frame>>)
    requires store.Valid()
    modifies store
    ensures store.Valid()
    ensures Conversation(store.State(), sent) == Serve(old(store.State()), inbox, freshChatId, entryId, clock)
  {
    sent := [];
    for k := 0 to |inbox|
      invariant store.Valid()
      invariant Conversation(store.State(), sent) == Serve(old(store.State()), inbox[..k], freshChatId, entryId, clock)
    {
      assert inbox[..k + 1][..k] == inbox[..k];
      var out := HandleMessage(store, inbox[k], freshChatId(k), entryId(k), clock(k));
      sent := sent + [out];
    }
    assert inbox[..|inbox|] == inbox;
  }

  /** `websocket_chat` over one connection: the connection is registered,
      the messages are served, and the connection is dropped when the
      client leaves; a connection that was not open before is then gone
      again. */
  method WebsocketChat<T(==)>(manager: ConnectionManager<T>, store: MemoryStore, ws: T, inbox: seq<Inbound>,
                              freshChatId: nat -> string, entryId: nat -> string, clock: nat -> string)
    returns (sent: seq<seq<Frame>>)
    requires store.Valid()
    modifies manager, store
    ensures store.Valid()
    ensures Conversation(store.State(), sent) == Serve(old(store.State()), inbox, freshChatId, entryId, clock)
    ensures manager.activeConnections == RemoveFirst(old(manager.activeConnections) + [ws], ws)
    ensures ws !in old(manager.activeConnections) ==> manager.activeConnections == old(manager.activeConnections)
  {
    manager.Connect(ws);
    sent := ServeMessages(store, inbox, freshChatId, entryId, clock);
    manager.Disconnect(ws);
    if ws !in old(manager.activeConnections) {
      RemoveFirstUndoesAppend(old(manager.activeConnections), ws);
    }
  }
}
