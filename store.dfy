/** `MemoryStore` of app/utils.py: the process-wide registry of chat
    histories, uploaded-file lists and last-active times, keyed by chat id.

    The store's identifiers (`uuid.uuid4()`) and times
    (`datetime.now().isoformat()`) are parameters of the methods that
    create them. */
module Store {
  import opened Records

  /** Every entry of a history names the chat it is filed under. */
  ghost predicate OwnedBy(h: seq<Entry>, c: string) {
    forall k :: 0 <= k < |h| ==> h[k].chatId == c
  }

  /** Every history of the map holds only entries of its own chat. */
  ghost predicate AllOwned(m: map<string, seq<Entry>>) {
    forall c :: c in m ==> OwnedBy(m[c], c)
  }

  /** Appending an entry of chat `c` to `c`'s history keeps every history
      owned. */
  lemma AppendKeepsOwned(m: map<string, seq<Entry>>, c: string, prior: seq<Entry>, e: Entry)
    requires AllOwned(m) && OwnedBy(prior, c) && e.chatId == c
    ensures AllOwned(m[c := prior + [e]])
  {
  }

  /** Python's truthiness of an optional string: present and non-empty. */
  predicate Truthy(s: Option<string>) {
    s.Some? && s.value != ""
  }

  // ---------------------------------------------------------------- files

  /** `[f for f in files if f["id"] != file_id]`. */
  function RemoveById(files: seq<FileMeta>, fileId: string): (r: seq<FileMeta>)
    ensures |r| <= |files|
    ensures forall f :: f in r <==> f in files && f.id != fileId
  {
    if files == [] then []
    else (if files[0].id != fileId then [files[0]] else []) + RemoveById(files[1..], fileId)
  }

  /** Removing an id that no file carries changes nothing. */
  lemma {:induction false} RemoveByIdAbsent(files: seq<FileMeta>, fileId: string)
    requires forall k :: 0 <= k < |files| ==> files[k].id != fileId
    ensures RemoveById(files, fileId) == files
  {
    if files != [] {
      RemoveByIdAbsent(files[1..], fileId);
      assert [files[0]] + files[1..] == files;
    }
  }

  /** Deleting the same file twice is the same as deleting it once. */
  lemma RemoveByIdIdempotent(files: seq<FileMeta>, fileId: string)
    ensures RemoveById(RemoveById(files, fileId), fileId) == RemoveById(files, fileId)
  {
    var r := RemoveById(files, fileId);
    forall k | 0 <= k < |r| ensures r[k].id != fileId {
      assert r[k] in r;
    }
    RemoveByIdAbsent(r, fileId);
  }

  /** The filter keeps the order of the files it keeps: it distributes over
      concatenation. */
  lemma {:induction false} RemoveByIdAppend(a: seq<FileMeta>, b: seq<FileMeta>, fileId: string)
    ensures RemoveById(a + b, fileId) == RemoveById(a, fileId) + RemoveById(b, fileId)
    decreases |a|
  {
    if a == [] {
      assert a + b == b;
    } else {
      assert (a + b)[1..] == a[1..] + b;
      RemoveByIdAppend(a[1..], b, fileId);
    }
  }

  // ---------------------------------------------------------------- counts

  /** `sum(len(messages) for messages in chat_history.values())`. */
  ghost function SumLengths(m: map<string, seq<Entry>>): nat
    decreases |m|
  {
    if m == map[] then 0
    else
      var k :| k in m;
      assert |m - {k}| < |m| by {
        assert (m - {k}).Keys == m.Keys - {k};
      }
      |m[k]| + SumLengths(m - {k})
  }

  /** The sum does not depend on which key is taken out first. */
  lemma {:induction false} SumLengthsRemove(m: map<string, seq<Entry>>, k: string)
    requires k in m
    ensures SumLengths(m) == |m[k]| + SumLengths(m - {k})
    decreases |m|
  {
    var j :| j in m && SumLengths(m) == |m[j]| + SumLengths(m - {j});
    if j != k {
      assert (m - {j}).Keys == m.Keys - {j};
      assert (m - {k}).Keys == m.Keys - {k};
      SumLengthsRemove(m - {j}, k);
      SumLengthsRemove(m - {k}, j);
      assert m - {j} - {k} == m - {k} - {j};
    }
  }

  /** Replacing one chat's history changes the total by the difference
      of the two lengths. */
  lemma SumLengthsUpdate(m: map<string, seq<Entry>>, k: string, v: seq<Entry>)
    ensures SumLengths(m[k := v]) + |Get(m, k)| == SumLengths(m) + |v|
  {
    var m' := m[k := v];
    SumLengthsRemove(m', k);
    assert m' - {k} == m - {k};
    if k in m {
      SumLengthsRemove(m, k);
    } else {
      assert m - {k} == m;
    }
  }

  /** No single history is longer than the total. */
  lemma SumLengthsBound(m: map<string, seq<Entry>>)
    ensures forall c :: c in m ==> |m[c]| <= SumLengths(m)
  {
    forall c | c in m ensures |m[c]| <= SumLengths(m) {
      SumLengthsRemove(m, c);
    }
  }

  /** The total is zero exactly when every history is empty. */
  lemma {:induction false} SumLengthsZero(m: map<string, seq<Entry>>)
    ensures SumLengths(m) == 0 <==> forall c :: c in m ==> m[c] == []
    decreases |m|
  {
    if m != map[] {
      var k :| k in m;
      SumLengthsRemove(m, k);
      assert (m - {k}).Keys == m.Keys - {k};
      SumLengthsZero(m - {k});
      if SumLengths(m) == 0 {
        forall c | c in m ensures m[c] == [] {
          if c != k {
            assert c in m - {k};
          }
        }
      }
    }
  }

  // ---------------------------------------------------------------- store

  /** The fields of a store at one moment, as one value. */
  datatype Snapshot = Snapshot(
    uploadedFiles: map<string, seq<FileMeta>>,
    chatHistory: map<string, seq<Entry>>,
    chatLastActive: map<string, string>,
    hasMemory: bool,
    sessionId: string)

  class MemoryStore {
    var uploadedFiles: map<string, seq<FileMeta>>
    var chatHistory: map<string, seq<Entry>>
    var chatLastActive: map<string, string>
    var hasMemory: bool
    /** The epoch token, replaced on every full reset. */
    var sessionId: string

    /** `has_memory` is only ever set while some chat is registered, and
        each history holds only entries of its own chat. */
    function State(): Snapshot
      reads this
    {
      Snapshot(uploadedFiles, chatHistory, chatLastActive, hasMemory, sessionId)
    }

    ghost predicate Valid()
      reads this
    {
      && (hasMemory ==> chatHistory != map[])
      && AllOwned(chatHistory)
    }

    constructor (epoch: string)
      ensures Valid()
      ensures uploadedFiles == map[] && chatHistory == map[] && chatLastActive == map[]
      ensures !hasMemory && sessionId == epoch
    {
      uploadedFiles := map[];
      chatHistory := map[];
      chatLastActive := map[];
      hasMemory := false;
      sessionId := epoch;
    }

    /** `reset`: a truthy `chatId` drops that chat's history and files;
        otherwise every history goes, the file lists go when `clearFiles`
        is set, and the epoch token is replaced. */
    method Reset(chatId: Option<string>, clearFiles: bool, newEpoch: string)
      requires Valid()
      modifies this
      ensures Valid()
      ensures Truthy(chatId) ==>
        && chatHistory == old(chatHistory) - {chatId.value}
        && uploadedFiles == old(uploadedFiles) - {chatId.value}
        && sessionId == old(sessionId)
      ensures !Truthy(chatId) ==>
        && chatHistory == map[]
        && uploadedFiles == (if clearFiles then map[] else old(uploadedFiles))
        && sessionId == newEpoch
      ensures chatLastActive == old(chatLastActive)
      ensures hasMemory <==> chatHistory != map[]
    {
      if Truthy(chatId) {
        chatHistory := chatHistory - {chatId.value};
        uploadedFiles := uploadedFiles - {chatId.value};
      } else {
        chatHistory := map[];
        if clearFiles {
          uploadedFiles := map[];
        }
        sessionId := newEpoch;
      }
      hasMemory := |chatHistory| > 0;
    }

    /** `create_chat`: registers `freshId` with an empty history, an empty
        file list and a last-active time. */
    method CreateChat(freshId: string, now: string) returns (chatId: string)
      requires Valid()
      modifies this
      ensures Valid()
      ensures chatId == freshId
      ensures chatHistory == old(chatHistory)[chatId := []]
      ensures uploadedFiles == old(uploadedFiles)[chatId := []]
      ensures chatLastActive == old(chatLastActive)[chatId := now]
      ensures GetChatHistory(chatId) == [] && GetFiles(chatId) == []
      ensures hasMemory == old(hasMemory) && sessionId == old(sessionId)
    {
      chatId := freshId;
      chatHistory := chatHistory[chatId := []];
      uploadedFiles := uploadedFiles[chatId := []];
      chatLastActive := chatLastActive[chatId := now];
    }

    /** `add_chat`: appends one entry to the chat's history, creating the
        chat (no id given) or its missing records (unknown id) first. */
    method AddChat(question: string, answer: string, source: string, chatId: Option<string>,
                   freshChatId: string, entryId: string, now: string) returns (entry: Entry)
      requires Valid()
      modifies this
      ensures Valid()
      ensures entry == Entry(entryId, question, answer, source, now,
                             if chatId.Some? then chatId.value else freshChatId)
      ensures chatHistory == old(chatHistory)[entry.chatId :=
                (if chatId.Some? then Get(old(chatHistory), entry.chatId) else []) + [entry]]
      ensures uploadedFiles == old(uploadedFiles)[entry.chatId :=
                if chatId.Some? then Get(old(uploadedFiles), entry.chatId) else []]
      ensures chatLastActive == old(chatLastActive)[entry.chatId := entry.timestamp]
      ensures hasMemory && sessionId == old(sessionId)
      ensures chatId.Some? || freshChatId !in old(chatHistory) ==>
                TotalChatCount() == old(TotalChatCount()) + 1
    {
      ghost var h0, f0, a0 := chatHistory, uploadedFiles, chatLastActive;
      var c: string;
      if chatId.None? {
        c := CreateChat(freshChatId, now);
      } else {
        c := chatId.value;
      }
      ghost var prior := if chatId.Some? then Get(h0, c) else [];
      InitMissing(c, now);
      assert chatHistory == h0[c := prior];
      entry := Entry(entryId, question, answer, source, now, c);
      Record(entry);
      assert chatHistory == h0[c := prior + [entry]];
      if chatId.Some? || freshChatId !in h0 {
        assert prior == Get(h0, c);
        SumLengthsUpdate(h0, c, prior + [entry]);
      }
    }

    /** Step 2 of `add_chat`: creates whichever of the chat's three records
        is missing, leaving present ones as they are. */
    method InitMissing(c: string, now: string)
      requires Valid()
      modifies this
      ensures Valid()
      ensures chatHistory == old(chatHistory)[c := Get(old(chatHistory), c)]
      ensures uploadedFiles == old(uploadedFiles)[c := Get(old(uploadedFiles), c)]
      ensures chatLastActive == old(chatLastActive)[c := if c in old(chatLastActive) then old(chatLastActive)[c] else now]
      ensures hasMemory == old(hasMemory) && sessionId == old(sessionId)
    {
      if c !in chatHistory {
        chatHistory := chatHistory[c := []];
      }
      if c !in uploadedFiles {
        uploadedFiles := uploadedFiles[c := []];
      }
      if c !in chatLastActive {
        chatLastActive := chatLastActive[c := now];
      }
    }

    /** Steps 4 and 5 of `add_chat`: appends `entry` to its chat's history,
        makes its timestamp the chat's last-active time and sets the
        memory flag. */
    method Record(entry: Entry)
      requires Valid() && entry.chatId in chatHistory
      modifies this
      ensures Valid()
      ensures chatHistory == old(chatHistory)[entry.chatId := old(chatHistory)[entry.chatId] + [entry]]
      ensures chatLastActive == old(chatLastActive)[entry.chatId := entry.timestamp]
      ensures uploadedFiles == old(uploadedFiles)
      ensures hasMemory && sessionId == old(sessionId)
    {
      var c := entry.chatId;
      AppendKeepsOwned(chatHistory, c, chatHistory[c], entry);
      chatHistory := chatHistory[c := chatHistory[c] + [entry]];
      chatLastActive := chatLastActive[c := entry.timestamp];
      hasMemory := true;
      assert c in chatHistory;
    }

    /** `get_chat_history`: the chat's entries in insertion order, or the
        empty list for an unknown chat. */
    function GetChatHistory(chatId: string): (h: seq<Entry>)
      reads this
      ensures h == [] <==> chatId !in chatHistory || chatHistory[chatId] == []
      ensures Valid() ==> forall k :: 0 <= k < |h| ==> h[k].chatId == chatId
    {
      Get(chatHistory, chatId)
    }

    /** `get_all_chats`: the whole history map, one history per registered
        chat, each holding only that chat's entries. */
    function GetAllChats(): (all: map<string, seq<Entry>>)
      reads this
      ensures |all| == ChatSessionsCount()
      ensures Valid() ==> forall c, k :: c in all && 0 <= k < |all[c]| ==> all[c][k].chatId == c
    {
      chatHistory
    }

    /** `get_total_chat_count`: the number of entries over all chats. It
        bounds every history's length, and is zero exactly when every
        history is empty. */
    ghost function TotalChatCount(): (n: nat)
      reads this
      ensures forall c :: c in chatHistory ==> |chatHistory[c]| <= n
      ensures n == 0 <==> forall c :: c in chatHistory ==> chatHistory[c] == []
    {
      SumLengthsBound(chatHistory);
      SumLengthsZero(chatHistory);
      SumLengths(chatHistory)
    }

    /** `get_total_chat_count`, visiting the histories one by one. */
    method GetTotalChatCount() returns (n: nat)
      ensures n == TotalChatCount()
    {
      n := 0;
      var rest := chatHistory;
      while rest != map[]
        invariant n + SumLengths(rest) == SumLengths(chatHistory)
        decreases |rest|
      {
        var c :| c in rest;
        SumLengthsRemove(rest, c);
        assert (rest - {c}).Keys == rest.Keys - {c};
        n := n + |rest[c]|;
        rest := rest - {c};
      }
    }

    /** `get_chat_sessions_count`: the number of registered histories. */
    function ChatSessionsCount(): (n: nat)
      reads this
      ensures n == 0 <==> chatHistory == map[]
    {
      |chatHistory|
    }

    /** `add_files`: extends the chat's file list, creating it if missing. */
    method AddFiles(chatId: string, files: seq<FileMeta>)
      requires Valid()
      modifies this
      ensures Valid()
      ensures uploadedFiles == old(uploadedFiles)[chatId := Get(old(uploadedFiles), chatId) + files]
      ensures chatHistory == old(chatHistory) && chatLastActive == old(chatLastActive)
      ensures hasMemory == old(hasMemory) && sessionId == old(sessionId)
    {
      if chatId !in uploadedFiles {
        uploadedFiles := uploadedFiles[chatId := []];
      }
      uploadedFiles := uploadedFiles[chatId := uploadedFiles[chatId] + files];
    }

    /** `get_files`: the chat's file list, or the empty list. */
    function GetFiles(chatId: string): (fs: seq<FileMeta>)
      reads this
      ensures fs == [] <==> chatId !in uploadedFiles || uploadedFiles[chatId] == []
    {
      Get(uploadedFiles, chatId)
    }

    /** `delete_file`: drops every file of the chat carrying `fileId`; the
        chat's key is present afterwards even if it was not before. */
    method DeleteFile(chatId: string, fileId: string)
      requires Valid()
      modifies this
      ensures Valid()
      ensures uploadedFiles == old(uploadedFiles)[chatId := RemoveById(Get(old(uploadedFiles), chatId), fileId)]
      ensures chatHistory == old(chatHistory) && chatLastActive == old(chatLastActive)
      ensures hasMemory == old(hasMemory) && sessionId == old(sessionId)
    {
      uploadedFiles := uploadedFiles[chatId := RemoveById(Get(uploadedFiles, chatId), fileId)];
    }

    /** `clear_files`: the chat's file list becomes empty (and present). */
    method ClearFiles(chatId: string)
      requires Valid()
      modifies this
      ensures Valid()
      ensures uploadedFiles == old(uploadedFiles)[chatId := []]
      ensures chatHistory == old(chatHistory) && chatLastActive == old(chatLastActive)
      ensures hasMemory == old(hasMemory) && sessionId == old(sessionId)
    {
      uploadedFiles := uploadedFiles[chatId := []];
    }

    /** `touch_chat`: records `now` as the chat's last-active time, whether
        or not the chat is registered. */
    method TouchChat(chatId: string, now: string)
      requires Valid()
      modifies this
      ensures Valid()
      ensures chatLastActive == old(chatLastActive)[chatId := now]
      ensures chatHistory == old(chatHistory) && uploadedFiles == old(uploadedFiles)
      ensures hasMemory == old(hasMemory) && sessionId == old(sessionId)
    {
      chatLastActive := chatLastActive[chatId := now];
    }
  }
}
