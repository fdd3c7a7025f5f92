/** The chat list of `get_all_chats` in app/main.py: one summary per chat,
    then a stable sort by last-active time, newest first, chats without a
    time last. */
module Summaries {
  import opened Text
  import opened Records

  datatype ChatSummary = ChatSummary(
    chatId: string,
    messageCount: nat,
    firstQuestion: Option<string>,
    lastMessageTime: Option<string>,
    lastActiveTime: Option<string>)

  /** The summary of one chat: its first question, the time of its last
      message, and its last-active time, which falls back to the last
      message's time when none is recorded. */
  function Summarize(chatId: string, messages: seq<Entry>, lastActive: map<string, string>): (r: ChatSummary)
    ensures r.firstQuestion.Some? <==> messages != []
    ensures r.lastMessageTime.Some? <==> messages != []
    ensures chatId !in lastActive ==> r.lastActiveTime == r.lastMessageTime
    ensures r.lastActiveTime.None? <==> chatId !in lastActive && messages == []
  {
    var lastMessageTime := if messages == [] then None else Some(messages[|messages| - 1].timestamp);
    ChatSummary(
      chatId,
      |messages|,
      if messages == [] then None else Some(messages[0].question),
      lastMessageTime,
      if chatId in lastActive then Some(lastActive[chatId]) else lastMessageTime)
  }

  /** A recorded last-active time wins over the message times, so a chat
      opened after its last message shows the opening time. */
  lemma TouchedTimeShows(chatId: string, messages: seq<Entry>, lastActive: map<string, string>)
    requires chatId in lastActive
    ensures Summarize(chatId, messages, lastActive).lastActiveTime == Some(lastActive[chatId])
  {
  }

  /** The sort key `c.last_active_time or ""`: a missing time sorts as the
      empty string, the least of all keys. */
  function SortKey(s: ChatSummary): (k: string)
    ensures s.lastActiveTime.Some? ==> k == s.lastActiveTime.value
    ensures k == "" <==> s.lastActiveTime.None? || s.lastActiveTime.value == ""
  {
    if s.lastActiveTime.Some? then s.lastActiveTime.value else ""
  }

  /** Newest first: no summary's key is below that of a later one. */
  ghost predicate SortedDesc(r: seq<ChatSummary>) {
    forall i, j :: 0 <= i < j < |r| ==> !Below(SortKey(r[i]), SortKey(r[j]))
  }

  /** The summaries with sort key `v`, in their order. */
  function WithKey(s: seq<ChatSummary>, v: string): seq<ChatSummary> {
    if s == [] then []
    else (if SortKey(s[0]) == v then [s[0]] else []) + WithKey(s[1..], v)
  }

  /** Puts `x` in front of the first summary whose key is not above its
      own; `x` comes before the summaries of `t` in the input. */
  function Insert(x: ChatSummary, t: seq<ChatSummary>): (r: seq<ChatSummary>)
    ensures multiset(r) == multiset(t) + multiset{x}
  {
    if t == [] then [x]
    else if !Below(SortKey(x), SortKey(t[0])) then [x] + t
    else
      assert t == [t[0]] + t[1..];
      [t[0]] + Insert(x, t[1..])
  }

  /** `chat_summaries.sort(key=..., reverse=True)`, as a stable insertion
      sort. */
  function SortByActivity(s: seq<ChatSummary>): (r: seq<ChatSummary>)
    ensures multiset(r) == multiset(s)
  {
    if s == [] then []
    else
      assert s == [s[0]] + s[1..];
      Insert(s[0], SortByActivity(s[1..]))
  }

  lemma SortedCons(a: ChatSummary, rest: seq<ChatSummary>)
    requires SortedDesc(rest)
    requires forall y :: y in rest ==> !Below(SortKey(a), SortKey(y))
    ensures SortedDesc([a] + rest)
  {
    var r := [a] + rest;
    forall i, j | 0 <= i < j < |r| ensures !Below(SortKey(r[i]), SortKey(r[j])) {
      if i == 0 {
        assert r[j] == rest[j - 1];
        assert rest[j - 1] in rest;
      } else {
        assert r[i] == rest[i - 1] && r[j] == rest[j - 1];
      }
    }
  }

  lemma {:induction false} InsertSorted(x: ChatSummary, t: seq<ChatSummary>)
    requires SortedDesc(t)
    ensures SortedDesc(Insert(x, t))
    decreases |t|
  {
    if t == [] {
    } else if !Below(SortKey(x), SortKey(t[0])) {
      forall y | y in t ensures !Below(SortKey(x), SortKey(y)) {
        var j :| 0 <= j < |t| && t[j] == y;
        if j > 0 {
          AtLeastTransitive(SortKey(x), SortKey(t[0]), SortKey(y));
        }
      }
      SortedCons(x, t);
    } else {
      var rest := t[1..];
      assert SortedDesc(rest) by {
        forall i, j | 0 <= i < j < |rest| ensures !Below(SortKey(rest[i]), SortKey(rest[j])) {
          assert rest[i] == t[i + 1] && rest[j] == t[j + 1];
        }
      }
      InsertSorted(x, rest);
      var r := Insert(x, rest);
      forall y | y in r ensures !Below(SortKey(t[0]), SortKey(y)) {
        assert y in multiset(r);
        if y == x {
          BelowAsymmetric(SortKey(x), SortKey(t[0]));
        } else {
          assert y in multiset(rest);
          var j :| 0 <= j < |rest| && rest[j] == y;
          assert t[j + 1] == y;
        }
      }
      SortedCons(t[0], r);
    }
  }

  /** The sorted list is newest first. */
  lemma {:induction false} SortIsSorted(s: seq<ChatSummary>)
    ensures SortedDesc(SortByActivity(s))
    decreases |s|
  {
    if s != [] {
      SortIsSorted(s[1..]);
      InsertSorted(s[0], SortByActivity(s[1..]));
    }
  }

  /** Inserting `x` keeps the order among summaries of any one key, `x`
      first among those of its own key. */
  lemma {:induction false} InsertWithKey(x: ChatSummary, t: seq<ChatSummary>, v: string)
    ensures WithKey(Insert(x, t), v) == WithKey([x] + t, v)
    decreases |t|
  {
    if t != [] && Below(SortKey(x), SortKey(t[0])) {
      InsertWithKey(x, t[1..], v);
      InsertWithKeyStep(x, t, v);
    }
  }

  /** The step of `InsertWithKey` where `x` goes past `t[0]`: the two have
      different keys, so their order within any one key is unaffected. */
  lemma InsertWithKeyStep(x: ChatSummary, t: seq<ChatSummary>, v: string)
    requires t != [] && Below(SortKey(x), SortKey(t[0]))
    requires WithKey(Insert(x, t[1..]), v) == WithKey([x] + t[1..], v)
    ensures WithKey(Insert(x, t), v) == WithKey([x] + t, v)
  {
    var xs := if SortKey(x) == v then [x] else [];
    var t0s := if SortKey(t[0]) == v then [t[0]] else [];
    assert Insert(x, t) == [t[0]] + Insert(x, t[1..]);
    assert ([t[0]] + Insert(x, t[1..]))[1..] == Insert(x, t[1..]);
    assert WithKey(Insert(x, t), v) == t0s + WithKey(Insert(x, t[1..]), v);
    assert ([x] + t[1..])[1..] == t[1..];
    assert ([x] + t)[1..] == t;
    assert WithKey([x] + t[1..], v) == xs + WithKey(t[1..], v);
    assert WithKey([x] + t, v) == xs + WithKey(t, v);
    assert WithKey(t, v) == t0s + WithKey(t[1..], v);
    BelowIrreflexive(SortKey(x));
    assert xs == [] || t0s == [];
  }

  /** The sort is stable: summaries with equal keys keep their input order,
      and no summary is lost or added. */
  lemma {:induction false} SortIsStable(s: seq<ChatSummary>, v: string)
    ensures WithKey(SortByActivity(s), v) == WithKey(s, v)
    decreases |s|
  {
    if s != [] {
      SortIsStable(s[1..], v);
      InsertWithKey(s[0], SortByActivity(s[1..]), v);
      assert ([s[0]] + SortByActivity(s[1..]))[1..] == SortByActivity(s[1..]);
    }
  }

  /** Chats without a last-active time (key "") come after every chat that
      has one. */
  lemma MissingTimesLast(s: seq<ChatSummary>, i: nat, j: nat)
    requires i < j < |SortByActivity(s)|
    requires SortKey(SortByActivity(s)[i]) == ""
    ensures SortKey(SortByActivity(s)[j]) == ""
  {
    SortIsSorted(s);
    EmptyIsLeast(SortKey(SortByActivity(s)[j]));
  }

  /** The messages counted by a list of summaries. */
  function MessageTotal(s: seq<ChatSummary>): nat {
    if s == [] then 0 else s[0].messageCount + MessageTotal(s[1..])
  }

  lemma {:induction false} MessageTotalInsert(x: ChatSummary, t: seq<ChatSummary>)
    ensures MessageTotal(Insert(x, t)) == x.messageCount + MessageTotal(t)
    decreases |t|
  {
    if t != [] && Below(SortKey(x), SortKey(t[0])) {
      MessageTotalInsert(x, t[1..]);
      assert ([t[0]] + Insert(x, t[1..]))[1..] == Insert(x, t[1..]);
    }
  }

  /** Sorting neither loses nor adds messages to the listed counts. */
  lemma {:induction false} MessageTotalSorted(s: seq<ChatSummary>)
    ensures MessageTotal(SortByActivity(s)) == MessageTotal(s)
    decreases |s|
  {
    if s != [] {
      MessageTotalSorted(s[1..]);
      MessageTotalInsert(s[0], SortByActivity(s[1..]));
    }
  }

  /** The summaries of the chats `chatIds`, in that order. */
  function SummariesOf(chatIds: seq<string>, history: map<string, seq<Entry>>,
                       lastActive: map<string, string>): seq<ChatSummary>
    requires forall k :: 0 <= k < |chatIds| ==> chatIds[k] in history
  {
    seq(|chatIds|, k requires 0 <= k < |chatIds| => Summarize(chatIds[k], history[chatIds[k]], lastActive))
  }

  /** The `for chat_id, messages in all_chats.items()` loop: one summary
      per chat, in the order the chats are enumerated. */
  method BuildSummaries(chatIds: seq<string>, history: map<string, seq<Entry>>,
                        lastActive: map<string, string>) returns (summaries: seq<ChatSummary>)
    requires forall k :: 0 <= k < |chatIds| ==> chatIds[k] in history
    ensures summaries == SummariesOf(chatIds, history, lastActive)
  {
    summaries := [];
    for k := 0 to |chatIds|
      invariant |summaries| == k
      invariant forall j :: 0 <= j < k ==>
                  summaries[j] == Summarize(chatIds[j], history[chatIds[j]], lastActive)
    {
      summaries := summaries + [Summarize(chatIds[k], history[chatIds[k]], lastActive)];
    }
  }
}
