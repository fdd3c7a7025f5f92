/** The chunking loop of `websocket_chat` in app/main.py: the answer is
    split into words and sent in runs of three, each run joined by single
    spaces with one trailing space and flagged `is_final` when it reaches
    the end of the word list. */
module Streaming {
  import opened Text
  import opened Records

  const CHUNK_SIZE := 3

  /** An outbound WebSocket frame, tagged by its `type` field. */
  datatype Frame =
    | Typing(message: string)
    | Chunk(content: string, isFinal: bool)
    | Complete(entry: Entry)
    | Error(message: string)

  function Min(a: int, b: int): int {
    if a < b then a else b
  }

  /** The chunk frames of a word list, run by run: the reference the
      index-based loop below is proved against. */
  function ChunkFrames(words: seq<string>): (fs: seq<Frame>)
    ensures forall k :: 0 <= k < |fs| ==> fs[k].Chunk?
    decreases |words|
  {
    if words == [] then []
    else if |words| <= CHUNK_SIZE then [Chunk(Join(words) + " ", true)]
    else [Chunk(Join(words[..CHUNK_SIZE]) + " ", false)] + ChunkFrames(words[CHUNK_SIZE..])
  }

  /** The concatenated `content` of the chunk frames among `fs`. */
  function Contents(fs: seq<Frame>): string {
    if fs == [] then ""
    else (if fs[0].Chunk? then fs[0].content else "") + Contents(fs[1..])
  }

  lemma {:induction false} ContentsAppend(fs: seq<Frame>, gs: seq<Frame>)
    ensures Contents(fs + gs) == Contents(fs) + Contents(gs)
    decreases |fs|
  {
    if fs == [] {
      assert fs + gs == gs;
    } else {
      assert (fs + gs)[1..] == fs[1..] + gs;
      ContentsAppend(fs[1..], gs);
    }
  }

  /** Unfolding the reference at word `i`: one run of up to three words,
      final when it reaches the end, then the chunks of what follows. */
  lemma ChunkFramesFrom(words: seq<string>, i: nat)
    requires i < |words|
    ensures ChunkFrames(words[i..]) ==
              [Chunk(Join(words[i..Min(i + CHUNK_SIZE, |words|)]) + " ", i + CHUNK_SIZE >= |words|)]
              + ChunkFrames(words[Min(i + CHUNK_SIZE, |words|)..])
  {
    var n := |words|;
    var rest := words[i..];
    if n - i <= CHUNK_SIZE {
      assert rest == words[i..Min(i + CHUNK_SIZE, n)];
      assert words[Min(i + CHUNK_SIZE, n)..] == [];
    } else {
      assert rest[..CHUNK_SIZE] == words[i..Min(i + CHUNK_SIZE, n)];
      assert rest[CHUNK_SIZE..] == words[i + CHUNK_SIZE..];
    }
  }

  /** One turn of the loop keeps its invariant: the chunks sent so far,
      followed by the chunks of the words not yet sent, are all chunks. */
  lemma StreamStep(words: seq<string>, i: nat, chunks: seq<Frame>)
    requires i < |words|
    requires chunks + ChunkFrames(words[i..]) == ChunkFrames(words)
    ensures var n := |words|;
            var chunk := Join(words[i..Min(i + CHUNK_SIZE, n)]) + " ";
            && (chunks + [Chunk(chunk, i + CHUNK_SIZE >= n)]) + ChunkFrames(words[Min(i + CHUNK_SIZE, n)..])
                 == ChunkFrames(words)
            && Contents(chunks + [Chunk(chunk, i + CHUNK_SIZE >= n)]) == Contents(chunks) + chunk
  {
    var n := |words|;
    var chunk := Join(words[i..Min(i + CHUNK_SIZE, n)]) + " ";
    var frame := Chunk(chunk, i + CHUNK_SIZE >= n);
    ChunkFramesFrom(words, i);
    ContentsAppend(chunks, [frame]);
    assert Contents([frame]) == chunk + Contents([]);
    assert (chunks + [frame]) + ChunkFrames(words[Min(i + CHUNK_SIZE, n)..])
        == chunks + ([frame] + ChunkFrames(words[Min(i + CHUNK_SIZE, n)..]));
  }

  /** The loop `for i in range(0, len(words), 3)` of `websocket_chat`,
      collecting the frames it sends and the `full_resp` it accumulates. */
  method StreamChunks(words: seq<string>) returns (chunks: seq<Frame>, fullResp: string)
    ensures chunks == ChunkFrames(words)
    ensures fullResp == Contents(chunks)
  {
    var n := |words|;
    chunks, fullResp := [], "";
    var i := 0;
    while i < n
      invariant 0 <= i < n + CHUNK_SIZE
      invariant chunks + ChunkFrames(words[Min(i, n)..]) == ChunkFrames(words)
      invariant fullResp == Contents(chunks)
    {
      var chunk := Join(words[i..Min(i + CHUNK_SIZE, n)]) + " ";
      var frame := Chunk(chunk, i + CHUNK_SIZE >= n);
      StreamStep(words, i, chunks);
      fullResp := fullResp + chunk;
      chunks := chunks + [frame];
      i := i + CHUNK_SIZE;
    }
    assert words[n..] == [];
  }

  /** There are ceil(len(words) / 3) chunks. */
  lemma {:induction false} ChunkCount(words: seq<string>)
    ensures |ChunkFrames(words)| == (|words| + CHUNK_SIZE - 1) / CHUNK_SIZE
    decreases |words|
  {
    if |words| > CHUNK_SIZE {
      ChunkCount(words[CHUNK_SIZE..]);
    }
  }

  /** Chunk `k` carries words 3k .. 3k+2 (those that exist), joined by
      single spaces, with one trailing space; it holds at least one word. */
  lemma {:induction false} ChunkAt(words: seq<string>, k: nat)
    requires k < |ChunkFrames(words)|
    ensures CHUNK_SIZE * k < |words|
    ensures ChunkFrames(words)[k].content ==
              Join(words[CHUNK_SIZE * k..Min(CHUNK_SIZE * k + CHUNK_SIZE, |words|)]) + " "
    decreases |words|
  {
    if |words| > CHUNK_SIZE {
      if k == 0 {
        assert words[..CHUNK_SIZE] == words[0..Min(CHUNK_SIZE, |words|)];
      } else {
        var tail := words[CHUNK_SIZE..];
        ChunkAt(tail, k - 1);
        var j := CHUNK_SIZE * (k - 1);
        assert j + CHUNK_SIZE == CHUNK_SIZE * k;
        assert Min(j + CHUNK_SIZE, |tail|) + CHUNK_SIZE == Min(CHUNK_SIZE * k + CHUNK_SIZE, |words|);
        SliceOfTail(words, CHUNK_SIZE, j, Min(j + CHUNK_SIZE, |tail|));
      }
    } else {
      assert words == words[0..Min(CHUNK_SIZE, |words|)];
    }
  }

  lemma SliceOfTail<T>(s: seq<T>, d: nat, i: nat, j: nat)
    requires d <= |s| && i <= j <= |s| - d
    ensures s[d..][i..j] == s[d + i..d + j]
  {
  }

  /** Exactly the last chunk is flagged final. */
  lemma {:induction false} OnlyLastIsFinal(words: seq<string>, k: nat)
    requires k < |ChunkFrames(words)|
    ensures ChunkFrames(words)[k].isFinal <==> k == |ChunkFrames(words)| - 1
    decreases |words|
  {
    if |words| > CHUNK_SIZE && k > 0 {
      OnlyLastIsFinal(words[CHUNK_SIZE..], k - 1);
    } else if |words| > CHUNK_SIZE {
      ChunkCount(words);
    }
  }

  /** The chunks put together are the words joined by single spaces, plus
      one trailing space. */
  lemma {:induction false} ContentsOfChunks(words: seq<string>)
    ensures Contents(ChunkFrames(words)) == if words == [] then "" else Join(words) + " "
    decreases |words|
  {
    if words == [] {
    } else if |words| <= CHUNK_SIZE {
      assert Contents([Chunk(Join(words) + " ", true)]) == Join(words) + " " + Contents([]);
    } else {
      var head := words[..CHUNK_SIZE];
      var tail := words[CHUNK_SIZE..];
      var first := Chunk(Join(head) + " ", false);
      ContentsOfChunks(tail);
      ContentsAppend([first], ChunkFrames(tail));
      assert Contents([first]) == Join(head) + " " + Contents([]);
      assert head + tail == words;
      JoinAppend(head, tail);
    }
  }

  /** What is streamed, once stripped, is the answer's words joined by
      single spaces; an answer without words streams nothing. */
  lemma StreamedAnswer(answer: string)
    ensures var words := Words(answer);
            && (words == [] <==> ChunkFrames(words) == [])
            && Strip(Contents(ChunkFrames(words))) == Join(words)
  {
    var words := Words(answer);
    ContentsOfChunks(words);
    ChunkCount(words);
    if words != [] {
      StripJoinBlank(words);
    }
  }

  /** Steps 5 and 6 of the WebSocket loop: split the answer, stream its
      chunks, and strip the accumulated text for storage. What is stored is
      the answer's words joined by single spaces. */
  method StreamReply(answer: string) returns (chunks: seq<Frame>, stored: string)
    ensures chunks == ChunkFrames(Words(answer))
    ensures stored == Join(Words(answer))
  {
    var words := Words(answer);
    var fullResp;
    chunks, fullResp := StreamChunks(words);
    StreamedAnswer(answer);
    stored := Strip(fullResp);
  }

  /** Streaming is stable: re-splitting the stored answer gives back the
      same words, so streaming the stored answer again sends the same
      chunks. */
  lemma RestreamIsStable(answer: string)
    ensures Words(Join(Words(answer))) == Words(answer)
    ensures ChunkFrames(Words(Join(Words(answer)))) == ChunkFrames(Words(answer))
  {
    WordsOfJoin(Words(answer));
  }
}
