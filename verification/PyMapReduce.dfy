/** The Python word count of hw4: an exact partition that cuts words, and what is conserved. */
module PyMapReduce {
  import opened Common
  import opened Text
  import opened Counting

  /** Python's text[start:end] for non-negative bounds. */
  function PySlice(text: string, start: nat, end: nat): string {
    if start < Min(end, |text|) then text[start..Min(end, |text|)] else ""
  }

  function ChunkSize(text: string, n: nat): nat
    requires n > 0
  {
    (|text| + n - 1) / n
  }

  function Chunk(text: string, n: nat, i: nat): string
    requires n > 0
  {
    PySlice(text, i * ChunkSize(text, n), Min(|text|, (i + 1) * ChunkSize(text, n)))
  }

  function Join(chunks: seq<string>): string {
    if chunks == [] then "" else Join(chunks[..|chunks| - 1]) + chunks[|chunks| - 1]
  }

  /** Where chunk i begins, at most the length of the text. */
  function Cut(text: string, n: nat, i: nat): (at: nat)
    requires n > 0
    ensures at <= |text|
  {
    Min(i * ChunkSize(text, n), |text|)
  }

  lemma NextCut(text: string, n: nat, i: nat)
    requires n > 0
    ensures Cut(text, n, i) <= Cut(text, n, i + 1)
    ensures Chunk(text, n, i) == text[Cut(text, n, i)..Cut(text, n, i + 1)]
    ensures Cut(text, n, i) < |text| ==> Cut(text, n, i) < Cut(text, n, i + 1)
  {
    var size := ChunkSize(text, n);
    assert (i + 1) * size == i * size + size;
    assert |text| > 0 ==> size > 0;
  }

  lemma LastCut(text: string, n: nat)
    requires n > 0
    ensures Cut(text, n, n) == |text| && Cut(text, n, 0) == 0
  {
    assert n * ((|text| + n - 1) / n) >= |text|;
    assert 0 * ChunkSize(text, n) == 0;
  }

  ghost predicate AreChunks(text: string, n: nat, chunks: seq<string>)
    requires n > 0
  {
    |chunks| == n && forall i :: 0 <= i < n ==> chunks[i] == Chunk(text, n, i)
  }

  lemma {:induction false} JoinPrefix(text: string, n: nat, chunks: seq<string>, k: nat)
    requires n > 0 && AreChunks(text, n, chunks) && k <= n
    ensures Join(chunks[..k]) == text[..Cut(text, n, k)]
  {
    if k == 0 {
      LastCut(text, n);
    } else {
      assert chunks[..k][..k - 1] == chunks[..k - 1];
      JoinPrefix(text, n, chunks, k - 1);
      NextCut(text, n, k - 1);
    }
  }

  /** The chunks concatenate back to the text, for every size and chunk count. */
  lemma ChunksJoinToText(text: string, n: nat, chunks: seq<string>)
    requires n > 0 && AreChunks(text, n, chunks)
    ensures Join(chunks) == text
  {
    JoinPrefix(text, n, chunks, n);
    LastCut(text, n);
    assert chunks[..n] == chunks;
  }

  /** All chunks are of the ceiling size until the text ends. */
  ghost predicate EvenlyCut(text: string, chunks: seq<string>) {
    forall i {:trigger chunks[i]} :: 0 <= i < |chunks| ==>
      var size := (|text| + |chunks| - 1) / |chunks|;
      var lo := if i * size < |text| then i * size else |text|;
      var hi := if (i + 1) * size < |text| then (i + 1) * size else |text|;
      0 <= lo <= hi && chunks[i] == text[lo..hi] && (hi < |text| ==> |chunks[i]| == size)
  }

  lemma ChunksWrittenOut(text: string, chunks: seq<string>)
    requires |chunks| > 0 && AreChunks(text, |chunks|, chunks)
    ensures EvenlyCut(text, chunks)
  {
    var n := |chunks|;
    forall i | 0 <= i < n
      ensures var size := (|text| + n - 1) / n;
              var lo := if i * size < |text| then i * size else |text|;
              var hi := if (i + 1) * size < |text| then (i + 1) * size else |text|;
              0 <= lo <= hi && chunks[i] == text[lo..hi] && (hi < |text| ==> |chunks[i]| == size)
    {
      OneChunkWrittenOut(text, n, i);
    }
  }

  lemma OneChunkWrittenOut(text: string, n: nat, i: nat)
    requires n > 0
    ensures var size := (|text| + n - 1) / n;
            var lo := if i * size < |text| then i * size else |text|;
            var hi := if (i + 1) * size < |text| then (i + 1) * size else |text|;
            0 <= lo <= hi && Chunk(text, n, i) == text[lo..hi] && (hi < |text| ==> |Chunk(text, n, i)| == size)
  {
    NextCut(text, n, i);
    hide Chunk;
    var size := ChunkSize(text, n);
    assert (i + 1) * size == i * size + size;
  }

  /** The splitter's chunks: as many as requested, but at least one. */
  method Split(text: string, requested: int) returns (chunks: seq<string>)
    ensures |chunks| == if requested < 1 then 1 else requested
    ensures AreChunks(text, |chunks|, chunks)
    ensures EvenlyCut(text, chunks)
    ensures Join(chunks) == text
  {
    var n := if requested < 1 then 1 else requested;
    var size := |text|;
    var chunkSize := (size + n - 1) / n;
    chunks := [];
    for i := 0 to n
      invariant |chunks| == i
      invariant forall j :: 0 <= j < i ==> chunks[j] == Chunk(text, n, j)
    {
      var start := i * chunkSize;
      var end := if size < (i + 1) * chunkSize then size else (i + 1) * chunkSize;
      assert (i + 1) * chunkSize == i * chunkSize + chunkSize;
      assert Chunk(text, n, i) == PySlice(text, start, end);
      hide Chunk, PySlice;
      chunks := chunks + [PySlice(text, start, end)];
    }
    assert AreChunks(text, n, chunks);
    hide *;
    ChunksJoinToText(text, n, chunks);
    ChunksWrittenOut(text, chunks);
  }

  // ----- cut tokens -----

  /** All tokens of the chunks. */
  function AllTokens(chunks: seq<string>): seq<string> {
    if chunks == [] then [] else AllTokens(chunks[..|chunks| - 1]) + Tokenize(chunks[|chunks| - 1])
  }

  /** A boundary with token characters on both sides. */
  predicate CutsToken(text: string, at: nat) {
    0 < at < |text| && IsTokenChar(text[at - 1]) && IsTokenChar(text[at])
  }

  /** How many of the first k chunks begin inside a token. */
  function CutTokens(text: string, n: nat, k: nat): nat
    requires n > 0
  {
    if k == 0 then 0 else CutTokens(text, n, k - 1) + if CutsToken(text, Cut(text, n, k - 1)) then 1 else 0
  }

  lemma TokensUpTo(text: string, at: nat, next: nat)
    requires at <= next <= |text| && (at < |text| ==> at < next)
    ensures |Tokenize(text[..next])| + (if CutsToken(text, at) then 1 else 0)
            == |Tokenize(text[..at])| + |Tokenize(text[at..next])|
  {
    var a, b := text[..at], text[at..next];
    assert a + b == text[..next];
    assert Joins(a, b) <==> CutsToken(text, at);
    if Joins(a, b) {
      TokenizeJoin(a, b);
    } else {
      TokenizeConcat(a, b);
    }
  }

  lemma {:induction false} TokensOfPrefix(text: string, n: nat, chunks: seq<string>, k: nat)
    requires n > 0 && AreChunks(text, n, chunks) && k <= n
    ensures |AllTokens(chunks[..k])| == |Tokenize(text[..Cut(text, n, k)])| + CutTokens(text, n, k)
  {
    if k == 0 {
      LastCut(text, n);
      assert Tokenize("") == [];
    } else {
      TokensOfPrefix(text, n, chunks, k - 1);
      NextCut(text, n, k - 1);
      hide Tokenize, Chunk, Cut, CutsToken;
      TokensUpTo(text, Cut(text, n, k - 1), Cut(text, n, k));
      assert chunks[..k][..k - 1] == chunks[..k - 1];
      assert AllTokens(chunks[..k]) == AllTokens(chunks[..k - 1]) + Tokenize(chunks[k - 1]);
    }
  }

  /** The pipeline counts more tokens than the text has by exactly the number of chunk
      boundaries that have token characters on both sides. */
  lemma {:induction false} ExcessIsCutTokens(text: string, n: nat, chunks: seq<string>)
    requires n > 0 && AreChunks(text, n, chunks)
    ensures |AllTokens(chunks)| == |Tokenize(text)| + CutTokens(text, n, n)
  {
    TokensOfPrefix(text, n, chunks, n);
    LastCut(text, n);
    assert chunks[..n] == chunks && text[..|text|] == text;
  }

  // ----- token characters are conserved -----

  /** Sum over the words of count times cost. */
  ghost function Weight(words: set<string>, count: string -> int, cost: string -> int): int {
    if words == {} then 0
    else
      var w :| w in words;
      count(w) * cost(w) + Weight(words - {w}, count, cost)
  }

  /** The sum does not depend on the order in which the words are taken. */
  lemma {:induction false} WeightPick(words: set<string>, count: string -> int, cost: string -> int, w: string)
    requires w in words
    ensures Weight(words, count, cost) == count(w) * cost(w) + Weight(words - {w}, count, cost)
  {
    var v :| v in words && Weight(words, count, cost) == count(v) * cost(v) + Weight(words - {v}, count, cost);
    if v != w {
      WeightPick(words - {v}, count, cost, w);
      WeightPick(words - {w}, count, cost, v);
      assert words - {v} - {w} == words - {w} - {v};
    }
  }

  lemma {:induction false} WeightSame(words: set<string>, f: string -> int, g: string -> int, cost: string -> int)
    requires forall w :: w in words ==> f(w) == g(w)
    ensures Weight(words, f, cost) == Weight(words, g, cost)
  {
    if words != {} {
      var w :| w in words;
      WeightPick(words, f, cost, w);
      WeightPick(words, g, cost, w);
      WeightSame(words - {w}, f, g, cost);
    }
  }

  lemma {:induction false} WeightZero(words: set<string>, f: string -> int, cost: string -> int)
    requires forall w :: w in words ==> f(w) == 0
    ensures Weight(words, f, cost) == 0
  {
    if words != {} {
      var w :| w in words;
      WeightPick(words, f, cost, w);
      WeightZero(words - {w}, f, cost);
    }
  }

  function Occurrences(tokens: seq<string>): string -> int {
    w => multiset(tokens)[w]
  }

  function TotalCost(tokens: seq<string>, cost: string -> int): int {
    if tokens == [] then 0 else cost(tokens[0]) + TotalCost(tokens[1..], cost)
  }

  lemma {:induction false} WeightOfTokens(words: set<string>, tokens: seq<string>, cost: string -> int)
    requires forall t :: t in tokens ==> t in words
    ensures Weight(words, Occurrences(tokens), cost) == TotalCost(tokens, cost)
  {
    if tokens == [] {
      WeightZero(words, Occurrences(tokens), cost);
    } else {
      var t, rest := tokens[0], tokens[1..];
      WeightOfTokens(words, rest, cost);
      assert tokens == [t] + rest;
      WeightPick(words, Occurrences(tokens), cost, t);
      WeightPick(words, Occurrences(rest), cost, t);
      WeightSame(words - {t}, Occurrences(tokens), Occurrences(rest), cost);
      assert Occurrences(tokens)(t) == Occurrences(rest)(t) + 1;
      assert (Occurrences(rest)(t) + 1) * cost(t) == Occurrences(rest)(t) * cost(t) + cost(t);
    }
  }

  const LENGTH: string -> int := w => |w|
  const ONE: string -> int := _ => 1

  lemma {:induction false} LengthCost(tokens: seq<string>)
    ensures TotalCost(tokens, LENGTH) == TotalLength(tokens)
    ensures TotalCost(tokens, ONE) == |tokens|
  {
    if tokens != [] {
      LengthCost(tokens[1..]);
    }
  }

  lemma {:induction false} TotalLengthConcat(a: seq<string>, b: seq<string>)
    ensures TotalLength(a + b) == TotalLength(a) + TotalLength(b)
  {
    if a == [] {
      assert a + b == b;
    } else {
      assert (a + b)[1..] == a[1..] + b;
      TotalLengthConcat(a[1..], b);
    }
  }

  lemma {:induction false} LengthOfAllTokens(chunks: seq<string>)
    ensures TotalLength(AllTokens(chunks)) == TokenChars(Join(chunks))
  {
    if chunks != [] {
      var front, last := chunks[..|chunks| - 1], chunks[|chunks| - 1];
      LengthOfAllTokens(front);
      TotalLengthConcat(AllTokens(front), Tokenize(last));
      TokenizeLength(last);
      TokenCharsConcat(Join(front), last);
    }
  }

  /** The mapper outputs, one per chunk. */
  ghost predicate AreMapped(chunks: seq<string>, outputs: seq<Counts>) {
    |outputs| == |chunks| && forall i :: 0 <= i < |chunks| ==> IsCountOf(outputs[i], Tokenize(chunks[i]))
  }

  lemma {:induction false} SumIsOccurrences(chunks: seq<string>, outputs: seq<Counts>, word: string)
    requires AreMapped(chunks, outputs)
    ensures SumAt(outputs, word) == multiset(AllTokens(chunks))[word]
    ensures Mentions(outputs, word) <==> word in AllTokens(chunks)
  {
    if chunks != [] {
      var n := |chunks| - 1;
      SumIsOccurrences(chunks[..n], outputs[..n], word);
      assert IsCountOf(outputs[n], Tokenize(chunks[n]));
      MentionsNext(outputs, n, word);
      assert outputs[..n + 1] == outputs;
    }
  }

  /** The reduced result is the multiset of all chunk tokens, so any cost sums alike. */
  lemma ReducedWeight(chunks: seq<string>, outputs: seq<Counts>, order: seq<Counts>, merged: Counts, cost: string -> int)
    requires AreMapped(chunks, outputs)
    requires multiset(order) == multiset(outputs) && IsMergeOf(merged, order)
    ensures Weight(merged.Keys, w => Get(merged, w), cost) == TotalCost(AllTokens(chunks), cost)
  {
    var tokens, count := AllTokens(chunks), w => Get(merged, w);
    forall w ensures Get(merged, w) == multiset(tokens)[w] {
      SumAtAnyOrder(order, outputs, w);
      SumIsOccurrences(chunks, outputs, w);
    }
    forall t | t in tokens ensures t in merged.Keys {
      assert multiset(tokens)[t] > 0;
      assert Get(merged, t) > 0;
    }
    WeightSame(merged.Keys, count, Occurrences(tokens), cost);
    WeightOfTokens(merged.Keys, tokens, cost);
  }

  /** Over the reduced result, count times word length sums to the number of token
      characters of the text, whatever the chunk count and the order of the outputs; and
      the counts sum to the tokens of the text plus the chunk boundaries inside a token. */
  lemma TokenCharsConserved(text: string, n: nat, chunks: seq<string>, outputs: seq<Counts>, order: seq<Counts>, merged: Counts)
    requires n > 0 && AreChunks(text, n, chunks) && AreMapped(chunks, outputs)
    requires multiset(order) == multiset(outputs) && IsMergeOf(merged, order)
    ensures Weight(merged.Keys, w => Get(merged, w), LENGTH) == TokenChars(text)
    ensures Weight(merged.Keys, w => Get(merged, w), ONE) == |Tokenize(text)| + CutTokens(text, n, n)
  {
    ReducedWeight(chunks, outputs, order, merged, LENGTH);
    ReducedWeight(chunks, outputs, order, merged, ONE);
    LengthCost(AllTokens(chunks));
    LengthOfAllTokens(chunks);
    ChunksJoinToText(text, n, chunks);
    ExcessIsCutTokens(text, n, chunks);
  }
}
