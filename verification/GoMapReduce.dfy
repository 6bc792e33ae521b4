/** The Go word count of hw4: the splitter that moves chunk ends to whitespace, and what
    the whole pipeline therefore counts. */
module GoMapReduce {
  import opened Common
  import opened Text
  import opened Counting

  // ----- safeCut -----

  /** The first whitespace at or after `start`, or `end`. */
  function SkipForward(text: string, start: nat, end: nat): (j: nat)
    requires start <= end <= |text|
    ensures start <= j <= end
    ensures forall k :: start <= k < j ==> !IsSpace(text[k])
    ensures j < end ==> IsSpace(text[j])
    decreases end - start
  {
    if start < end && !IsSpace(text[start]) then SkipForward(text, start + 1, end) else start
  }

  /** The end of the last whitespace at or before `end`, or `start`. */
  function SkipBack(text: string, start: nat, end: nat): (j: nat)
    requires start <= end <= |text|
    ensures start <= j <= end
    ensures forall k :: j <= k < end ==> !IsSpace(text[k])
    ensures start < j ==> IsSpace(text[j - 1])
  {
    if start < end && !IsSpace(text[end - 1]) then SkipBack(text, start, end - 1) else end
  }

  /** The position is strictly inside a whitespace-delimited word. */
  predicate Inside(text: string, at: int) {
    0 < at < |text| && !IsSpace(text[at - 1]) && !IsSpace(text[at])
  }

  /** The start of the word that the position cuts, or the position itself. */
  function WordStart(text: string, at: nat): (start: nat)
    requires at <= |text|
    ensures start <= at
  {
    if Inside(text, at) then SkipBack(text, 0, at) else at
  }

  /** The end of the word that the position cuts, or the position itself. */
  function WordEnd(text: string, at: nat): (end: nat)
    requires at <= |text|
    ensures at <= end <= |text|
  {
    if Inside(text, at) then SkipForward(text, at, |text|) else at
  }

  datatype Span = Span(lo: nat, hi: nat)

  /** The part of [start, end) without the words that its two ends cut. */
  function Kept(text: string, start: nat, end: nat): (kept: Span)
    requires start <= end <= |text|
    ensures start <= kept.lo <= kept.hi <= end
  {
    var lo := Min(WordEnd(text, start), end);
    Span(lo, Max(WordStart(text, end), lo))
  }

  method SafeCut(text: string, start0: int, end0: int) returns (start: int, end: int)
    ensures var lo, hi := Max(start0, 0), Min(end0, |text|);
            if lo >= hi then start == lo && end == hi
            else start == Kept(text, lo, hi).lo && end == Kept(text, lo, hi).hi
  {
    start, end := start0, end0;
    if start < 0 {
      start := 0;
    }
    if end > |text| {
      end := |text|;
    }
    if start >= end {
      return;
    }
    ghost var lo, hi := start, end;
    if start > 0 && start < |text| && !IsSpace(text[start]) && !IsSpace(text[start - 1]) {
      while start < end && !IsSpace(text[start])
        invariant lo <= start <= end == hi
        invariant forall k :: lo <= k < start ==> !IsSpace(text[k])
      {
        start := start + 1;
      }
    }
    assert start == Min(WordEnd(text, lo), hi);
    if end < |text| && end > 0 && !IsSpace(text[end - 1]) && !IsSpace(text[end]) {
      while end > start && !IsSpace(text[end - 1])
        invariant start <= end <= hi
        invariant forall k :: end <= k < hi ==> !IsSpace(text[k])
      {
        end := end - 1;
      }
    }
    assert end == Max(WordStart(text, hi), start);
  }

  // ----- the chunking loop -----

  function NumChunks(requested: int): (n: nat)
    ensures n > 0
  {
    if requested <= 0 then 3 else requested
  }

  /** Where chunk i of n begins before its ends are moved. */
  function Cut(total: nat, n: nat, i: nat): nat
    requires n > 0
  {
    Min(i * ((total + n - 1) / n), total)
  }

  function CutSeq(total: nat, n: nat): seq<nat>
    requires n > 0
  {
    seq(n + 1, i requires 0 <= i <= n => Cut(total, n, i))
  }

  /** Positions from 0 to the length of the text, in order. */
  ghost predicate AreCuts(text: string, cuts: seq<nat>) {
    && |cuts| > 0 && cuts[0] == 0 && cuts[|cuts| - 1] == |text|
    && (forall i, j :: 0 <= i <= j < |cuts| ==> cuts[i] <= cuts[j])
  }

  lemma CeilingCovers(total: nat, n: nat)
    requires n > 0
    ensures n * ((total + n - 1) / n) >= total
  {
  }

  lemma {:induction false} TimesGrows(i: nat, j: nat, size: nat)
    requires i <= j
    ensures i * size <= j * size
  {
    if i < j {
      TimesGrows(i, j - 1, size);
      assert j * size == (j - 1) * size + size;
    }
  }

  lemma CutsAreCuts(text: string, n: nat)
    requires n > 0
    ensures AreCuts(text, CutSeq(|text|, n))
  {
    var cuts, size := CutSeq(|text|, n), (|text| + n - 1) / n;
    CeilingCovers(|text|, n);
    assert cuts[0] == 0 by {
      assert 0 * size == 0;
    }
    forall i, j | 0 <= i <= j < |cuts| ensures cuts[i] <= cuts[j] {
      TimesGrows(i, j, size);
    }
  }

  /** The boundaries of n chunks of the text. */
  function Cuts(text: string, n: nat): (cuts: seq<nat>)
    requires n > 0
    ensures AreCuts(text, cuts) && |cuts| == n + 1
  {
    CutsAreCuts(text, n);
    CutSeq(|text|, n)
  }

  function Slice(text: string, span: Span): string
    requires span.lo <= span.hi <= |text|
  {
    text[span.lo..span.hi]
  }

  function Chunk(text: string, cuts: seq<nat>, i: nat): string
    requires i + 1 < |cuts| && cuts[i] <= cuts[i + 1] <= |text|
  {
    Slice(text, Kept(text, cuts[i], cuts[i + 1]))
  }

  /** The boundaries written out, for the number of chunks requested, or 3. */
  lemma CutsWrittenOut(text: string, requested: int)
    ensures NumChunks(requested) == if requested <= 0 then 3 else requested
    ensures var n := if requested <= 0 then 3 else requested;
            var size := (|text| + n - 1) / n;
            && |Cuts(text, n)| == n + 1
            && forall i :: 0 <= i <= n ==> Cuts(text, n)[i] == if i * size < |text| then i * size else |text|
  {
  }

  lemma CutAt(text: string, n: nat, i: nat)
    requires i <= n && n > 0
    ensures Cuts(text, n)[i] == Min(i * ((|text| + n - 1) / n), |text|)
  {
  }

  lemma ChunkBounds(text: string, n: nat, i: nat)
    requires i < n
    ensures 0 <= i * ((|text| + n - 1) / n) && 0 <= (i + 1) * ((|text| + n - 1) / n)
    ensures Cuts(text, n)[i] == Min(i * ((|text| + n - 1) / n), |text|)
    ensures Cuts(text, n)[i + 1] == Min((i + 1) * ((|text| + n - 1) / n), |text|)
    ensures Cuts(text, n)[i] <= Cuts(text, n)[i + 1] <= |text|
  {
    CutAt(text, n, i);
    CutAt(text, n, i + 1);
    hide Cuts;
    assert AreCuts(text, Cuts(text, n));
  }

  /** An empty piece stays empty, and any other is cut to what is kept of it. */
  lemma ChunkIs(text: string, cuts: seq<nat>, i: nat, start: int, end: int)
    requires i + 1 < |cuts| && cuts[i] <= cuts[i + 1] <= |text|
    requires var lo, hi := cuts[i], cuts[i + 1];
             if lo >= hi then start == lo && end == hi
             else start == Kept(text, lo, hi).lo && end == Kept(text, lo, hi).hi
    ensures 0 <= start <= end <= |text| && text[start..end] == Chunk(text, cuts, i)
  {
    var kept := Kept(text, cuts[i], cuts[i + 1]);
    assert cuts[i] <= kept.lo <= kept.hi <= cuts[i + 1];
    hide Kept;
  }

  method Split(text: string, requested: int) returns (chunks: seq<string>)
    ensures |chunks| == if requested <= 0 then 3 else requested
    ensures forall i :: 0 <= i < |chunks| ==> chunks[i] == Chunk(text, Cuts(text, |chunks|), i)
  {
    var n := requested;
    if n <= 0 {
      n := 3;
    }
    var total := |text|;
    var chunkSize := (total + n - 1) / n;
    ghost var cuts := Cuts(text, n);
    hide Cuts, Kept, NumChunks;
    chunks := [];
    for i := 0 to n
      invariant |chunks| == i
      invariant forall j :: 0 <= j < i ==> chunks[j] == Chunk(text, cuts, j)
    {
      ChunkBounds(text, n, i);
      var start := i * chunkSize;
      var end := (i + 1) * chunkSize;
      if start > total {
        start := total;
      }
      if end > total {
        end := total;
      }
      assert start == cuts[i] && end == cuts[i + 1];
      hide AreCuts, Chunk;
      var start2, end2 := SafeCut(text, start, end);
      ChunkIs(text, cuts, i, start2, end2);
      chunks := chunks + [text[start2..end2]];
    }
  }

  /** The chunks are in order, in bounds and do not overlap. */
  lemma {:induction false} ChunksDisjoint(text: string, cuts: seq<nat>, i: nat, j: nat)
    requires AreCuts(text, cuts) && i < j && j + 1 < |cuts|
    ensures var a, b := Kept(text, cuts[i], cuts[i + 1]), Kept(text, cuts[j], cuts[j + 1]);
            a.lo <= a.hi <= b.lo <= b.hi <= |text|
  {
    assert cuts[i + 1] <= cuts[j] <= cuts[j + 1] <= cuts[|cuts| - 1];
  }

  // ----- words, and the words that the cuts lose -----

  /** The whitespace-delimited words of the text from position p on. */
  function Words(text: string, p: nat): seq<Span>
    requires p <= |text|
    decreases |text| - p
  {
    if p == |text| then []
    else if IsSpace(text[p]) then Words(text, p + 1)
    else
      var end := SkipForward(text, p, |text|);
      [Span(p, end)] + Words(text, end)
  }

  /** A chunk boundary lies strictly inside the word. */
  predicate IsCut(cuts: seq<nat>, word: Span) {
    exists i | 0 <= i < |cuts| :: word.lo < cuts[i] < word.hi
  }

  function CutOnly(cuts: seq<nat>, words: seq<Span>): (cut: seq<Span>)
    ensures forall w :: w in cut <==> w in words && IsCut(cuts, w)
  {
    if words == [] then []
    else (if IsCut(cuts, words[0]) then [words[0]] else []) + CutOnly(cuts, words[1..])
  }

  /** The words from p on that contain a chunk boundary. */
  function LostFrom(text: string, cuts: seq<nat>, p: nat): seq<Span>
    requires p <= |text|
  {
    CutOnly(cuts, Words(text, p))
  }

  ghost predicate InText(text: string, words: seq<Span>) {
    forall w :: w in words ==> w.lo <= w.hi <= |text|
  }

  /** The tokens of the given words. */
  function TokensOf(text: string, words: seq<Span>): multiset<string>
    requires InText(text, words)
  {
    if words == [] then multiset{}
    else multiset(Tokenize(Slice(text, words[0]))) + TokensOf(text, words[1..])
  }

  /** The tokens of the chunks from the i-th on. */
  function TokensOfChunks(text: string, cuts: seq<nat>, i: nat): multiset<string>
    requires AreCuts(text, cuts) && i < |cuts|
    decreases |cuts| - i
  {
    if i + 1 == |cuts| then multiset{}
    else multiset(Tokenize(Chunk(text, cuts, i))) + TokensOfChunks(text, cuts, i + 1)
  }

  lemma {:induction false} WordsInText(text: string, p: nat)
    requires p <= |text|
    ensures forall w :: w in Words(text, p) ==> p <= w.lo < w.hi <= |text|
    decreases |text| - p
  {
    if p < |text| {
      if IsSpace(text[p]) {
        WordsInText(text, p + 1);
      } else {
        WordsInText(text, SkipForward(text, p, |text|));
      }
    }
  }

  lemma LostInText(text: string, cuts: seq<nat>, p: nat)
    requires p <= |text|
    ensures InText(text, LostFrom(text, cuts, p))
  {
    WordsInText(text, p);
  }

  /** No word runs across the position. */
  predicate Aligned(text: string, p: nat) {
    p <= |text| && !Inside(text, p)
  }

  /** Between two aligned positions with no cut strictly between them no word is lost. */
  lemma {:induction false} NothingLostBetween(text: string, cuts: seq<nat>, p: nat, q: nat)
    requires p <= q && Aligned(text, p) && Aligned(text, q)
    requires forall i :: 0 <= i < |cuts| ==> cuts[i] <= p || q <= cuts[i]
    ensures LostFrom(text, cuts, p) == LostFrom(text, cuts, q)
    decreases q - p
  {
    if p < q {
      if IsSpace(text[p]) {
        NothingLostBetween(text, cuts, p + 1, q);
      } else {
        var end := SkipForward(text, p, |text|);
        assert end <= q;
        assert !IsCut(cuts, Span(p, end));
        assert Words(text, p)[1..] == Words(text, end);
        NothingLostBetween(text, cuts, end, q);
      }
    }
  }

  /** Tokens never run across an aligned position. */
  lemma TokenizeSplits(text: string, p: nat, q: nat)
    requires p <= q && Aligned(text, q)
    ensures Tokenize(text[p..]) == Tokenize(text[p..q]) + Tokenize(text[q..])
  {
    assert text[p..] == text[p..q] + text[q..];
    TokenizeConcat(text[p..q], text[q..]);
  }

  lemma CutEdgesAligned(text: string, at: nat)
    requires at <= |text|
    ensures Aligned(text, WordStart(text, at)) && Aligned(text, WordEnd(text, at))
    ensures Inside(text, at) ==> WordStart(text, at) < at < WordEnd(text, at)
  {
  }

  lemma {:induction false} SkipBackOver(text: string, at: nat, later: nat)
    requires at <= later <= |text| && forall k :: at <= k < later ==> !IsSpace(text[k])
    ensures SkipBack(text, 0, later) == SkipBack(text, 0, at)
  {
    if at < later {
      SkipBackOver(text, at, later - 1);
    }
  }

  lemma {:induction false} SkipForwardOver(text: string, at: nat, later: nat)
    requires at <= later <= |text| && forall k :: at <= k < later ==> !IsSpace(text[k])
    ensures SkipForward(text, at, |text|) == SkipForward(text, later, |text|)
    decreases later - at
  {
    if at < later {
      SkipForwardOver(text, at + 1, later);
    }
  }

  /** A word longer than the chunk leaves the chunk empty and cuts its end too. */
  lemma LongWord(text: string, start: nat, end: nat)
    requires start <= end <= |text| && WordEnd(text, start) > end
    ensures WordStart(text, end) == WordStart(text, start)
    ensures Kept(text, start, end) == Span(end, end)
  {
    SkipBackOver(text, start, end);
  }

  /** Otherwise the chunk is what lies between the words that its ends cut. */
  lemma ShortWord(text: string, start: nat, end: nat)
    requires start <= end <= |text| && WordEnd(text, start) <= end
    ensures WordEnd(text, start) <= WordStart(text, end)
    ensures Kept(text, start, end) == Span(WordEnd(text, start), WordStart(text, end))
  {
    CutEdgesAligned(text, start);
    assert Inside(text, end) ==> WordStart(text, end) >= WordEnd(text, start);
  }

  /** The first word after an aligned cut start: the cut word, if there is one. */
  lemma CutWordLost(text: string, cuts: seq<nat>, i: nat)
    requires i < |cuts| && cuts[i] <= |text|
    ensures var a, b := WordStart(text, cuts[i]), WordEnd(text, cuts[i]);
            LostFrom(text, cuts, a) == (if Inside(text, cuts[i]) then [Span(a, b)] else []) + LostFrom(text, cuts, b)
  {
    if Inside(text, cuts[i]) {
      var a, b := WordStart(text, cuts[i]), WordEnd(text, cuts[i]);
      SkipForwardOver(text, a, cuts[i]);
      assert Words(text, a) == [Span(a, b)] + Words(text, b);
      assert Words(text, a)[1..] == Words(text, b);
      assert IsCut(cuts, Span(a, b));
    }
  }

  /** From the word that cut i is in to the end: tokens = tokens of chunks + tokens lost. */
  ghost predicate Balanced(text: string, cuts: seq<nat>, i: nat)
    requires AreCuts(text, cuts) && i < |cuts| && cuts[i] <= |text|
  {
    var p := WordStart(text, cuts[i]);
    && InText(text, LostFrom(text, cuts, p))
    && multiset(Tokenize(text[p..])) == TokensOfChunks(text, cuts, i) + TokensOf(text, LostFrom(text, cuts, p))
  }

  lemma NoWordNoTokens(text: string, at: nat)
    requires at <= |text| && !Inside(text, at)
    ensures WordStart(text, at) == WordEnd(text, at) == at && Tokenize(text[at..at]) == []
  {
  }

  lemma BalancedShort(text: string, cuts: seq<nat>, i: nat)
    requires AreCuts(text, cuts) && i + 1 < |cuts| && cuts[i] <= cuts[i + 1] <= |text|
    requires WordEnd(text, cuts[i]) <= cuts[i + 1] && Balanced(text, cuts, i + 1)
    ensures Balanced(text, cuts, i)
  {
    var a, b, e := WordStart(text, cuts[i]), WordEnd(text, cuts[i]), WordStart(text, cuts[i + 1]);
    CutEdgesAligned(text, cuts[i]);
    CutEdgesAligned(text, cuts[i + 1]);
    ShortWord(text, cuts[i], cuts[i + 1]);
    NothingLostBetween(text, cuts, b, e);
    hide AreCuts;
    TokenizeSplits(text, a, b);
    TokenizeSplits(text, b, e);
    assert TokensOfChunks(text, cuts, i) == multiset(Tokenize(text[b..e])) + TokensOfChunks(text, cuts, i + 1);
    LostTokens(text, cuts, i);
    hide Tokenize, TokensOfChunks, LostFrom, WordStart, WordEnd, TokensOf;
  }

  /** The tokens lost from the word at cut i on, given that none is lost up to the next cut. */
  lemma LostTokens(text: string, cuts: seq<nat>, i: nat)
    requires i < |cuts| && cuts[i] <= |text|
    ensures var a, b := WordStart(text, cuts[i]), WordEnd(text, cuts[i]);
            && a <= b && InText(text, LostFrom(text, cuts, a)) && InText(text, LostFrom(text, cuts, b))
            && TokensOf(text, LostFrom(text, cuts, a)) == multiset(Tokenize(text[a..b])) + TokensOf(text, LostFrom(text, cuts, b))
  {
    var a, b := WordStart(text, cuts[i]), WordEnd(text, cuts[i]);
    LostInText(text, cuts, a);
    LostInText(text, cuts, b);
    CutWordLost(text, cuts, i);
    var rest := LostFrom(text, cuts, b);
    if Inside(text, cuts[i]) {
      hide Tokenize, LostFrom, WordStart, WordEnd;
      assert ([Span(a, b)] + rest)[1..] == rest;
    } else {
      NoWordNoTokens(text, cuts[i]);
      assert [] + rest == rest;
    }
  }

  lemma BalancedLong(text: string, cuts: seq<nat>, i: nat)
    requires AreCuts(text, cuts) && i + 1 < |cuts| && cuts[i] <= cuts[i + 1] <= |text|
    requires WordEnd(text, cuts[i]) > cuts[i + 1] && Balanced(text, cuts, i + 1)
    ensures Balanced(text, cuts, i)
  {
    LongWord(text, cuts[i], cuts[i + 1]);
    hide WordStart, WordEnd, Kept, LostFrom, TokensOf;
    assert Chunk(text, cuts, i) == [] && Tokenize([]) == [];
  }

  lemma {:induction false} BalancedFrom(text: string, cuts: seq<nat>, i: nat)
    requires AreCuts(text, cuts) && i < |cuts| && cuts[i] <= |text|
    ensures Balanced(text, cuts, i)
    decreases |cuts| - i
  {
    if i + 1 == |cuts| {
      assert text[|text|..] == [] && Tokenize([]) == [];
    } else {
      assert cuts[i] <= cuts[i + 1] <= cuts[|cuts| - 1];
      BalancedFrom(text, cuts, i + 1);
      hide Balanced, AreCuts;
      if WordEnd(text, cuts[i]) > cuts[i + 1] {
        BalancedLong(text, cuts, i);
      } else {
        BalancedShort(text, cuts, i);
      }
    }
  }

  /** The words of the text that some chunk boundary cuts. */
  function LostWords(text: string, cuts: seq<nat>): (lost: seq<Span>)
    ensures InText(text, lost)
    ensures forall w :: w in lost <==> w in Words(text, 0) && IsCut(cuts, w)
  {
    LostInText(text, cuts, 0);
    CutOnly(cuts, Words(text, 0))
  }

  /** Every token of the text is in exactly one chunk, or in a word that a boundary cuts. */
  lemma ChunksLoseExactlyCutWords(text: string, cuts: seq<nat>)
    requires AreCuts(text, cuts)
    ensures multiset(Tokenize(text)) == TokensOfChunks(text, cuts, 0) + TokensOf(text, LostWords(text, cuts))
  {
    BalancedFrom(text, cuts, 0);
    assert text[0..] == text;
  }

  /** The words that a split into this many chunks cuts. */
  function CutWords(text: string, requested: int): (cut: seq<Span>)
    ensures InText(text, cut)
  {
    LostWords(text, Cuts(text, NumChunks(requested)))
  }

  // ----- the whole pipeline -----

  /** The mapper outputs, one per chunk. */
  ghost predicate AreMapped(text: string, n: nat, outputs: seq<Counts>)
    requires n > 0
  {
    && |outputs| == n
    && (forall i :: 0 <= i < n ==> IsCountOf(outputs[i], Tokenize(Chunk(text, Cuts(text, n), i))))
  }

  lemma SumOfFirst(outputs: seq<Counts>, i: nat, word: string)
    requires i < |outputs|
    ensures SumAt(outputs[i..], word) == Get(outputs[i], word) + SumAt(outputs[i + 1..], word)
  {
    SumAtConcat([outputs[i]], outputs[i + 1..], word);
    assert outputs[i..] == [outputs[i]] + outputs[i + 1..];
    assert [outputs[i]][..0] == [];
    assert SumAt([outputs[i]], word) == Get(outputs[i], word);
  }

  lemma {:induction false} SumOfMapped(text: string, n: nat, outputs: seq<Counts>, i: nat, word: string)
    requires n > 0 && i <= n && AreMapped(text, n, outputs)
    ensures SumAt(outputs[i..], word) == TokensOfChunks(text, Cuts(text, n), i)[word]
    decreases n - i
  {
    var cuts := Cuts(text, n);
    assert |cuts| == n + 1;
    assert i < n ==> cuts[i] <= cuts[i + 1] <= |text|;
    hide Tokenize, Chunk, Cuts, AreCuts;
    if i == n {
      assert outputs[n..] == [];
    } else {
      SumOfMapped(text, n, outputs, i + 1, word);
      SumOfFirst(outputs, i, word);
      assert IsCountOf(outputs[i], Tokenize(Chunk(text, cuts, i)));
    }
  }

  /** The exact result of the pipeline, for every text, chunk count and order in which the
      mapper outputs are merged: what the reducer counts plus what the cut words held is
      the count of the whole text. */
  lemma {:induction false} PipelineAccounting(text: string, requested: int, outputs: seq<Counts>, order: seq<Counts>, merged: Counts, word: string)
    requires AreMapped(text, NumChunks(requested), outputs)
    requires multiset(order) == multiset(outputs) && IsMergeOf(merged, order)
    ensures multiset(Tokenize(text))[word] == Get(merged, word) + TokensOf(text, CutWords(text, requested))[word]
  {
    var n := NumChunks(requested);
    SumAtAnyOrder(order, outputs, word);
    SumOfMapped(text, n, outputs, 0, word);
    assert outputs[0..] == outputs;
    ChunksLoseExactlyCutWords(text, Cuts(text, n));
  }

  /** A mapper for each chunk. */
  method MapAll(chunks: seq<string>) returns (outputs: seq<Counts>)
    ensures |outputs| == |chunks| && forall i :: 0 <= i < |chunks| ==> IsCountOf(outputs[i], Tokenize(chunks[i]))
  {
    hide Tokenize, IsCountOf;
    outputs := [];
    for i := 0 to |chunks|
      invariant |outputs| == i
      invariant forall j :: 0 <= j < i ==> IsCountOf(outputs[j], Tokenize(chunks[j]))
    {
      var counts := CountWords(Tokenize(chunks[i]));
      outputs := outputs + [counts];
    }
  }

  /** Splitter, mappers and reducer in a row. */
  method CountText(text: string, requested: int) returns (merged: Counts)
    ensures forall word :: multiset(Tokenize(text))[word] == Get(merged, word) + TokensOf(text, CutWords(text, requested))[word]
  {
    var chunks := Split(text, requested);
    CutsWrittenOut(text, requested);
    var outputs := MapAll(chunks);
    merged := MergeCounts(outputs);
    assert AreMapped(text, NumChunks(requested), outputs) by {
      hide Cuts, Tokenize, NumChunks, Chunk;
    }
    hide *;
    forall word ensures multiset(Tokenize(text))[word] == Get(merged, word) + TokensOf(text, CutWords(text, requested))[word] {
      PipelineAccounting(text, requested, outputs, outputs, merged, word);
    }
  }

  /** A text of one word disappears when it is split. */
  lemma OneWordVanishes(text: string, requested: int, outputs: seq<Counts>, order: seq<Counts>, merged: Counts, word: string)
    requires |text| >= 2 && requested >= 2 && forall i :: 0 <= i < |text| ==> !IsSpace(text[i])
    requires AreMapped(text, requested, outputs)
    requires multiset(order) == multiset(outputs) && IsMergeOf(merged, order)
    ensures Get(merged, word) == 0
  {
    var cuts := Cuts(text, requested);
    CutAt(text, requested, 1);
    FirstCutInside(|text|, requested);
    assert 0 < cuts[1] < |text|;
    assert SkipForward(text, 0, |text|) == |text|;
    assert Words(text, |text|) == [];
    assert Words(text, 0) == [Span(0, |text|)];
    assert IsCut(cuts, Span(0, |text|));
    assert [Span(0, |text|)][1..] == [];
    assert CutOnly(cuts, []) == [];
    assert CutOnly(cuts, [Span(0, |text|)]) == [Span(0, |text|)];
    assert NumChunks(requested) == requested;
    assert CutWords(text, requested) == CutOnly(cuts, Words(text, 0));
    assert text[0..|text|] == text;
    assert TokensOf(text, [Span(0, |text|)]) == multiset(Tokenize(text));
    hide *;
    PipelineAccounting(text, requested, outputs, order, merged, word);
  }

  lemma FirstCutInside(total: nat, n: nat)
    requires total >= 2 && n >= 2
    ensures 0 < (total + n - 1) / n < total
  {
    assert (total + n - 1) / n >= n / n == 1;
    assert (total - 1) * n >= total + n - 1 - n + 1;
  }

  /** A text whose only token is lost, so that its count is not the plain count. */
  lemma TextWithoutItsWord(outputs: seq<Counts>, merged: Counts)
    requires AreMapped("abcd", 2, outputs) && IsMergeOf(merged, outputs)
    ensures Tokenize("abcd") == ["abcd"] && Get(merged, "abcd") == 0
  {
    OneWordVanishes("abcd", 2, outputs, outputs, merged, "abcd");
    assert ToLower("abcd") == "abcd";
    FirstRun("abcd");
    FindFirst("abcd");
    assert RunLength("abcd") == 4;
    assert "abcd"[4..] == [] && "abcd"[..4] == "abcd" && FindAll([]) == [];
  }

  lemma EmptySum(tokens: seq<string>, others: multiset<string>)
    ensures multiset(tokens) + others == multiset{} <==> tokens == [] && others == multiset{}
  {
    if tokens != [] {
      assert tokens[0] in multiset(tokens) + others;
    }
  }

  /** A multiset of tokens is empty exactly if no listed word has a token. */
  lemma {:induction false} NoTokensLost(text: string, words: seq<Span>)
    requires InText(text, words)
    ensures TokensOf(text, words) == multiset{} <==> forall w :: w in words ==> Tokenize(Slice(text, w)) == []
  {
    if words != [] {
      NoTokensLost(text, words[1..]);
      var first, rest := Tokenize(Slice(text, words[0])), TokensOf(text, words[1..]);
      EmptySum(first, rest);
      assert TokensOf(text, words) == multiset(first) + rest;
      hide Tokenize, TokensOf, Slice;
      assert words[0] in words;
      assert forall w :: w in words <==> w == words[0] || w in words[1..];
    }
  }

  lemma SameCountsIffNothingLost(total: multiset<string>, merged: Counts, lost: multiset<string>)
    requires forall word :: total[word] == Get(merged, word) + lost[word]
    ensures (forall word :: Get(merged, word) == total[word]) <==> lost == multiset{}
  {
    if forall word :: Get(merged, word) == total[word] {
      forall word ensures lost[word] == 0 {
        assert Get(merged, word) == total[word];
      }
    }
  }

  /** The result equals the count of the whole text exactly if no cut word holds a token. */
  lemma {:induction false} ExactIffNothingLost(text: string, requested: int, outputs: seq<Counts>, order: seq<Counts>, merged: Counts)
    requires AreMapped(text, NumChunks(requested), outputs)
    requires multiset(order) == multiset(outputs) && IsMergeOf(merged, order)
    ensures (forall word :: Get(merged, word) == multiset(Tokenize(text))[word])
            <==> forall w :: w in CutWords(text, requested) ==> Tokenize(Slice(text, w)) == []
  {
    var words := CutWords(text, requested);
    var total, lost := multiset(Tokenize(text)), TokensOf(text, words);
    forall word ensures total[word] == Get(merged, word) + lost[word] {
      PipelineAccounting(text, requested, outputs, order, merged, word);
    }
    hide AreMapped, IsMergeOf, CutWords, Get, TokensOf, Cuts, Tokenize;
    NoTokensLost(text, words);
    SameCountsIffNothingLost(total, merged, lost);
  }

  // ----- how many words can be lost -----

  function CutsAfter(cuts: seq<nat>, p: nat): set<nat> {
    set i: nat | i + 1 < |cuts| && cuts[i] > p
  }

  lemma {:induction false} LostWordsFrom(text: string, cuts: seq<nat>, p: nat)
    requires AreCuts(text, cuts) && p <= |text|
    ensures |LostFrom(text, cuts, p)| <= |CutsAfter(cuts, p)|
    decreases |text| - p
  {
    if p < |text| {
      if IsSpace(text[p]) {
        LostWordsFrom(text, cuts, p + 1);
        SubsetSmaller(CutsAfter(cuts, p + 1), CutsAfter(cuts, p));
      } else {
        var end := SkipForward(text, p, |text|);
        LostWordsFrom(text, cuts, end);
        assert Words(text, p) == [Span(p, end)] + Words(text, end);
        assert Words(text, p)[1..] == Words(text, end);
        if IsCut(cuts, Span(p, end)) {
          var i :| 0 <= i < |cuts| && p < cuts[i] < end;
          assert i + 1 < |cuts| && i !in CutsAfter(cuts, end);
          SubsetSmaller(CutsAfter(cuts, end) + {i}, CutsAfter(cuts, p));
        } else {
          SubsetSmaller(CutsAfter(cuts, end), CutsAfter(cuts, p));
        }
      }
    }
  }

  /** Splitting into n chunks loses at most n - 1 words. */
  lemma AtMostOneWordPerBoundary(text: string, requested: int)
    ensures |CutWords(text, requested)| <= NumChunks(requested) - 1
  {
    var n := NumChunks(requested);
    var cuts := Cuts(text, n);
    LostWordsFrom(text, cuts, 0);
    assert CutsAfter(cuts, 0) <= Below(n) - {0};
    SubsetSmaller(CutsAfter(cuts, 0), Below(n) - {0});
  }
}
