/** Counting and merging, the loops that the Go and the Python mappers and reducers share. */
module Counting {

  type Counts = map<string, int>

  /** A missing word has count 0. */
  function Get(counts: Counts, word: string): int {
    if word in counts then counts[word] else 0
  }

  /** The counts are the multiplicities of the words, and list no other word. */
  ghost predicate IsCountOf(counts: Counts, words: seq<string>) {
    && (forall w :: w in counts <==> w in words)
    && (forall w :: Get(counts, w) == multiset(words)[w])
  }

  /** The mapper's loop. */
  method CountWords(words: seq<string>) returns (counts: Counts)
    ensures IsCountOf(counts, words)
  {
    counts := map[];
    for i := 0 to |words|
      invariant IsCountOf(counts, words[..i])
    {
      assert words[..i + 1] == words[..i] + [words[i]];
      counts := counts[words[i] := Get(counts, words[i]) + 1];
    }
    assert words[..|words|] == words;
  }

  /** The sum of a word's counts over the mapper outputs. */
  function SumAt(outputs: seq<Counts>, word: string): int {
    if outputs == [] then 0 else SumAt(outputs[..|outputs| - 1], word) + Get(outputs[|outputs| - 1], word)
  }

  ghost predicate Mentions(outputs: seq<Counts>, word: string) {
    exists i :: 0 <= i < |outputs| && word in outputs[i]
  }

  ghost predicate IsMergeOf(merged: Counts, outputs: seq<Counts>) {
    && (forall w :: w in merged <==> Mentions(outputs, w))
    && (forall w :: Get(merged, w) == SumAt(outputs, w))
  }

  /** The reducer's inner loop; the order in which a map is walked is arbitrary. */
  method AddCounts(base: Counts, counts: Counts) returns (merged: Counts)
    ensures forall w :: w in merged <==> w in base || w in counts
    ensures forall w :: Get(merged, w) == Get(base, w) + Get(counts, w)
  {
    merged := base;
    var todo := counts.Keys;
    while todo != {}
      invariant todo <= counts.Keys
      invariant forall w :: w in merged <==> w in base || w in counts.Keys - todo
      invariant forall w :: Get(merged, w) == Get(base, w) + if w in todo then 0 else Get(counts, w)
      decreases |todo|
    {
      var word :| word in todo;
      merged := merged[word := Get(merged, word) + counts[word]];
      todo := todo - {word};
    }
  }

  /** The reducer's loop over the mapper outputs, in the order given. */
  method MergeCounts(outputs: seq<Counts>) returns (merged: Counts)
    ensures IsMergeOf(merged, outputs)
  {
    merged := map[];
    for i := 0 to |outputs|
      invariant IsMergeOf(merged, outputs[..i])
    {
      assert outputs[..i + 1][..i] == outputs[..i];
      ghost var before := merged;
      merged := AddCounts(merged, outputs[i]);
      forall w ensures w in merged <==> Mentions(outputs[..i + 1], w) {
        MentionsNext(outputs, i, w);
      }
    }
    assert outputs[..|outputs|] == outputs;
  }

  lemma MentionsNext(outputs: seq<Counts>, i: nat, word: string)
    requires i < |outputs|
    ensures Mentions(outputs[..i + 1], word) <==> Mentions(outputs[..i], word) || word in outputs[i]
  {
    if Mentions(outputs[..i], word) {
      var j :| 0 <= j < i && word in outputs[..i][j];
      assert outputs[..i + 1][j] == outputs[j];
    }
    if word in outputs[i] {
      assert outputs[..i + 1][i] == outputs[i];
    }
    if Mentions(outputs[..i + 1], word) && word !in outputs[i] {
      var j :| 0 <= j < i + 1 && word in outputs[..i + 1][j];
      assert outputs[..i][j] == outputs[j];
    }
  }

  lemma {:induction false} SumAtConcat(a: seq<Counts>, b: seq<Counts>, word: string)
    ensures SumAt(a + b, word) == SumAt(a, word) + SumAt(b, word)
  {
    if b == [] {
      assert a + b == a;
    } else {
      assert (a + b)[..|a + b| - 1] == a + b[..|b| - 1];
      SumAtConcat(a, b[..|b| - 1], word);
    }
  }

  /** The order in which the mapper outputs are merged does not matter. */
  lemma {:induction false} SumAtAnyOrder(a: seq<Counts>, b: seq<Counts>, word: string)
    requires multiset(a) == multiset(b)
    ensures SumAt(a, word) == SumAt(b, word)
  {
    if a == [] {
      assert |multiset(b)| == 0;
    } else {
      var n := |a| - 1;
      assert a[n] in multiset(b);
      var j :| 0 <= j < |b| && b[j] == a[n];
      var rest := b[..j] + b[j + 1..];
      assert a == a[..n] + [a[n]];
      assert b == b[..j] + [b[j]] + b[j + 1..];
      assert multiset(a[..n]) == multiset(a) - multiset{a[n]};
      assert multiset(rest) == multiset(b) - multiset{a[n]};
      SumAtAnyOrder(a[..n], rest, word);
      SumAtConcat(b[..j], b[j + 1..], word);
      SumAtConcat(b[..j], [b[j]], word);
      SumAtConcat(b[..j] + [b[j]], b[j + 1..], word);
      assert SumAt([b[j]], word) == Get(b[j], word) by {
        assert [b[j]][..0] == [];
      }
    }
  }

  /** So two reductions of the same outputs agree on every word. */
  lemma MergesAgree(merged1: Counts, outputs1: seq<Counts>, merged2: Counts, outputs2: seq<Counts>)
    requires IsMergeOf(merged1, outputs1) && IsMergeOf(merged2, outputs2)
    requires multiset(outputs1) == multiset(outputs2)
    ensures merged1 == merged2
  {
    forall w ensures w in merged1 <==> w in merged2 {
      if Mentions(outputs1, w) {
        var i :| 0 <= i < |outputs1| && w in outputs1[i];
        assert outputs1[i] in multiset(outputs2);
      }
      if Mentions(outputs2, w) {
        var i :| 0 <= i < |outputs2| && w in outputs2[i];
        assert outputs2[i] in multiset(outputs1);
      }
    }
    forall w ensures Get(merged1, w) == Get(merged2, w) {
      SumAtAnyOrder(outputs1, outputs2, w);
    }
    assert forall w :: w in merged1 ==> merged1[w] == Get(merged1, w) == Get(merged2, w) == merged2[w];
  }
}
