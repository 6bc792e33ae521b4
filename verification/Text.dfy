/** Words and tokens of ASCII text, as both word-count pipelines of hw4 see them. */
module Text {

  /** Tab, line feed, carriage return and blank, by their codes. */
  predicate IsSpace(c: char): (r: bool)
    ensures r <==> c as int in {9, 10, 13, 32}
  {
    c == ' ' || c == '\n' || c == '\t' || c == '\r'
  }

  /** The class [A-Za-z'] of the token expression. */
  predicate IsTokenChar(c: char): (r: bool)
    ensures r <==> 65 <= c as int <= 90 || 97 <= c as int <= 122 || c as int == 39
  {
    'a' <= c <= 'z' || 'A' <= c <= 'Z' || c == '\''
  }

  function Lower(c: char): char {
    if 'A' <= c <= 'Z' then c - 'A' + 'a' else c
  }

  function ToLower(text: string): string {
    seq(|text|, i requires 0 <= i < |text| => Lower(text[i]))
  }

  /** How many token characters the text starts with. */
  function RunLength(text: string): (n: nat)
    ensures n <= |text|
    ensures forall i :: 0 <= i < n ==> IsTokenChar(text[i])
    ensures n < |text| ==> !IsTokenChar(text[n])
  {
    if text == [] || !IsTokenChar(text[0]) then 0 else 1 + RunLength(text[1..])
  }

  /** The leftmost longest runs of token characters, in order. */
  function FindAll(text: string): seq<string>
    decreases |text|
  {
    if text == [] then []
    else if !IsTokenChar(text[0]) then FindAll(text[1..])
    else [text[..RunLength(text)]] + FindAll(text[RunLength(text)..])
  }

  function Tokenize(text: string): seq<string> {
    FindAll(ToLower(text))
  }

  /** A token would be cut in two between these texts. */
  predicate Joins(a: string, b: string) {
    a != [] && b != [] && IsTokenChar(a[|a| - 1]) && IsTokenChar(b[0])
  }

  /** The first text is one run, which the second one continues. */
  lemma {:induction false} RunContinues(a: string, b: string)
    requires RunLength(a) == |a|
    ensures RunLength(a + b) == |a| + RunLength(b)
  {
    if a == [] {
      assert a + b == b;
    } else {
      assert (a + b)[1..] == a[1..] + b;
      RunContinues(a[1..], b);
    }
  }

  /** A run that ends inside the first text. */
  lemma {:induction false} RunEnds(a: string, b: string)
    requires RunLength(a) < |a|
    ensures RunLength(a + b) == RunLength(a)
  {
    if IsTokenChar(a[0]) {
      assert (a + b)[1..] == a[1..] + b;
      RunEnds(a[1..], b);
    }
  }

  /** A text of one run, unless the second text starts with token characters. */
  lemma RunStops(a: string, b: string)
    requires a != [] && IsTokenChar(a[0]) && !Joins(a, b)
    ensures RunLength(a + b) == RunLength(a) > 0
  {
    if RunLength(a) == |a| {
      RunContinues(a, b);
      assert IsTokenChar(a[|a| - 1]);
      assert RunLength(b) == 0;
    } else {
      RunEnds(a, b);
    }
  }

  lemma FindFirst(text: string)
    requires text != []
    ensures !IsTokenChar(text[0]) ==> FindAll(text) == FindAll(text[1..])
    ensures IsTokenChar(text[0]) ==> FindAll(text) == [text[..RunLength(text)]] + FindAll(text[RunLength(text)..])
  {
  }

  lemma SplitAfter(a: string, b: string, n: nat)
    requires n <= |a| && !Joins(a, b)
    ensures (a + b)[n..] == a[n..] + b && (a + b)[..n] == a[..n] && !Joins(a[n..], b)
  {
  }

  lemma {:induction false} FindAllConcat(a: string, b: string)
    requires !Joins(a, b)
    ensures FindAll(a + b) == FindAll(a) + FindAll(b)
    decreases |a|
  {
    if a == [] {
      assert a + b == b;
    } else {
      FindFirst(a);
      FindFirst(a + b);
      hide FindAll, RunLength;
      if !IsTokenChar(a[0]) {
        assert (a + b)[1..] == a[1..] + b;
        FindAllConcat(a[1..], b);
      } else {
        var n := RunLength(a);
        RunStops(a, b);
        SplitAfter(a, b, n);
        FindAllConcat(a[n..], b);
      }
    }
  }

  /** The text is one run that goes on in the second text. */
  lemma FindOneJoin(a: string, b: string)
    requires Joins(a, b) && RunLength(a) == |a|
    ensures |FindAll(a + b)| == |FindAll(a)| + |FindAll(b)| - 1
  {
    RunContinues(a, b);
    FindFirst(a);
    FindFirst(b);
    FindFirst(a + b);
    assert FindAll([]) == [];
    hide FindAll, RunLength;
    var n, m := |a|, RunLength(b);
    assert (a + b)[n + m..] == b[m..] && a[n..] == [];
  }

  lemma SplitLater(a: string, b: string, n: nat)
    requires n < |a| && Joins(a, b)
    ensures (a + b)[n..] == a[n..] + b && Joins(a[n..], b)
  {
  }

  /** Cutting inside a token makes two tokens of it. */
  lemma {:induction false} FindAllJoin(a: string, b: string)
    requires Joins(a, b)
    ensures |FindAll(a + b)| == |FindAll(a)| + |FindAll(b)| - 1
    decreases |a|
  {
    FindFirst(a);
    FindFirst(a + b);
    hide FindAll, RunLength;
    var n := RunLength(a);
    if n == |a| {
      FindOneJoin(a, b);
    } else if !IsTokenChar(a[0]) {
      assert (a + b)[1..] == a[1..] + b;
      FindAllJoin(a[1..], b);
    } else {
      RunEnds(a, b);
      SplitLater(a, b, n);
      FindAllJoin(a[n..], b);
    }
  }

  lemma ToLowerConcat(a: string, b: string)
    ensures ToLower(a + b) == ToLower(a) + ToLower(b)
    ensures Joins(ToLower(a), ToLower(b)) <==> Joins(a, b)
  {
  }

  lemma TokenizeConcat(a: string, b: string)
    requires !Joins(a, b)
    ensures Tokenize(a + b) == Tokenize(a) + Tokenize(b)
  {
    ToLowerConcat(a, b);
    FindAllConcat(ToLower(a), ToLower(b));
  }

  lemma TokenizeJoin(a: string, b: string)
    requires Joins(a, b)
    ensures |Tokenize(a + b)| == |Tokenize(a)| + |Tokenize(b)| - 1
  {
    ToLowerConcat(a, b);
    FindAllJoin(ToLower(a), ToLower(b));
  }

  // ----- tokens account for exactly the token characters -----

  function TokenChars(text: string): nat {
    if text == [] then 0 else (if IsTokenChar(text[0]) then 1 else 0) + TokenChars(text[1..])
  }

  function TotalLength(tokens: seq<string>): nat {
    if tokens == [] then 0 else |tokens[0]| + TotalLength(tokens[1..])
  }

  lemma {:induction false} TokenCharsConcat(a: string, b: string)
    ensures TokenChars(a + b) == TokenChars(a) + TokenChars(b)
  {
    if a == [] {
      assert a + b == b;
    } else {
      assert (a + b)[1..] == a[1..] + b;
      TokenCharsConcat(a[1..], b);
    }
  }

  lemma {:induction false} TokenCharsOfRun(text: string)
    requires forall i :: 0 <= i < |text| ==> IsTokenChar(text[i])
    ensures TokenChars(text) == |text|
  {
    if text != [] {
      TokenCharsOfRun(text[1..]);
    }
  }

  lemma {:induction false} FindAllLength(text: string)
    ensures TotalLength(FindAll(text)) == TokenChars(text)
    decreases |text|
  {
    if text != [] {
      if !IsTokenChar(text[0]) {
        FindAllLength(text[1..]);
      } else {
        var n := RunLength(text);
        assert text == text[..n] + text[n..];
        TokenCharsConcat(text[..n], text[n..]);
        TokenCharsOfRun(text[..n]);
        FindAllLength(text[n..]);
      }
    }
  }

  lemma {:induction false} TokenCharsLower(text: string)
    ensures TokenChars(ToLower(text)) == TokenChars(text)
  {
    if text != [] {
      assert ToLower(text)[1..] == ToLower(text[1..]);
      TokenCharsLower(text[1..]);
    }
  }

  /** The tokens of a text hold all its token characters. */
  lemma TokenizeLength(text: string)
    ensures TotalLength(Tokenize(text)) == TokenChars(text)
  {
    FindAllLength(ToLower(text));
    TokenCharsLower(text);
  }

  /** A longest stretch of token characters. */
  predicate IsRun(text: string, lo: nat, hi: nat) {
    && lo < hi <= |text| && (forall i :: lo <= i < hi ==> IsTokenChar(text[i]))
    && (lo > 0 ==> !IsTokenChar(text[lo - 1])) && (hi < |text| ==> !IsTokenChar(text[hi]))
  }

  /** A run of what follows a cut is a run of the text, if it does not start at the cut or
      no token character is before it. */
  lemma RunShifts(text: string, n: nat, lo: nat, hi: nat)
    requires n <= |text| && n <= lo < hi
    requires lo == n && n > 0 ==> !IsTokenChar(text[n - 1])
    ensures IsRun(text, lo, hi) <==> IsRun(text[n..], lo - n, hi - n)
    ensures hi <= |text| ==> text[lo..hi] == text[n..][lo - n..hi - n]
  {
    var rest := text[n..];
    if IsRun(rest, lo - n, hi - n) {
      forall i | lo <= i < hi ensures IsTokenChar(text[i]) {
        assert text[i] == rest[i - n];
      }
    }
  }

  lemma {:induction false} FoundIsRun(text: string, k: nat) returns (lo: nat, hi: nat)
    requires k < |FindAll(text)|
    ensures IsRun(text, lo, hi) && FindAll(text)[k] == text[lo..hi]
    decreases |text|
  {
    FindFirst(text);
    var n := RunLength(text);
    if !IsTokenChar(text[0]) {
      lo, hi := FoundIsRun(text[1..], k);
      hide *;
      lo, hi := lo + 1, hi + 1;
      RunShifts(text, 1, lo, hi);
    } else if k == 0 {
      lo, hi := 0, n;
      FirstRun(text);
      hide FindAll, RunLength;
    } else {
      lo, hi := FoundIsRun(text[n..], k - 1);
      FirstRun(text);
      assert IsTokenChar(text[n..][lo]) && !IsTokenChar(text[n..][0]);
      assert FindAll(text)[k] == FindAll(text[n..])[k - 1];
      hide *;
      lo, hi := lo + n, hi + n;
      RunShifts(text, n, lo, hi);
    }
  }

  lemma FirstRun(text: string)
    requires text != [] && IsTokenChar(text[0])
    ensures IsRun(text, 0, RunLength(text))
  {
  }

  lemma {:induction false} RunIsFound(text: string, lo: nat, hi: nat)
    requires IsRun(text, lo, hi)
    ensures text[lo..hi] in FindAll(text)
    decreases |text|
  {
    FindFirst(text);
    var n := RunLength(text);
    hide FindAll, RunLength;
    if !IsTokenChar(text[0]) {
      assert lo > 0;
      hide *;
      RunShifts(text, 1, lo, hi);
      RunIsFound(text[1..], lo - 1, hi - 1);
    } else if lo == 0 {
      assert hi == n;
    } else {
      assert lo > n;
      hide *;
      RunShifts(text, n, lo, hi);
      RunIsFound(text[n..], lo - n, hi - n);
    }
  }

  lemma LowerKeepsRuns(text: string, lo: nat, hi: nat)
    ensures IsRun(ToLower(text), lo, hi) <==> IsRun(text, lo, hi)
    ensures lo <= hi <= |text| ==> ToLower(text)[lo..hi] == ToLower(text[lo..hi])
  {
    assert forall i :: 0 <= i < |text| ==> (IsTokenChar(ToLower(text)[i]) <==> IsTokenChar(text[i]));
  }

  /** The tokens of a text are exactly its longest runs of token characters, in lower case. */
  lemma TokensAreRuns(text: string, token: string)
    ensures token in Tokenize(text) <==> exists lo: nat, hi: nat :: IsRun(text, lo, hi) && token == ToLower(text[lo..hi])
  {
    if token in Tokenize(text) {
      var k :| 0 <= k < |Tokenize(text)| && Tokenize(text)[k] == token;
      var lo, hi := FoundIsRun(ToLower(text), k);
      LowerKeepsRuns(text, lo, hi);
    }
    if lo: nat, hi: nat :| IsRun(text, lo, hi) && token == ToLower(text[lo..hi]) {
      LowerKeepsRuns(text, lo, hi);
      RunIsFound(ToLower(text), lo, hi);
    }
  }

  // ----- case -----

  predicate IsUpper(c: char) {
    'A' <= c <= 'Z'
  }

  lemma LowerIsNotUpper(text: string, i: nat)
    requires i < |text|
    ensures !IsUpper(ToLower(text)[i])
  {
  }

  /** No token has an upper-case letter. */
  lemma TokensHaveNoUpperCase(text: string, token: string, i: nat)
    requires token in Tokenize(text) && i < |token|
    ensures !('A' <= token[i] <= 'Z')
  {
    TokensAreRuns(text, token);
    var lo: nat, hi: nat :| IsRun(text, lo, hi) && token == ToLower(text[lo..hi]);
    LowerIsNotUpper(text[lo..hi], i);
  }

  /** The characters are the same letter, the first one in upper and the second in lower case. */
  predicate IsCaseOf(upper: char, lower: char) {
    'A' <= upper <= 'Z' && lower as int - 'a' as int == upper as int - 'A' as int
  }

  /** The texts differ at most in the case of letters. */
  predicate DifferInCase(a: string, b: string) {
    |a| == |b| && forall i :: 0 <= i < |a| ==> a[i] == b[i] || IsCaseOf(a[i], b[i]) || IsCaseOf(b[i], a[i])
  }

  /** Such texts have the same tokens in the same order. */
  lemma CaseDoesNotMatter(a: string, b: string)
    requires DifferInCase(a, b)
    ensures Tokenize(a) == Tokenize(b)
  {
    var x, y := ToLower(a), ToLower(b);
    forall i | 0 <= i < |a| ensures x[i] == y[i] {
      assert a[i] == b[i] || IsCaseOf(a[i], b[i]) || IsCaseOf(b[i], a[i]);
    }
    assert x == y;
  }

  /** In a text without upper-case letters the tokens are the runs as they stand, in order. */
  lemma LowerTextAsItStands(text: string, token: string)
    requires forall i :: 0 <= i < |text| ==> !('A' <= text[i] <= 'Z')
    ensures Tokenize(text) == FindAll(text)
    ensures token in Tokenize(text) <==> exists lo: nat, hi: nat :: IsRun(text, lo, hi) && token == text[lo..hi]
  {
    assert ToLower(text) == text;
    TokensAreRuns(text, token);
    hide IsRun, Tokenize;
    forall lo: nat, hi: nat | IsRun(text, lo, hi) ensures ToLower(text[lo..hi]) == text[lo..hi] {
      RunInText(text, lo, hi);
    }
  }

  lemma RunInText(text: string, lo: nat, hi: nat)
    requires IsRun(text, lo, hi)
    ensures lo < hi <= |text|
  {
  }
}
