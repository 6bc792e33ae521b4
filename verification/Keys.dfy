/** The object keys and URLs that tie the Go splitter, mapper and reducer of hw4 together. */
module Keys {
  import opened Common

  // ----- Go string functions -----

  function TrimPrefix(s: string, prefix: string): (r: string)
    ensures if prefix <= s then s == prefix + r else r == s
  {
    if prefix <= s then s[|prefix|..] else s
  }

  predicate HasSuffix(s: string, suffix: string) {
    |suffix| <= |s| && s[|s| - |suffix|..] == suffix
  }

  function TrimSuffix(s: string, suffix: string): (r: string)
    ensures if HasSuffix(s, suffix) then s == r + suffix else r == s
  {
    if HasSuffix(s, suffix) then s[..|s| - |suffix|] else s
  }

  lemma TrimPrefixOf(prefix: string, s: string)
    ensures TrimPrefix(prefix + s, prefix) == s
  {
  }

  lemma TrimSuffixOf(s: string, suffix: string)
    ensures TrimSuffix(s + suffix, suffix) == s
  {
    assert (s + suffix)[|s + suffix| - |suffix|..] == suffix;
  }

  /** A bucket name or run id that the keys can carry. */
  predicate Plain(s: string) {
    forall i :: 0 <= i < |s| ==> s[i] != '/'
  }

  /** The position of the first slash, or the length. */
  function FirstSlash(s: string): (n: nat)
    ensures n <= |s| && forall i :: 0 <= i < n ==> s[i] != '/'
    ensures n < |s| ==> s[n] == '/'
  {
    if s == [] || s[0] == '/' then 0 else 1 + FirstSlash(s[1..])
  }

  function Split(s: string): seq<string>
    decreases |s|
  {
    var n := FirstSlash(s);
    if n == |s| then [s] else [s[..n]] + Split(s[n + 1..])
  }

  function Digit(d: nat): char
    requires d < 10
  {
    '0' + d as char
  }

  function DigitValue(c: char): nat
    requires '0' <= c <= '9'
  {
    c as int - '0' as int
  }

  /** `%d` of a number that is not negative. */
  function Itoa(n: nat): string {
    if n < 10 then [Digit(n)] else Itoa(n / 10) + [Digit(n % 10)]
  }

  predicate AllDigits(s: string) {
    forall i :: 0 <= i < |s| ==> '0' <= s[i] <= '9'
  }

  function DigitsValue(s: string): nat
    requires AllDigits(s)
  {
    if s == [] then 0 else 10 * DigitsValue(s[..|s| - 1]) + DigitValue(s[|s| - 1])
  }

  /** `strconv.Atoi` without its range limit. */
  function Atoi(s: string): Option<int> {
    var signed := s != [] && (s[0] == '+' || s[0] == '-');
    var body := if signed then s[1..] else s;
    if body == [] || !AllDigits(body) then None
    else
      var value: int := DigitsValue(body);
      Some(if signed && s[0] == '-' then -value else value)
  }

  lemma {:induction false} ItoaDigits(n: nat)
    ensures AllDigits(Itoa(n)) && Itoa(n) != [] && DigitsValue(Itoa(n)) == n
  {
    if n >= 10 {
      ItoaDigits(n / 10);
      assert Itoa(n)[..|Itoa(n)| - 1] == Itoa(n / 10);
    } else {
      assert Itoa(n)[..0] == [];
    }
  }

  /** Digits are decimal and the most significant one comes first. */
  lemma {:induction false} ItoaExamples()
    ensures Itoa(0) == "0" && Itoa(10) == "10" && Itoa(2047) == "2047"
    ensures Atoi("-12") == Some(-12) && Atoi("+7") == Some(7) && Atoi("x") == None && Atoi("") == None && Atoi("-") == None
  {
    assert Itoa(1) == "1" && Itoa(2) == "2" && Itoa(20) == "20" && Itoa(204) == "204";
    assert "12"[..1] == "1" && "1"[..0] == "" && DigitsValue("") == 0 && DigitsValue("1") == 1;
    assert "7"[..0] == "" && "-12"[1..] == "12" && "+7"[1..] == "7" && "-"[1..] == "";
    assert AllDigits("12") && AllDigits("7");
    assert !AllDigits("x") by {
      assert "x"[0] == 'x';
    }
  }

  /** The decimal form reads back as the number. */
  lemma AtoiItoa(n: nat)
    ensures Atoi(Itoa(n)) == Some(n) && Plain(Itoa(n))
  {
    ItoaDigits(n);
    assert '0' <= Itoa(n)[0] <= '9';
  }

  lemma ItoaInjective(n: nat, m: nat)
    requires Itoa(n) == Itoa(m)
    ensures n == m
  {
    ItoaDigits(n);
    ItoaDigits(m);
  }

  // ----- URLs -----

  datatype Location = Location(bucket: string, key: string)

  function URL(bucket: string, key: string): string {
    "s3://" + (bucket + "/" + key)
  }

  /** `SplitN(rest, "/", 2)` on what follows the scheme. */
  function ParseURL(url: string): Option<Location> {
    if !("s3://" <= url) then None
    else
      var rest := TrimPrefix(url, "s3://");
      var n := FirstSlash(rest);
      if n == |rest| then None else Some(Location(rest[..n], rest[n + 1..]))
  }

  lemma {:induction false} FirstSlashAfter(a: string, b: string)
    requires Plain(a)
    ensures FirstSlash(a + "/" + b) == |a|
  {
    if a != [] {
      FirstSlashAfter(a[1..], b);
      assert (a + "/" + b)[1..] == a[1..] + "/" + b;
    }
  }

  /** A URL parses to a location exactly if it was made from it and the bucket has no slash. */
  lemma ParsesWhatWasFormatted(url: string, bucket: string, key: string)
    ensures ParseURL(url) == Some(Location(bucket, key)) <==> Plain(bucket) && url == URL(bucket, key)
  {
    if Plain(bucket) && url == URL(bucket, key) {
      TrimPrefixOf("s3://", bucket + "/" + key);
      FirstSlashAfter(bucket, key);
      hide URL;
      var rest := bucket + "/" + key;
      assert rest[..|bucket|] == bucket && rest[|bucket| + 1..] == key;
    }
    if ParseURL(url) == Some(Location(bucket, key)) {
      var rest := url[5..];
      assert url == "s3://" + rest;
      assert rest == bucket + "/" + key;
    }
  }

  lemma SplitFirst(a: string, b: string)
    requires Plain(a)
    ensures Split(a + "/" + b) == [a] + Split(b)
  {
    var s := a + "/" + b;
    FirstSlashAfter(a, b);
    assert s[..|a|] == a && s[|a| + 1..] == b;
  }

  lemma SplitNone(a: string)
    requires Plain(a)
    ensures Split(a) == [a]
  {
  }

  lemma SplitThree(a: string, b: string, c: string)
    requires Plain(a) && Plain(b) && Plain(c)
    ensures Split(a + "/" + b + "/" + c) == [a, b, c]
  {
    hide Split, Plain;
    assert a + "/" + b + "/" + c == a + "/" + (b + "/" + c);
    SplitFirst(a, b + "/" + c);
    SplitFirst(b, c);
    SplitNone(c);
  }

  // ----- splitter, mapper, reducer -----

  function ChunkKey(runID: string, i: nat): string {
    "chunks" + "/" + ("run-" + runID) + "/" + ("chunk-" + (Itoa(i) + ".txt"))
  }

  function MapKey(runID: string, index: string): string {
    "maps" + "/" + ("run-" + runID) + "/" + ("map-" + (index + ".json"))
  }

  function ResultKey(runID: string): string {
    "reduce" + "/" + ("run-" + runID) + "/" + "result.json"
  }

  datatype Reply = Reply(url: string) | Refused(status: nat)

  /** Where the mapper writes its output for a chunk. */
  function MapTarget(chunkURL: string): Reply {
    match ParseURL(chunkURL)
    case None => Refused(400)
    case Some(at) =>
      var parts := Split(at.key);
      if |parts| < 3 then Refused(500)
      else
        var runID := TrimPrefix(parts[1], "run-");
        var index := TrimSuffix(TrimPrefix(parts[|parts| - 1], "chunk-"), ".txt");
        Reply(URL(at.bucket, MapKey(runID, if Atoi(index) == None then "0" else index)))
  }

  /** The keys written out. */
  lemma KeysWrittenOut(runID: string, i: nat, index: string)
    ensures ChunkKey(runID, i) == "chunks/run-" + runID + "/chunk-" + Itoa(i) + ".txt"
    ensures MapKey(runID, index) == "maps/run-" + runID + "/map-" + index + ".json"
    ensures ResultKey(runID) == "reduce/run-" + runID + "/result.json"
  {
    hide Itoa;
    assert "chunks" + "/" + ("run-" + runID) + "/" + ("chunk-" + (Itoa(i) + ".txt"))
        == "chunks/run-" + runID + "/chunk-" + Itoa(i) + ".txt";
    assert "maps" + "/" + ("run-" + runID) + "/" + ("map-" + (index + ".json")) == "maps/run-" + runID + "/map-" + index + ".json";
    assert "reduce" + "/" + ("run-" + runID) + "/" + "result.json" == "reduce/run-" + runID + "/result.json";
  }

  /** A result never overwrites a chunk or a mapper output, nor a mapper output a chunk,
      whatever the runs are called. */
  lemma KindsOfKeysDiffer(run1: string, run2: string, i: nat, index: string)
    ensures ResultKey(run1) != ChunkKey(run2, i) && ResultKey(run1) != MapKey(run2, index) && MapKey(run1, index) != ChunkKey(run2, i)
  {
    assert ResultKey(run1)[0] == 'r' && MapKey(run1, index)[0] == 'm' && MapKey(run2, index)[0] == 'm' && ChunkKey(run2, i)[0] == 'c';
  }

  /** A chunk URL that does not parse gets status 400, and one whose key has fewer than three
      parts status 500. */
  lemma MapTargetCases(bucket: string, key: string, url: string)
    ensures ParseURL(url) == None ==> MapTarget(url) == Refused(400)
    ensures Plain(bucket) && |Split(key)| < 3 ==> MapTarget(URL(bucket, key)) == Refused(500)
  {
    ParsesWhatWasFormatted(URL(bucket, key), bucket, key);
    hide ParseURL, Split, URL, MapKey, Atoi;
  }

  lemma ChunkName(runID: string, name: string)
    ensures "chunks" + "/" + ("run-" + runID) + "/" + ("chunk-" + (name + ".txt")) == "chunks/run-" + runID + "/chunk-" + name + ".txt"
  {
  }

  lemma MapZero(runID: string)
    ensures MapKey(runID, "0") == "maps/run-" + runID + "/map-0.json"
  {
    assert "map-" + ("0" + ".json") == "map-0.json";
    assert "maps" + "/" + ("run-" + runID) + "/" + "map-0.json" == "maps/run-" + runID + "/map-0.json";
  }

  lemma SplitChunkName(runID: string, name: string)
    requires Plain(runID) && Plain(name)
    ensures Split("chunks/run-" + runID + "/chunk-" + name + ".txt") == ["chunks", "run-" + runID, "chunk-" + (name + ".txt")]
  {
    PlainConcat("run-", runID);
    PlainConcat(name, ".txt");
    PlainConcat("chunk-", name + ".txt");
    ChunkName(runID, name);
    hide Split;
    SplitThree("chunks", "run-" + runID, "chunk-" + (name + ".txt"));
  }

  /** An index that is not a number becomes "0". */
  lemma OddIndexIsZero(bucket: string, runID: string, name: string)
    requires Plain(bucket) && Plain(runID) && Plain(name) && Atoi(name) == None
    ensures MapTarget(URL(bucket, "chunks/run-" + runID + "/chunk-" + name + ".txt")) == Reply(URL(bucket, "maps/run-" + runID + "/map-0.json"))
  {
    var key := "chunks/run-" + runID + "/chunk-" + name + ".txt";
    MapZero(runID);
    TrimPrefixOf("run-", runID);
    TrimPrefixOf("chunk-", name + ".txt");
    TrimSuffixOf(name, ".txt");
    SplitChunkName(runID, name);
    hide Split, URL, ParseURL, MapKey, TrimPrefix, TrimSuffix, Atoi;
    ParsesWhatWasFormatted(URL(bucket, key), bucket, key);
  }

  lemma PlainConcat(a: string, b: string)
    requires Plain(a) && Plain(b)
    ensures Plain(a + b)
  {
  }

  // ----- keys of other shapes -----

  lemma {:induction false} SplitLast(a: string, b: string)
    requires Plain(b)
    ensures Split(a + "/" + b) == Split(a) + [b]
    decreases |a|
  {
    var n := FirstSlash(a);
    if n == |a| {
      SplitFirst(a, b);
      SplitNone(a);
      SplitNone(b);
    } else {
      var front, rest := a[..n], a[n + 1..];
      assert a == front + "/" + rest;
      hide *;
      SplitLast(rest, b);
      SplitFirst(front, rest);
      SplitFirst(front, rest + "/" + b);
      Regroup(front, rest, b);
      assert [front] + (Split(rest) + [b]) == [front] + Split(rest) + [b];
    }
  }

  lemma Regroup(a: string, b: string, c: string)
    ensures a + "/" + b + "/" + c == a + "/" + (b + "/" + c)
  {
  }

  lemma SplitDeep(dir: string, name: string, middle: string, file: string)
    requires Plain(dir) && Plain(name) && Plain(file)
    ensures Split(dir + "/" + (name + "/" + (middle + "/" + file))) == [dir, name] + Split(middle) + [file]
  {
    hide Split, Plain;
    SplitFirst(dir, name + "/" + (middle + "/" + file));
    SplitFirst(name, middle + "/" + file);
    SplitLast(middle, file);
  }

  /** In a chunk key with more parts the run is still the second and the chunk the last. */
  lemma {:induction false} DeepChunkKey(bucket: string, dir: string, runID: string, middle: string, i: nat)
    requires Plain(bucket) && Plain(dir) && Plain(runID)
    ensures MapTarget(URL(bucket, dir + "/" + ("run-" + runID + "/" + (middle + "/" + ("chunk-" + (Itoa(i) + ".txt"))))))
         == Reply(URL(bucket, MapKey(runID, Itoa(i))))
  {
    AtoiItoa(i);
    PlainConcat("run-", runID);
    PlainConcat(Itoa(i), ".txt");
    PlainConcat("chunk-", Itoa(i) + ".txt");
    var file := "chunk-" + (Itoa(i) + ".txt");
    var key := dir + "/" + ("run-" + runID + "/" + (middle + "/" + file));
    ParsesWhatWasFormatted(URL(bucket, key), bucket, key);
    hide *;
    SplitDeep(dir, "run-" + runID, middle, file);
    TargetOfParts(URL(bucket, key), bucket, key, runID, i, Split(middle));
  }

  lemma TargetOfParts(url: string, bucket: string, key: string, runID: string, i: nat, middle: seq<string>)
    requires ParseURL(url) == Some(Location(bucket, key))
    requires exists dir :: Split(key) == [dir, "run-" + runID] + middle + ["chunk-" + (Itoa(i) + ".txt")]
    ensures MapTarget(url) == Reply(URL(bucket, MapKey(runID, Itoa(i))))
  {
    AtoiItoa(i);
    IndexOfChunk(i);
    TrimPrefixOf("run-", runID);
    hide Split, Itoa, Atoi, URL, ParseURL, MapKey, TrimPrefix, TrimSuffix;
  }

  lemma SplitChunkKey(runID: string, i: nat)
    requires Plain(runID)
    ensures Split(ChunkKey(runID, i)) == ["chunks", "run-" + runID, "chunk-" + (Itoa(i) + ".txt")]
  {
    AtoiItoa(i);
    PlainConcat("run-", runID);
    PlainConcat(Itoa(i), ".txt");
    PlainConcat("chunk-", Itoa(i) + ".txt");
    hide Split, Itoa;
    SplitThree("chunks", "run-" + runID, "chunk-" + (Itoa(i) + ".txt"));
  }

  lemma SplitMapKey(runID: string, index: string)
    requires Plain(runID) && Plain(index)
    ensures Split(MapKey(runID, index)) == ["maps", "run-" + runID, "map-" + (index + ".json")]
  {
    PlainConcat("run-", runID);
    PlainConcat(index, ".json");
    PlainConcat("map-", index + ".json");
    hide Split;
    SplitThree("maps", "run-" + runID, "map-" + (index + ".json"));
  }

  lemma IndexOfChunk(i: nat)
    ensures TrimSuffix(TrimPrefix("chunk-" + (Itoa(i) + ".txt"), "chunk-"), ".txt") == Itoa(i)
  {
    TrimPrefixOf("chunk-", Itoa(i) + ".txt");
    TrimSuffixOf(Itoa(i), ".txt");
  }

  /** The mapper recovers bucket, run id and chunk number from the splitter's URL. */
  lemma {:induction false} MapperRecoversChunk(bucket: string, runID: string, i: nat)
    requires Plain(bucket) && Plain(runID)
    ensures MapTarget(URL(bucket, ChunkKey(runID, i))) == Reply(URL(bucket, MapKey(runID, Itoa(i))))
  {
    ParsesWhatWasFormatted(URL(bucket, ChunkKey(runID, i)), bucket, ChunkKey(runID, i));
    SplitChunkKey(runID, i);
    AtoiItoa(i);
    IndexOfChunk(i);
    TrimPrefixOf("run-", runID);
    hide URL, ParseURL, ChunkKey, MapKey, Split, TrimPrefix, TrimSuffix, Atoi, Itoa;
  }

  /** What a key keeps of the run id and the index. */
  lemma MapKeyParts(runID: string, index: string)
    requires Plain(runID) && Plain(index)
    ensures |Split(MapKey(runID, index))| == 3
    ensures TrimPrefix(Split(MapKey(runID, index))[1], "run-") == runID
    ensures TrimSuffix(TrimPrefix(Split(MapKey(runID, index))[2], "map-"), ".json") == index
  {
    SplitMapKey(runID, index);
    TrimPrefixOf("run-", runID);
    TrimPrefixOf("map-", index + ".json");
    TrimSuffixOf(index, ".json");
    hide Split, MapKey, TrimPrefix, TrimSuffix;
  }

  /** Different chunks of any runs never share a mapper output. */
  lemma MapKeysDistinct(run1: string, i: nat, run2: string, j: nat)
    requires Plain(run1) && Plain(run2) && MapKey(run1, Itoa(i)) == MapKey(run2, Itoa(j))
    ensures run1 == run2 && i == j
  {
    AtoiItoa(i);
    AtoiItoa(j);
    hide MapKey, Split, TrimPrefix, TrimSuffix, Itoa;
    MapKeyParts(run1, Itoa(i));
    MapKeyParts(run2, Itoa(j));
    ItoaInjective(i, j);
  }

  function TargetNext(before: Option<Location>, mapURL: string): Option<Location> {
    var at := ParseURL(mapURL);
    if before == None || at == None then None
    else
      var parts := Split(at.value.key);
      Some(Location(at.value.bucket, if |parts| >= 2 then TrimPrefix(parts[1], "run-") else before.value.key))
  }

  /** What the reducer remembers after the given map URLs: the last bucket and run id. */
  function Target(mapURLs: seq<string>): Option<Location> {
    if mapURLs == [] then Some(Location("", ""))
    else TargetNext(Target(mapURLs[..|mapURLs| - 1]), mapURLs[|mapURLs| - 1])
  }

  /** Where the reducer writes its result. */
  method ReduceTarget(mapURLs: seq<string>) returns (reply: Reply)
    ensures reply == if mapURLs == [] || Target(mapURLs) == None then Refused(400)
                     else Reply(URL(Target(mapURLs).value.bucket, ResultKey(Target(mapURLs).value.key)))
  {
    if |mapURLs| == 0 {
      return Refused(400);
    }
    var bucket, runID := "", "";
    for i := 0 to |mapURLs|
      invariant Target(mapURLs[..i]) == Some(Location(bucket, runID))
    {
      assert mapURLs[..i + 1][..i] == mapURLs[..i];
      var at := ParseURL(mapURLs[i]);
      if at.None? {
        BadURLStays(mapURLs, i + 1);
        return Refused(400);
      }
      bucket := at.value.bucket;
      var parts := Split(at.value.key);
      if |parts| >= 2 {
        runID := TrimPrefix(parts[1], "run-");
      }
    }
    assert mapURLs[..|mapURLs|] == mapURLs;
    return Reply(URL(bucket, ResultKey(runID)));
  }

  lemma {:induction false} BadURLStays(mapURLs: seq<string>, i: nat)
    requires i <= |mapURLs| && Target(mapURLs[..i]) == None
    ensures Target(mapURLs) == None
    decreases |mapURLs|
  {
    if i == |mapURLs| {
      assert mapURLs[..i] == mapURLs;
    } else {
      var front := mapURLs[..|mapURLs| - 1];
      assert front[..i] == mapURLs[..i];
      BadURLStays(front, i);
    }
  }

  /** The URL that the mapper returns for chunk i of the run. */
  predicate IsMapURL(bucket: string, runID: string, i: nat, mapURL: string) {
    MapTarget(URL(bucket, ChunkKey(runID, i))) == Reply(mapURL)
  }

  lemma TargetOfMapURL(bucket: string, runID: string, i: nat, mapURL: string, before: Option<Location>)
    requires Plain(bucket) && Plain(runID) && IsMapURL(bucket, runID, i, mapURL) && before != None
    ensures TargetNext(before, mapURL) == Some(Location(bucket, runID))
  {
    AtoiItoa(i);
    MapperRecoversChunk(bucket, runID, i);
    hide MapTarget, URL, ChunkKey, MapKey, Split, ParseURL, TrimPrefix, TrimSuffix, Itoa;
    ParsesWhatWasFormatted(mapURL, bucket, MapKey(runID, Itoa(i)));
    MapKeyParts(runID, Itoa(i));
  }

  lemma TargetOfNone(mapURLs: seq<string>)
    requires mapURLs == []
    ensures Target(mapURLs) == Some(Location("", ""))
  {
  }

  lemma TargetOfLast(mapURLs: seq<string>)
    requires mapURLs != []
    ensures Target(mapURLs) == TargetNext(Target(mapURLs[..|mapURLs| - 1]), mapURLs[|mapURLs| - 1])
  {
  }

  /** Fed the mapper's URLs for chunks of one run, the reducer recovers bucket and run id. */
  lemma {:induction false} ReducerRecoversRun(bucket: string, runID: string, chunks: seq<nat>, mapURLs: seq<string>)
    requires Plain(bucket) && Plain(runID) && |mapURLs| == |chunks| > 0
    requires forall k :: 0 <= k < |chunks| ==> IsMapURL(bucket, runID, chunks[k], mapURLs[k])
    ensures Target(mapURLs) == Some(Location(bucket, runID))
  {
    hide *;
    var n := |mapURLs| - 1;
    var before := if n == 0 then Some(Location("", "")) else Some(Location(bucket, runID));
    assert Target(mapURLs[..n]) == before by {
      if n > 0 {
        ReducerRecoversRun(bucket, runID, chunks[..n], mapURLs[..n]);
      } else {
        TargetOfNone(mapURLs[..n]);
      }
    }
    TargetOfLast(mapURLs);
    TargetOfMapURL(bucket, runID, chunks[n], mapURLs[n], before);
  }

  /** A map URL whose key has two parts names its run; one whose key has a single part leaves
      the run of the URL before it. */
  lemma TargetOfShortKeys(before: Option<Location>, bucket: string, dir: string, runID: string)
    requires before != None && Plain(bucket) && Plain(dir) && Plain(runID)
    ensures TargetNext(before, URL(bucket, dir + "/" + ("run-" + runID))) == Some(Location(bucket, runID))
    ensures TargetNext(before, URL(bucket, dir)) == Some(Location(bucket, before.value.key))
  {
    var key := dir + "/" + ("run-" + runID);
    PlainConcat("run-", runID);
    SplitFirst(dir, "run-" + runID);
    SplitNone("run-" + runID);
    SplitNone(dir);
    TrimPrefixOf("run-", runID);
    hide Split, Plain, URL, ParseURL, TrimPrefix;
    ParsesWhatWasFormatted(URL(bucket, key), bucket, key);
    ParsesWhatWasFormatted(URL(bucket, dir), bucket, dir);
  }

  // ----- where results go -----

  lemma SplitResultKey(runID: string)
    requires Plain(runID)
    ensures Split(ResultKey(runID)) == ["reduce", "run-" + runID, "result.json"]
  {
    PlainConcat("run-", runID);
    hide Split;
    SplitThree("reduce", "run-" + runID, "result.json");
  }

  lemma ResultPath(bucket: string, runID: string)
    ensures "s3://" + (bucket + "/" + ("reduce/run-" + runID + "/result.json")) == "s3://" + bucket + "/reduce/run-" + runID + "/result.json"
  {
  }

  /** From the URL of a result one gets back its bucket and its run. */
  lemma ResultURLParts(bucket: string, runID: string)
    requires Plain(bucket) && Plain(runID)
    ensures var url := URL(bucket, ResultKey(runID));
            && url == "s3://" + bucket + "/reduce/run-" + runID + "/result.json"
            && ParseURL(url) == Some(Location(bucket, ResultKey(runID)))
            && Split(ResultKey(runID)) == ["reduce", "run-" + runID, "result.json"]
  {
    KeysWrittenOut(runID, 0, "");
    SplitResultKey(runID);
    ResultPath(bucket, runID);
    hide ResultKey, ParseURL, Split;
    ParsesWhatWasFormatted(URL(bucket, ResultKey(runID)), bucket, ResultKey(runID));
  }

  /** Results of different runs or in different buckets go to different places. */
  lemma ResultsDistinct(bucket1: string, run1: string, bucket2: string, run2: string)
    requires Plain(bucket1) && Plain(run1) && Plain(bucket2) && Plain(run2)
    requires URL(bucket1, ResultKey(run1)) == URL(bucket2, ResultKey(run2))
    ensures bucket1 == bucket2 && run1 == run2
  {
    hide *;
    ResultURLParts(bucket1, run1);
    ResultURLParts(bucket2, run2);
    assert ("run-" + run1)[4..] == run1 && ("run-" + run2)[4..] == run2;
  }

  /** The whole way of a run: fed the mapper's URLs for its chunks, the reducer writes to the
      run's own result. */
  lemma {:induction false} ReducerWritesRunsResult(bucket: string, runID: string, chunks: seq<nat>, mapURLs: seq<string>)
    requires Plain(bucket) && Plain(runID) && |mapURLs| == |chunks| > 0
    requires forall k :: 0 <= k < |chunks| ==> IsMapURL(bucket, runID, chunks[k], mapURLs[k])
    ensures Target(mapURLs).Some?
    ensures URL(Target(mapURLs).value.bucket, ResultKey(Target(mapURLs).value.key)) == "s3://" + bucket + "/reduce/run-" + runID + "/result.json"
  {
    hide *;
    ReducerRecoversRun(bucket, runID, chunks, mapURLs);
    ResultURLParts(bucket, runID);
  }
}
