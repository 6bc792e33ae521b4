/** Reads through hw10's leader with nothing in between, and exactly when they are fresh. */
module Freshness {
  import opened Common
  import opened VersionedStore
  import opened PeerQuery
  import opened LeaderFollower
  import opened LeaderHandlers

  // ----- a read with nothing in between -----

  /** What a read of the key collects: the leader's reply and those of the asked followers. */
  ghost function Replies(c: Config, s: State, key: string): seq<Option<Entry>>
    requires ReadsFrom(c) <= |s.followers|
  {
    [Lookup(s.leader, key)] + FollowerReplies(s, key, ReadsFrom(c))
  }

  function FollowerReplies(s: State, key: string, n: nat): seq<Option<Entry>>
    requires n <= |s.followers|
  {
    seq(n, p requires 0 <= p < n => Reply(s.followers[p], key))
  }

  function Asks(r: nat, n: nat): seq<Event> {
    seq(n, p requires 0 <= p < n => ReadPeer(r, p))
  }

  function First(sorted: seq<Entry>): Option<Entry> {
    if sorted == [] then None else Some(sorted[0])
  }

  /** The steps of read number `r`; `sorted` is the order that the sort comes up with. */
  function WholeRead(c: Config, r: nat, key: string, sorted: seq<Entry>): seq<Event> {
    [BeginRead(key), ReadLocal(r)] + Asks(r, ReadsFrom(c)) + [EndRead(r, sorted)]
  }

  /** The read after it has asked the first n followers. */
  ghost function Asked(s: State, read: Read, n: nat): Read
    requires n <= |s.followers|
  {
    read.(visited := Below(n), samples := Samples([Lookup(s.leader, read.key)] + FollowerReplies(s, read.key, n)))
  }

  lemma SamplesSnoc(replies: seq<Option<Entry>>, reply: Option<Entry>)
    ensures Samples(replies + [reply]) == Samples(replies) + if reply.Some? then [reply.value] else []
  {
    assert (replies + [reply])[..|replies|] == replies;
  }

  lemma AskedNext(s: State, read: Read, n: nat)
    requires n < |s.followers|
    ensures n !in Below(n)
    ensures var asked := Asked(s, read, n);
            WithSample(asked.(visited := asked.visited + {n}), Reply(s.followers[n], read.key)) == Asked(s, read, n + 1)
  {
    hide Heard, Reply;
    var reply := Reply(s.followers[n], read.key);
    var replies := [Lookup(s.leader, read.key)] + FollowerReplies(s, read.key, n);
    assert [Lookup(s.leader, read.key)] + FollowerReplies(s, read.key, n + 1) == replies + [reply];
    SamplesSnoc(replies, reply);
    assert Below(n + 1) == Below(n) + {n};
  }

  lemma AskOneMore(c: Config, s: State, read: Read, n: nat)
    requires n < |s.followers| == c.peers && n < ReadsFrom(c) && s.clients != []
    requires s.clients[|s.clients| - 1] == Asked(s, read, n) && read.local && read.answer.None?
    ensures var r := |s.clients| - 1;
            Next(c, s, ReadPeer(r, n)) == s.(time := s.time + 1, clients := s.clients[r := Asked(s, read, n + 1)])
  {
    AskedNext(s, read, n);
    var r, asked := |s.clients| - 1, Asked(s, read, n);
    assert asked.local && asked.answer.None? && asked.key == read.key && asked.visited == Below(n);
    hide Below, Asked, WithSample, SetEntry, IsSortOf;
    assert Enabled(c, s, ReadPeer(r, n));
  }

  /** The read's events up to the n-th follower. */
  lemma {:induction false} AskedRun(c: Config, events: seq<Event>, s: State, read: Read, n: nat)
    requires Run(c, events) == s && s.clients != []
    requires n <= |s.followers| == c.peers && n <= ReadsFrom(c)
    requires s.clients[|s.clients| - 1] == Asked(s, read, 0) && read.local && read.answer.None?
    ensures var r := |s.clients| - 1;
            Run(c, events + Asks(r, n)) == s.(time := s.time + n, clients := s.clients[r := Asked(s, read, n)])
  {
    var r := |s.clients| - 1;
    hide Run, Next, Asked;
    if n == 0 {
      assert events + Asks(r, 0) == events;
      assert s.clients[r := Asked(s, read, 0)] == s.clients;
    } else {
      AskedRun(c, events, s, read, n - 1);
      var before, t := events + Asks(r, n - 1), s.(time := s.time + n - 1, clients := s.clients[r := Asked(s, read, n - 1)]);
      assert events + Asks(r, n) == before + [ReadPeer(r, n - 1)];
      hide Asks;
      RunSnoc(c, before, ReadPeer(r, n - 1));
      AskedSame(s, t, read, n - 1);
      AskedSame(s, t, read, n);
      AskOneMore(c, t, read, n - 1);
    }
  }

  lemma AskedSame(s: State, t: State, read: Read, n: nat)
    requires n <= |s.followers| && s.followers == t.followers && s.leader == t.leader
    ensures Asked(s, read, n) == Asked(t, read, n)
  {
  }

  /** The read when it has the leader's reply still ahead. */
  function Opened(s: State, key: string): Read {
    Read(key, s.time, VersionOf(s.leader, key), true, {}, [], None)
  }

  /** The read when all replies are in. */
  ghost function Collected(c: Config, s: State, key: string): Read
    requires ReadsFrom(c) <= |s.followers|
  {
    Asked(s, Opened(s, key), ReadsFrom(c))
  }

  lemma CollectedIs(c: Config, s: State, key: string)
    requires ReadsFrom(c) <= |s.followers|
    ensures Collected(c, s, key) == Read(key, s.time, VersionOf(s.leader, key), true, Below(ReadsFrom(c)), Samples(Replies(c, s, key)), None)
  {
  }

  ghost function WithClient(s: State, time: nat, client: Read): State {
    s.(time := time, clients := s.clients + [client])
  }

  lemma WholeReadAsks(c: Config, events: seq<Event>, s: State, key: string)
    requires key != "" && s == Run(c, events) && ReadsFrom(c) <= c.peers == |s.followers|
    ensures Run(c, events + [BeginRead(key), ReadLocal(|s.clients|)] + Asks(|s.clients|, ReadsFrom(c)))
         == WithClient(s, s.time + 2 + ReadsFrom(c), Collected(c, s, key))
  {
    var n, read := ReadsFrom(c), Opened(s, key);
    var begun := events + [BeginRead(key), ReadLocal(|s.clients|)];
    WholeReadBegins(c, events, s, key);
    var t := WithClient(s, s.time + 2, Asked(s, read, 0));
    hide Run, Asked, Asks, Opened;
    assert read.local && read.answer.None? by {
      OpenedIs(s, key);
    }
    AskedSame(s, t, read, 0);
    AskedSame(s, t, read, n);
    AskedRun(c, begun, t, read, n);
    assert (s.clients + [Asked(s, read, 0)])[|s.clients| := Asked(s, read, n)] == s.clients + [Asked(s, read, n)];
  }

  lemma OpenedIs(s: State, key: string)
    ensures Opened(s, key) == Read(key, s.time, VersionOf(s.leader, key), true, {}, [], None)
  {
  }

  lemma WholeReadEnds(c: Config, s: State, last: Read, time: nat, sorted: seq<Entry>)
    requires last.local && last.answer.None? && last.visited == Below(ReadsFrom(c)) && IsSortOf(sorted, last.samples)
    ensures Next(c, WithClient(s, time, last), EndRead(|s.clients|, sorted))
         == WithClient(s, time + 1, last.(answer := Some(Answer(time, First(sorted)))))
  {
    hide Below, IsSortOf;
    var t := WithClient(s, time, last);
    assert Enabled(c, t, EndRead(|s.clients|, sorted));
    assert t.clients[|s.clients| := last.(answer := Some(Answer(time, First(sorted))))]
        == s.clients + [last.(answer := Some(Answer(time, First(sorted))))];
  }

  lemma WholeReadSplits(c: Config, events: seq<Event>, r: nat, key: string, sorted: seq<Entry>)
    ensures events + WholeRead(c, r, key, sorted)
         == (events + [BeginRead(key), ReadLocal(r)] + Asks(r, ReadsFrom(c))) + [EndRead(r, sorted)]
  {
  }

  lemma WholeReadRun(c: Config, events: seq<Event>, s: State, key: string, sorted: seq<Entry>)
    requires key != "" && s == Run(c, events) && ReadsFrom(c) <= c.peers == |s.followers|
    requires IsSortOf(sorted, Samples(Replies(c, s, key)))
    ensures var time := s.time + 2 + ReadsFrom(c);
            Run(c, events + WholeRead(c, |s.clients|, key, sorted))
            == WithClient(s, time + 1, Collected(c, s, key).(answer := Some(Answer(time, First(sorted)))))
  {
    hide *;
    WholeReadAsks(c, events, s, key);
    WholeReadSplits(c, events, |s.clients|, key, sorted);
    CollectedIs(c, s, key);
    var asked := events + [BeginRead(key), ReadLocal(|s.clients|)] + Asks(|s.clients|, ReadsFrom(c));
    RunSnoc(c, asked, EndRead(|s.clients|, sorted));
    WholeReadEnds(c, s, Collected(c, s, key), s.time + 2 + ReadsFrom(c), sorted);
  }

  /** What a read collects, with the asked followers written out for each mode. */
  lemma RepliesPerMode(c: Config, s: State, key: string)
    requires |s.followers| == c.peers && (c.mode.Quorum? ==> c.peers >= 2)
    ensures ReadsFrom(c) <= |s.followers|
    ensures c.mode.W5R1? ==> Replies(c, s, key) == [Lookup(s.leader, key)]
    ensures c.mode.Quorum? ==>
              Replies(c, s, key) == [Lookup(s.leader, key), Reply(s.followers[0], key), Reply(s.followers[1], key)]
    ensures c.mode.W1R5? ==>
              && |Replies(c, s, key)| == c.peers + 1 && Replies(c, s, key)[0] == Lookup(s.leader, key)
              && forall p :: 0 <= p < c.peers ==> Replies(c, s, key)[p + 1] == Reply(s.followers[p], key)
  {
    hide Reply;
  }

  lemma WholeReadEvents(c: Config, r: nat, key: string, sorted: seq<Entry>)
    ensures forall e :: e in WholeRead(c, r, key, sorted) ==> !e.BeginWrite? && !e.Lose? && !e.GiveUp?
  {
  }

  /** The read is answered with the first entry of the sorted replies. */
  lemma WholeReadAnswers(c: Config, events: seq<Event>, key: string, sorted: seq<Entry>)
    requires key != "" && ReadsFrom(c) <= c.peers == |Run(c, events).followers|
    requires IsSortOf(sorted, Samples(Replies(c, Run(c, events), key)))
    ensures var s, r := Run(c, events), |Run(c, events).clients|;
            var t := Run(c, events + WholeRead(c, r, key, sorted));
            && t.leader == s.leader && t.log == s.log && t.arrived == s.arrived && |t.clients| == r + 1
            && t.clients[r].key == key && t.clients[r].begin == s.time && t.clients[r].answer.Some?
            && t.clients[r].answer.value.entry == First(sorted)
  {
    var s := Run(c, events);
    hide Run, WholeRead, Samples, Replies, IsSortOf, Collected;
    WholeReadRun(c, events, s, key, sorted);
    CollectedIs(c, s, key);
  }

  lemma WholeReadBegins(c: Config, events: seq<Event>, s: State, key: string)
    requires key != "" && s == Run(c, events)
    ensures Run(c, events + [BeginRead(key), ReadLocal(|s.clients|)]) == WithClient(s, s.time + 2, Asked(s, Opened(s, key), 0))
  {
    var r, read := |s.clients|, Read(key, s.time, VersionOf(s.leader, key), false, {}, [], None);
    assert events + [BeginRead(key), ReadLocal(r)] == (events + [BeginRead(key)]) + [ReadLocal(r)];
    RunSnoc(c, events, BeginRead(key));
    RunSnoc(c, events + [BeginRead(key)], ReadLocal(r));
    var t := Next(c, s, BeginRead(key));
    assert t == s.(time := s.time + 1, clients := s.clients + [read]);
    AskedNone(s, read.(local := true));
    hide Run, Asked;
    assert Enabled(c, t, ReadLocal(r));
  }

  lemma AskedNone(s: State, read: Read)
    requires read.samples == [] && read.visited == {}
    ensures Asked(s, read, 0) == WithSample(read, Lookup(s.leader, read.key))
  {
    var reply := Lookup(s.leader, read.key);
    assert [reply] + FollowerReplies(s, read.key, 0) == [] + [reply];
    SamplesSnoc([], reply);
    assert Samples([]) == [];
  }

  // ----- exactly when such a read is fresh -----

  /** Every write to the key has arrived at the follower. */
  ghost predicate HasAll(s: State, p: nat, key: string)
    requires p < |s.arrived|
  {
    forall w :: 0 <= w < |s.log| && s.log[w].key == key ==> s.log[w] in s.arrived[p]
  }

  lemma {:induction false} DistinctCount(numbers: seq<int>, n: nat)
    requires forall i, j :: 0 <= i < j < |numbers| ==> numbers[i] != numbers[j]
    requires forall i :: 0 <= i < |numbers| ==> 1 <= numbers[i] <= n
    requires forall v :: 1 <= v <= n ==> v in numbers
    ensures |numbers| == n
  {
    if n > 0 {
      assert n in numbers;
      var k :| 0 <= k < |numbers| && numbers[k] == n;
      var others := numbers[..k] + numbers[k + 1..];
      forall v | 1 <= v <= n - 1 ensures v in others {
        assert v in numbers;
        var i :| 0 <= i < |numbers| && numbers[i] == v;
        assert i < k ==> others[i] == v;
        assert i > k ==> others[i - 1] == v;
      }
      DistinctCount(others, n - 1);
    }
  }

  lemma {:induction false} ListedOnce(arrived: seq<Msg>, key: string)
    requires NoVersionTwice(arrived)
    ensures forall i, j :: 0 <= i < j < |VersionsFor(arrived, key)| ==> VersionsFor(arrived, key)[i] != VersionsFor(arrived, key)[j]
  {
    if arrived != [] {
      var front, last := arrived[..|arrived| - 1], arrived[|arrived| - 1];
      ListedOnce(front, key);
      VersionIsListed(front, key, last.version);
      hide VersionsFor;
      assert VersionsFor(arrived, key) == VersionsFor(front, key) + if last.key == key then [last.version] else [] by {
        VersionsForSnoc(front, last, key);
        assert arrived == front + [last];
      }
    }
  }

  lemma VersionsForSnoc(front: seq<Msg>, last: Msg, key: string)
    ensures VersionsFor(front + [last], key) == VersionsFor(front, key) + if last.key == key then [last.version] else []
  {
    assert (front + [last])[..|front|] == front;
  }

  /** The write with the given rank. */
  lemma {:induction false} WriteOfRank(log: seq<Msg>, key: string, v: nat) returns (w: nat)
    requires Ranked(log) && 1 <= v <= |Values(log, key)|
    ensures w < |log| && log[w].key == key && log[w].version == v
  {
    var k := |log| - 1;
    if log[k].key == key && v == |Values(log, key)| {
      w := k;
    } else {
      assert forall i :: 0 <= i < k ==> log[..k][..i] == log[..i];
      w := WriteOfRank(log[..k], key, v);
    }
  }

  lemma ArrivedInRange(c: Config, s: State, p: nat, key: string, v: int)
    requires Inv(c, s) && p < c.peers && v in VersionsFor(s.arrived[p], key)
    ensures 1 <= v <= |Values(s.log, key)|
  {
    VersionIsListed(s.arrived[p], key, v);
    var i :| 0 <= i < |s.arrived[p]| && s.arrived[p][i].key == key && s.arrived[p][i].version == v;
    var w :| 0 <= w < |s.log| && s.log[w] == s.arrived[p][i] && Over(s, w, p);
    RankedInHistory(s.log, w);
  }

  lemma AllArrivedOnce(c: Config, s: State, p: nat, key: string)
    requires Inv(c, s) && p < c.peers && HasAll(s, p, key)
    ensures EachVersionOnce(VersionsFor(s.arrived[p], key)) && |VersionsFor(s.arrived[p], key)| == |Values(s.log, key)|
  {
    var versions, n := VersionsFor(s.arrived[p], key), |Values(s.log, key)|;
    ListedOnce(s.arrived[p], key);
    forall i | 0 <= i < |versions| ensures 1 <= versions[i] <= n {
      ArrivedInRange(c, s, p, key, versions[i]);
    }
    forall v | 1 <= v <= n ensures v in versions {
      var w := WriteOfRank(s.log, key, v);
      VersionIsListed(s.arrived[p], key, v);
    }
    hide VersionsFor, Values;
    DistinctCount(versions, n);
  }

  /** A follower that has all writes to a key agrees with the leader on it if they came in
      order, and is ahead of the leader otherwise. */
  lemma FullFollower(c: Config, s: State, p: nat, key: string)
    requires Inv(c, s) && p < c.peers && HasAll(s, p, key)
    ensures if InVersionOrder(VersionsFor(s.arrived[p], key)) then Lookup(s.followers[p], key) == Lookup(s.leader, key)
            else VersionOf(s.followers[p], key) > VersionOf(s.leader, key)
  {
    var versions := VersionsFor(s.arrived[p], key);
    AllArrivedOnce(c, s, p, key);
    LeaderEntryInHistory(s, key);
    ReplayVersion(s.arrived[p], key);
    if versions != [] {
      FollowerFinalVersion(versions);
    }
    if InVersionOrder(versions) {
      VersionsIncreaseIffInOrder(s.arrived[p], key);
      FollowersInHistory(c, s, p, key);
      assert Lookup(s.leader, key) == Register(s.log, key);
    }
  }

  lemma {:induction false} SampleOfReply(replies: seq<Option<Entry>>, entry: Entry)
    ensures entry in Samples(replies) <==> Some(entry) in replies
  {
    if replies != [] {
      SampleOfReply(replies[..|replies| - 1], entry);
      assert replies == replies[..|replies| - 1] + [replies[|replies| - 1]];
    }
  }

  /** The uninterrupted read after the run returns the entry. */
  ghost predicate WholeReadReturns(c: Config, events: seq<Event>, key: string, sorted: seq<Entry>, entry: Option<Entry>) {
    var r := |Run(c, events).clients|;
    var t := Run(c, events + WholeRead(c, r, key, sorted));
    r < |t.clients| && t.clients[r].answer.Some? && t.clients[r].answer.value.entry == entry
  }

  /** A reply does not change what a read returns if it is older than what the leader holds,
      or the same. */
  predicate NoNewer(held: Option<Entry>, reply: Option<Entry>) {
    reply.None? || (held.Some? && (reply.value.version < held.value.version || reply == held))
  }

  /** With such replies only, what the leader holds comes first in every sort. */
  lemma TameAnswer(replies: seq<Option<Entry>>, sorted: seq<Entry>)
    requires replies != [] && (forall i :: 0 < i < |replies| ==> NoNewer(replies[0], replies[i]))
    requires IsSortOf(sorted, Samples(replies))
    ensures First(sorted) == replies[0]
  {
    NewestFirst(Samples(replies), sorted);
    if replies[0].Some? {
      SampleOfReply(replies, replies[0].value);
    }
    if sorted != [] {
      SampleOfReply(replies, sorted[0]);
      var i :| 0 <= i < |replies| && replies[i] == Some(sorted[0]);
    }
    hide Samples, IsSortOf;
  }

  /** With another reply some sort puts another entry first. */
  lemma WildAnswer(replies: seq<Option<Entry>>, i: nat) returns (sorted: seq<Entry>)
    requires 0 < i < |replies| && !NoNewer(replies[0], replies[i])
    ensures IsSortOf(sorted, Samples(replies)) && First(sorted) != replies[0]
  {
    var samples, entry := Samples(replies), replies[i].value;
    SampleOfReply(replies, entry);
    sorted := SortExists(samples);
    if First(sorted) == replies[0] {
      NewestFirst(samples, sorted);
      sorted := SortedWithFirst(samples, entry);
    }
  }

  /** Messages of a key that leave their receiver behind a leader with these values, or at the
      leader's version with its value. */
  predicate NotAhead(values: seq<string>, messages: seq<Msg>, version: nat) {
    || version < |values|
    || (version == |values| && (values != [] && messages != [] ==> messages[|messages| - 1].value == values[|values| - 1]))
  }

  /** What the follower has received of the key that it hears is not ahead of the leader. */
  ghost predicate Tame(s: State, p: nat, key: string)
    requires p < |s.arrived|
  {
    Heard(key).Some? ==>
      NotAhead(Values(s.log, key), MessagesFor(s.arrived[p], Heard(key).value),
               VersionAfter(0, VersionsFor(s.arrived[p], Heard(key).value)))
  }

  lemma ReplyOfFollower(c: Config, s: State, p: nat, key: string)
    requires Inv(c, s) && p < c.peers
    ensures Reply(s.followers[p], key) ==
            if Heard(key).None? then None
            else Held(MessagesFor(s.arrived[p], Heard(key).value), VersionAfter(0, VersionsFor(s.arrived[p], Heard(key).value)))
  {
    if Heard(key).Some? {
      ReplayHolds(s.arrived[p], Heard(key).value);
    }
  }

  lemma TameHeld(values: seq<string>, messages: seq<Msg>, version: nat)
    requires messages == [] <==> version == 0
    ensures NotAhead(values, messages, version)
            <==> NoNewer(if values == [] then None else Some(Entry(values[|values| - 1], |values|)), Held(messages, version))
  {
  }

  lemma MessagesGiveVersion(arrived: seq<Msg>, key: string)
    ensures MessagesFor(arrived, key) == [] <==> VersionAfter(0, VersionsFor(arrived, key)) == 0
  {
    VersionsOfMessages(arrived, key);
    ClosedForm(0, VersionsFor(arrived, key));
    hide MessagesFor, VersionsFor;
  }

  lemma TameReply(c: Config, s: State, p: nat, key: string)
    requires Inv(c, s) && p < c.peers
    ensures Tame(s, p, key) <==> NoNewer(Lookup(s.leader, key), Reply(s.followers[p], key))
  {
    ReplyOfFollower(c, s, p, key);
    assert Lookup(s.leader, key) == Register(s.log, key);
    hide Inv, Lookup, Reply;
    if Heard(key).Some? {
      var arrived, h := s.arrived[p], Heard(key).value;
      MessagesGiveVersion(arrived, h);
      hide Heard, MessagesFor, VersionsFor, VersionAfter, Values, Held, NoNewer, NotAhead;
      TameHeld(Values(s.log, key), MessagesFor(arrived, h), VersionAfter(0, VersionsFor(arrived, h)));
    }
  }

  /** Consistency of reads, exactly. For every run, with any losses and any order of arrival,
      and for every key: each uninterrupted read of the key, however it sorts, returns what
      the leader holds if and only if each asked follower is tame. */
  lemma ReadsAreFreshIff(c: Config, events: seq<Event>, key: string)
    requires key != "" && ReadsFrom(c) <= c.peers == |Run(c, events).arrived|
    ensures |Run(c, events).followers| == c.peers
    ensures (forall sorted :: IsSortOf(sorted, Samples(Replies(c, Run(c, events), key))) ==>
                                WholeReadReturns(c, events, key, sorted, Lookup(Run(c, events).leader, key)))
            <==> forall p :: 0 <= p < ReadsFrom(c) ==> Tame(Run(c, events), p, key)
  {
    InvHolds(c, events);
    assert Shape(c, Run(c, events));
    hide Run, Inv, Tame, Samples, IsSortOf, WholeReadReturns;
    if forall p :: 0 <= p < ReadsFrom(c) ==> Tame(Run(c, events), p, key) {
      forall sorted | IsSortOf(sorted, Samples(Replies(c, Run(c, events), key)))
        ensures WholeReadReturns(c, events, key, sorted, Lookup(Run(c, events).leader, key))
      {
        TameReadIsFresh(c, events, key, sorted);
      }
    }
    if p :| 0 <= p < ReadsFrom(c) && !Tame(Run(c, events), p, key) {
      var sorted := WildReadIsNot(c, events, key, p);
    }
  }

  lemma TameReadIsFresh(c: Config, events: seq<Event>, key: string, sorted: seq<Entry>)
    requires key != "" && ReadsFrom(c) <= c.peers && Inv(c, Run(c, events))
    requires |Run(c, events).followers| == |Run(c, events).arrived| == c.peers
    requires forall p :: 0 <= p < ReadsFrom(c) ==> Tame(Run(c, events), p, key)
    requires IsSortOf(sorted, Samples(Replies(c, Run(c, events), key)))
    ensures WholeReadReturns(c, events, key, sorted, Lookup(Run(c, events).leader, key))
  {
    hide *;
    TameReplies(c, Run(c, events), key);
    TameAnswer(Replies(c, Run(c, events), key), sorted);
    ReturnsFirst(c, events, key, sorted, Lookup(Run(c, events).leader, key));
  }

  lemma RepliesAre(c: Config, s: State, key: string)
    requires ReadsFrom(c) <= |s.followers|
    ensures |Replies(c, s, key)| == ReadsFrom(c) + 1 && Replies(c, s, key)[0] == Lookup(s.leader, key)
    ensures forall i :: 0 < i <= ReadsFrom(c) ==> Replies(c, s, key)[i] == Reply(s.followers[i - 1], key)
  {
    hide ReadsFrom, Reply, Lookup;
  }

  lemma TameReplies(c: Config, s: State, key: string)
    requires ReadsFrom(c) <= c.peers && Inv(c, s) && |s.followers| == |s.arrived| == c.peers
    requires forall p :: 0 <= p < ReadsFrom(c) ==> Tame(s, p, key)
    ensures var replies := Replies(c, s, key);
            && replies != [] && replies[0] == Lookup(s.leader, key)
            && forall i :: 0 < i < |replies| ==> NoNewer(replies[0], replies[i])
  {
    hide *;
    RepliesAre(c, s, key);
    var replies := Replies(c, s, key);
    forall i | 0 < i < |replies| ensures NoNewer(replies[0], replies[i]) {
      assert Tame(s, i - 1, key) && replies[i] == Reply(s.followers[i - 1], key);
      TameReply(c, s, i - 1, key);
    }
  }

  /** A read returns the first of the sorted replies and nothing else. */
  lemma ReturnsFirst(c: Config, events: seq<Event>, key: string, sorted: seq<Entry>, entry: Option<Entry>)
    requires key != "" && ReadsFrom(c) <= c.peers == |Run(c, events).followers|
    requires IsSortOf(sorted, Samples(Replies(c, Run(c, events), key)))
    ensures WholeReadReturns(c, events, key, sorted, entry) <==> entry == First(sorted)
  {
    hide Run, IsSortOf, Samples, Replies, WholeRead, First;
    WholeReadAnswers(c, events, key, sorted);
  }

  lemma WildReadIsNot(c: Config, events: seq<Event>, key: string, p: nat) returns (sorted: seq<Entry>)
    requires key != "" && p < ReadsFrom(c) <= c.peers && Inv(c, Run(c, events))
    requires |Run(c, events).followers| == |Run(c, events).arrived| == c.peers
    requires !Tame(Run(c, events), p, key)
    ensures IsSortOf(sorted, Samples(Replies(c, Run(c, events), key)))
    ensures !WholeReadReturns(c, events, key, sorted, Lookup(Run(c, events).leader, key))
  {
    hide *;
    WildReply(c, Run(c, events), p, key);
    sorted := WildAnswer(Replies(c, Run(c, events), key), p + 1);
    ReturnsFirst(c, events, key, sorted, Lookup(Run(c, events).leader, key));
  }

  lemma WildReply(c: Config, s: State, p: nat, key: string)
    requires p < ReadsFrom(c) <= c.peers && Inv(c, s) && |s.followers| == |s.arrived| == c.peers && !Tame(s, p, key)
    ensures var replies := Replies(c, s, key);
            p + 1 < |replies| && replies[0] == Lookup(s.leader, key) && !NoNewer(replies[0], replies[p + 1])
  {
    hide Inv, Tame, NoNewer;
    TameReply(c, s, p, key);
    assert Replies(c, s, key)[p + 1] == Reply(s.followers[p], key);
  }

  lemma TameIffInOrder(c: Config, s: State, p: nat, key: string)
    requires Inv(c, s) && p < c.peers && HasAll(s, p, key) && IsPlain(key)
    ensures Tame(s, p, key) <==> InVersionOrder(VersionsFor(s.arrived[p], key))
  {
    FullFollower(c, s, p, key);
    TameReply(c, s, p, key);
    HeardAsItIsIffPlain(key);
    hide *;
    assert Reply(s.followers[p], key) == Lookup(s.followers[p], key) by {
      PlainReply(s.followers[p], key);
    }
    SameOrAhead(s.leader, s.followers[p], key);
  }

  lemma PlainReply(data: Data, key: string)
    requires IsPlain(key)
    ensures Reply(data, key) == Lookup(data, key)
  {
    HeardAsItIsIffPlain(key);
    hide Heard;
  }

  lemma SameOrAhead(leader: Data, follower: Data, key: string)
    ensures Lookup(follower, key) == Lookup(leader, key) ==> NoNewer(Lookup(leader, key), Lookup(follower, key))
    ensures VersionOf(follower, key) > VersionOf(leader, key) ==> !NoNewer(Lookup(leader, key), Lookup(follower, key))
  {
  }

  /** Quorum consistency. When the asked followers have received all writes to a plain key,
      every uninterrupted read of it, however it sorts, returns what the leader holds if and
      only if each asked follower received the writes in version order. */
  lemma ReadsAreFreshIffInOrder(c: Config, events: seq<Event>, key: string)
    requires key != "" && IsPlain(key) && ReadsFrom(c) <= c.peers == |Run(c, events).arrived|
    requires forall p :: 0 <= p < ReadsFrom(c) ==> HasAll(Run(c, events), p, key)
    ensures |Run(c, events).followers| == c.peers
    ensures (forall sorted :: IsSortOf(sorted, Samples(Replies(c, Run(c, events), key))) ==>
                                WholeReadReturns(c, events, key, sorted, Lookup(Run(c, events).leader, key)))
            <==> forall p :: 0 <= p < ReadsFrom(c) ==> InVersionOrder(VersionsFor(Run(c, events).arrived[p], key))
  {
    hide *;
    ReadsAreFreshIff(c, events, key);
    InvHolds(c, events);
    forall p: nat | p < ReadsFrom(c)
      ensures Tame(Run(c, events), p, key) <==> InVersionOrder(VersionsFor(Run(c, events).arrived[p], key))
    {
      TameIffInOrder(c, Run(c, events), p, key);
    }
  }
}
