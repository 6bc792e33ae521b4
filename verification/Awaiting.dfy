/** What clients of hw10's leader can do for linearizable reads: await acknowledgements, and
    use keys that followers hear as they are. */
module Awaiting {
  import opened Common
  import opened VersionedStore
  import opened PeerQuery
  import opened LeaderFollower
  import opened Linearizability
  import opened ReorderedRead
  import opened LeaderHandlers
  import opened Freshness

  // ----- clients that await each acknowledgement -----

  ghost predicate AllAcked(s: State, key: string) {
    forall w :: 0 <= w < |s.log| && w < |s.sends| && s.log[w].key == key ==> s.sends[w].acked
  }

  /** Each write to the key is issued after all earlier ones to it were acknowledged. */
  ghost predicate AwaitsAcks(c: Config, events: seq<Event>, key: string) {
    forall t :: 0 <= t < |events| && events[t].BeginWrite? && events[t].key == key ==> AllAcked(At(c, events, t), key)
  }

  /** The leader gives up on sending a write to the key to a follower it waits for, although
      the message may still be applied there. */
  predicate GivesUp(c: Config, s: State, e: Event, key: string) {
    e.GiveUp? && e.write < |s.log| && s.log[e.write].key == key && e.peer < WaitsFor(c)
  }

  ghost predicate NeverGivesUp(c: Config, events: seq<Event>, key: string) {
    forall t :: 0 <= t < |events| ==> !GivesUp(c, At(c, events, t), events[t], key)
  }

  /** No message of the key is still on its way to a follower that its send has given up on. */
  ghost predicate NoneLate(c: Config, s: State, key: string) {
    && |s.sends| == |s.log|
    && (forall w: nat, p: nat :: (w, p) in s.late ==> w < |s.log| && (s.log[w].key == key ==> p >= WaitsFor(c)))
  }

  lemma NoneLateStep(c: Config, s: State, e: Event, key: string)
    requires NoneLate(c, s, key) && !GivesUp(c, s, e, key)
    ensures NoneLate(c, Next(c, s, e), key)
  {
    hide SetEntry, VersionOf, IsSortOf, CanVisit, WithSample, Reply;
  }

  ghost predicate AckedReached(c: Config, s: State) {
    && |s.sends| == |s.log|
    && (forall w, p: nat :: 0 <= w < |s.sends| && s.sends[w].acked && p < WaitsFor(c) ==> p in s.sends[w].finished)
  }

  /** All but the last write to the key are acknowledged. */
  ghost predicate OnlyLastOpen(s: State, key: string) {
    forall w, v :: 0 <= w < v < |s.log| && v < |s.sends| && s.log[w].key == key == s.log[v].key ==> s.sends[w].acked
  }

  /** The followers that a write waits for have the key's messages in order. */
  ghost predicate AwaitedInOrder(c: Config, s: State, key: string) {
    forall p :: 0 <= p < |s.arrived| && p < WaitsFor(c) ==> InOrderFor(s.arrived[p], key)
  }

  lemma AckedReachedStep(c: Config, s: State, e: Event)
    requires AckedReached(c, s)
    ensures AckedReached(c, Next(c, s, e))
  {
    var t := Next(c, s, e);
    assert |t.sends| == |t.log| by {
      hide AckedReached, SetEntry, VersionOf;
    }
    hide Next;
    forall w: nat, p: nat | w < |t.sends| && t.sends[w].acked && p < WaitsFor(c) ensures p in t.sends[w].finished {
      AckedStep(c, s, e, w, p);
    }
  }

  lemma OnlyLastOpenStep(c: Config, s: State, e: Event, key: string)
    requires AckedReached(c, s) && OnlyLastOpen(s, key)
    requires e.BeginWrite? && e.key == key ==> AllAcked(s, key)
    ensures OnlyLastOpen(Next(c, s, e), key)
  {
    hide SetEntry, VersionOf, IsSortOf, CanVisit, WithSample;
  }

  lemma SentBefore(c: Config, s: State, p: nat, i: nat) returns (v: nat)
    requires Inv(c, s) && p < c.peers && i < |s.arrived[p]|
    ensures v < |s.log| == |s.sends| && s.log[v] == s.arrived[p][i] && Over(s, v, p)
  {
    v :| 0 <= v < |s.log| && s.log[v] == s.arrived[p][i] && Over(s, v, p);
  }

  /** A message that arrives at a follower its write waits for is of the key's last write. */
  lemma ArrivesLast(c: Config, s: State, w: nat, p: nat, key: string)
    requires Inv(c, s) && AckedReached(c, s) && OnlyLastOpen(s, key) && NoneLate(c, s, key) && Enabled(c, s, Deliver(w, p))
    requires p < WaitsFor(c) && InOrderFor(s.arrived[p], key)
    ensures InOrderFor(s.arrived[p] + [s.log[w]], key)
  {
    var m := s.log[w];
    assert Ranked(s.log) && Shape(c, s);
    hide Inv, Ranked, SetEntry;
    if m.key == key {
      forall i: nat | i < |s.arrived[p]| && s.arrived[p][i].key == key ensures s.arrived[p][i].version < m.version {
        var v := SentBefore(c, s, p, i);
        assert v < w;
        RankedDistinct(s.log, v, w);
      }
    }
    InOrderBack(s.arrived[p], m, key);
  }

  lemma AwaitedStep(c: Config, s: State, e: Event, key: string)
    requires Inv(c, s) && AckedReached(c, s) && OnlyLastOpen(s, key) && NoneLate(c, s, key) && AwaitedInOrder(c, s, key)
    ensures AwaitedInOrder(c, Next(c, s, e), key)
  {
    if e.Deliver? && Enabled(c, s, e) && e.peer < WaitsFor(c) {
      assert InOrderFor(s.arrived[e.peer], key);
      ArrivesLast(c, s, e.write, e.peer, key);
    }
    hide Inv, InOrderFor, SetEntry;
  }

  lemma {:induction false} AwaitedHolds(c: Config, events: seq<Event>, key: string)
    requires AwaitsAcks(c, events, key) && NeverGivesUp(c, events, key)
    ensures AckedReached(c, Run(c, events)) && OnlyLastOpen(Run(c, events), key)
    ensures NoneLate(c, Run(c, events), key) && AwaitedInOrder(c, Run(c, events), key)
  {
    if events != [] {
      var before, e := events[..|events| - 1], events[|events| - 1];
      var s := Run(c, before);
      assert forall t :: 0 <= t < |before| ==> before[..t] == events[..t] && before[t] == events[t];
      AwaitedHolds(c, before, key);
      assert At(c, events, |before|) == s;
      InvHolds(c, before);
      assert !GivesUp(c, s, e, key);
      hide Run, Next, Inv, AckedReached, OnlyLastOpen, AwaitedInOrder, NoneLate, GivesUp;
      NoneLateStep(c, s, e, key);
      AckedReachedStep(c, s, e);
      OnlyLastOpenStep(c, s, e, key);
      AwaitedStep(c, s, e, key);
    }
  }

  /** In w5r1 and quorum mode, if each write to a key is issued after the previous one to it
      was acknowledged and no send to a follower it waited for was given up on, every read of
      the key is linearizable, unless it is misheard: although messages may be lost, and other
      followers and other keys may see anything. */
  lemma {:induction false} AwaitedWritesReadLinearizably(c: Config, events: seq<Event>, r: nat)
    requires !c.mode.W1R5?
    requires r < |Run(c, events).clients| && Run(c, events).clients[r].answer.Some?
    requires AwaitsAcks(c, events, Run(c, events).clients[r].key) && NeverGivesUp(c, events, Run(c, events).clients[r].key)
    requires ReadsFrom(c) > 0 ==> NotMisheard(Run(c, events).clients[r].key)
    ensures ReadsLeaderWithin(c, events, Run(c, events).clients[r])
  {
    var key := Run(c, events).clients[r].key;
    AwaitedHolds(c, events, key);
    assert Orderly(c, Run(c, events), key) by {
      hide Run, NotMisheard;
      assert ReadsFrom(c) <= WaitsFor(c);
      assert forall p :: 0 <= p < |Run(c, events).arrived| && p < ReadsFrom(c) ==> InOrderFor(Run(c, events).arrived[p], key);
    }
    ReadsAreLinearizable(c, events, r);
  }

  predicate Answered(s: State, r: nat) {
    r < |s.clients| && s.clients[r].answer.Some?
  }

  // ----- exactly when awaiting suffices -----

  /** The read is linearizable if its key's writes were awaited and the key is not misheard. */
  ghost predicate AwaitedIsLinearizable(c: Config, events: seq<Event>, r: nat)
    requires Answered(Run(c, events), r)
  {
    var read := Run(c, events).clients[r];
    AwaitsAcks(c, events, read.key) && NotMisheard(read.key) ==> ReadsLeaderWithin(c, events, read)
  }

  /** The same, with no send given up on. */
  ghost predicate PromptlyAwaitedIsLinearizable(c: Config, events: seq<Event>, r: nat)
    requires Answered(Run(c, events), r)
  {
    NeverGivesUp(c, events, Run(c, events).clients[r].key) ==> AwaitedIsLinearizable(c, events, r)
  }

  /** With no send given up on, awaiting the acknowledgement of each write makes all reads
      linearizable exactly in the configurations other than w1r5 with followers, where a
      write is acknowledged before any follower has it. */
  lemma AwaitingSufficesIff(c: Config)
    ensures (forall events: seq<Event>, r: nat {:trigger PromptlyAwaitedIsLinearizable(c, events, r)} ::
               Answered(Run(c, events), r) ==> PromptlyAwaitedIsLinearizable(c, events, r))
            <==> !(c.mode.W1R5? && c.peers > 0)
  {
    if c.mode.W1R5? && c.peers > 0 {
      var events := AwaitedStaleRun(c);
      assert !PromptlyAwaitedIsLinearizable(c, events, 0);
    } else {
      forall events: seq<Event>, r: nat | Answered(Run(c, events), r) ensures PromptlyAwaitedIsLinearizable(c, events, r) {
        var key := Run(c, events).clients[r].key;
        if NeverGivesUp(c, events, key) && AwaitsAcks(c, events, key) && NotMisheard(key) {
          AwaitedReadIsLinearizable(c, events, r);
        }
      }
    }
  }

  lemma AwaitedReadIsLinearizable(c: Config, events: seq<Event>, r: nat)
    requires !(c.mode.W1R5? && c.peers > 0) && Answered(Run(c, events), r)
    requires var key := Run(c, events).clients[r].key;
             AwaitsAcks(c, events, key) && NeverGivesUp(c, events, key) && NotMisheard(key)
    ensures ReadsLeaderWithin(c, events, Run(c, events).clients[r])
  {
    if c.mode.W1R5? {
      HasShape(c, events);
      assert Orderly(c, Run(c, events), Run(c, events).clients[r].key);
      ReadsAreLinearizable(c, events, r);
    } else {
      AwaitedWritesReadLinearizably(c, events, r);
    }
  }

  /** If a message may be applied after its send was given up on, awaiting suffices exactly
      where reads ask no follower, or more than there are and so are never answered. */
  lemma AwaitingAloneSufficesIff(c: Config)
    ensures (forall events: seq<Event>, r: nat {:trigger AwaitedIsLinearizable(c, events, r)} ::
               Answered(Run(c, events), r) ==> AwaitedIsLinearizable(c, events, r))
            <==> ReadsFrom(c) == 0 || ReadsFrom(c) > c.peers
  {
    if 0 < ReadsFrom(c) <= c.peers {
      var events;
      if c.mode.W1R5? {
        events := AwaitedStaleRun(c);
      } else {
        events := LateStaleRun(c);
      }
      PlainIsHeard("x");
      assert !AwaitedIsLinearizable(c, events, 0);
    } else {
      forall events: seq<Event>, r: nat | Answered(Run(c, events), r) ensures AwaitedIsLinearizable(c, events, r) {
        if ReadsFrom(c) == 0 {
          assert Orderly(c, Run(c, events), Run(c, events).clients[r].key);
          ReadsAreLinearizable(c, events, r);
        } else {
          TooFewFollowersBlock(c, events);
        }
      }
    }
  }

  /** The network with follower 0 as given and nothing at the others. */
  ghost function StaleState(c: Config, time: nat, log: seq<Msg>, sends: seq<Send>, late: set<(nat, nat)>, leader: Entry, held: Data, arrived: seq<Msg>): State
    requires c.peers > 0
  {
    State(time, map["x" := leader], log, sends, late, Init(c).followers[0 := held], Init(c).arrived[0 := arrived], [])
  }

  /** The first write of both runs. */
  lemma OldWrite(c: Config)
    requires c.peers > 0
    ensures Run(c, [BeginWrite("x", "old")]) == StaleState(c, 1, [OLD], [Send({}, false)], {}, Entry("old", 1), map[], [])
    ensures Run(c, []).log == []
  {
    assert Init(c).followers[0 := map[]] == Init(c).followers && Init(c).arrived[0 := []] == Init(c).arrived;
    Then(c, [], Init(c), BeginWrite("x", "old"), StaleState(c, 1, [OLD], [Send({}, false)], {}, Entry("old", 1), map[], []));
    assert [] + [BeginWrite("x", "old")] == [BeginWrite("x", "old")];
  }

  /** The second write, once the first one is acknowledged. */
  lemma NewWrite(c: Config, before: seq<Event>, time: nat, send: Send, late: set<(nat, nat)>)
    requires c.peers > 0
    requires Run(c, before) == StaleState(c, time, [OLD], [send], late, Entry("old", 1), map[], [])
    ensures Run(c, before + [BeginWrite("x", "new")])
         == StaleState(c, time + 1, [OLD, NEW], [send, Send({}, false)], late, Entry("new", 2), map[], [])
  {
    hide Run, Init;
    Then(c, before, Run(c, before), BeginWrite("x", "new"),
         StaleState(c, time + 1, [OLD, NEW], [send, Send({}, false)], late, Entry("new", 2), map[], []));
  }

  /** The new message arrives at follower 0, and then the old one. */
  lemma ArriveReversed(c: Config, before: seq<Event>, s: State) returns (events: seq<Event>)
    requires c.peers > 0 && |s.sends| == 2 && s == Run(c, before)
    requires s == StaleState(c, s.time, [OLD, NEW], s.sends, s.late, Entry("new", 2), map[], [])
    requires 0 !in s.sends[1].finished && (0 !in s.sends[0].finished || (0, 0) in s.late)
    ensures events == before + [Deliver(1, 0)] + [Deliver(0, 0)]
    ensures IsStale(c, Run(c, events))
  {
    var s5 := StaleState(c, s.time + 1, [OLD, NEW], s.sends[1 := s.sends[1].(finished := s.sends[1].finished + {0})], s.late - {(1, 0)},
                         Entry("new", 2), map["x" := Entry("new", 2)], [NEW]);
    var s6 := StaleState(c, s.time + 2, [OLD, NEW], s5.sends[0 := s5.sends[0].(finished := s5.sends[0].finished + {0})], s5.late - {(0, 0)},
                         Entry("new", 2), map["x" := Entry("old", 3)], [NEW, OLD]);
    assert s.followers[0 := s5.followers[0]] == s5.followers && s5.followers[0 := s6.followers[0]] == s6.followers;
    assert [] + [NEW] == [NEW] && [NEW] + [OLD] == [NEW, OLD];
    assert s.arrived[0 := [NEW]] == s5.arrived && s5.arrived[0 := [NEW, OLD]] == s6.arrived;
    Then(c, before, s, Deliver(1, 0), s5);
    assert SetEntry(s5.followers[0], "x", "old", 1) == map["x" := Entry("old", 3)];
    assert s5.arrived[0] + [OLD] == [NEW, OLD];
    assert Enabled(c, s5, Deliver(0, 0));
    assert Do(c, s5, Deliver(0, 0)).(time := s.time + 2) == s6;
    Then(c, before + [Deliver(1, 0)], s5, Deliver(0, 0), s6);
    events := before + [Deliver(1, 0)] + [Deliver(0, 0)];
  }

  /** Follower 0 holds the old write under version 3. */
  ghost predicate IsStale(c: Config, s: State) {
    c.peers > 0 && s == StaleState(c, s.time, [OLD, NEW], s.sends, s.late, Entry("new", 2), map["x" := Entry("old", 3)], [NEW, OLD])
  }

  lemma StaleFacts(c: Config, s: State)
    requires IsStale(c, s)
    ensures s.clients == [] && s.log == [OLD, NEW] && |s.followers| == c.peers
  {
  }

  /** A read then returns the old value, under a version that the leader never had. */
  lemma StaleRead(c: Config, before: seq<Event>) returns (events: seq<Event>)
    requires 0 < ReadsFrom(c) <= c.peers && IsStale(c, Run(c, before))
    ensures |Run(c, events).clients| == 1 && Answered(Run(c, events), 0) && Run(c, events).clients[0].key == "x"
    ensures !ReadsLeaderWithin(c, events, Run(c, events).clients[0])
    ensures before <= events && forall t :: |before| <= t < |events| ==> !events[t].BeginWrite? && !events[t].GiveUp?
  {
    hide Run, IsStale, Samples, Replies, WholeRead, IsSortOf, Reply;
    var s, stale := Run(c, before), Entry("old", 3);
    StaleFacts(c, s);
    StaleReplies(c, s);
    var sorted := SortedWithFirst(Samples(Replies(c, s, "x")), stale);
    WholeReadAnswers(c, before, "x", sorted);
    WholeReadEvents(c, 0, "x", sorted);
    events := before + WholeRead(c, 0, "x", sorted);
    assert forall t :: |before| <= t < |events| ==> events[t] in WholeRead(c, 0, "x", sorted);
    NeverHeld(c, events, stale);
    AnswersStale(c, events, stale);
  }

  lemma AnswersStale(c: Config, events: seq<Event>, stale: Entry)
    requires Answered(Run(c, events), 0) && Run(c, events).clients[0].answer.value.entry == Some(stale)
    requires Run(c, events).clients[0].key == "x"
    requires forall t: nat :: t <= |events| ==> Lookup(At(c, events, t).leader, "x") != Some(stale)
    ensures !ReadsLeaderWithin(c, events, Run(c, events).clients[0])
  {
    hide Run;
  }

  lemma StaleReplies(c: Config, s: State)
    requires 0 < ReadsFrom(c) <= c.peers && IsStale(c, s)
    ensures |s.followers| == c.peers
    ensures var samples := Samples(Replies(c, s, "x"));
            Entry("old", 3) in samples && forall i :: 0 <= i < |samples| ==> 3 >= samples[i].version
  {
    PlainIsHeard("x");
    hide Heard;
    OneReply(c, s, "x", Entry("old", 3));
  }

  lemma NoReply(key: string)
    ensures Reply(map[], key) == None
  {
  }

  /** Only follower 0 answers, under a version that the leader is not above. */
  lemma OneReply(c: Config, s: State, key: string, entry: Entry)
    requires 0 < ReadsFrom(c) <= c.peers == |s.followers|
    requires Reply(s.followers[0], key) == Some(entry) && (forall p :: 0 < p < c.peers ==> s.followers[p] == map[])
    requires VersionOf(s.leader, key) <= entry.version
    ensures var samples := Samples(Replies(c, s, key));
            entry in samples && forall i :: 0 <= i < |samples| ==> entry.version >= samples[i].version
  {
    hide Heard;
    var replies := Replies(c, s, key);
    NoReply(key);
    hide Reply;
    assert replies[1] == Some(entry) && forall j :: 2 <= j < |replies| ==> replies[j] == None;
    assert replies[0] == Lookup(s.leader, key);
    SampleOfReply(replies, entry);
    hide Samples, Replies;
    forall i | 0 <= i < |Samples(replies)| ensures entry.version >= Samples(replies)[i].version {
      var sample := Samples(replies)[i];
      SampleOfReply(replies, sample);
      var j :| 0 <= j < |replies| && replies[j] == Some(sample);
    }
  }

  /** Two writes, the second one after the first is acknowledged. */
  lemma AwaitedTwo(c: Config, events: seq<Event>, first: seq<Event>)
    requires first <= events && first != [] && Run(c, []).log == [] && AllAcked(Run(c, first), "x")
    requires forall t :: 0 <= t < |events| && events[t].BeginWrite? ==> t == 0 || t == |first|
    ensures AwaitsAcks(c, events, "x")
  {
    hide Run;
    forall t | 0 <= t < |events| && events[t].BeginWrite? ensures AllAcked(At(c, events, t), "x") {
      assert events[..0] == [] && events[..|first|] == first;
    }
  }

  /** In w1r5 mode the first write is acknowledged at once. */
  lemma AckedAtOnce(c: Config) returns (events: seq<Event>)
    requires c.mode.W1R5? && c.peers > 0
    ensures events == [BeginWrite("x", "old")] + [AckWrite(0)] && Run(c, []).log == []
    ensures Run(c, events) == StaleState(c, 2, [OLD], [Send({}, true)], {}, Entry("old", 1), map[], [])
  {
    OldWrite(c);
    assert Below(0) == {};
    events := [BeginWrite("x", "old")] + [AckWrite(0)];
    Then(c, [BeginWrite("x", "old")], Run(c, [BeginWrite("x", "old")]), AckWrite(0),
         StaleState(c, 2, [OLD], [Send({}, true)], {}, Entry("old", 1), map[], []));
  }

  /** A w1r5 run in which every write is awaited and a later read returns the old value. */
  lemma AwaitedStaleRun(c: Config) returns (events: seq<Event>)
    requires c.mode.W1R5? && c.peers > 0
    ensures Answered(Run(c, events), 0) && Run(c, events).clients[0].key == "x"
    ensures AwaitsAcks(c, events, "x") && NeverGivesUp(c, events, "x") && NotMisheard("x")
    ensures !ReadsLeaderWithin(c, events, Run(c, events).clients[0])
  {
    PlainIsHeard("x");
    hide *;
    var first, before := AwaitedWrites(c);
    BeginsOf(first, before);
    events := StaleRead(c, before);
    OnlyTwoWrites(first, before, events);
    AwaitedTwo(c, events, first);
    NoGiveUps(c, events);
    IsHeard("x");
  }

  lemma OnlyTwoWrites(first: seq<Event>, before: seq<Event>, events: seq<Event>)
    requires first <= before <= events
    requires forall t :: 0 <= t < |before| ==> !before[t].GiveUp? && (before[t].BeginWrite? ==> t == 0 || t == |first|)
    requires forall t :: |before| <= t < |events| ==> !events[t].BeginWrite? && !events[t].GiveUp?
    ensures first <= events
    ensures forall t :: 0 <= t < |events| ==> !events[t].GiveUp? && (events[t].BeginWrite? ==> t == 0 || t == |first|)
  {
    assert forall t :: 0 <= t < |before| ==> events[t] == before[t];
  }

  lemma BeginsOf(first: seq<Event>, events: seq<Event>)
    requires first == [BeginWrite("x", "old")] + [AckWrite(0)]
    requires events == first + [BeginWrite("x", "new")] + [Deliver(1, 0)] + [Deliver(0, 0)]
    ensures first != [] && first <= events
    ensures forall t :: 0 <= t < |events| ==> !events[t].GiveUp? && (events[t].BeginWrite? ==> t == 0 || t == |first|)
  {
  }

  lemma AwaitedWrites(c: Config) returns (first: seq<Event>, events: seq<Event>)
    requires c.mode.W1R5? && c.peers > 0
    ensures first == [BeginWrite("x", "old")] + [AckWrite(0)] && Run(c, []).log == [] && AllAcked(Run(c, first), "x")
    ensures events == first + [BeginWrite("x", "new")] + [Deliver(1, 0)] + [Deliver(0, 0)] && IsStale(c, Run(c, events))
  {
    first := AckedAtOnce(c);
    NewWrite(c, first, 2, Send({}, true), {});
    assert AllAcked(Run(c, first), "x");
    var writes := first + [BeginWrite("x", "new")];
    hide Run, IsStale;
    events := ArriveReversed(c, writes, Run(c, writes));
  }

  lemma NoGiveUps(c: Config, events: seq<Event>)
    requires forall t :: 0 <= t < |events| ==> !events[t].GiveUp?
    ensures NeverGivesUp(c, events, "x")
  {
    hide Run;
  }

  lemma IsHeard(key: string)
    requires Heard(key) == Some(key)
    ensures NotMisheard(key)
  {
  }

  /** The first write's sends are given up on. */
  lemma GivenUpWrite(c: Config) returns (events: seq<Event>)
    requires c.mode.Quorum? && c.peers >= 2
    ensures events == [BeginWrite("x", "old")] + [GiveUp(0, 0)] + [GiveUp(0, 1)]
    ensures Run(c, events) == StaleState(c, 3, [OLD], [Send({0, 1}, false)], {(0, 0), (0, 1)}, Entry("old", 1), map[], [])
  {
    OldWrite(c);
    var e1: seq<Event> := [BeginWrite("x", "old")];
    var none: set<nat> := {};
    var early: set<(nat, nat)> := {};
    assert none + {0} == {0} && {0} + {1} == {0, 1} && early + {(0, 0)} == {(0, 0)} && {(0, 0)} + {(0, 1)} == {(0, 0), (0, 1)};
    var s2 := StaleState(c, 2, [OLD], [Send({0}, false)], {(0, 0)}, Entry("old", 1), map[], []);
    var s3 := StaleState(c, 3, [OLD], [Send({0, 1}, false)], {(0, 0), (0, 1)}, Entry("old", 1), map[], []);
    hide Run, Init;
    Then(c, e1, Run(c, e1), GiveUp(0, 0), s2);
    Then(c, e1 + [GiveUp(0, 0)], s2, GiveUp(0, 1), s3);
    events := e1 + [GiveUp(0, 0)] + [GiveUp(0, 1)];
  }

  lemma AckedWrite(c: Config) returns (events: seq<Event>)
    requires c.mode.Quorum? && c.peers >= 2
    ensures events == [BeginWrite("x", "old")] + [GiveUp(0, 0)] + [GiveUp(0, 1)] + [AckWrite(0)]
    ensures Run(c, events) == StaleState(c, 4, [OLD], [Send({0, 1}, true)], {(0, 0), (0, 1)}, Entry("old", 1), map[], [])
  {
    events := GivenUpWrite(c);
    assert forall p :: p in Below(2) ==> p in {0, 1};
    hide Run, Init, Below;
    Then(c, events, Run(c, events), AckWrite(0),
         StaleState(c, 4, [OLD], [Send({0, 1}, true)], {(0, 0), (0, 1)}, Entry("old", 1), map[], []));
    events := events + [AckWrite(0)];
  }

  /** A quorum run in which the old write is acknowledged after its sends failed, and is
      applied after the new one. */
  lemma LateStaleRun(c: Config) returns (events: seq<Event>)
    requires c.mode.Quorum? && c.peers >= 2
    ensures Answered(Run(c, events), 0) && Run(c, events).clients[0].key == "x" && AwaitsAcks(c, events, "x")
    ensures !ReadsLeaderWithin(c, events, Run(c, events).clients[0])
  {
    var first := AckedWrite(c);
    NewWrite(c, first, 4, Send({0, 1}, true), {(0, 0), (0, 1)});
    var writes := first + [BeginWrite("x", "new")];
    var before := ArriveReversed(c, writes, Run(c, writes));
    events := StaleRead(c, before);
    OldWrite(c);
    assert AllAcked(Run(c, first), "x");
    hide Run;
    AwaitedTwo(c, events, first);
  }

  // ----- exactly which keys can be read through followers -----

  /** Nothing goes wrong with the writes: all are awaited, no message is lost or late, and
      the asked followers have each key's messages in order. */
  ghost predicate Calm(c: Config, events: seq<Event>) {
    && NoLoss(events)
    && (forall key :: AwaitsAcks(c, events, key))
    && (forall p, key :: 0 <= p < |Run(c, events).arrived| && p < ReadsFrom(c) ==> InOrderFor(Run(c, events).arrived[p], key))
  }

  /** In a configuration whose reads ask followers, all calm runs read a key linearizably if
      and only if it is not misheard. */
  lemma KeyReadsLinearizableIff(c: Config, key: string)
    requires key != "" && 0 < ReadsFrom(c) <= c.peers
    ensures (forall events: seq<Event>, r: nat ::
               Answered(Run(c, events), r) && Run(c, events).clients[r].key == key && Calm(c, events) ==>
                 ReadsLeaderWithin(c, events, Run(c, events).clients[r]))
            <==> NotMisheard(key)
  {
    if NotMisheard(key) {
      forall events: seq<Event>, r: nat | Answered(Run(c, events), r) && Run(c, events).clients[r].key == key && Calm(c, events)
        ensures ReadsLeaderWithin(c, events, Run(c, events).clients[r])
      {
        ReadsAreLinearizable(c, events, r);
      }
    } else {
      var events := MisheardRun(c, key);
    }
  }

  /** A run in which a read of a key that was never written returns another key's value. */
  lemma MisheardRun(c: Config, key: string) returns (events: seq<Event>)
    requires key != "" && 0 < ReadsFrom(c) <= c.peers && !NotMisheard(key)
    ensures Answered(Run(c, events), 0) && Run(c, events).clients[0].key == key && Calm(c, events)
    ensures Run(c, events).clients[0].answer.value.entry == Some(Entry("v", 1)) && Values(Run(c, events).log, key) == []
    ensures !ReadsLeaderWithin(c, events, Run(c, events).clients[0])
  {
    var heard, entry := Heard(key).value, Entry("v", 1);
    var before := OtherWrite(c, heard);
    var s := Run(c, before);
    OtherWriteFacts(c, heard, key);
    hide *;
    MisheardReplies(c, s, key);
    NoWrites(s.log, key);
    var sorted := MisheardSort(c, s, key);
    WholeReadAnswers(c, before, key, sorted);
    events := before + WholeRead(c, 0, key, sorted);
    SameArrived(s, Run(c, events));
    CalmRead(c, before, key, sorted);
    NeverThere(c, events, key);
    MisheardAnswer(c, events, entry);
  }

  lemma MisheardSort(c: Config, s: State, key: string) returns (sorted: seq<Entry>)
    requires ReadsFrom(c) <= |s.followers|
    requires var samples := Samples(Replies(c, s, key));
             Entry("v", 1) in samples && forall i :: 0 <= i < |samples| ==> 1 >= samples[i].version
    ensures IsSortOf(sorted, Samples(Replies(c, s, key))) && First(sorted) == Some(Entry("v", 1))
  {
    sorted := SortedWithFirst(Samples(Replies(c, s, key)), Entry("v", 1));
  }

  lemma MisheardAnswer(c: Config, events: seq<Event>, entry: Entry)
    requires |Run(c, events).clients| == 1 && Run(c, events).clients[0].answer.Some?
    requires Run(c, events).clients[0].answer.value.entry == Some(entry)
    requires forall t: nat :: t <= |events| ==> Lookup(At(c, events, t).leader, Run(c, events).clients[0].key) == None
    ensures Answered(Run(c, events), 0) && !ReadsLeaderWithin(c, events, Run(c, events).clients[0])
  {
    hide Run;
  }

  /** One write to the key, delivered to follower 0. */
  lemma OtherWrite(c: Config, heard: string) returns (events: seq<Event>)
    requires heard != "" && c.peers > 0
    ensures events == [BeginWrite(heard, "v")] + [Deliver(0, 0)]
    ensures Run(c, []).log == []
    ensures var m := Msg(heard, "v", 1);
            Run(c, events) == State(2, map[heard := Entry("v", 1)], [m], [Send({0}, false)], {},
                                    Init(c).followers[0 := map[heard := Entry("v", 1)]], Init(c).arrived[0 := [m]], [])
  {
    var m, data: Data := Msg(heard, "v", 1), map[heard := Entry("v", 1)];
    var s1 := State(1, data, [m], [Send({}, false)], {}, Init(c).followers, Init(c).arrived, []);
    var s2 := State(2, data, [m], [Send({0}, false)], {}, Init(c).followers[0 := data], Init(c).arrived[0 := [m]], []);
    var none: set<nat> := {};
    assert none + {0} == {0} && [] + [m] == [m];
    Then(c, [], Init(c), BeginWrite(heard, "v"), s1);
    assert [] + [BeginWrite(heard, "v")] == [BeginWrite(heard, "v")];
    Then(c, [BeginWrite(heard, "v")], s1, Deliver(0, 0), s2);
    events := [BeginWrite(heard, "v")] + [Deliver(0, 0)];
  }

  lemma OtherWriteFacts(c: Config, heard: string, key: string)
    requires c.peers > 0 && heard != key
    ensures NotMisheard(key) || Heard(key).Some?
    ensures |Init(c).followers| == c.peers
    ensures var m, data: Data := Msg(heard, "v", 1), map[heard := Entry("v", 1)];
            var s := State(2, data, [m], [Send({0}, false)], {}, Init(c).followers[0 := data], Init(c).arrived[0 := [m]], []);
            AtMostOneArrived(s) && (forall w :: 0 <= w < |s.log| ==> s.log[w].key != key)
  {
    hide Heard;
  }

  lemma MisheardReplies(c: Config, s: State, key: string)
    requires 0 < ReadsFrom(c) <= c.peers == |s.followers| && !NotMisheard(key)
    requires s.leader == map[Heard(key).value := Entry("v", 1)]
    requires s.followers == Init(c).followers[0 := map[Heard(key).value := Entry("v", 1)]]
    ensures var samples := Samples(Replies(c, s, key));
            Entry("v", 1) in samples && forall i :: 0 <= i < |samples| ==> 1 >= samples[i].version
  {
    hide Heard;
    OneReply(c, s, key, Entry("v", 1));
  }

  lemma SameArrived(s: State, t: State)
    requires AtMostOneArrived(s) && t.arrived == s.arrived
    ensures AtMostOneArrived(t)
  {
  }

  predicate AtMostOneArrived(s: State) {
    forall p :: 0 <= p < |s.arrived| ==> |s.arrived[p]| <= 1
  }

  /** The read that follows does not disturb the calm. */
  lemma CalmRead(c: Config, before: seq<Event>, key: string, sorted: seq<Entry>)
    requires |before| == 2 && before[0].BeginWrite? && before[1].Deliver?
    requires Run(c, []).log == []
    requires AtMostOneArrived(Run(c, before + WholeRead(c, 0, key, sorted)))
    ensures Calm(c, before + WholeRead(c, 0, key, sorted))
  {
    var events := before + WholeRead(c, 0, key, sorted);
    WholeReadEvents(c, 0, key, sorted);
    assert forall t :: 2 <= t < |events| ==> events[t] in WholeRead(c, 0, key, sorted);
    assert NoLoss(events) by {
      assert forall e :: e in events ==> e == before[0] || e == before[1] || e in WholeRead(c, 0, key, sorted);
    }
    var s := Run(c, events);
    assert AtMostOneArrived(s);
    hide Run, WholeRead, NoLoss;
    forall k ensures AwaitsAcks(c, events, k) {
      forall t | 0 <= t < |events| && events[t].BeginWrite? && events[t].key == k ensures AllAcked(At(c, events, t), k) {
        assert t == 0;
        assert events[..0] == [];
      }
    }
    forall p, k | 0 <= p < |s.arrived| && p < ReadsFrom(c) ensures InOrderFor(s.arrived[p], k) {
      assert |s.arrived[p]| <= 1;
    }
  }

  lemma {:induction false} NoWrites(log: seq<Msg>, key: string)
    requires forall w :: 0 <= w < |log| ==> log[w].key != key
    ensures Values(log, key) == []
  {
    if log != [] {
      NoWrites(log[..|log| - 1], key);
    }
  }

  lemma NeverThere(c: Config, events: seq<Event>, key: string)
    requires Values(Run(c, events).log, key) == []
    ensures forall t: nat :: t <= |events| ==> Lookup(At(c, events, t).leader, key) == None
  {
    forall t: nat | t <= |events| ensures Lookup(At(c, events, t).leader, key) == None {
      HistoryGrows(c, events, t, |events|, key);
      InvHolds(c, events[..t]);
      assert events[..|events|] == events;
      hide Run;
      assert Lookup(At(c, events, t).leader, key) == Register(At(c, events, t).log, key);
    }
  }

  /** The quorum run of the key "x#1", of which the followers hear "x". */
  lemma MisheardExample() returns (events: seq<Event>)
    ensures Heard("x#1") == Some("x")
    ensures Answered(Run(FOUR, events), 0) && Run(FOUR, events).clients[0].key == "x#1" && Calm(FOUR, events)
    ensures Run(FOUR, events).clients[0].answer.value.entry == Some(Entry("v", 1))
    ensures Values(Run(FOUR, events).log, "x#1") == []
  {
    HeardExample();
    hide Heard;
    events := MisheardRun(FOUR, "x#1");
  }

  // ----- quorum mode needs two followers -----

  ghost predicate Blocked(c: Config, s: State) {
    && (forall w :: 0 <= w < |s.sends| ==> !s.sends[w].acked && s.sends[w].finished <= Below(c.peers))
    && (forall r :: 0 <= r < |s.clients| ==> s.clients[r].answer.None? && s.clients[r].visited <= Below(c.peers))
  }

  lemma BlockedSends(c: Config, s: State, e: Event, w: nat)
    requires c.mode.Quorum? && c.peers < 2 && Blocked(c, s) && |s.sends| == |s.log|
    requires w < |Next(c, s, e).sends|
    ensures var send := Next(c, s, e).sends[w]; !send.acked && send.finished <= Below(c.peers)
  {
    assert 1 in Below(2) && 1 !in Below(c.peers);
    hide SetEntry, VersionOf, IsSortOf, CanVisit, WithSample, Reply;
    assert e.AckWrite? ==> !Enabled(c, s, e) by {
      hide Below;
    }
    hide Below, SetEntry, VersionOf, IsSortOf, CanVisit, WithSample;
    assert (e.Deliver? || e.Lose?) && Enabled(c, s, e) ==> e.peer in Below(c.peers) by {
      InBelow(e, c);
    }
  }

  lemma InBelow(e: Event, c: Config)
    ensures (e.Deliver? || e.Lose?) && e.peer < c.peers ==> e.peer in Below(c.peers)
  {
  }

  lemma VisitedStep(c: Config, s: State, e: Event, r: nat)
    requires r < |Next(c, s, e).clients|
    ensures var visited := Next(c, s, e).clients[r].visited;
            || visited == {}
            || (&& r < |s.clients|
                && (visited == s.clients[r].visited
                    || ((e.ReadPeer? || e.MissPeer?) && e.peer < c.peers && visited == s.clients[r].visited + {e.peer})))
  {
    hide Below, SetEntry, VersionOf, IsSortOf, CanSend, ReadsFrom;
  }

  lemma BlockedReads(c: Config, s: State, e: Event, r: nat)
    requires c.mode.Quorum? && c.peers < 2 && Blocked(c, s)
    requires r < |Next(c, s, e).clients|
    ensures var read := Next(c, s, e).clients[r]; read.answer.None? && read.visited <= Below(c.peers)
  {
    NoReadEnds(c, s, e);
    ReadLife(c, s, e, r);
    VisitedStep(c, s, e, r);
    assert (e.ReadPeer? || e.MissPeer?) && e.peer < c.peers ==> e.peer in Below(c.peers);
    hide Next, Enabled, Below;
  }

  lemma NoReadEnds(c: Config, s: State, e: Event)
    requires c.mode.Quorum? && c.peers < 2 && Blocked(c, s)
    ensures e.EndRead? ==> !Enabled(c, s, e)
  {
    assert 1 in Below(2) && 1 !in Below(c.peers);
    hide Below, IsSortOf;
  }

  /** In quorum mode with fewer than two followers no write is acknowledged and no read is
      answered (the program fails on its list of followers). */
  lemma {:induction false} TooFewFollowersBlock(c: Config, events: seq<Event>)
    requires c.mode.Quorum? && c.peers < 2
    ensures Blocked(c, Run(c, events))
  {
    if events != [] {
      var s, e := Run(c, events[..|events| - 1]), events[|events| - 1];
      TooFewFollowersBlock(c, events[..|events| - 1]);
      HasShape(c, events[..|events| - 1]);
      assert Run(c, events) == Next(c, s, e);
      hide Run, Next;
      forall w: nat | w < |Next(c, s, e).sends|
        ensures !Next(c, s, e).sends[w].acked && Next(c, s, e).sends[w].finished <= Below(c.peers)
      {
        BlockedSends(c, s, e, w);
      }
      forall r: nat | r < |Next(c, s, e).clients|
        ensures Next(c, s, e).clients[r].answer.None? && Next(c, s, e).clients[r].visited <= Below(c.peers)
      {
        BlockedReads(c, s, e, r);
      }
    }
  }
}
