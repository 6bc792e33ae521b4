/** Reads through hw10's leader are linearizable if the followers they ask hear the key and
    its writes in order; and what holds of reads in any order of arrival. */
module Linearizability {
  import opened Common
  import opened PeerQuery
  import opened VersionedStore
  import opened LeaderFollower

  ghost predicate SamplesInHistory(s: State, key: string) {
    forall r, i :: 0 <= r < |s.clients| && s.clients[r].key == key && 0 <= i < |s.clients[r].samples| ==>
                     InHistory(s.log, key, s.clients[r].samples[i])
  }

  /** The premise of fresh reads of a key: the key is not misheard, and each follower that
      reads ask has received its messages in order. In w5r1 mode no follower is asked. */
  ghost predicate Orderly(c: Config, s: State, key: string) {
    && (ReadsFrom(c) > 0 ==> NotMisheard(key))
    && forall p :: 0 <= p < |s.arrived| && p < ReadsFrom(c) ==> InOrderFor(s.arrived[p], key)
  }

  lemma OrderlyBefore(c: Config, s: State, e: Event, key: string)
    requires Shape(c, s) && Orderly(c, Next(c, s, e), key)
    ensures Orderly(c, s, key)
  {
    hide NotMisheard, SetEntry;
    if e.Deliver? && Enabled(c, s, e) {
      var t := Next(c, s, e);
      forall p | 0 <= p < |s.arrived| && p < ReadsFrom(c) ensures InOrderFor(s.arrived[p], key) {
        assert s.arrived[p] <= t.arrived[p];
        assert InOrderFor(t.arrived[p], key);
      }
    }
  }

  /** A step leaves the samples of a read alone, empties them, or adds one entry: the
      leader's or an asked follower's. */
  lemma SamplesMove(c: Config, s: State, e: Event, r: nat)
    requires Shape(c, s) && r < |Next(c, s, e).clients|
    ensures var read := Next(c, s, e).clients[r];
            || read.samples == []
            || (&& r < |s.clients| && read.key == s.clients[r].key
                && (|| read.samples == s.clients[r].samples
                    || (e.ReadLocal? && read.key in s.leader
                        && read.samples == s.clients[r].samples + [s.leader[read.key]])
                    || (e.ReadPeer? && e.peer < c.peers && e.peer < ReadsFrom(c) && Reply(s.followers[e.peer], read.key).Some?
                        && read.samples == s.clients[r].samples + [Reply(s.followers[e.peer], read.key).value])))
  {
    hide SetEntry, VersionOf, Heard;
  }

  /** The samples of a read after a step: what was there, or one entry more. */
  lemma SamplesOfRead(c: Config, s: State, e: Event, r: nat)
    requires Inv(c, s) && r < |Next(c, s, e).clients|
    requires SamplesInHistory(s, Next(c, s, e).clients[r].key) && Orderly(c, s, Next(c, s, e).clients[r].key)
    ensures var read := Next(c, s, e).clients[r];
            forall i :: 0 <= i < |read.samples| ==> InHistory(s.log, read.key, read.samples[i])
  {
    var key := Next(c, s, e).clients[r].key;
    SamplesMove(c, s, e, r);
    hide Next, InHistory, LeaderInv, ReadInv, FollowerInv;
    if e.ReadLocal? {
      LeaderEntryInHistory(s, key);
    }
    if e.ReadPeer? && e.peer < c.peers && e.peer < ReadsFrom(c) {
      FollowersInHistory(c, s, e.peer, key);
      NamelessNotHeld(c, s, e.peer);
      hide Heard;
    }
  }

  lemma SamplesStep(c: Config, s: State, e: Event, key: string)
    requires Inv(c, s) && SamplesInHistory(s, key) && Orderly(c, s, key)
    ensures SamplesInHistory(Next(c, s, e), key)
  {
    var t := Next(c, s, e);
    forall r, i | 0 <= r < |t.clients| && t.clients[r].key == key && 0 <= i < |t.clients[r].samples|
      ensures InHistory(t.log, key, t.clients[r].samples[i])
    {
      LogGrows(c, s, e, key);
      SamplesOfRead(c, s, e, r);
    }
  }

  lemma {:induction false} SamplesHold(c: Config, events: seq<Event>, key: string)
    requires Orderly(c, Run(c, events), key)
    ensures SamplesInHistory(Run(c, events), key)
  {
    if events != [] {
      var s, e := Run(c, events[..|events| - 1]), events[|events| - 1];
      InvHolds(c, events[..|events| - 1]);
      OrderlyBefore(c, s, e, key);
      SamplesHold(c, events[..|events| - 1], key);
      SamplesStep(c, s, e, key);
    }
  }

  /** A count that moves by at most one per step takes every value in between. */
  lemma {:induction false} SomeIndexHas(counts: seq<nat>, first: nat, last: nat, value: nat) returns (t: nat)
    requires first <= last < |counts| && counts[first] <= value <= counts[last]
    requires forall i :: 0 < i < |counts| ==> counts[i] <= counts[i - 1] + 1
    ensures first <= t <= last && counts[t] == value
    decreases last
  {
    if counts[last] == value {
      t := last;
    } else {
      t := SomeIndexHas(counts, first, last - 1, value);
    }
  }

  /** How many writes the key had when `t` events had happened. */
  ghost function WritesAt(c: Config, events: seq<Event>, t: nat, key: string): nat
    requires t <= |events|
  {
    |Values(At(c, events, t).log, key)|
  }

  lemma SomeMomentHas(c: Config, events: seq<Event>, first: nat, last: nat, key: string, version: nat)
    returns (t: nat)
    requires first <= last <= |events|
    requires WritesAt(c, events, first, key) <= version <= WritesAt(c, events, last, key)
    ensures first <= t <= last && WritesAt(c, events, t, key) == version
  {
    var counts := seq(|events| + 1, t requires 0 <= t <= |events| => WritesAt(c, events, t, key));
    forall i | 0 < i < |counts| ensures counts[i] <= counts[i - 1] + 1 {
      OneStep(c, events, i - 1);
      LogGrows(c, At(c, events, i - 1), events[i - 1], key);
    }
    t := SomeIndexHas(counts, first, last, version);
  }

  /** The read's answer is what the leader held at some moment between its begin and end. */
  ghost predicate ReadsLeaderWithin(c: Config, events: seq<Event>, read: Read)
    requires read.answer.Some?
  {
    exists t: nat :: read.begin <= t <= read.answer.value.end <= |events|
      && Lookup(At(c, events, t).leader, read.key) == read.answer.value.entry
  }

  /** A step starts a read, leaves its key and begin alone, or answers it once. */
  lemma ReadLife(c: Config, s: State, e: Event, r: nat)
    requires r < |Next(c, s, e).clients|
    ensures var read := Next(c, s, e).clients[r];
            && (r >= |s.clients| ==>
                  read.begin == s.time && read.floor == VersionOf(s.leader, read.key) && read.answer.None?)
            && (r < |s.clients| ==>
                  && read.key == s.clients[r].key && read.begin == s.clients[r].begin
                  && read.floor == s.clients[r].floor
                  && (s.clients[r].answer.Some? ==> read == s.clients[r])
                  && (s.clients[r].answer.None? && read.answer.Some? ==>
                        && e.EndRead? && e.read == r && Enabled(c, s, e)
                        && read.answer.value == Answer(s.time, if e.sorted == [] then None else Some(e.sorted[0]))))
  {
  }

  /** `floor` is the leader's version when the read began. */
  lemma {:induction false} FloorAtBegin(c: Config, events: seq<Event>, r: nat)
    requires r < |Run(c, events).clients|
    ensures var read := Run(c, events).clients[r];
            && read.begin <= |events|
            && read.floor == VersionOf(At(c, events, read.begin).leader, read.key)
  {
    if events != [] {
      var before := events[..|events| - 1];
      var s := Run(c, before);
      TimeCountsEvents(c, before);
      ReadLife(c, s, events[|events| - 1], r);
      if r < |s.clients| {
        FloorAtBegin(c, before, r);
        assert before[..s.clients[r].begin] == events[..s.clients[r].begin];
      } else {
        assert events[..|before|] == before;
      }
    }
  }

  /** At time t the leader holds the write whose version is the number of writes so far. */
  lemma LeaderHeld(c: Config, events: seq<Event>, t: nat, key: string, entry: Entry)
    requires t <= |events| && WritesAt(c, events, t, key) == entry.version
    requires InHistory(Run(c, events).log, key, entry)
    ensures Lookup(At(c, events, t).leader, key) == Some(entry)
  {
    hide Run, Values, Ranked;
    HistoryGrows(c, events, t, |events|, key);
    assert events[..|events|] == events;
    LeaderInvHolds(c, events[..t]);
    var s := At(c, events, t);
    assert Lookup(s.leader, key) == Register(s.log, key);
  }

  lemma NewestSample(c: Config, s: State, r: nat, sorted: seq<Entry>)
    requires Enabled(c, s, EndRead(r, sorted)) && Inv(c, s) && SamplesInHistory(s, s.clients[r].key)
    ensures sorted == [] ==> s.clients[r].floor == 0
    ensures sorted != [] ==> sorted[0].version >= s.clients[r].floor && InHistory(s.log, s.clients[r].key, sorted[0])
  {
    NewestFirst(s.clients[r].samples, sorted);
  }

  /** A read that is about to answer has its answer within the leader's history. */
  lemma AnswerWithinHistory(c: Config, events: seq<Event>, r: nat, sorted: seq<Entry>)
    returns (t: nat)
    requires Enabled(c, Run(c, events), EndRead(r, sorted))
    requires Orderly(c, Run(c, events), Run(c, events).clients[r].key)
    ensures var read := Run(c, events).clients[r];
            && read.begin <= t <= |events|
            && Lookup(At(c, events, t).leader, read.key) == (if sorted == [] then None else Some(sorted[0]))
  {
    hide Run;
    InvHolds(c, events);
    SamplesHold(c, events, Run(c, events).clients[r].key);
    NewestSample(c, Run(c, events), r, sorted);
    FloorAtBegin(c, events, r);
    var read := Run(c, events).clients[r];
    var begin := At(c, events, read.begin);
    LeaderInvHolds(c, events[..read.begin]);
    LeaderEntryInHistory(begin, read.key);
    assert events[..|events|] == events;
    if sorted == [] {
      t := read.begin;
    } else {
      t := SomeMomentHas(c, events, read.begin, |events|, read.key, sorted[0].version);
      LeaderHeld(c, events, t, read.key, sorted[0]);
    }
  }

  /** Linearizability. Writes take effect at the leader; every answered read returns what
      the leader held at some moment between the read's begin and its end, if the followers
      that reads ask have received the key's messages in order. */
  lemma {:induction false} ReadsAreLinearizable(c: Config, events: seq<Event>, r: nat)
    requires r < |Run(c, events).clients| && Run(c, events).clients[r].answer.Some?
    requires Orderly(c, Run(c, events), Run(c, events).clients[r].key)
    ensures ReadsLeaderWithin(c, events, Run(c, events).clients[r])
  {
    if events != [] {
      var before := events[..|events| - 1];
      var s, e := Run(c, before), events[|events| - 1];
      var read := Run(c, events).clients[r];
      HasShape(c, before);
      OrderlyBefore(c, s, e, read.key);
      TimeCountsEvents(c, before);
      ReadLife(c, s, e, r);
      hide Run, Next, Inv;
      var t: nat;
      if s.clients[r].answer.Some? {
        ReadsAreLinearizable(c, before, r);
        t :| read.begin <= t <= read.answer.value.end <= |before|
        && Lookup(At(c, before, t).leader, read.key) == read.answer.value.entry;
      } else {
        t := AnswerWithinHistory(c, before, r, e.sorted);
      }
      assert before[..t] == events[..t];
      assert Lookup(At(c, events, t).leader, read.key) == read.answer.value.entry;
    }
  }

  function AnswerVersion(read: Read): nat
    requires read.answer.Some?
  {
    if read.answer.value.entry.Some? then read.answer.value.entry.value.version else 0
  }

  /** A read that begins after another ended never returns an older version. */
  lemma {:induction false} ReadsAreMonotone(c: Config, events: seq<Event>, r1: nat, r2: nat)
    requires r1 < |Run(c, events).clients| && r2 < |Run(c, events).clients|
    requires Orderly(c, Run(c, events), Run(c, events).clients[r1].key)
    requires var a, b := Run(c, events).clients[r1], Run(c, events).clients[r2];
             && a.key == b.key && a.answer.Some? && b.answer.Some?
             && a.answer.value.end <= b.begin
    ensures AnswerVersion(Run(c, events).clients[r1]) <= AnswerVersion(Run(c, events).clients[r2])
  {
    var a, b := Run(c, events).clients[r1], Run(c, events).clients[r2];
    ReadsAreLinearizable(c, events, r1);
    ReadsAreLinearizable(c, events, r2);
    var t: nat :| a.begin <= t <= a.answer.value.end <= |events|
      && Lookup(At(c, events, t).leader, a.key) == a.answer.value.entry;
    var u: nat :| b.begin <= u <= b.answer.value.end <= |events|
      && Lookup(At(c, events, u).leader, b.key) == b.answer.value.entry;
    LeaderVersionGrows(c, events, t, u, a.key);
  }

  lemma LeaderVersionGrows(c: Config, events: seq<Event>, t: nat, u: nat, key: string)
    requires t <= u <= |events|
    ensures VersionOf(At(c, events, t).leader, key) <= VersionOf(At(c, events, u).leader, key)
  {
    HistoryGrows(c, events, t, u, key);
    InvHolds(c, events[..t]);
    InvHolds(c, events[..u]);
    LeaderEntryInHistory(At(c, events, t), key);
    LeaderEntryInHistory(At(c, events, u), key);
  }

  /** A read returns at least the version of every write the leader made before it began. */
  lemma ReadsSeeEarlierWrites(c: Config, events: seq<Event>, r: nat, w: nat)
    requires r < |Run(c, events).clients| && Run(c, events).clients[r].answer.Some?
    requires Orderly(c, Run(c, events), Run(c, events).clients[r].key)
    requires Run(c, events).clients[r].begin <= |events|
    requires w < |At(c, events, Run(c, events).clients[r].begin).log|
    requires At(c, events, Run(c, events).clients[r].begin).log[w].key == Run(c, events).clients[r].key
    ensures AnswerVersion(Run(c, events).clients[r])
            >= At(c, events, Run(c, events).clients[r].begin).log[w].version
  {
    var read := Run(c, events).clients[r];
    ReadsAreLinearizable(c, events, r);
    var t: nat :| read.begin <= t <= read.answer.value.end <= |events|
      && Lookup(At(c, events, t).leader, read.key) == read.answer.value.entry;
    InvHolds(c, events[..read.begin]);
    var s := At(c, events, read.begin);
    RankedInHistory(s.log, w);
    LeaderEntryInHistory(s, read.key);
    LeaderVersionGrows(c, events, read.begin, t, read.key);
  }

  /** In any delivery order and with losses, a read's version is at least the leader's
      version when it began: the version is never stale, only the value can be. */
  lemma {:induction false} ReadVersionsAreFresh(c: Config, events: seq<Event>, r: nat)
    requires r < |Run(c, events).clients| && Run(c, events).clients[r].answer.Some?
    ensures Run(c, events).clients[r].begin <= |events|
    ensures AnswerVersion(Run(c, events).clients[r])
            >= VersionOf(At(c, events, Run(c, events).clients[r].begin).leader, Run(c, events).clients[r].key)
  {
    if events != [] {
      var before := events[..|events| - 1];
      var s, e := Run(c, before), events[|events| - 1];
      FloorAtBegin(c, events, r);
      ReadLife(c, s, e, r);
      if s.clients[r].answer.Some? {
        ReadVersionsAreFresh(c, before, r);
        assert before[..s.clients[r].begin] == events[..s.clients[r].begin];
      } else {
        InvHolds(c, before);
        NewestFirst(s.clients[r].samples, e.sorted);
      }
    }
  }

  // ----- which followers a read asks -----

  /** A read has visited only followers that it asks, and all of them once it is answered. */
  ghost predicate VisitsInv(c: Config, read: Read) {
    && (forall p :: p in read.visited ==> p < ReadsFrom(c) && p < c.peers)
    && (read.answer.Some? ==> forall p: nat :: p < ReadsFrom(c) ==> p in read.visited)
  }

  lemma VisitsStep(c: Config, s: State, e: Event, r: nat)
    requires r < |Next(c, s, e).clients| && (r < |s.clients| ==> VisitsInv(c, s.clients[r]))
    ensures VisitsInv(c, Next(c, s, e).clients[r])
  {
    assert forall p: nat :: p < ReadsFrom(c) ==> p in Below(ReadsFrom(c));
    hide SetEntry, VersionOf, IsSortOf, CanSend, Reply, ReadsFrom, Below, Lookup, WaitsFor;
    if e.BeginRead? {
      assert r < |s.clients| ==> Next(c, s, e).clients[r] == s.clients[r];
    }
  }

  lemma {:induction false} VisitsHold(c: Config, events: seq<Event>, r: nat)
    requires r < |Run(c, events).clients|
    ensures VisitsInv(c, Run(c, events).clients[r])
  {
    if events != [] {
      var s, e := Run(c, events[..|events| - 1]), events[|events| - 1];
      assert Run(c, events) == Next(c, s, e);
      hide Run, Next, VisitsInv;
      if r < |s.clients| {
        VisitsHold(c, events[..|events| - 1], r);
      }
      VisitsStep(c, s, e, r);
    }
  }

  /** An answered read has asked no follower in w5r1 mode, every follower in w1r5 mode, and
      the first two in quorum mode. */
  lemma {:induction false} AnsweredReadsAsked(c: Config, events: seq<Event>, r: nat, p: nat)
    requires r < |Run(c, events).clients| && Run(c, events).clients[r].answer.Some?
    ensures p in Run(c, events).clients[r].visited <==>
            (c.mode.W1R5? && p < c.peers) || (c.mode.Quorum? && p < 2)
  {
    VisitsHold(c, events, r);
    hide Run;
  }

  ghost predicate OncePerNode(read: Read) {
    |read.samples| <= |read.visited| + if read.local then 1 else 0
  }

  lemma OnceStep(c: Config, s: State, e: Event, r: nat)
    requires r < |Next(c, s, e).clients| && (r < |s.clients| ==> OncePerNode(s.clients[r]))
    ensures OncePerNode(Next(c, s, e).clients[r])
  {
    hide SetEntry, VersionOf, IsSortOf, CanSend, Reply, ReadsFrom, Below, Lookup, WaitsFor;
    if e.BeginRead? {
      assert r < |s.clients| ==> Next(c, s, e).clients[r] == s.clients[r];
    }
  }

  /** In every run a read has at most one entry from the leader and one from each follower that
      it has asked. */
  lemma {:induction false} OneEntryPerNode(c: Config, events: seq<Event>, r: nat)
    requires r < |Run(c, events).clients|
    ensures var read := Run(c, events).clients[r];
            |read.samples| <= |read.visited| + if read.local then 1 else 0
  {
    if events != [] {
      var s, e := Run(c, events[..|events| - 1]), events[|events| - 1];
      assert Run(c, events) == Next(c, s, e);
      hide Run, Next;
      if r < |s.clients| {
        OneEntryPerNode(c, events[..|events| - 1], r);
      }
      OnceStep(c, s, e, r);
    }
  }
}
