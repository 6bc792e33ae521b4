/** What an acknowledged write of hw10's leader guarantees at the followers. */
module Acknowledged {
  import opened Common
  import opened VersionedStore
  import opened LeaderFollower

  ghost predicate Applied(c: Config, s: State, w: nat, p: nat)
    requires w < |s.log| && |s.followers| == c.peers
  {
    p < c.peers && VersionOf(s.followers[p], s.log[w].key) >= s.log[w].version
  }

  /** Without losses a finished send was applied, and no later Set lowers a version. */
  ghost predicate FinishedApplied(c: Config, s: State) {
    && |s.sends| == |s.log| && |s.followers| == c.peers
    && (forall w: nat, p: nat :: w < |s.sends| && p in s.sends[w].finished ==> Applied(c, s, w, p))
    && (forall w, p: nat :: 0 <= w < |s.sends| && s.sends[w].acked && p < WaitsFor(c) ==> p in s.sends[w].finished)
  }

  /** A send finishes by being applied, and what was applied stays applied. */
  lemma AppliedStep(c: Config, s: State, e: Event, w: nat, p: nat)
    requires |s.sends| == |s.log| && |s.followers| == c.peers && w < |s.sends|
    requires p in s.sends[w].finished ==> Applied(c, s, w, p)
    requires !e.Lose? && !e.GiveUp?
    ensures |Next(c, s, e).sends| == |Next(c, s, e).log| >= |s.log| && |Next(c, s, e).followers| == c.peers
    ensures p in Next(c, s, e).sends[w].finished ==> Applied(c, Next(c, s, e), w, p)
  {
    if Enabled(c, s, e) && e.Deliver? && e.write == w && e.peer == p {
      var t := Next(c, s, e);
      assert t.followers[p] == SetEntry(s.followers[p], t.log[w].key, t.log[w].value, t.log[w].version);
    }
  }

  lemma NewSend(c: Config, s: State, e: Event, w: nat)
    requires |s.sends| == |s.log| && |s.sends| <= w < |Next(c, s, e).sends|
    ensures Next(c, s, e).sends[w] == Send({}, false)
  {
    hide SetEntry, VersionOf, CanVisit, WithSample, IsSortOf, ReadsFrom;
  }

  lemma FinishedStep(c: Config, s: State, e: Event)
    requires FinishedApplied(c, s) && !e.Lose? && !e.GiveUp?
    ensures FinishedApplied(c, Next(c, s, e))
  {
    var t := Next(c, s, e);
    LengthsStep(c, s, e);
    hide Next, Applied;
    forall w: nat, p: nat | w < |t.sends| && p in t.sends[w].finished ensures Applied(c, t, w, p) {
      if w < |s.sends| {
        AppliedStep(c, s, e, w, p);
      } else {
        NewSend(c, s, e, w);
      }
    }
    forall w, p: nat | 0 <= w < |t.sends| && t.sends[w].acked && p < WaitsFor(c) ensures p in t.sends[w].finished {
      AckedStep(c, s, e, w, p);
    }
  }

  lemma LengthsStep(c: Config, s: State, e: Event)
    requires |s.sends| == |s.log| && |s.followers| == c.peers
    ensures |Next(c, s, e).sends| == |Next(c, s, e).log| >= |s.log| && |Next(c, s, e).followers| == c.peers
  {
  }

  lemma {:induction false} FinishedHolds(c: Config, events: seq<Event>)
    requires NoLoss(events)
    ensures FinishedApplied(c, Run(c, events))
  {
    if events != [] {
      FinishedHolds(c, events[..|events| - 1]);
      FinishedStep(c, Run(c, events[..|events| - 1]), events[|events| - 1]);
    }
  }

  lemma SendsLast(c: Config, s: State, e: Event, w: nat)
    requires w < |s.sends| == |s.log|
    ensures var t := Next(c, s, e);
            && w < |t.sends| == |t.log| && t.log[w] == s.log[w]
            && (s.sends[w].acked ==> t.sends[w].acked)
  {
  }

  lemma {:induction false} AcksLast(c: Config, events: seq<Event>, t: nat, w: nat)
    requires t <= |events| && w < |At(c, events, t).sends|
    ensures |At(c, events, t).log| == |At(c, events, t).sends|
    ensures w < |Run(c, events).sends| == |Run(c, events).log|
    ensures Run(c, events).log[w] == At(c, events, t).log[w]
    ensures At(c, events, t).sends[w].acked ==> Run(c, events).sends[w].acked
    decreases |events|
  {
    if t == |events| {
      HasShape(c, events);
      assert events[..t] == events;
    } else {
      var before := events[..|events| - 1];
      assert before[..t] == events[..t];
      AcksLast(c, before, t, w);
      SendsLast(c, Run(c, before), events[|events| - 1], w);
    }
  }

  lemma FloorNow(c: Config, events: seq<Event>, w: nat, p: nat)
    requires NoLoss(events) && w < |Run(c, events).sends| == |Run(c, events).log|
    requires Run(c, events).sends[w].acked && p < WaitsFor(c)
    ensures p < |Run(c, events).followers|
    ensures VersionOf(Run(c, events).followers[p], Run(c, events).log[w].key) >= Run(c, events).log[w].version
  {
    FinishedHolds(c, events);
    assert p in Run(c, events).sends[w].finished;
  }

  /** The ack floor. With nothing lost, in any delivery order: once a write is
      acknowledged, every follower in w5r1 mode, and the first two in quorum mode, have at
      least its version, then and at every later time. */
  lemma {:induction false} AckFloor(c: Config, events: seq<Event>, t: nat, w: nat, p: nat)
    requires NoLoss(events) && t <= |events|
    requires w < |At(c, events, t).sends| && At(c, events, t).sends[w].acked
    requires (c.mode.W5R1? && p < c.peers) || (c.mode.Quorum? && p < 2)
    ensures p < |Run(c, events).followers| && w < |At(c, events, t).log|
    ensures VersionOf(Run(c, events).followers[p], At(c, events, t).log[w].key) >= At(c, events, t).log[w].version
  {
    AcksLast(c, events, t, w);
    FloorNow(c, events, w, p);
  }

  // ----- what an acknowledgement waits for -----

  /** A write is acknowledged exactly if its sends to all followers, in w5r1 mode, or to the
      first two, in quorum mode, have returned; in w1r5 mode it need not wait. */
  lemma AckNeedsReturnedSends(c: Config, s: State, w: nat)
    requires w < |s.sends| && !s.sends[w].acked
    ensures |Next(c, s, AckWrite(w)).sends| == |s.sends|
    ensures Next(c, s, AckWrite(w)).sends[w].acked <==>
            if c.mode.W5R1? then forall p: nat :: p < c.peers ==> p in s.sends[w].finished
            else if c.mode.Quorum? then 0 in s.sends[w].finished && 1 in s.sends[w].finished
            else true
    ensures !Next(c, s, AckWrite(w)).sends[w].acked ==> Next(c, s, AckWrite(w)) == s.(time := s.time + 1)
  {
    assert forall p: nat :: p in Below(2) <==> p == 0 || p == 1;
    assert forall p: nat :: p in Below(0) ==> false;
  }

  /** No other step acknowledges a write. */
  lemma OnlyAcksAcknowledge(c: Config, s: State, e: Event, w: nat)
    requires w < |s.sends| && !s.sends[w].acked && !(e.AckWrite? && e.write == w)
    ensures w < |Next(c, s, e).sends| && !Next(c, s, e).sends[w].acked
  {
    hide SetEntry, VersionOf, IsSortOf, CanVisit, WithSample, Reply;
  }

  /** In quorum mode the first two followers come first: a send to any other returns only
      after theirs did. */
  lemma {:induction false} FirstTwoComeFirst(c: Config, events: seq<Event>, w: nat, p: nat)
    requires c.mode.Quorum? && w < |Run(c, events).sends| && p in Run(c, events).sends[w].finished && p >= 2
    ensures 0 in Run(c, events).sends[w].finished && 1 in Run(c, events).sends[w].finished
  {
    var s, e := Run(c, events[..|events| - 1]), events[|events| - 1];
    HasShape(c, events[..|events| - 1]);
    LateHasReturned(c, events[..|events| - 1]);
    assert Run(c, events) == Next(c, s, e);
    FirstTwoStep(c, s, e, w, p);
    hide Run, Next;
    if w < |s.sends| && p in s.sends[w].finished {
      FirstTwoComeFirst(c, events[..|events| - 1], w, p);
    }
  }

  /** A message is late only after its send has returned. */
  lemma {:induction false} LateHasReturned(c: Config, events: seq<Event>)
    ensures var s := Run(c, events);
            forall message :: message in s.late ==> message.0 < |s.sends| && message.1 in s.sends[message.0].finished
  {
    if events != [] {
      var s, e := Run(c, events[..|events| - 1]), events[|events| - 1];
      LateHasReturned(c, events[..|events| - 1]);
      HasShape(c, events[..|events| - 1]);
      LateStep(c, s, e);
    }
  }

  lemma LateStep(c: Config, s: State, e: Event)
    requires |s.sends| == |s.log|
    requires forall message :: message in s.late ==> message.0 < |s.sends| && message.1 in s.sends[message.0].finished
    ensures var t := Next(c, s, e);
            forall message :: message in t.late ==> message.0 < |t.sends| && message.1 in t.sends[message.0].finished
  {
    hide SetEntry, VersionOf, IsSortOf, CanVisit, WithSample, Reply;
  }

  lemma FirstTwoStep(c: Config, s: State, e: Event, w: nat, p: nat)
    requires c.mode.Quorum? && p >= 2 && w < |Next(c, s, e).sends| && p in Next(c, s, e).sends[w].finished
    requires |s.sends| == |s.log|
    requires forall message :: message in s.late ==> message.0 < |s.sends| && message.1 in s.sends[message.0].finished
    ensures w < |s.sends|
    ensures s.sends[w].finished <= Next(c, s, e).sends[w].finished
    ensures p in s.sends[w].finished || (0 in s.sends[w].finished && 1 in s.sends[w].finished)
  {
    assert 0 in Below(2) && 1 in Below(2);
    hide SetEntry, VersionOf, IsSortOf, CanVisit, WithSample, Reply, Below;
  }
}
