/** A run of hw10's quorum mode, with nothing lost, in which messages overtake each other and
    a read returns an old value. */
module ReorderedRead {
  import opened Common
  import opened PeerQuery
  import opened VersionedStore
  import opened LeaderFollower
  import opened Linearizability

  const FOUR := Config(Quorum, 4)
  const OLD := Msg("x", "old", 1)
  const NEW := Msg("x", "new", 2)
  const EMPTY: Data := map[]

  /** The network of the witness run: follower 0 applied `first0`, follower 1 `first1`. */
  function Witness(time: nat, sends: seq<Send>, arrived0: seq<Msg>, arrived1: seq<Msg>, clients: seq<Read>): State {
    State(time, map["x" := Entry("new", 2)], [OLD, NEW], sends, {},
          [Replay(arrived0), Replay(arrived1), EMPTY, EMPTY], [arrived0, arrived1, [], []], clients)
  }

  lemma WitnessWrites() returns (events: seq<Event>)
    ensures NoLoss(events) && Run(FOUR, events) == Witness(2, [Send({}, false), Send({}, false)], [], [], [])
  {
    var l1: Data := map["x" := Entry("old", 1)];
    var s1 := State(1, l1, [OLD], [Send({}, false)], {}, [EMPTY, EMPTY, EMPTY, EMPTY], [[], [], [], []], []);
    assert Run(FOUR, []) == Init(FOUR);
    Then(FOUR, [], Init(FOUR), BeginWrite("x", "old"), s1);
    Then(FOUR, [] + [BeginWrite("x", "old")], s1, BeginWrite("x", "new"),
         Witness(2, [Send({}, false), Send({}, false)], [], [], []));
    events := [] + [BeginWrite("x", "old")] + [BeginWrite("x", "new")];
  }

  lemma WitnessDeliver(before: seq<Event>, s: State, w: nat, p: nat) returns (events: seq<Event>, t: State)
    requires |s.sends| == 2 && w < 2 && p < 2 && p !in s.sends[w].finished
    requires |s.arrived| == 4 && s == Witness(s.time, s.sends, s.arrived[0], s.arrived[1], s.clients)
    requires Run(FOUR, before) == s
    ensures Run(FOUR, events) == t && (NoLoss(before) ==> NoLoss(events))
    ensures t == WitnessDelivered(s, w, p)
  {
    WitnessDo(s, w, p);
    t := WitnessDelivered(s, w, p);
    hide WitnessDelivered, Run;
    Then(FOUR, before, s, Deliver(w, p), t);
    events := before + [Deliver(w, p)];
  }

  function WitnessDelivered(s: State, w: nat, p: nat): State
    requires |s.sends| == 2 && w < 2 && p < 2 && |s.arrived| == 4
  {
    var m := if w == 0 then OLD else NEW;
    Witness(s.time + 1, s.sends[w := s.sends[w].(finished := s.sends[w].finished + {p})],
            if p == 0 then s.arrived[0] + [m] else s.arrived[0],
            if p == 1 then s.arrived[1] + [m] else s.arrived[1], s.clients)
  }

  lemma WitnessApplies(s: State, w: nat, p: nat)
    requires |s.sends| == 2 && w < 2 && p < 2
    requires |s.arrived| == 4 && s == Witness(s.time, s.sends, s.arrived[0], s.arrived[1], s.clients)
    ensures var m, t := s.log[w], WitnessDelivered(s, w, p);
            && t.followers == s.followers[p := SetEntry(s.followers[p], m.key, m.value, m.version)]
            && t.arrived == s.arrived[p := s.arrived[p] + [m]]
  {
    var m := s.log[w];
    hide Replay, SetEntry;
    ReplaySnoc(s.arrived[p], m);
    UpdateFour(Replay(s.arrived[0]), Replay(s.arrived[1]), EMPTY, p, SetEntry(s.followers[p], m.key, m.value, m.version));
    UpdateFour(s.arrived[0], s.arrived[1], [], p, s.arrived[p] + [m]);
  }

  lemma UpdateFour<T>(a: T, b: T, rest: T, p: nat, x: T)
    requires p < 2
    ensures [a, b, rest, rest][p := x] == [if p == 0 then x else a, if p == 1 then x else b, rest, rest]
  {
  }

  lemma ReplaySnoc(arrived: seq<Msg>, m: Msg)
    ensures Replay(arrived + [m]) == SetEntry(Replay(arrived), m.key, m.value, m.version)
  {
    hide SetEntry;
    assert (arrived + [m])[..|arrived|] == arrived;
  }

  lemma WitnessDo(s: State, w: nat, p: nat)
    requires |s.sends| == 2 && w < 2 && p < 2 && p !in s.sends[w].finished
    requires |s.arrived| == 4 && s == Witness(s.time, s.sends, s.arrived[0], s.arrived[1], s.clients)
    ensures Enabled(FOUR, s, Deliver(w, p))
    ensures Do(FOUR, s, Deliver(w, p)).(time := s.time + 1) == WitnessDelivered(s, w, p)
  {
    WitnessApplies(s, w, p);
    hide Replay, SetEntry, VersionOf, NextVersion;
  }

  lemma WitnessAtFollower0() returns (events: seq<Event>)
    ensures NoLoss(events) && Run(FOUR, events) == Witness(4, [Send({0}, false), Send({0}, false)], [NEW, OLD], [], [])
  {
    events := WitnessWrites();
    var s := Witness(2, [Send({}, false), Send({}, false)], [], [], []);
    events, s := WitnessDeliver(events, s, 1, 0);
    events, s := WitnessDeliver(events, s, 0, 0);
    var none: set<nat> := {};
    assert none + {0} == {0};
    assert s.sends == [Send({0}, false), Send({0}, false)];
    assert [] + [NEW] + [OLD] == [NEW, OLD];
  }

  lemma WitnessAtFollower1() returns (events: seq<Event>)
    ensures NoLoss(events)
    ensures Run(FOUR, events) == Witness(6, [Send({0, 1}, false), Send({0, 1}, false)], [NEW, OLD], [OLD, NEW], [])
  {
    events := WitnessAtFollower0();
    var s := Witness(4, [Send({0}, false), Send({0}, false)], [NEW, OLD], [], []);
    events, s := WitnessDeliver(events, s, 0, 1);
    events, s := WitnessDeliver(events, s, 1, 1);
    assert {0} + {1} == {0, 1};
    assert s.sends == [Send({0, 1}, false), Send({0, 1}, false)];
    assert [] + [OLD] + [NEW] == [OLD, NEW];
  }

  lemma WitnessAcks() returns (events: seq<Event>)
    ensures NoLoss(events) && Run(FOUR, events) == Witness(8, [Send({0, 1}, true), Send({0, 1}, true)], [NEW, OLD], [OLD, NEW], [])
  {
    events := WitnessAtFollower1();
    var s := Witness(6, [Send({0, 1}, false), Send({0, 1}, false)], [NEW, OLD], [OLD, NEW], []);
    assert WaitsFor(FOUR) == 2;
    var t := Witness(7, [Send({0, 1}, true), Send({0, 1}, false)], [NEW, OLD], [OLD, NEW], []);
    Then(FOUR, events, s, AckWrite(0), t);
    events := events + [AckWrite(0)];
    var u := Witness(8, [Send({0, 1}, true), Send({0, 1}, true)], [NEW, OLD], [OLD, NEW], []);
    Then(FOUR, events, t, AckWrite(1), u);
    events := events + [AckWrite(1)];
  }

  lemma ReplayPair(a: Msg, b: Msg)
    ensures Replay([a, b]) == SetEntry(SetEntry(map[], a.key, a.value, a.version), b.key, b.value, b.version)
  {
    assert [a, b][..1] == [a];
    assert Replay([a]) == SetEntry(map[], a.key, a.value, a.version) by {
      assert [a][..0] == [];
    }
  }

  /** One step of the witness read; nothing else in the state moves. */
  lemma WitnessSample(before: seq<Event>, s: State, e: Event, read: Read) returns (events: seq<Event>, t: State)
    requires Run(FOUR, before) == s && !e.Lose? && !e.GiveUp? && Enabled(FOUR, s, e)
    requires |s.clients| == 1 && Do(FOUR, s, e) == s.(clients := s.clients[0 := read])
    ensures Run(FOUR, events) == t == s.(time := s.time + 1, clients := [read])
    ensures before <= events && (NoLoss(before) ==> NoLoss(events))
  {
    assert s.clients[0 := read] == [read];
    t := s.(time := s.time + 1, clients := [read]);
    Then(FOUR, before, s, e, t);
    events := before + [e];
  }

  ghost predicate WitnessReady(s: State) {
    && |s.followers| == 4
    && "x" in s.leader && "x" in s.followers[0] && "x" in s.followers[1]
    && s.followers[0]["x"].version > s.leader["x"].version >= s.followers[1]["x"].version
  }

  lemma WitnessReadBegins(before: seq<Event>, s: State) returns (events: seq<Event>, t: State)
    requires Run(FOUR, before) == s && s.clients == [] && WitnessReady(s)
    ensures before <= events && (NoLoss(before) ==> NoLoss(events)) && Run(FOUR, events) == t
    ensures t == s.(time := t.time, clients := [Read("x", s.time, VersionOf(s.leader, "x"), true, {}, [s.leader["x"]], None)])
  {
    var r := Read("x", s.time, VersionOf(s.leader, "x"), false, {}, [], None);
    assert s.clients + [r] == [r];
    t := s.(time := s.time + 1, clients := [r]);
    Then(FOUR, before, s, BeginRead("x"), t);
    events := before + [BeginRead("x")];
    assert [] + [s.leader["x"]] == [s.leader["x"]];
    events, t := WitnessSample(events, t, ReadLocal(0), r.(local := true, samples := [s.leader["x"]]));
  }

  lemma WitnessReadSamples(before: seq<Event>, s: State) returns (events: seq<Event>, t: State)
    requires Run(FOUR, before) == s && WitnessReady(s) && |s.clients| == 1
    requires var r := s.clients[0];
             r.key == "x" && r.local && r.visited == {} && |r.samples| == 1 && r.answer.None?
    ensures before <= events && (NoLoss(before) ==> NoLoss(events)) && Run(FOUR, events) == t
    ensures t == s.(time := t.time, clients := [s.clients[0].(visited := {0, 1},
                    samples := [s.clients[0].samples[0], s.followers[0]["x"], s.followers[1]["x"]])])
  {
    var r, a, b, d := s.clients[0], s.clients[0].samples[0], s.followers[0]["x"], s.followers[1]["x"];
    var none: set<nat> := {};
    assert none + {0} == {0} && {0} + {1} == {0, 1};
    assert r.samples + [b] == [a, b] && [a, b] + [d] == [a, b, d];
    PlainIsHeard("x");
    assert Reply(s.followers[0], "x") == Some(b) && Reply(s.followers[1], "x") == Some(d);
    hide Reply, Heard;
    events, t := WitnessSample(before, s, ReadPeer(0, 0), r.(visited := {0}, samples := [a, b]));
    events, t := WitnessSample(events, t, ReadPeer(0, 1), r.(visited := {0, 1}, samples := [a, b, d]));
  }

  /** A read of "x" after a run that ended in the witness network. */
  lemma WitnessRead(before: seq<Event>, s: State) returns (events: seq<Event>)
    requires Run(FOUR, before) == s && s.clients == [] && WitnessReady(s)
    ensures before <= events && (NoLoss(before) ==> NoLoss(events))
    ensures |Run(FOUR, events).clients| == 1 && Run(FOUR, events).log == s.log
    ensures var read := Run(FOUR, events).clients[0];
            && read.key == "x" && read.begin == s.time
            && read.answer.Some? && read.answer.value.entry == Some(s.followers[0]["x"])
  {
    hide Run, Next;
    var t;
    events, t := WitnessReadBegins(before, s);
    events, t := WitnessReadSamples(events, t);
    hide WitnessReady;
    events, t := WitnessReadEnds(events, t);
  }

  lemma SortOfThree(a: Entry, b: Entry, d: Entry)
    requires b.version > a.version >= d.version
    ensures IsSortOf([b, a, d], [a, b, d])
  {
    assert multiset([b, a, d]) == multiset([a, b, d]);
  }

  lemma WitnessReadEnds(before: seq<Event>, s: State) returns (events: seq<Event>, t: State)
    requires Run(FOUR, before) == s && |s.clients| == 1
    requires var r := s.clients[0];
             && r.local && r.visited == {0, 1} && r.answer.None? && |r.samples| == 3
             && r.samples[1].version > r.samples[0].version >= r.samples[2].version
    ensures before <= events && (NoLoss(before) ==> NoLoss(events)) && Run(FOUR, events) == t
    ensures t == s.(time := t.time, clients := [s.clients[0].(answer := Some(Answer(s.time, Some(s.clients[0].samples[1]))))])
  {
    hide Run, Next;
    var r := s.clients[0];
    var a, b, d := r.samples[0], r.samples[1], r.samples[2];
    assert r.samples == [a, b, d];
    SortOfThree(a, b, d);
    hide IsSortOf, Below, SetEntry, VersionOf;
    assert Below(ReadsFrom(FOUR)) <= r.visited by {
      assert Below(2) == {0, 1};
    }
    assert Enabled(FOUR, s, EndRead(0, [b, a, d]));
    events, t := WitnessSample(before, s, EndRead(0, [b, a, d]), r.(answer := Some(Answer(s.time, Some(b)))));
  }

  /** Without in-order delivery the claim of strong consistency fails, even in quorum mode
      with nothing lost: both writes are acknowledged, the read starts after that, and it
      returns the older value, under version 3, which the leader never held. */
  lemma ReorderedQuorumReadIsStale() returns (events: seq<Event>)
    ensures var s := Run(FOUR, events);
            && NoLoss(events)
            && |s.log| == 2 && s.log[1].value == "new"
            && |s.clients| == 1 && s.clients[0].begin <= |events|
            && (forall send :: send in At(FOUR, events, s.clients[0].begin).sends ==> send.acked)
            && s.clients[0].answer.Some?
            && s.clients[0].answer.value.entry == Some(Entry("old", 3))
            && !ReadsLeaderWithin(FOUR, events, s.clients[0])
  {
    events := WitnessAcks();
    var before, s := events, Run(FOUR, events);
    ReplayPair(NEW, OLD);
    ReplayPair(OLD, NEW);
    events := WitnessRead(events, s);
    var read := Run(FOUR, events).clients[0];
    TimeCountsEvents(FOUR, before);
    assert events[..read.begin] == before;
    NeverHeld(FOUR, events, Entry("old", 3));
  }

  /** The leader cannot hold a version above the number of writes. */
  lemma NeverHeld(c: Config, events: seq<Event>, entry: Entry)
    requires Run(c, events).log == [OLD, NEW] && entry.version > 2
    ensures forall t: nat :: t <= |events| ==> Lookup(At(c, events, t).leader, "x") != Some(entry)
  {
    forall t: nat | t <= |events| ensures Lookup(At(c, events, t).leader, "x") != Some(entry) {
      HistoryGrows(c, events, t, |events|, "x");
      InvHolds(c, events[..t]);
      LeaderEntryInHistory(At(c, events, t), "x");
      assert events[..|events|] == events;
      ValuesWithinLog([OLD, NEW]);
    }
  }

  lemma {:induction false} ValuesWithinLog(log: seq<Msg>)
    ensures |Values(log, "x")| <= |log|
  {
    if log != [] {
      ValuesWithinLog(log[..|log| - 1]);
    }
  }
}
