/** The leader-follower protocol of hw10 as a machine over atomic steps. Requests,
    replication messages and reads interleave freely; a message may be delayed or lost, or be
    applied after its sender gave up on it.
    A run is any list of events: an event that is not enabled changes nothing. */
module LeaderFollower {
  import opened Common
  import opened VersionedStore
  import opened PeerQuery

  datatype Mode = W5R1 | W1R5 | Quorum

  datatype Config = Config(mode: Mode, peers: nat)

  /** The replication of one write: the followers whose send has returned. */
  datatype Send = Send(finished: set<nat>, acked: bool)

  datatype Answer = Answer(end: nat, entry: Option<Entry>)

  /** A client read through the leader, with the times it began and ended. */
  datatype Read = Read(key: string, begin: nat, floor: nat, local: bool,
                       visited: set<nat>, samples: seq<Entry>, answer: Option<Answer>)

  /** `log` lists the leader's writes and `arrived` the messages each follower applied; `late`
      are the messages, by write and peer, that may be applied though their send has failed. */
  datatype State = State(time: nat, leader: Data, log: seq<Msg>, sends: seq<Send>, late: set<(nat, nat)>,
                         followers: seq<Data>, arrived: seq<seq<Msg>>, clients: seq<Read>)

  datatype Event =
    | BeginWrite(key: string, value: string)
    | Deliver(write: nat, peer: nat)
    | Lose(write: nat, peer: nat)
    | GiveUp(write: nat, peer: nat)
    | AckWrite(write: nat)
    | BeginRead(key: string)
    | ReadLocal(read: nat)
    | ReadPeer(read: nat, peer: nat)
    | MissPeer(read: nat, peer: nat)
    | EndRead(read: nat, sorted: seq<Entry>)

  function Init(c: Config): State {
    State(0, map[], [], [], {}, seq(c.peers, _ => map[]), seq(c.peers, _ => []), [])
  }

  /** How many followers a write waits for. */
  function WaitsFor(c: Config): nat {
    match c.mode
    case W5R1 => c.peers
    case W1R5 => 0
    case Quorum => 2
  }

  /** How many followers a read asks; the leader's own entry is always included. */
  function ReadsFrom(c: Config): nat {
    match c.mode
    case W5R1 => 0
    case W1R5 => c.peers
    case Quorum => 2
  }

  /** In quorum mode the third and later followers are sent the write only after the first
      two sends returned. */
  predicate CanSend(c: Config, s: State, write: nat, peer: nat) {
    && write < |s.sends| && peer < c.peers && peer !in s.sends[write].finished
    && (c.mode.Quorum? && peer >= 2 ==> Below(2) <= s.sends[write].finished)
  }

  /** `sort.Slice` by descending version is not stable: any such order may come out. */
  ghost predicate IsDescending(entries: seq<Entry>) {
    forall i, j :: 0 <= i < j < |entries| ==> entries[i].version >= entries[j].version
  }

  ghost predicate IsSortOf(sorted: seq<Entry>, samples: seq<Entry>) {
    multiset(sorted) == multiset(samples) && IsDescending(sorted)
  }

  predicate IsOpen(s: State, read: nat) {
    read < |s.clients| && s.clients[read].answer.None?
  }

  predicate CanVisit(c: Config, s: State, read: nat, peer: nat) {
    && IsOpen(s, read) && s.clients[read].local
    && peer < Min(ReadsFrom(c), c.peers) && peer !in s.clients[read].visited
  }

  ghost predicate Enabled(c: Config, s: State, e: Event) {
    match e
    case BeginWrite(key, _) => key != ""
    case Deliver(w, p) =>
      && (CanSend(c, s, w, p) || (w, p) in s.late)
      && w < |s.sends| && p < c.peers && p < |s.followers| && p < |s.arrived| && w < |s.log|
    case Lose(w, p) => CanSend(c, s, w, p)
    case GiveUp(w, p) => CanSend(c, s, w, p)
    case AckWrite(w) => w < |s.sends| && Below(WaitsFor(c)) <= s.sends[w].finished
    case BeginRead(key) => key != ""
    case ReadLocal(r) => IsOpen(s, r) && !s.clients[r].local
    case ReadPeer(r, p) => CanVisit(c, s, r, p) && p < |s.followers|
    case MissPeer(r, p) => CanVisit(c, s, r, p)
    case EndRead(r, sorted) =>
      && IsOpen(s, r) && s.clients[r].local
      && Below(ReadsFrom(c)) <= s.clients[r].visited
      && IsSortOf(sorted, s.clients[r].samples)
  }

  /** A follower looks up the key that it hears. */
  function Reply(data: Data, key: string): Option<Entry> {
    if Heard(key).None? then None else Lookup(data, Heard(key).value)
  }

  function WithSample(read: Read, entry: Option<Entry>): Read {
    if entry.Some? then read.(samples := read.samples + [entry.value]) else read
  }

  ghost function Do(c: Config, s: State, e: Event): State
    requires Enabled(c, s, e)
  {
    match e
    case BeginWrite(key, value) =>
      var leader := SetEntry(s.leader, key, value, 0);
      s.(leader := leader,
         log := s.log + [Msg(key, value, VersionOf(leader, key))],
         sends := s.sends + [Send({}, false)])
    case Deliver(w, p) =>
      var m := s.log[w];
      s.(followers := s.followers[p := SetEntry(s.followers[p], m.key, m.value, m.version)],
         arrived := s.arrived[p := s.arrived[p] + [m]],
         late := s.late - {(w, p)},
         sends := s.sends[w := s.sends[w].(finished := s.sends[w].finished + {p})])
    case Lose(w, p) =>
      s.(sends := s.sends[w := s.sends[w].(finished := s.sends[w].finished + {p})])
    case GiveUp(w, p) =>
      s.(sends := s.sends[w := s.sends[w].(finished := s.sends[w].finished + {p})], late := s.late + {(w, p)})
    case AckWrite(w) =>
      s.(sends := s.sends[w := s.sends[w].(acked := true)])
    case BeginRead(key) =>
      s.(clients := s.clients + [Read(key, s.time, VersionOf(s.leader, key), false, {}, [], None)])
    case ReadLocal(r) =>
      var read := s.clients[r].(local := true);
      s.(clients := s.clients[r := WithSample(read, Lookup(s.leader, read.key))])
    case ReadPeer(r, p) =>
      var read := s.clients[r].(visited := s.clients[r].visited + {p});
      s.(clients := s.clients[r := WithSample(read, Reply(s.followers[p], read.key))])
    case MissPeer(r, p) =>
      s.(clients := s.clients[r := s.clients[r].(visited := s.clients[r].visited + {p})])
    case EndRead(r, sorted) =>
      var entry := if sorted == [] then None else Some(sorted[0]);
      s.(clients := s.clients[r := s.clients[r].(answer := Some(Answer(s.time, entry)))])
  }

  ghost function Next(c: Config, s: State, e: Event): State {
    var t := if Enabled(c, s, e) then Do(c, s, e) else s;
    t.(time := s.time + 1)
  }

  ghost function Run(c: Config, events: seq<Event>): State {
    if events == [] then Init(c)
    else Next(c, Run(c, events[..|events| - 1]), events[|events| - 1])
  }

  // ----- what every run keeps, in any delivery order -----

  ghost predicate Shape(c: Config, s: State) {
    && |s.sends| == |s.log| && |s.followers| == |s.arrived| == c.peers
  }

  /** The leader is an atomic register: its entries are those of the log so far. */
  ghost predicate LeaderInv(s: State) {
    && Ranked(s.log)
    && (forall k :: Lookup(s.leader, k) == Register(s.log, k))
  }

  /** The send has returned and its message will not be applied any more. */
  predicate Over(s: State, w: nat, p: nat) {
    w < |s.sends| && p in s.sends[w].finished && (w, p) !in s.late
  }

  predicate Named(log: seq<Msg>) {
    forall w :: 0 <= w < |log| ==> log[w].key != ""
  }

  /** Followers are what arrived, and only writes of the log arrive, each at most once. */
  ghost predicate FollowerInv(c: Config, s: State)
    requires Shape(c, s)
  {
    && (forall p :: 0 <= p < c.peers ==> s.followers[p] == Replay(s.arrived[p]))
    && (forall p, i :: 0 <= p < c.peers && 0 <= i < |s.arrived[p]| ==>
          exists w :: 0 <= w < |s.log| && s.log[w] == s.arrived[p][i] && Over(s, w, p))
    && (forall p :: 0 <= p < c.peers ==> NoVersionTwice(s.arrived[p]))
  }

  ghost predicate ReadInv(s: State, read: Read) {
    && read.begin <= s.time
    && read.floor <= |Values(s.log, read.key)|
    && (read.local && read.floor > 0 ==>
          exists i :: 0 <= i < |read.samples| && read.samples[i].version >= read.floor)
    && (read.answer.Some? ==> read.local && read.begin <= read.answer.value.end < s.time)
  }

  ghost predicate Inv(c: Config, s: State) {
    && Shape(c, s) && LeaderInv(s) && FollowerInv(c, s) && Named(s.log)
    && (forall r :: 0 <= r < |s.clients| ==> ReadInv(s, s.clients[r]))
  }

  lemma LeaderStepAt(s: State, key: string, value: string, k: string)
    requires LeaderInv(s)
    ensures var leader := SetEntry(s.leader, key, value, 0);
            var log := s.log + [Msg(key, value, VersionOf(leader, key))];
            Lookup(leader, k) == Register(log, k) && Values(s.log, k) <= Values(log, k)
  {
    var leader := SetEntry(s.leader, key, value, 0);
    var m := Msg(key, value, VersionOf(leader, key));
    assert Lookup(s.leader, k) == Register(s.log, k);
    hide Values, Ranked;
    ValuesSnoc(s.log, m, k);
  }

  lemma LeaderStep(s: State, key: string, value: string)
    requires LeaderInv(s)
    ensures var leader := SetEntry(s.leader, key, value, 0);
            var log := s.log + [Msg(key, value, VersionOf(leader, key))];
            && Ranked(log)
            && (forall k :: Lookup(leader, k) == Register(log, k))
            && (forall k :: Values(s.log, k) <= Values(log, k))
  {
    var leader := SetEntry(s.leader, key, value, 0);
    var m := Msg(key, value, VersionOf(leader, key));
    assert Lookup(s.leader, key) == Register(s.log, key);
    RankedSnoc(s.log, m);
    hide Values, Ranked, Register, SetEntry;
    forall k
      ensures Lookup(leader, k) == Register(s.log + [m], k)
      ensures Values(s.log, k) <= Values(s.log + [m], k)
    {
      LeaderStepAt(s, key, value, k);
    }
  }

  /** Follower p has not applied write w yet, so w's version is new to it. */
  lemma DeliversNewVersion(c: Config, s: State, w: nat, p: nat)
    requires Shape(c, s) && FollowerInv(c, s) && Ranked(s.log)
    requires w < |s.log| && p < c.peers && !Over(s, w, p)
    ensures NoVersionTwice(s.arrived[p] + [s.log[w]])
  {
    var arrived, m := s.arrived[p], s.log[w];
    forall i | 0 <= i < |arrived| && arrived[i].key == m.key ensures arrived[i].version != m.version {
      var w' :| 0 <= w' < |s.log| && s.log[w'] == arrived[i] && Over(s, w', p);
      if w' < w {
        RankedDistinct(s.log, w', w);
      } else {
        RankedDistinct(s.log, w, w');
      }
    }
  }

  /** What arrived was sent, also after one more arrival. */
  lemma ArrivedWasSent(c: Config, s: State, w: nat, p: nat, q: nat, i: nat) returns (w': nat)
    requires Shape(c, s) && FollowerInv(c, s) && Enabled(c, s, Deliver(w, p))
    requires q < c.peers && i < |Next(c, s, Deliver(w, p)).arrived[q]|
    ensures var t := Next(c, s, Deliver(w, p));
            w' < |t.log| && t.log[w'] == t.arrived[q][i] && Over(t, w', q)
  {
    if q == p && i == |s.arrived[p]| {
      w' := w;
    } else {
      w' :| 0 <= w' < |s.log| && s.log[w'] == s.arrived[q][i] && Over(s, w', q);
    }
    hide Replay, SetEntry, NoVersionTwice, FollowerInv;
  }

  lemma DeliverApplies(c: Config, s: State, w: nat, p: nat)
    requires Shape(c, s) && Enabled(c, s, Deliver(w, p)) && s.followers[p] == Replay(s.arrived[p])
    ensures var t := Next(c, s, Deliver(w, p));
            t.followers == s.followers[p := Replay(t.arrived[p])] && t.arrived == s.arrived[p := s.arrived[p] + [s.log[w]]]
  {
    assert (s.arrived[p] + [s.log[w]])[..|s.arrived[p]|] == s.arrived[p];
    hide SetEntry;
  }

  lemma DeliverKeeps(c: Config, s: State, w: nat, p: nat, q: nat)
    requires Shape(c, s) && FollowerInv(c, s) && Ranked(s.log) && Enabled(c, s, Deliver(w, p)) && q < c.peers
    ensures var t := Next(c, s, Deliver(w, p));
            Shape(c, t) && t.followers[q] == Replay(t.arrived[q]) && NoVersionTwice(t.arrived[q])
  {
    DeliverApplies(c, s, w, p);
    DeliversNewVersion(c, s, w, p);
    assert Shape(c, Next(c, s, Deliver(w, p)));
    assert s.followers[q] == Replay(s.arrived[q]) && NoVersionTwice(s.arrived[q]);
    hide Next, Enabled, NoVersionTwice, Replay, Ranked, FollowerInv;
  }

  lemma DeliverStep(c: Config, s: State, w: nat, p: nat)
    requires Shape(c, s) && FollowerInv(c, s) && Ranked(s.log) && Enabled(c, s, Deliver(w, p))
    ensures Shape(c, Next(c, s, Deliver(w, p)))
    ensures FollowerInv(c, Next(c, s, Deliver(w, p)))
  {
    var t := Next(c, s, Deliver(w, p));
    assert Shape(c, t);
    assert FollowerInv(c, t) by {
      hide Next, Enabled, NoVersionTwice, Replay, Ranked;
      forall q: nat | q < c.peers ensures t.followers[q] == Replay(t.arrived[q]) && NoVersionTwice(t.arrived[q]) {
        DeliverKeeps(c, s, w, p, q);
      }
      forall q, i | 0 <= q < c.peers && 0 <= i < |t.arrived[q]|
        ensures exists w' :: 0 <= w' < |t.log| && t.log[w'] == t.arrived[q][i] && Over(t, w', q)
      {
        var w' := ArrivedWasSent(c, s, w, p, q, i);
      }
    }
  }

  lemma SendsStep(c: Config, s: State, t: State)
    requires Shape(c, s) && FollowerInv(c, s) && Shape(c, t)
    requires t.followers == s.followers && t.arrived == s.arrived
    requires s.log <= t.log
    requires forall w: nat, p: nat :: Over(s, w, p) ==> Over(t, w, p)
    ensures FollowerInv(c, t)
  {
    forall p, i | 0 <= p < c.peers && 0 <= i < |t.arrived[p]|
      ensures exists w :: 0 <= w < |t.log| && t.log[w] == t.arrived[p][i] && Over(t, w, p)
    {
      var w :| 0 <= w < |s.log| && s.log[w] == s.arrived[p][i] && Over(s, w, p);
      assert t.log[w] == t.arrived[p][i];
    }
  }

  lemma SampleStep(s: State, t: State, read: Read, read': Read, entry: Option<Entry>)
    requires ReadInv(s, read) && t.log == s.log && t.time == s.time + 1
    requires LeaderInv(s) && read.answer.None?
    requires exists v :: read' == WithSample(read.(visited := v, local := true), entry)
    requires read.local || entry == Lookup(s.leader, read.key)
    ensures ReadInv(t, read')
  {
    assert Lookup(s.leader, read.key) == Register(s.log, read.key);
    if read.floor > 0 {
      if read.local {
        var i :| 0 <= i < |read.samples| && read.samples[i].version >= read.floor;
        assert read'.samples[i].version >= read.floor;
      } else {
        assert read'.samples[|read.samples|].version >= read.floor;
      }
    }
  }

  lemma ReadsStep(c: Config, s: State, e: Event)
    requires Inv(c, s) && Enabled(c, s, e)
    ensures var t := Next(c, s, e);
            forall r :: 0 <= r < |t.clients| ==> ReadInv(t, t.clients[r])
  {
    var t := Next(c, s, e);
    forall r | 0 <= r < |t.clients| ensures ReadInv(t, t.clients[r]) {
      match e
      case BeginWrite(key, value) => LeaderStep(s, key, value);
      case BeginRead(key) =>
        assert Lookup(s.leader, key) == Register(s.log, key);
      case ReadLocal(q) =>
        if q == r {
          var read := s.clients[r];
          assert t.clients[r] == WithSample(read.(visited := read.visited, local := true), Lookup(s.leader, read.key));
          SampleStep(s, t, read, t.clients[r], Lookup(s.leader, read.key));
        }
      case ReadPeer(q, p) =>
        if q == r {
          var read := s.clients[r];
          assert t.clients[r] == WithSample(read.(visited := read.visited + {p}, local := true), Reply(s.followers[p], read.key));
          SampleStep(s, t, read, t.clients[r], Reply(s.followers[p], read.key));
        }
      case _ =>
    }
  }

  lemma FollowerStep(c: Config, s: State, e: Event)
    requires Shape(c, s) && FollowerInv(c, s) && Ranked(s.log)
    ensures Shape(c, Next(c, s, e)) && FollowerInv(c, Next(c, s, e))
  {
    if e.Deliver? && Enabled(c, s, e) {
      DeliverStep(c, s, e.write, e.peer);
    } else {
      OverStays(c, s, e);
      SendsStep(c, s, Next(c, s, e));
    }
  }

  lemma OverStays(c: Config, s: State, e: Event)
    requires Shape(c, s)
    ensures forall w: nat, p: nat :: Over(s, w, p) ==> Over(Next(c, s, e), w, p)
  {
    hide SetEntry, VersionOf, IsSortOf, CanVisit, WithSample;
  }

  lemma InvStep(c: Config, s: State, e: Event)
    requires Inv(c, s)
    ensures Inv(c, Next(c, s, e))
  {
    var t := Next(c, s, e);
    FollowerStep(c, s, e);
    if Enabled(c, s, e) {
      ReadsStep(c, s, e);
      if e.BeginWrite? {
        LeaderStep(s, e.key, e.value);
      }
    }
  }

  /** The invariant holds in every run. */
  lemma {:induction false} InvHolds(c: Config, events: seq<Event>)
    ensures Inv(c, Run(c, events)) && Run(c, events).time == |events|
  {
    if events != [] {
      InvHolds(c, events[..|events| - 1]);
      InvStep(c, Run(c, events[..|events| - 1]), events[|events| - 1]);
    } else {
      forall k ensures Lookup(Init(c).leader, k) == Register(Init(c).log, k) {
        assert Values([], k) == [];
      }
    }
  }

  // ----- followers, the leader's history, and moments of a run -----

  /** A follower's store is what arrived, and it keeps the versions the leader assigned
      exactly if they arrived in order. */
  lemma {:induction false} FollowerKeepsVersionsIffInOrder(c: Config, events: seq<Event>, p: nat)
    requires p < c.peers
    ensures var s := Run(c, events);
            && |s.followers| == |s.arrived| == c.peers
            && s.followers[p] == Replay(s.arrived[p])
            && (KeepsIncomingVersions(s.arrived[p]) <==> InOrder(s.arrived[p]))
  {
    InvHolds(c, events);
    KeepsIncomingVersionsIffInOrder(Run(c, events).arrived[p]);
  }

  /** A key that arrived in order is held as it was in the leader's history at its version. */
  lemma FollowersInHistory(c: Config, s: State, p: nat, key: string)
    requires Inv(c, s) && p < c.peers && InOrderFor(s.arrived[p], key)
    ensures key in s.followers[p] ==> InHistory(s.log, key, s.followers[p][key])
  {
    if key in s.followers[p] {
      var arrived := s.arrived[p];
      ReplayInOrder(arrived, key);
      var entry := Replay(arrived)[key];
      var i :| 0 <= i < |arrived| && arrived[i] == Msg(key, entry.value, entry.version);
      var w :| 0 <= w < |s.log| && s.log[w] == arrived[i] && Over(s, w, p);
      RankedInHistory(s.log, w);
    }
  }

  /** No follower answers for another key: it hears the key as it is, or nothing. */
  predicate NotMisheard(key: string) {
    Heard(key).None? || Heard(key).value == "" || Heard(key).value == key
  }

  lemma LogGrows(c: Config, s: State, e: Event, key: string)
    requires LeaderInv(s)
    ensures s.log <= Next(c, s, e).log
    ensures Values(s.log, key) <= Values(Next(c, s, e).log, key)
    ensures |Values(Next(c, s, e).log, key)| <= |Values(s.log, key)| + 1
  {
    var t := Next(c, s, e);
    assert t.log == s.log || t.log[..|t.log| - 1] == s.log;
  }

  lemma LeaderEntryInHistory(s: State, key: string)
    requires LeaderInv(s)
    ensures VersionOf(s.leader, key) == |Values(s.log, key)|
    ensures key in s.leader ==> InHistory(s.log, key, s.leader[key])
  {
    assert Lookup(s.leader, key) == Register(s.log, key);
  }

  /** No follower holds an entry under the empty key. */
  lemma NamelessNotHeld(c: Config, s: State, p: nat)
    requires Inv(c, s) && p < c.peers
    ensures "" !in s.followers[p]
  {
    if "" in s.followers[p] {
      var i := ArrivalOf(s.arrived[p], "");
      ArrivedIsNamed(c, s, p, i);
    }
  }

  lemma ArrivedIsNamed(c: Config, s: State, p: nat, i: nat)
    requires Inv(c, s) && p < c.peers && i < |s.arrived[p]|
    ensures s.arrived[p][i].key != ""
  {
    var w :| 0 <= w < |s.log| && s.log[w] == s.arrived[p][i] && Over(s, w, p);
  }

  lemma {:induction false} ArrivalOf(arrived: seq<Msg>, key: string) returns (i: nat)
    requires key in Replay(arrived)
    ensures i < |arrived| && arrived[i].key == key
  {
    var last := |arrived| - 1;
    if arrived[last].key == key {
      i := last;
    } else {
      i := ArrivalOf(arrived[..last], key);
    }
  }

  /** The leader's state when `t` events had happened. */
  ghost function At(c: Config, events: seq<Event>, t: nat): State
    requires t <= |events|
  {
    Run(c, events[..t])
  }

  lemma OneStep(c: Config, events: seq<Event>, t: nat)
    requires t < |events|
    ensures At(c, events, t + 1) == Next(c, At(c, events, t), events[t])
    ensures LeaderInv(At(c, events, t))
  {
    assert events[..t + 1][..t] == events[..t];
    InvHolds(c, events[..t]);
  }

  lemma {:induction false} HistoryGrows(c: Config, events: seq<Event>, t: nat, u: nat, key: string)
    requires t <= u <= |events|
    ensures At(c, events, t).log <= At(c, events, u).log
    ensures Values(At(c, events, t).log, key) <= Values(At(c, events, u).log, key)
    decreases u
  {
    hide At, Next, Values, LeaderInv;
    if t < u {
      HistoryGrows(c, events, t, u - 1, key);
      OneStep(c, events, u - 1);
      LogGrows(c, At(c, events, u - 1), events[u - 1], key);
    }
  }

  lemma {:induction false} TimeCountsEvents(c: Config, events: seq<Event>)
    ensures Run(c, events).time == |events|
  {
    if events != [] {
      TimeCountsEvents(c, events[..|events| - 1]);
    }
  }

  /** Sorting by descending version leaves a newest sample in front. */
  lemma NewestFirst(samples: seq<Entry>, sorted: seq<Entry>)
    requires IsSortOf(sorted, samples)
    ensures sorted == [] <==> samples == []
    ensures sorted != [] ==> sorted[0] in samples
    ensures forall i :: 0 <= i < |samples| ==> sorted != [] && sorted[0].version >= samples[i].version
  {
    assert |sorted| == |samples| by {
      assert |multiset(sorted)| == |multiset(samples)|;
    }
    if sorted != [] {
      assert sorted[0] in multiset(samples);
    }
    forall i | 0 <= i < |samples| ensures sorted[0].version >= samples[i].version {
      assert samples[i] in multiset(sorted);
    }
  }

  lemma HasShape(c: Config, events: seq<Event>)
    ensures Shape(c, Run(c, events))
  {
    InvHolds(c, events);
  }

  lemma LeaderInvHolds(c: Config, events: seq<Event>)
    ensures LeaderInv(Run(c, events))
  {
    InvHolds(c, events);
  }

  predicate NoLoss(events: seq<Event>) {
    forall e :: e in events ==> !e.Lose? && !e.GiveUp?
  }

  lemma RunSnoc(c: Config, events: seq<Event>, e: Event)
    ensures Run(c, events + [e]) == Next(c, Run(c, events), e)
  {
    assert (events + [e])[..|events|] == events;
  }

  /** Appending an enabled event to a run that ended in `s`. */
  lemma Then(c: Config, events: seq<Event>, s: State, e: Event, t: State)
    requires Run(c, events) == s && Enabled(c, s, e) && t == Do(c, s, e).(time := s.time + 1)
    ensures Run(c, events + [e]) == t && (NoLoss(events) && !e.Lose? && !e.GiveUp? ==> NoLoss(events + [e]))
    ensures events <= events + [e]
  {
    RunSnoc(c, events, e);
  }

  /** An ack comes after the sends it waits for. */
  lemma AckedStep(c: Config, s: State, e: Event, w: nat, p: nat)
    requires |s.sends| == |s.log| && w < |Next(c, s, e).sends|
    requires w < |s.sends| && s.sends[w].acked && p < WaitsFor(c) ==> p in s.sends[w].finished
    ensures Next(c, s, e).sends[w].acked && p < WaitsFor(c) ==> p in Next(c, s, e).sends[w].finished
  {
    hide SetEntry, VersionOf, CanVisit, WithSample, IsSortOf, ReadsFrom;
  }
}
