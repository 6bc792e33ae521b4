/** The leaderless protocol of hw10: any node takes a write, applies it locally and sends
    it to all other nodes. A run is any list of events; a disabled event changes nothing. */
module Leaderless {
  import opened Common
  import opened VersionedStore

  /** A write: its coordinator, the writes that node had applied before it (`seen`), the
      peers whose send has returned, and whether the client got its answer. */
  datatype Write = Write(coordinator: nat, seen: set<nat>, finished: set<nat>, acked: bool)

  /** One call of `Set`. */
  datatype Application = Application(node: nat, write: nat, key: string)

  /** `late` are the messages, by write and peer, that may be applied though their send has failed. */
  datatype State = State(nodes: seq<Data>, log: seq<Msg>, writes: seq<Write>, sets: seq<Application>, late: set<(nat, nat)>)

  datatype Event =
    | Begin(node: nat, key: string, value: string)
    | Deliver(write: nat, peer: nat)
    | Lose(write: nat, peer: nat)
    | GiveUp(write: nat, peer: nat)
    | Ack(write: nat)

  function Init(n: nat): State {
    State(seq(n, _ => map[]), [], [], [], {})
  }

  predicate Wf(s: State) {
    && |s.writes| == |s.log|
    && (forall i :: 0 <= i < |s.writes| ==> s.writes[i].coordinator < |s.nodes|)
    && (forall message :: message in s.late ==> message.0 < |s.writes|)
  }

  /** The send of the write to the peer has not returned. */
  predicate Sending(s: State, w: nat, p: nat) {
    w < |s.writes| && p < |s.nodes| && p != s.writes[w].coordinator && p !in s.writes[w].finished
  }

  /** The write may still be applied at the peer. */
  predicate InFlight(s: State, w: nat, p: nat) {
    && w < |s.writes| && p < |s.nodes| && p != s.writes[w].coordinator
    && (p !in s.writes[w].finished || (w, p) in s.late)
  }

  predicate AllReturned(s: State, w: nat) {
    forall p | 0 <= p < |s.nodes| :: !Sending(s, w, p)
  }

  /** Nothing of the write is on its way any more. */
  predicate Quiet(s: State, w: nat) {
    forall p | 0 <= p < |s.nodes| :: !InFlight(s, w, p)
  }

  predicate Enabled(s: State, e: Event) {
    && |s.writes| == |s.log|
    && match e
       case Begin(n, key, _) => n < |s.nodes| && key != ""
       case Deliver(w, p) => InFlight(s, w, p)
       case Lose(w, p) => Sending(s, w, p)
       case GiveUp(w, p) => Sending(s, w, p)
       case Ack(w) => w < |s.writes| && AllReturned(s, w)
  }

  /** The writes a node has applied so far. */
  function AppliedAt(sets: seq<Application>, n: nat): set<nat> {
    set i | 0 <= i < |sets| && sets[i].node == n :: sets[i].write
  }

  function Do(s: State, e: Event): State
    requires Enabled(s, e)
  {
    match e
    case Begin(n, key, value) =>
      var node := SetEntry(s.nodes[n], key, value, 0);
      State(s.nodes[n := node],
            s.log + [Msg(key, value, VersionOf(node, key))],
            s.writes + [Write(n, AppliedAt(s.sets, n), {}, false)],
            s.sets + [Application(n, |s.log|, key)],
            s.late)
    case Deliver(w, p) =>
      var m := s.log[w];
      s.(nodes := s.nodes[p := SetEntry(s.nodes[p], m.key, m.value, m.version)],
         writes := s.writes[w := s.writes[w].(finished := s.writes[w].finished + {p})],
         sets := s.sets + [Application(p, w, m.key)],
         late := s.late - {(w, p)})
    case Lose(w, p) =>
      s.(writes := s.writes[w := s.writes[w].(finished := s.writes[w].finished + {p})])
    case GiveUp(w, p) =>
      s.(writes := s.writes[w := s.writes[w].(finished := s.writes[w].finished + {p})], late := s.late + {(w, p)})
    case Ack(w) =>
      s.(writes := s.writes[w := s.writes[w].(acked := true)])
  }

  function Next(s: State, e: Event): State {
    if Enabled(s, e) then Do(s, e) else s
  }

  function Run(n: nat, events: seq<Event>): State {
    if events == [] then Init(n)
    else Next(Run(n, events[..|events| - 1]), events[|events| - 1])
  }

  predicate NoLoss(events: seq<Event>) {
    forall e :: e in events ==> !e.Lose? && !e.GiveUp?
  }

  // ----- versions respect happens-before -----

  /** How often `Set` ran on a key, over all nodes. */
  function SetsOn(sets: seq<Application>, key: string): nat {
    if sets == [] then 0
    else SetsOn(sets[..|sets| - 1], key) + if sets[|sets| - 1].key == key then 1 else 0
  }

  /** The application is of a logged write, and the node's version has not gone below it. */
  ghost predicate SetInv(n: nat, s: State, a: Application) {
    && a.write < |s.log| && a.node < n == |s.nodes| && a.key == s.log[a.write].key
    && VersionOf(s.nodes[a.node], a.key) >= s.log[a.write].version
  }

  /** A new write is above all that its coordinator had applied to the key. */
  ghost predicate SeenInv(log: seq<Msg>, b: nat, seen: set<nat>)
    requires b < |log|
  {
    forall a :: a in seen ==> a < b && (log[a].key == log[b].key ==> log[a].version < log[b].version)
  }

  ghost predicate BoundInv(s: State) {
    && (forall p, k :: 0 <= p < |s.nodes| ==> VersionOf(s.nodes[p], k) <= SetsOn(s.sets, k))
    && (forall i :: 0 <= i < |s.log| ==> s.log[i].version <= SetsOn(s.sets, s.log[i].key))
  }

  ghost predicate VersionInv(n: nat, s: State) {
    && Wf(s) && |s.nodes| == n && BoundInv(s)
    && (forall i :: 0 <= i < |s.sets| ==> SetInv(n, s, s.sets[i]))
    && (forall b :: 0 <= b < |s.writes| ==> SeenInv(s.log, b, s.writes[b].seen))
  }

  lemma SetsOnSnoc(sets: seq<Application>, a: Application, key: string)
    ensures SetsOn(sets + [a], key) == SetsOn(sets, key) + if a.key == key then 1 else 0
  {
    assert (sets + [a])[..|sets|] == sets;
  }

  lemma BoundStep(s: State, e: Event)
    requires Wf(s) && BoundInv(s)
    ensures BoundInv(Next(s, e))
  {
    var t := Next(s, e);
    if Enabled(s, e) && (e.Begin? || e.Deliver?) {
      var a := t.sets[|s.sets|];
      forall k ensures SetsOn(t.sets, k) == SetsOn(s.sets, k) + if a.key == k then 1 else 0 {
        SetsOnSnoc(s.sets, a, k);
      }
      hide SetsOn;
    }
  }

  /** Nothing lowers a node's version. */
  lemma VersionsNeverDrop(s: State, e: Event, p: nat, key: string)
    requires p < |s.nodes|
    ensures |Next(s, e).nodes| == |s.nodes|
    ensures VersionOf(Next(s, e).nodes[p], key) >= VersionOf(s.nodes[p], key)
  {
  }

  lemma SetStep(n: nat, s: State, e: Event, i: nat)
    requires VersionInv(n, s) && i < |Next(s, e).sets|
    ensures SetInv(n, Next(s, e), Next(s, e).sets[i])
  {
    hide AppliedAt, SetsOn, SeenInv;
    if i < |s.sets| {
      assert SetInv(n, s, s.sets[i]);
      VersionsNeverDrop(s, e, s.sets[i].node, s.sets[i].key);
    }
  }

  lemma SeenStep(n: nat, s: State, e: Event, b: nat)
    requires VersionInv(n, s) && b < |Next(s, e).writes| == |Next(s, e).log|
    ensures SeenInv(Next(s, e).log, b, Next(s, e).writes[b].seen)
  {
    var t := Next(s, e);
    hide SetsOn;
    if b < |s.writes| {
      assert SeenInv(s.log, b, s.writes[b].seen);
      assert s.log <= t.log;
    } else {
      forall a | a in t.writes[b].seen ensures a < b && (t.log[a].key == t.log[b].key ==> t.log[a].version < t.log[b].version) {
        var i :| 0 <= i < |s.sets| && s.sets[i].node == e.node && s.sets[i].write == a;
        assert SetInv(n, s, s.sets[i]);
      }
    }
  }

  lemma WfStep(s: State, e: Event)
    requires Wf(s)
    ensures Wf(Next(s, e)) && |Next(s, e).nodes| == |s.nodes|
  {
    hide SetEntry, VersionOf, AppliedAt;
  }

  lemma VersionStep(n: nat, s: State, e: Event)
    requires VersionInv(n, s)
    ensures VersionInv(n, Next(s, e))
  {
    var t := Next(s, e);
    BoundStep(s, e);
    WfStep(s, e);
    hide Next, BoundInv, SetInv, SeenInv;
    forall i: nat | i < |t.sets| ensures SetInv(n, t, t.sets[i]) {
      SetStep(n, s, e, i);
    }
    forall b: nat | b < |t.writes| ensures SeenInv(t.log, b, t.writes[b].seen) {
      SeenStep(n, s, e, b);
    }
  }

  lemma {:induction false} VersionsHold(n: nat, events: seq<Event>)
    ensures VersionInv(n, Run(n, events))
  {
    if events != [] {
      VersionsHold(n, events[..|events| - 1]);
      VersionStep(n, Run(n, events[..|events| - 1]), events[|events| - 1]);
    }
  }

  /** Each write of the chain had been applied at the next one's coordinator, to the same
      key, before the next one was issued. */
  ghost predicate Chain(s: State, chain: seq<nat>)
    requires Wf(s)
  {
    && (forall i :: 0 <= i < |chain| ==> chain[i] < |s.log|)
    && (forall i :: 0 < i < |chain| ==>
          chain[i - 1] in s.writes[chain[i]].seen && s.log[chain[i - 1]].key == s.log[chain[i]].key)
  }

  /** Happens-before along any chain of writes to a key gives strictly growing versions. */
  lemma {:induction false} HappensBeforeOrdersVersions(n: nat, events: seq<Event>, chain: seq<nat>)
    requires Wf(Run(n, events)) && Chain(Run(n, events), chain) && |chain| >= 2
    ensures Run(n, events).log[chain[0]].version < Run(n, events).log[chain[|chain| - 1]].version
  {
    VersionsHold(n, events);
    if |chain| > 2 {
      HappensBeforeOrdersVersions(n, events, chain[..|chain| - 1]);
    }
  }

  /** No version, stored or sent, exceeds the number of `Set` calls on its key. */
  lemma VersionsBounded(n: nat, events: seq<Event>, p: nat, key: string, w: nat)
    ensures var s := Run(n, events);
            && |s.nodes| == n
            && (p < n ==> VersionOf(s.nodes[p], key) <= SetsOn(s.sets, key))
            && (w < |s.log| ==> s.log[w].version <= SetsOn(s.sets, s.log[w].key))
  {
    VersionsHold(n, events);
  }

  // ----- without losses: what delivery and acknowledgement give -----

  /** The write has been applied at the node, if nothing is lost. */
  predicate Knows(s: State, p: nat, w: nat)
    requires w < |s.writes|
  {
    p == s.writes[w].coordinator || p in s.writes[w].finished
  }

  /** The writes to a key that a node has applied. */
  ghost function Known(s: State, p: nat, key: string): set<nat>
    requires Wf(s)
  {
    set w: nat | w < |s.log| && s.log[w].key == key && Knows(s, p, w)
  }

  ghost predicate KnownInv(s: State) {
    && Wf(s)
    && (forall p: nat, k :: p < |s.nodes| ==> VersionOf(s.nodes[p], k) >= |Known(s, p, k)|)
    && (forall p: nat, w: nat :: p < |s.nodes| && w < |s.log| && Knows(s, p, w) ==>
          VersionOf(s.nodes[p], s.log[w].key) >= s.log[w].version)
    && (forall p: nat, w: nat :: p < |s.nodes| && w < |s.log| && s.writes[w].acked ==> Knows(s, p, w))
  }

  lemma KnownAfter(s: State, e: Event, p: nat, key: string)
    requires Wf(s) && !e.Lose? && !e.GiveUp? && p < |s.nodes|
    ensures Wf(Next(s, e))
    ensures Known(Next(s, e), p, key) == Known(s, p, key) +
            if !Enabled(s, e) then {}
            else if e.Begin? && e.node == p && e.key == key then {|s.log|}
            else if e.Deliver? && e.peer == p && s.log[e.write].key == key then {e.write}
            else {}
  {
    var t := Next(s, e);
    forall w: nat | w < |s.log| && (!e.Deliver? || w != e.write || p != e.peer)
      ensures Knows(t, p, w) <==> Knows(s, p, w)
    {
    }
  }

  lemma KnownStep(s: State, e: Event, p: nat, key: string)
    requires KnownInv(s) && !e.Lose? && !e.GiveUp? && p < |s.nodes|
    ensures Wf(Next(s, e)) && |Next(s, e).nodes| == |s.nodes|
    ensures VersionOf(Next(s, e).nodes[p], key) >= |Known(Next(s, e), p, key)|
  {
    KnownAfter(s, e, p, key);
    VersionsNeverDrop(s, e, p, key);
    assert VersionOf(s.nodes[p], key) >= |Known(s, p, key)|;
    hide Known;
  }

  lemma KnowsStep(s: State, e: Event, p: nat, w: nat)
    requires KnownInv(s) && !e.Lose? && !e.GiveUp? && p < |s.nodes|
    ensures var t := Next(s, e);
            w < |t.log| && |t.writes| == |t.log| && |t.nodes| == |s.nodes| ==>
              && (Knows(t, p, w) ==> VersionOf(t.nodes[p], t.log[w].key) >= t.log[w].version)
              && (t.writes[w].acked ==> Knows(t, p, w))
  {
    var t := Next(s, e);
    if w < |s.log| {
      VersionsNeverDrop(s, e, p, s.log[w].key);
      assert s.writes[w].acked ==> Knows(s, p, w);
      if Enabled(s, e) && e.Ack? && e.write == w {
        assert !Sending(s, w, p);
      }
    }
  }

  lemma {:induction false} KnownHolds(n: nat, events: seq<Event>)
    requires NoLoss(events)
    ensures KnownInv(Run(n, events)) && |Run(n, events).nodes| == n
  {
    if events != [] {
      var before, e := events[..|events| - 1], events[|events| - 1];
      KnownHolds(n, before);
      var s, t := Run(n, before), Run(n, events);
      assert t == Next(s, e);
      hide Run, Next, Known, Knows, KnownInv;
      forall p: nat, k | p < n ensures Wf(t) && |t.nodes| == n && VersionOf(t.nodes[p], k) >= |Known(t, p, k)| {
        KnownStep(s, e, p, k);
      }
      forall p: nat, w: nat | p < n && w < |t.log| && Wf(t) && |t.nodes| == n
        ensures Knows(t, p, w) ==> VersionOf(t.nodes[p], t.log[w].key) >= t.log[w].version
        ensures t.writes[w].acked ==> Knows(t, p, w)
      {
        KnowsStep(s, e, p, w);
      }
    }
  }

  lemma {:induction false} CountWrites(log: seq<Msg>, key: string)
    ensures |set w: nat | w < |log| && log[w].key == key| == |Values(log, key)|
  {
    if log != [] {
      var front := log[..|log| - 1];
      CountWrites(front, key);
      var before := set w: nat | w < |front| && front[w].key == key;
      var after := set w: nat | w < |log| && log[w].key == key;
      if log[|log| - 1].key == key {
        assert after == before + {|log| - 1};
      } else {
        assert after == before;
      }
    }
  }

  /** With every message for a key delivered, every node's version is at least the number of
      writes to it. */
  lemma DeliveredVersionsCountWrites(n: nat, events: seq<Event>, p: nat, key: string)
    requires NoLoss(events) && p < n
    requires forall w :: 0 <= w < |Run(n, events).log| && Run(n, events).log[w].key == key ==> AllReturned(Run(n, events), w)
    ensures |Run(n, events).nodes| == n
    ensures VersionOf(Run(n, events).nodes[p], key) >= |Values(Run(n, events).log, key)|
  {
    var s := Run(n, events);
    KnownHolds(n, events);
    CountWrites(s.log, key);
    forall w: nat | w < |s.log| && s.log[w].key == key ensures Knows(s, p, w) {
      assert AllReturned(s, w) && !Sending(s, w, p);
    }
    assert Known(s, p, key) == set w: nat | w < |s.log| && s.log[w].key == key;
  }

  lemma WriteLasts(s: State, e: Event, w: nat)
    requires w < |s.writes| == |s.log|
    ensures var t := Next(s, e);
            && w < |t.writes| == |t.log| && t.log[w] == s.log[w]
            && (s.writes[w].acked ==> t.writes[w].acked)
  {
  }

  lemma {:induction false} WritesLast(n: nat, events: seq<Event>, t: nat, w: nat)
    requires t <= |events| && w < |Run(n, events[..t]).writes| == |Run(n, events[..t]).log|
    ensures w < |Run(n, events).writes| == |Run(n, events).log|
    ensures Run(n, events).log[w] == Run(n, events[..t]).log[w]
    ensures Run(n, events[..t]).writes[w].acked ==> Run(n, events).writes[w].acked
    decreases |events|
  {
    if t == |events| {
      assert events[..t] == events;
    } else {
      var before := events[..|events| - 1];
      assert Run(n, events) == Next(Run(n, before), events[|events| - 1]);
      hide Run, Next;
      assert before[..t] == events[..t];
      WritesLast(n, before, t, w);
      WriteLasts(Run(n, before), events[|events| - 1], w);
    }
  }

  /** The ack floor, W = N: with nothing lost, once a write is acknowledged every node has
      at least its version, then and at every later time, in any delivery order. */
  lemma AckFloor(n: nat, events: seq<Event>, t: nat, w: nat, p: nat)
    requires NoLoss(events) && t <= |events| && p < n
    requires w < |Run(n, events[..t]).writes| && Run(n, events[..t]).writes[w].acked
    ensures p < |Run(n, events).nodes| && w < |Run(n, events[..t]).log|
    ensures VersionOf(Run(n, events).nodes[p], Run(n, events[..t]).log[w].key) >= Run(n, events[..t]).log[w].version
  {
    hide Run;
    VersionsHold(n, events[..t]);
    WritesLast(n, events, t, w);
    KnownHolds(n, events);
    assert Knows(Run(n, events), p, w);
  }

  // ----- writes to a key issued one after another -----

  /** Each write to the key is issued after all earlier writes to it were acknowledged. */
  ghost predicate OneAtATime(n: nat, events: seq<Event>, key: string) {
    forall t :: 0 <= t < |events| && events[t].Begin? && events[t].key == key ==> AllAcked(Run(n, events[..t]), key)
  }

  ghost predicate AllAcked(s: State, key: string) {
    Wf(s) && forall w :: 0 <= w < |s.log| && s.log[w].key == key ==> s.writes[w].acked
  }

  /** Each write to the key carries its rank among them. */
  ghost predicate RankedFor(log: seq<Msg>, key: string) {
    forall w :: 0 <= w < |log| && log[w].key == key ==> log[w].version == |Values(log[..w], key)| + 1
  }

  /** The key's acknowledged writes, and all but the last of its writes, are known everywhere. */
  ghost predicate KnowsInv(s: State, key: string) {
    && Wf(s) && RankedFor(s.log, key) && s.late == {}
    && (forall p: nat, w: nat :: p < |s.nodes| && w < |s.log| && s.log[w].key == key && s.writes[w].acked ==> Knows(s, p, w))
    && (forall p: nat, w: nat, v: nat :: p < |s.nodes| && w < v < |s.log| && s.log[w].key == key == s.log[v].key ==> Knows(s, p, w))
  }

  ghost predicate KnowsAll(s: State, p: nat, key: string)
    requires Wf(s)
  {
    forall w: nat :: w < |s.log| && s.log[w].key == key ==> Knows(s, p, w)
  }

  /** What a node holds that lacks the write: the register from just before it. */
  ghost predicate HoldsBefore(s: State, p: nat, w: nat)
    requires p < |s.nodes| && w < |s.log|
  {
    Lookup(s.nodes[p], s.log[w].key) == Register(s.log[..w], s.log[w].key)
  }

  /** A node that knows all writes to the key holds the key's register. */
  ghost predicate AgreeInv(s: State, key: string) {
    && KnowsInv(s, key)
    && (forall p: nat, w: nat :: p < |s.nodes| && w < |s.log| && s.log[w].key == key && !Knows(s, p, w) ==> HoldsBefore(s, p, w))
    && (forall p: nat :: p < |s.nodes| && KnowsAll(s, p, key) ==> Lookup(s.nodes[p], key) == Register(s.log, key))
  }

  /** If w is the last write to its key, the register is w itself. */
  lemma {:induction false} RegisterOfLast(log: seq<Msg>, w: nat, n: nat)
    requires w < n <= |log| && RankedFor(log, log[w].key)
    requires forall v :: w < v < |log| ==> log[v].key != log[w].key
    ensures Register(log[..n], log[w].key) == Some(Entry(log[w].value, log[w].version))
  {
    assert log[..n][..n - 1] == log[..n - 1];
    if n > w + 1 {
      RegisterOfLast(log, w, n - 1);
    }
  }

  /** An event that is about another key, or acknowledges. */
  predicate Aside(s: State, e: Event, key: string) {
    match e
    case Begin(_, k, _) => k != key
    case Deliver(w, _) => w < |s.log| ==> s.log[w].key != key
    case Lose(_, _) => false
    case GiveUp(_, _) => false
    case Ack(_) => true
  }

  /** Such an event leaves the key's writes and every node's entry alone. */
  lemma AsideKeeps(s: State, e: Event, key: string)
    requires Wf(s) && Aside(s, e, key)
    ensures var t := Next(s, e);
            && Wf(t) && |t.nodes| == |s.nodes| && s.log <= t.log
            && (forall w :: |s.log| <= w < |t.log| ==> t.log[w].key != key)
            && (forall p :: 0 <= p < |s.nodes| ==> Lookup(t.nodes[p], key) == Lookup(s.nodes[p], key))
            && (forall p: nat, w: nat :: p < |s.nodes| && w < |s.log| && s.log[w].key == key ==> (Knows(t, p, w) <==> Knows(s, p, w)))
  {
    hide VersionOf;
  }

  lemma AckMeansKnown(s: State, e: Event, key: string, p: nat, w: nat)
    requires KnowsInv(s, key) && Aside(s, e, key) && p < |s.nodes| && w < |s.log| && s.log[w].key == key
    requires Next(s, e).writes[w].acked
    ensures Knows(s, p, w)
  {
    if !s.writes[w].acked {
      assert AllReturned(s, w);
      assert !Sending(s, w, p);
    }
  }

  lemma {:induction false} RegisterAside(log: seq<Msg>, more: seq<Msg>, key: string)
    requires log <= more && forall w :: |log| <= w < |more| ==> more[w].key != key
    ensures Values(more, key) == Values(log, key) && Register(more, key) == Register(log, key)
    decreases |more|
  {
    if |more| == |log| {
      assert more == log;
    } else {
      RegisterAside(log, more[..|more| - 1], key);
    }
  }

  lemma AsideKnows(s: State, e: Event, key: string)
    requires KnowsInv(s, key) && Aside(s, e, key)
    ensures KnowsInv(Next(s, e), key)
  {
    var t := Next(s, e);
    AsideKeeps(s, e, key);
    forall w | 0 <= w < |t.log| && t.log[w].key == key ensures t.log[w].version == |Values(t.log[..w], key)| + 1 {
      assert t.log[..w] == s.log[..w];
    }
    forall p: nat, w: nat | p < |t.nodes| && w < |t.log| && t.log[w].key == key && t.writes[w].acked ensures Knows(t, p, w) {
      AckMeansKnown(s, e, key, p, w);
    }
  }

  lemma AgreeAsideStep(s: State, e: Event, key: string)
    requires AgreeInv(s, key) && Aside(s, e, key)
    ensures AgreeInv(Next(s, e), key)
  {
    var t := Next(s, e);
    AsideKnows(s, e, key);
    AsideKeeps(s, e, key);
    RegisterAside(s.log, t.log, key);
    hide Next, Aside, Register, KnowsInv, Knows;
    forall p: nat, w: nat | p < |t.nodes| && w < |t.log| && t.log[w].key == key && !Knows(t, p, w) ensures HoldsBefore(t, p, w) {
      assert HoldsBefore(s, p, w);
      assert t.log[..w] == s.log[..w];
    }
    forall p: nat | p < |t.nodes| && KnowsAll(t, p, key) ensures Lookup(t.nodes[p], key) == Register(t.log, key) {
      assert KnowsAll(s, p, key);
    }
  }

  lemma BeginKnows(s: State, e: Event)
    requires e.Begin? && KnowsInv(s, e.key) && Enabled(s, e) && AllAcked(s, e.key)
    requires VersionOf(s.nodes[e.node], e.key) == |Values(s.log, e.key)|
    ensures KnowsInv(Next(s, e), e.key) && |Next(s, e).nodes| == |s.nodes| && |Next(s, e).log| == |s.log| + 1
    ensures forall p: nat, w: nat :: p < |s.nodes| && w < |s.log| ==> (Knows(Next(s, e), p, w) <==> Knows(s, p, w))
    ensures forall p: nat :: p < |s.nodes| ==> (Knows(Next(s, e), p, |s.log|) <==> p == e.node)
  {
    hide AppliedAt, Values;
    var t := Next(s, e);
    forall w | 0 <= w < |t.log| && t.log[w].key == e.key ensures t.log[w].version == |Values(t.log[..w], e.key)| + 1 {
      assert t.log[..w] == s.log[..w] && s.log[..|s.log|] == s.log;
    }
    forall p: nat, w: nat | p < |t.nodes| && w < |t.log| && t.log[w].key == e.key && t.writes[w].acked ensures Knows(t, p, w) {
      assert Knows(s, p, w);
    }
    forall p: nat, w: nat, v: nat | p < |t.nodes| && w < v < |t.log| && t.log[w].key == e.key == t.log[v].key
      ensures Knows(t, p, w)
    {
      assert Knows(s, p, w);
    }
  }

  lemma AgreeBeginStep(s: State, e: Event)
    requires e.Begin? && AgreeInv(s, e.key) && Enabled(s, e) && AllAcked(s, e.key)
    ensures AgreeInv(Next(s, e), e.key)
  {
    var t, key, m := Next(s, e), e.key, Next(s, e).log[|s.log|];
    forall p: nat | p < |s.nodes| ensures Lookup(s.nodes[p], key) == Register(s.log, key) {
      assert KnowsAll(s, p, key);
    }
    assert Lookup(s.nodes[e.node], key) == Register(s.log, key);
    BeginKnows(s, e);
    assert t.log == s.log + [m];
    RegisterSnoc(s.log, m, key);
    assert Lookup(t.nodes[e.node], key) == Some(Entry(m.value, m.version));
    assert forall p: nat :: p < |s.nodes| && p != e.node ==> t.nodes[p] == s.nodes[p];
    assert forall w: nat, p: nat :: w < |s.log| && s.log[w].key == key && p < |s.nodes| ==> Knows(s, p, w);
    hide Register, Values, RankedFor, AppliedAt, Knows, Next, KnowsInv;
    forall p: nat, w: nat | p < |t.nodes| && w < |t.log| && t.log[w].key == key && !Knows(t, p, w) ensures HoldsBefore(t, p, w) {
      assert w == |s.log| && t.log[..w] == s.log;
    }
    forall p: nat | p < |t.nodes| && KnowsAll(t, p, key) ensures Lookup(t.nodes[p], key) == Register(t.log, key) {
      assert Knows(t, p, |s.log|);
    }
  }

  lemma KnowsMore(s: State, w: nat, p: nat)
    requires Wf(s) && Enabled(s, Deliver(w, p))
    ensures Wf(Next(s, Deliver(w, p)))
    ensures forall q: nat, v: nat :: q < |s.nodes| && v < |s.log| ==>
              (Knows(Next(s, Deliver(w, p)), q, v) <==> Knows(s, q, v) || (q == p && v == w))
  {
    hide Values, SetEntry;
  }

  lemma DeliverKnows(s: State, w: nat, p: nat, key: string)
    requires KnowsInv(s, key) && Enabled(s, Deliver(w, p))
    ensures KnowsInv(Next(s, Deliver(w, p)), key)
  {
    KnowsMore(s, w, p);
    hide Knows, SetEntry, RankedFor;
  }

  /** A delivered write is the key's last one, and brings its node up to the register. */
  lemma DeliverLast(s: State, w: nat, p: nat)
    requires Enabled(s, Deliver(w, p)) && AgreeInv(s, s.log[w].key)
    ensures var t, key := Next(s, Deliver(w, p)), s.log[w].key;
            && |t.nodes| == |s.nodes| && t.log == s.log
            && (forall q: nat :: q < |s.nodes| && q != p ==> t.nodes[q] == s.nodes[q])
            && Lookup(t.nodes[p], key) == Register(s.log, key)
  {
    var t, key := Next(s, Deliver(w, p)), s.log[w].key;
    assert !Knows(s, p, w);
    assert HoldsBefore(s, p, w);
    assert forall v :: w < v < |s.log| ==> s.log[v].key != key;
    RegisterOfLast(s.log, w, |s.log|);
    assert s.log[..|s.log|] == s.log;
    assert VersionOf(s.nodes[p], key) == |Values(s.log[..w], key)|;
    hide Values, KnowsInv, AgreeInv;
  }

  lemma AgreeDeliverStep(s: State, w: nat, p: nat)
    requires Enabled(s, Deliver(w, p)) && AgreeInv(s, s.log[w].key)
    ensures AgreeInv(Next(s, Deliver(w, p)), s.log[w].key)
  {
    var t, key := Next(s, Deliver(w, p)), s.log[w].key;
    DeliverLast(s, w, p);
    DeliverKnows(s, w, p, key);
    KnowsMore(s, w, p);
    assert !Knows(s, p, w);
    forall v: nat | v < |s.log| && s.log[v].key == key && v != w ensures Knows(s, p, v) {
      assert v < w;
    }
    hide Register, Next, Knows, KnowsInv;
    forall q: nat, v: nat | q < |t.nodes| && v < |t.log| && t.log[v].key == key && !Knows(t, q, v) ensures HoldsBefore(t, q, v) {
      assert q != p;
      assert HoldsBefore(s, q, v);
    }
    forall q: nat | q < |t.nodes| && KnowsAll(t, q, key) ensures Lookup(t.nodes[q], key) == Register(t.log, key) {
      if q != p {
        assert KnowsAll(s, q, key);
      }
    }
  }

  lemma {:induction false} AgreeHolds(n: nat, events: seq<Event>, key: string)
    requires NoLoss(events) && OneAtATime(n, events, key)
    ensures AgreeInv(Run(n, events), key) && |Run(n, events).nodes| == n
  {
    if events != [] {
      var before, e := events[..|events| - 1], events[|events| - 1];
      assert forall t :: 0 <= t < |before| ==> before[..t] == events[..t];
      AgreeHolds(n, before, key);
      var s := Run(n, before);
      assert Run(n, events) == Next(s, e);
      VersionsHold(n, events);
      hide Run, AgreeInv, Next;
      if Aside(s, e, key) {
        AgreeAsideStep(s, e, key);
      } else if Enabled(s, e) {
        match e
        case Begin(_, k, _) => AgreeBeginStep(s, e);
        case Deliver(w, p) => AgreeDeliverStep(s, w, p);
      } else {
        DisabledStays(s, e);
      }
    }
  }

  lemma DisabledStays(s: State, e: Event)
    requires !Enabled(s, e)
    ensures Next(s, e) == s
  {
  }

  /** Agreement. Writes to a key issued one at a time, through any coordinators, with
      nothing lost, while writes to other keys may overlap: whenever all writes to the key
      are acknowledged, every node holds the last value under their number as its version. */
  lemma NodesAgree(n: nat, events: seq<Event>, key: string, p: nat)
    requires NoLoss(events) && OneAtATime(n, events, key) && p < n
    requires AllAcked(Run(n, events), key)
    ensures p < |Run(n, events).nodes|
    ensures Lookup(Run(n, events).nodes[p], key) == Register(Run(n, events).log, key)
  {
    AgreeHolds(n, events, key);
    assert KnowsAll(Run(n, events), p, key);
  }

  // ----- overlapping writes can disagree for good -----

  lemma RunSnoc(n: nat, events: seq<Event>, e: Event)
    ensures Run(n, events + [e]) == Next(Run(n, events), e)
  {
    assert (events + [e])[..|events|] == events;
  }

  lemma SettledStep(s: State, e: Event)
    requires forall w :: 0 <= w < |s.writes| ==> Quiet(s, w)
    requires !e.Begin?
    ensures Next(s, e).nodes == s.nodes && |Next(s, e).writes| == |s.writes|
    ensures forall w :: 0 <= w < |s.writes| ==> Quiet(Next(s, e), w)
  {
    hide SetEntry;
    forall w: nat, p: nat ensures !InFlight(s, w, p) {
      if w < |s.writes| {
        assert Quiet(s, w);
      }
    }
    forall w, p | 0 <= w < |s.writes| && 0 <= p < |s.nodes| ensures !InFlight(Next(s, e), w, p) {
      assert !InFlight(s, w, p);
    }
  }

  /** Once nothing is on its way, nothing but a new write changes any node. */
  lemma {:induction false} SettledStays(n: nat, events: seq<Event>, more: seq<Event>)
    requires forall w :: 0 <= w < |Run(n, events).writes| ==> Quiet(Run(n, events), w)
    requires forall e :: e in more ==> !e.Begin?
    ensures Run(n, events + more).nodes == Run(n, events).nodes
    ensures |Run(n, events + more).writes| == |Run(n, events).writes|
    ensures forall w :: 0 <= w < |Run(n, events).writes| ==> Quiet(Run(n, events + more), w)
  {
    if more == [] {
      assert events + more == events;
    } else {
      var front, e := more[..|more| - 1], more[|more| - 1];
      assert events + more == events + front + [e];
      RunSnoc(n, events + front, e);
      hide Run;
      SettledStays(n, events, front);
      var s := Run(n, events + front);
      SettledStep(s, e);
    }
  }

  const A1 := Msg("x", "a", 1)
  const B1 := Msg("x", "b", 1)

  /** Both nodes take a write to "x" before either hears of the other's. */
  lemma OverlapBegins()
    ensures var s := Next(Next(Init(2), Begin(0, "x", "a")), Begin(1, "x", "b"));
            && s.nodes == [map["x" := Entry("a", 1)], map["x" := Entry("b", 1)]]
            && s.log == [A1, B1] && |s.writes| == 2
            && s.writes[0].coordinator == 0 && s.writes[1].coordinator == 1
            && s.writes[0].finished == {} && s.writes[1].finished == {}
  {
  }

  lemma OverlapDelivers(s: State)
    requires s.nodes == [map["x" := Entry("a", 1)], map["x" := Entry("b", 1)]]
    requires s.log == [A1, B1] && |s.writes| == 2
    requires s.writes[0].coordinator == 0 && s.writes[1].coordinator == 1
    requires s.writes[0].finished == {} && s.writes[1].finished == {}
    ensures var t := Next(Next(s, Deliver(0, 1)), Deliver(1, 0));
            && t.nodes == [map["x" := Entry("b", 2)], map["x" := Entry("a", 2)]]
            && t.log == [A1, B1] && |t.writes| == 2
            && Quiet(t, 0) && Quiet(t, 1)
  {
    var u := Next(s, Deliver(0, 1));
    assert s.nodes[1]["x" := Entry("a", 2)] == map["x" := Entry("a", 2)];
    assert s.nodes[0]["x" := Entry("b", 2)] == map["x" := Entry("b", 2)];
    assert u.nodes == [map["x" := Entry("a", 1)], map["x" := Entry("a", 2)]];
    var t := Next(u, Deliver(1, 0));
    assert t.nodes == [map["x" := Entry("b", 2)], map["x" := Entry("a", 2)]];
  }

  lemma QuietHasReturned(s: State, w: nat)
    requires Quiet(s, w)
    ensures AllReturned(s, w)
  {
    forall p | 0 <= p < |s.nodes| ensures !Sending(s, w, p) {
      assert !InFlight(s, w, p);
    }
  }

  lemma OverlapAcks(s: State)
    requires |s.writes| == 2 == |s.log| && Quiet(s, 0) && Quiet(s, 1)
    ensures var t := Next(Next(s, Ack(0)), Ack(1));
            && t.nodes == s.nodes && |t.writes| == 2
            && t.writes[0].acked && t.writes[1].acked && Quiet(t, 0) && Quiet(t, 1)
  {
    QuietHasReturned(s, 0);
    var u := Next(s, Ack(0));
    forall p | 0 <= p < |s.nodes| ensures !InFlight(u, 0, p) && !InFlight(u, 1, p) {
      assert !InFlight(s, 0, p) && !InFlight(s, 1, p);
    }
    QuietHasReturned(u, 1);
    var t := Next(u, Ack(1));
    forall p | 0 <= p < |s.nodes| ensures !InFlight(t, 0, p) && !InFlight(t, 1, p) {
      assert !InFlight(u, 0, p) && !InFlight(u, 1, p);
    }
  }

  function OverlapEnd(): State {
    var s2 := Next(Next(Init(2), Begin(0, "x", "a")), Begin(1, "x", "b"));
    var s4 := Next(Next(s2, Deliver(0, 1)), Deliver(1, 0));
    Next(Next(s4, Ack(0)), Ack(1))
  }

  lemma Extend(events: seq<Event>, e: Event) returns (longer: seq<Event>)
    requires NoLoss(events) && !e.Lose? && !e.GiveUp?
    ensures longer == events + [e] && NoLoss(longer) && Run(2, longer) == Next(Run(2, events), e)
  {
    longer := events + [e];
    RunSnoc(2, events, e);
  }

  lemma OverlapRun() returns (events: seq<Event>)
    ensures NoLoss(events) && Run(2, events) == OverlapEnd()
  {
    assert Run(2, []) == Init(2);
    events := [];
    assert NoLoss(events);
    hide Run, Next, NoLoss;
    events := Extend(events, Begin(0, "x", "a"));
    events := Extend(events, Begin(1, "x", "b"));
    events := Extend(events, Deliver(0, 1));
    events := Extend(events, Deliver(1, 0));
    events := Extend(events, Ack(0));
    events := Extend(events, Ack(1));
  }

  lemma OverlapEnds()
    ensures var s := OverlapEnd();
            && s.nodes == [map["x" := Entry("b", 2)], map["x" := Entry("a", 2)]]
            && |s.writes| == 2
            && s.writes[0].acked && s.writes[1].acked && Quiet(s, 0) && Quiet(s, 1)
  {
    var s2 := Next(Next(Init(2), Begin(0, "x", "a")), Begin(1, "x", "b"));
    var s4 := Next(Next(s2, Deliver(0, 1)), Deliver(1, 0));
    OverlapBegins();
    hide Next, Quiet;
    OverlapDelivers(s2);
    OverlapAcks(s4);
  }

  /** Two overlapping writes, nothing lost, both acknowledged: the two nodes hold different
      values under the same version, and keep them until a new write is issued. */
  lemma OverlappingWritesDisagree() returns (events: seq<Event>)
    ensures NoLoss(events)
    ensures |Run(2, events).writes| == 2 && forall w :: w in Run(2, events).writes ==> w.acked
    ensures forall more: seq<Event> :: (forall e :: e in more ==> !e.Begin?) ==>
              Run(2, events + more).nodes == [map["x" := Entry("b", 2)], map["x" := Entry("a", 2)]]
  {
    events := OverlapRun();
    OverlapEnds();
    hide Run, Next, OverlapEnd, Quiet, NoLoss;
    forall more: seq<Event> | forall e :: e in more ==> !e.Begin?
      ensures Run(2, events + more).nodes == Run(2, events).nodes
    {
      SettledStays(2, events, more);
    }
  }

  // ----- the handlers, as they touch a node's store -----

  /** The coordinator's local part of a write: the request it then sends to every peer. */
  method HandleSet(store: Store, isPost: bool, key: string, value: string) returns (status: Status, request: Option<Msg>)
    modifies store
    ensures status == if !isPost then MethodNotAllowed else if key == "" then BadRequest else Created
    ensures status != Created ==> store.data == old(store.data) && request == None
    ensures status == Created ==>
              && store.data == SetEntry(old(store.data), key, value, 0)
              && request == Some(Msg(key, value, VersionOf(old(store.data), key) + 1))
  {
    if !isPost {
      return MethodNotAllowed, None;
    }
    if key == "" {
      return BadRequest, None;
    }
    var version := store.Set(key, value, 0);
    return Created, Some(Msg(key, value, version));
  }

  method HandleReplicate(store: Store, request: Msg)
    modifies store
    ensures store.data == SetEntry(old(store.data), request.key, request.value, request.version)
  {
    var _ := store.Set(request.key, request.value, request.version);
  }

  /** A read is served from this node alone. */
  method HandleGet(store: Store, key: string) returns (status: Status, entry: Option<Entry>)
    ensures entry == if key == "" then None else Lookup(store.data, key)
    ensures status == if key == "" then BadRequest else if entry == None then NotFound else Found
  {
    if key == "" {
      return BadRequest, None;
    }
    entry := store.Get(key);
    status := if entry.None? then NotFound else Found;
  }
}
