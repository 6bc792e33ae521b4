/** hw10's leader when its followers cannot be reached: writes are still acknowledged and reads
    still answered, from the leader alone. */
module Outages {
  import opened Common
  import opened VersionedStore
  import opened LeaderFollower

  // ----- writes -----

  function Losses(w: nat, k: nat): seq<Event> {
    seq(k, p requires 0 <= p < k => Lose(w, p))
  }

  /** The first k sends of the write have failed, and nothing else happened. */
  ghost predicate LostTo(s: State, t: State, w: nat, k: nat) {
    && w < |s.sends| == |t.sends| && t.leader == s.leader && t.followers == s.followers
    && t.sends[w].finished == Below(k)
  }

  lemma LoseStep(c: Config, s: State, t: State, w: nat, k: nat)
    requires LostTo(s, t, w, k) && k < WaitsFor(c) <= c.peers
    ensures LostTo(s, Next(c, t, Lose(w, k)), w, k + 1)
  {
    BelowNext(k);
    hide Below, SetEntry, IsSortOf;
    assert Enabled(c, t, Lose(w, k));
  }

  lemma BelowNext(k: nat)
    ensures k !in Below(k) && Below(k + 1) == Below(k) + {k} && (k < 2 || Below(2) <= Below(k))
  {
  }

  lemma LossesNext(events: seq<Event>, w: nat, k: nat)
    ensures if k == 0 then events + Losses(w, 0) == events
            else events + Losses(w, k) == events + Losses(w, k - 1) + [Lose(w, k - 1)]
  {
  }

  lemma {:induction false} LoseAll(c: Config, s: State, events: seq<Event>, w: nat, k: nat)
    requires LostTo(s, Run(c, events), w, 0) && k <= WaitsFor(c) <= c.peers
    ensures LostTo(s, Run(c, events + Losses(w, k)), w, k)
  {
    hide *;
    LossesNext(events, w, k);
    if k > 0 {
      LoseAll(c, s, events, w, k - 1);
      RunSnoc(c, events + Losses(w, k - 1), Lose(w, k - 1));
      LoseStep(c, s, Run(c, events + Losses(w, k - 1)), w, k - 1);
    }
  }

  lemma BeginHere(c: Config, s: State, key: string, value: string)
    requires key != ""
    ensures var t := Next(c, s, BeginWrite(key, value));
            && |t.sends| == |s.sends| + 1 && LostTo(t, t, |s.sends|, 0) && t.followers == s.followers
            && Lookup(t.leader, key) == Some(Entry(value, VersionOf(s.leader, key) + 1))
  {
  }

  lemma AckNow(c: Config, s: State, t: State, w: nat)
    requires LostTo(s, t, w, WaitsFor(c))
    ensures var u := Next(c, t, AckWrite(w));
            w < |s.sends| == |u.sends| && u.sends[w].acked && u.leader == s.leader && u.followers == s.followers
  {
  }

  lemma BegunIsAcked(c: Config, s: State, events: seq<Event>, w: nat) returns (more: seq<Event>)
    requires s == Run(c, events) && LostTo(s, s, w, 0) && WaitsFor(c) <= c.peers
    ensures var t := Run(c, events + more);
            w < |s.sends| == |t.sends| && t.sends[w].acked && t.leader == s.leader && t.followers == s.followers
  {
    hide *;
    var k := WaitsFor(c);
    more := Losses(w, k) + [AckWrite(w)];
    assert events + (Losses(w, k) + [AckWrite(w)]) == events + Losses(w, k) + [AckWrite(w)];
    LoseAll(c, s, events, w, k);
    RunSnoc(c, events + Losses(w, k), AckWrite(w));
    AckNow(c, s, Run(c, events + Losses(w, k)), w);
  }

  /** From every state that can be reached a write can be acknowledged although it is at the
      leader alone, in every mode: a send that fails counts as returned. */
  lemma AckedWhereFollowersAreDown(c: Config, events: seq<Event>, key: string, value: string) returns (more: seq<Event>)
    requires key != "" && (c.mode.Quorum? ==> c.peers >= 2)
    ensures var s, t := Run(c, events), Run(c, events + more);
            && |t.sends| == |s.sends| + 1 && t.sends[|s.sends|].acked && t.followers == s.followers
            && Lookup(t.leader, key) == Some(Entry(value, VersionOf(s.leader, key) + 1))
  {
    assert WaitsFor(c) <= c.peers;
    hide *;
    var s, begun := Run(c, events), events + [BeginWrite(key, value)];
    RunSnoc(c, events, BeginWrite(key, value));
    BeginHere(c, s, key, value);
    var rest := BegunIsAcked(c, Run(c, begun), begun, |s.sends|);
    more := [BeginWrite(key, value)] + rest;
    assert events + more == begun + rest;
  }

  lemma InThree(events: seq<Event>, a: seq<Event>, b: seq<Event>, d: seq<Event>)
    ensures events + (a + b + d) == events + a + b + d
  {
  }

  // ----- reads -----

  function Misses(r: nat, k: nat): seq<Event> {
    seq(k, p requires 0 <= p < k => MissPeer(r, p))
  }

  /** The newest read has the leader's entry and no answer from the first k followers. */
  ghost predicate MissedTo(s: State, t: State, key: string, k: nat) {
    && t.leader == s.leader && |t.clients| == |s.clients| + 1
    && var read := t.clients[|s.clients|];
       && read.key == key && read.local && read.answer.None?
       && read.samples == (if key in s.leader then [s.leader[key]] else [])
       && read.visited == Below(k)
  }

  lemma MissStep(c: Config, s: State, t: State, key: string, k: nat)
    requires MissedTo(s, t, key, k) && k < ReadsFrom(c) <= c.peers
    ensures MissedTo(s, Next(c, t, MissPeer(|s.clients|, k)), key, k + 1)
  {
    BelowNext(k);
    hide Below, SetEntry, IsSortOf;
    assert Enabled(c, t, MissPeer(|s.clients|, k));
  }

  lemma {:induction false} MissAll(c: Config, s: State, events: seq<Event>, key: string, k: nat)
    requires MissedTo(s, Run(c, events), key, 0) && k <= ReadsFrom(c) <= c.peers
    ensures MissedTo(s, Run(c, events + Misses(|s.clients|, k)), key, k)
  {
    hide Run, Next, MissedTo;
    var r := |s.clients|;
    if k == 0 {
      assert events + Misses(r, 0) == events;
    } else {
      MissAll(c, s, events, key, k - 1);
      assert events + Misses(r, k) == events + Misses(r, k - 1) + [MissPeer(r, k - 1)];
      hide Misses;
      RunSnoc(c, events + Misses(r, k - 1), MissPeer(r, k - 1));
      MissStep(c, s, Run(c, events + Misses(r, k - 1)), key, k - 1);
    }
  }

  lemma ReadHere(c: Config, s: State, key: string)
    requires key != ""
    ensures MissedTo(s, Next(c, Next(c, s, BeginRead(key)), ReadLocal(|s.clients|)), key, 0)
  {
    hide SetEntry, IsSortOf;
    var t := Next(c, s, BeginRead(key));
    assert t.clients == s.clients + [Read(key, s.time, VersionOf(s.leader, key), false, {}, [], None)];
  }

  lemma EndNow(c: Config, s: State, t: State, key: string, sorted: seq<Entry>)
    requires MissedTo(s, t, key, ReadsFrom(c)) && sorted == if key in s.leader then [s.leader[key]] else []
    ensures var u, r := Next(c, t, EndRead(|s.clients|, sorted)), |s.clients|;
            && |u.clients| == r + 1 && u.clients[r].key == key && u.clients[r].answer.Some?
            && u.clients[r].answer.value.entry == Lookup(s.leader, key)
  {
    assert IsSortOf(sorted, t.clients[|s.clients|].samples);
    hide Below, SetEntry;
  }

  /** From every state that can be reached a read can be answered with the leader's own entry
      although no follower answers, in every mode: a reply that fails is left out. */
  lemma AnsweredWhereFollowersAreDown(c: Config, events: seq<Event>, key: string) returns (more: seq<Event>)
    requires key != "" && (c.mode.Quorum? ==> c.peers >= 2)
    ensures var s, t, r := Run(c, events), Run(c, events + more), |Run(c, events).clients|;
            && |t.clients| == r + 1 && t.clients[r].key == key && t.clients[r].answer.Some?
            && t.clients[r].answer.value.entry == Lookup(s.leader, key)
  {
    assert ReadsFrom(c) <= c.peers;
    hide *;
    var s, k := Run(c, events), ReadsFrom(c);
    var r, sorted := |s.clients|, if key in s.leader then [s.leader[key]] else [];
    var begun, missed := [BeginRead(key)] + [ReadLocal(r)], Misses(r, k);
    more := begun + missed + [EndRead(r, sorted)];
    InThree(events, begun, missed, [EndRead(r, sorted)]);
    assert events + begun == events + [BeginRead(key)] + [ReadLocal(r)];
    RunSnoc(c, events, BeginRead(key));
    RunSnoc(c, events + [BeginRead(key)], ReadLocal(r));
    ReadHere(c, s, key);
    MissAll(c, s, events + begun, key, k);
    RunSnoc(c, events + begun + missed, EndRead(r, sorted));
    EndNow(c, s, Run(c, events + begun + missed), key, sorted);
  }

  // ----- requests without a key -----

  ghost predicate KeysInv(s: State) {
    && (forall w :: 0 <= w < |s.log| ==> s.log[w].key != "")
    && (forall r :: 0 <= r < |s.clients| ==> s.clients[r].key != "")
  }

  lemma KeysStep(c: Config, s: State, e: Event)
    requires KeysInv(s)
    ensures KeysInv(Next(c, s, e))
  {
    hide SetEntry, VersionOf, IsSortOf, CanSend, Reply;
  }

  /** In every run no write and no read of the empty key is taken. */
  lemma {:induction false} RequestsHaveKeys(c: Config, events: seq<Event>)
    ensures KeysInv(Run(c, events))
  {
    if events != [] {
      RequestsHaveKeys(c, events[..|events| - 1]);
      KeysStep(c, Run(c, events[..|events| - 1]), events[|events| - 1]);
    }
  }
}
