/** What hw10's leaderless nodes had applied when they took a write, and that a write is
    acknowledged even where no other node can be reached. */
module LeaderlessHistory {
  import opened Common
  import opened VersionedStore
  import opened Leaderless

  // ----- the writes that a write has seen -----

  /** Event i applies the write at the node: the node takes it from a client, or gets its message. */
  predicate Applies(n: nat, events: seq<Event>, i: nat, node: nat, write: nat) {
    && i < |events| && Enabled(Run(n, events[..i]), events[i])
    && match events[i]
       case Begin(at, _, _) => at == node && |Run(n, events[..i]).log| == write
       case Deliver(w, at) => at == node && w == write
       case _ => false
  }

  lemma AppliedStep(s: State, e: Event, node: nat, write: nat)
    ensures write in AppliedAt(Next(s, e).sets, node) <==>
            || write in AppliedAt(s.sets, node)
            || (Enabled(s, e) && ((e.Begin? && e.node == node && |s.log| == write) || e == Deliver(write, node)))
  {
    hide SetEntry, VersionOf;
    var t := Next(s, e);
    assert forall i :: 0 <= i < |s.sets| ==> s.sets[i] == t.sets[i];
    if Enabled(s, e) && (e.Begin? || e.Deliver?) {
      assert t.sets[|s.sets|].write == if e.Begin? then |s.log| else e.write;
    }
  }

  lemma AppliesBefore(n: nat, events: seq<Event>, e: Event, i: nat, node: nat, write: nat)
    requires i < |events|
    ensures Applies(n, events + [e], i, node, write) <==> Applies(n, events, i, node, write)
  {
    assert (events + [e])[..i] == events[..i];
    hide Run;
  }

  lemma AppliesLast(n: nat, events: seq<Event>, e: Event, node: nat, write: nat)
    ensures Applies(n, events + [e], |events|, node, write) <==>
            var s := Run(n, events);
            Enabled(s, e) && ((e.Begin? && e.node == node && |s.log| == write) || e == Deliver(write, node))
  {
    assert (events + [e])[..|events|] == events;
    hide Run;
  }

  /** A node has applied exactly the writes that some event applied there. */
  lemma {:induction false} AppliedByEvents(n: nat, events: seq<Event>, node: nat, write: nat)
    ensures write in AppliedAt(Run(n, events).sets, node) <==> exists i: nat :: Applies(n, events, i, node, write)
  {
    if events != [] {
      var front, e := events[..|events| - 1], events[|events| - 1];
      assert events == front + [e];
      AppliedByEvents(n, front, node, write);
      AppliedStep(Run(n, front), e, node, write);
      AppliesLast(n, front, e, node, write);
      RunSnoc(n, front, e);
      hide Run, Next, AppliedAt;
      if i: nat :| Applies(n, events, i, node, write) {
        if i < |front| {
          AppliesBefore(n, front, e, i, node, write);
        }
      }
      if i: nat :| Applies(n, front, i, node, write) {
        AppliesBefore(n, front, e, i, node, write);
      }
    }
  }

  lemma SeenLasts(s: State, e: Event, b: nat)
    requires b < |s.writes|
    ensures b < |Next(s, e).writes| && Next(s, e).writes[b].seen == s.writes[b].seen
    ensures Next(s, e).writes[b].coordinator == s.writes[b].coordinator
  {
    hide SetEntry, VersionOf, AppliedAt;
  }

  lemma {:induction false} SeenKept(n: nat, events: seq<Event>, t: nat, b: nat)
    requires t <= |events| && b < |Run(n, events[..t]).writes|
    ensures b < |Run(n, events).writes| && Run(n, events).writes[b].seen == Run(n, events[..t]).writes[b].seen
    ensures Run(n, events).writes[b].coordinator == Run(n, events[..t]).writes[b].coordinator
    decreases |events|
  {
    if t == |events| {
      assert events[..t] == events;
    } else {
      var before := events[..|events| - 1];
      assert Run(n, events) == Next(Run(n, before), events[|events| - 1]);
      hide Run, Next;
      assert before[..t] == events[..t];
      SeenKept(n, before, t, b);
      SeenLasts(Run(n, before), events[|events| - 1], b);
    }
  }

  lemma AppliesInPrefix(n: nat, events: seq<Event>, t: nat, i: nat, node: nat, write: nat)
    requires i < t <= |events|
    ensures Applies(n, events[..t], i, node, write) <==> Applies(n, events, i, node, write)
  {
    assert events[..t][..i] == events[..i];
    hide Run;
  }

  lemma BeginSees(s: State, e: Event)
    requires Enabled(s, e) && e.Begin?
    ensures |Next(s, e).writes| == |s.log| + 1
    ensures Next(s, e).writes[|s.log|] == Write(e.node, AppliedAt(s.sets, e.node), {}, false)
    ensures |Next(s, e).log| == |s.log| + 1 && Next(s, e).log[|s.log|].key == e.key && Next(s, e).log[|s.log|].value == e.value
  {
    hide AppliedAt;
  }

  /** What happened before a write: in every run, the writes that a write has seen are exactly
      those that its coordinator took or got by message before it took this one. */
  lemma SeenAreAppliedBefore(n: nat, events: seq<Event>, t: nat, write: nat)
    requires t < |events| && events[t].Begin? && Enabled(Run(n, events[..t]), events[t])
    ensures var b := |Run(n, events[..t]).log|;
            && b < |Run(n, events).writes| && Run(n, events).writes[b].coordinator == events[t].node
            && (write in Run(n, events).writes[b].seen <==> exists i: nat :: i < t && Applies(n, events, i, events[t].node, write))
  {
    var s, e := Run(n, events[..t]), events[t];
    var b := |s.log|;
    BeginSees(s, e);
    RunSnoc(n, events[..t], e);
    assert events[..t + 1] == events[..t] + [e];
    AppliedByEvents(n, events[..t], e.node, write);
    hide Run, Next, AppliedAt, Enabled;
    SeenKept(n, events, t + 1, b);
    if i: nat :| Applies(n, events[..t], i, e.node, write) {
      assert i < t;
      AppliesInPrefix(n, events, t, i, e.node, write);
    }
    if i: nat :| i < t && Applies(n, events, i, e.node, write) {
      AppliesInPrefix(n, events, t, i, e.node, write);
    }
  }

  lemma KeysStep(s: State, e: Event)
    requires forall w :: 0 <= w < |s.log| ==> s.log[w].key != ""
    ensures forall w :: 0 <= w < |Next(s, e).log| ==> Next(s, e).log[w].key != ""
  {
    hide SetEntry, VersionOf, AppliedAt, Sending, InFlight, AllReturned;
  }

  /** In every run no write of the empty key is taken. */
  lemma {:induction false} WritesHaveKeys(n: nat, events: seq<Event>)
    ensures forall w :: 0 <= w < |Run(n, events).log| ==> Run(n, events).log[w].key != ""
  {
    if events != [] {
      WritesHaveKeys(n, events[..|events| - 1]);
      KeysStep(Run(n, events[..|events| - 1]), events[|events| - 1]);
    }
  }

  // ----- acknowledged without any other node -----

  function Losses(w: nat, k: nat): seq<Event> {
    seq(k, p requires 0 <= p < k => Lose(w, p))
  }

  /** The sends of the write to the first k nodes have failed, and nothing else happened. */
  ghost predicate LostTo(s: State, t: State, w: nat, k: nat) {
    && t.nodes == s.nodes && t.log == s.log && |t.writes| == |s.writes| && w < |s.writes|
    && t.writes[w].coordinator == s.writes[w].coordinator
    && forall p: nat :: p < k && p < |s.nodes| && p != s.writes[w].coordinator ==> p in t.writes[w].finished
  }

  lemma LoseStep(s: State, t: State, w: nat, k: nat)
    requires LostTo(s, t, w, k) && |s.writes| == |s.log| && k < |s.nodes|
    ensures LostTo(s, Next(t, Lose(w, k)), w, k + 1)
  {
  }

  lemma {:induction false} LoseAll(n: nat, events: seq<Event>, w: nat, k: nat)
    requires var s := Run(n, events); w < |s.writes| == |s.log| && k <= |s.nodes|
    ensures LostTo(Run(n, events), Run(n, events + Losses(w, k)), w, k)
  {
    hide Run, Next;
    if k == 0 {
      assert events + Losses(w, 0) == events;
    } else {
      LoseAll(n, events, w, k - 1);
      hide LostTo;
      assert events + Losses(w, k) == events + Losses(w, k - 1) + [Lose(w, k - 1)];
      RunSnoc(n, events + Losses(w, k - 1), Lose(w, k - 1));
      LoseStep(Run(n, events), Run(n, events + Losses(w, k - 1)), w, k - 1);
    }
  }

  lemma AckNow(s: State, t: State, w: nat)
    requires LostTo(s, t, w, |s.nodes|) && |s.writes| == |s.log|
    ensures w < |Next(t, Ack(w)).writes| && Next(t, Ack(w)).writes[w].acked && Next(t, Ack(w)).nodes == s.nodes
  {
    assert AllReturned(t, w);
  }

  lemma BeginHere(s: State, node: nat, key: string, value: string)
    requires |s.writes| == |s.log| && node < |s.nodes| && key != ""
    ensures var t := Next(s, Begin(node, key, value));
            && |t.writes| == |t.log| == |s.log| + 1
            && t.nodes == s.nodes[node := SetEntry(s.nodes[node], key, value, 0)]
  {
    hide SetEntry, VersionOf, AppliedAt;
  }

  /** From every state that can be reached a client's write can be acknowledged although it has
      reached no other node: a send that fails counts as returned. */
  lemma AckedWhereOthersAreDown(n: nat, events: seq<Event>, node: nat, key: string, value: string) returns (more: seq<Event>)
    requires node < n && key != ""
    ensures var s, t := Run(n, events), Run(n, events + more);
            && |s.log| < |t.writes| && t.writes[|s.log|].acked && |s.nodes| == |t.nodes| == n
            && (forall p :: 0 <= p < n && p != node ==> t.nodes[p] == s.nodes[p])
  {
    VersionsHold(n, events);
    var s := Run(n, events);
    var w, begun := |s.log|, events + [Begin(node, key, value)];
    assert |s.writes| == |s.log| && |s.nodes| == n;
    hide Run, Next, VersionInv;
    RunSnoc(n, events, Begin(node, key, value));
    BeginHere(s, node, key, value);
    LoseAll(n, begun, w, n);
    RunSnoc(n, begun + Losses(w, n), Ack(w));
    AckNow(Run(n, begun), Run(n, begun + Losses(w, n)), w);
    more := [Begin(node, key, value)] + Losses(w, n) + [Ack(w)];
    assert events + more == begun + Losses(w, n) + [Ack(w)];
  }
}
