/** Exactly when all nodes of hw10's leaderless mode come to hold a new write. */
module Agreement {
  import opened VersionedStore
  import opened Leaderless

  /** An earlier write to the key, with another value, may still be applied somewhere. */
  ghost predicate OtherValueInFlight(s: State, key: string, value: string) {
    exists w: nat, p: nat :: w < |s.log| && s.log[w].key == key && s.log[w].value != value && InFlight(s, w, p)
  }

  /** No message is lost and no other write to the key begins. */
  predicate OnlyDelivers(more: seq<Event>, key: string) {
    forall e :: e in more ==> !e.Lose? && (e.Begin? ==> e.key != key)
  }

  predicate KeyQuiet(s: State, key: string) {
    forall w :: 0 <= w < |s.log| && s.log[w].key == key ==> Quiet(s, w)
  }

  predicate Holds(s: State, p: nat, key: string, value: string)
    requires p < |s.nodes|
  {
    key in s.nodes[p] && s.nodes[p][key].value == value
  }

  predicate AllHold(s: State, key: string, value: string) {
    forall p: nat :: p < |s.nodes| ==> Holds(s, p, key, value)
  }

  // ----- if only the new value is under way, it ends up everywhere -----

  /** Write `w0` has the value; what is in flight for the key carries it, and nodes that
      write w0 has reached hold it. */
  ghost predicate Spreads(s: State, w0: nat, key: string, value: string) {
    && Wf(s) && w0 < |s.log| && s.log[w0].key == key
    && (forall w: nat, p: nat :: w < |s.log| && s.log[w].key == key && InFlight(s, w, p) ==> s.log[w].value == value)
    && (forall p: nat :: p < |s.nodes| && !InFlight(s, w0, p) ==> Holds(s, p, key, value))
  }

  lemma SpreadsStep(s: State, e: Event, w0: nat, key: string, value: string)
    requires Spreads(s, w0, key, value) && !e.Lose? && (e.Begin? ==> e.key != key)
    ensures Spreads(Next(s, e), w0, key, value)
  {
    hide VersionOf, AppliedAt;
    var t := Next(s, e);
    if Enabled(s, e) {
      assert |t.nodes| == |s.nodes| && s.log <= t.log;
      forall w: nat, p: nat | w < |t.log| && t.log[w].key == key && InFlight(t, w, p) ensures t.log[w].value == value {
        assert w < |s.log| && InFlight(s, w, p);
      }
      forall p: nat | p < |t.nodes| && !InFlight(t, w0, p) ensures Holds(t, p, key, value) {
        if !(e.Deliver? && e.peer == p) {
          assert !InFlight(s, w0, p);
          assert Holds(s, p, key, value);
        } else if e.write != w0 {
          assert Holds(s, p, key, value);
        }
      }
    }
  }

  lemma {:induction false} SpreadsHold(n: nat, events: seq<Event>, more: seq<Event>, w0: nat, key: string, value: string)
    requires Spreads(Run(n, events), w0, key, value) && OnlyDelivers(more, key)
    ensures Spreads(Run(n, events + more), w0, key, value)
  {
    hide Run, Next, Spreads;
    if more == [] {
      assert events + more == events;
    } else {
      var front, e := more[..|more| - 1], more[|more| - 1];
      SpreadsHold(n, events, front, w0, key, value);
      assert events + more == (events + front) + [e];
      RunSnoc(n, events + front, e);
      SpreadsStep(Run(n, events + front), e, w0, key, value);
    }
  }

  lemma SpreadsBegins(s: State, node: nat, key: string, value: string)
    requires Wf(s) && node < |s.nodes| && key != "" && !OtherValueInFlight(s, key, value)
    requires forall p: nat :: p < |s.nodes| ==> !InFlight(s, |s.log|, p)
    ensures Spreads(Next(s, Begin(node, key, value)), |s.log|, key, value)
  {
    hide AppliedAt, VersionOf;
    var t := Next(s, Begin(node, key, value));
    forall w: nat, p: nat | w < |t.log| && t.log[w].key == key && InFlight(t, w, p) ensures t.log[w].value == value {
      if w < |s.log| {
        assert InFlight(s, w, p);
      }
    }
  }

  // ----- otherwise some order of delivery ends with the other value -----

  /** All messages that may still be applied. */
  ghost function Pending(s: State): set<(nat, nat)> {
    set w: nat, p: nat | w < |s.writes| && p < |s.nodes| && InFlight(s, w, p) :: (w, p)
  }

  lemma DeliverReturns(s: State, w: nat, p: nat)
    requires Wf(s) && (w, p) in Pending(s)
    ensures var t := Next(s, Deliver(w, p));
            && Wf(t) && Pending(t) == Pending(s) - {(w, p)} && t.log == s.log && |t.nodes| == |s.nodes|
            && Holds(t, p, s.log[w].key, s.log[w].value)
  {
    hide VersionOf;
    var t := Next(s, Deliver(w, p));
    forall v: nat, q: nat | v < |s.writes| && q < |s.nodes| ensures InFlight(t, v, q) <==> InFlight(s, v, q) && (v, q) != (w, p) {
    }
  }

  /** Deliver everything under way except one message. */
  lemma {:induction false} DeliverAllBut(n: nat, events: seq<Event>, key: string, w: nat, p: nat) returns (more: seq<Event>)
    requires Wf(Run(n, events)) && (w, p) in Pending(Run(n, events))
    ensures OnlyDelivers(more, key)
    ensures var t := Run(n, events + more);
            Wf(t) && Pending(t) == {(w, p)} && t.log == Run(n, events).log && |t.nodes| == |Run(n, events).nodes|
    decreases |Pending(Run(n, events))|
  {
    var s := Run(n, events);
    hide Run, Next;
    if Pending(s) == {(w, p)} {
      more := [];
      assert events + more == events;
    } else {
      var v: nat, q: nat :| (v, q) in Pending(s) && (v, q) != (w, p);
      DeliverReturns(s, v, q);
      RunSnoc(n, events, Deliver(v, q));
      hide Pending;
      more := DeliverAllBut(n, events + [Deliver(v, q)], key, w, p);
      assert events + ([Deliver(v, q)] + more) == events + [Deliver(v, q)] + more;
      more := [Deliver(v, q)] + more;
    }
  }

  lemma NothingPending(s: State, key: string)
    requires Wf(s) && Pending(s) == {}
    ensures KeyQuiet(s, key)
  {
    forall w: nat, p: nat | w < |s.log| && p < |s.nodes| ensures !InFlight(s, w, p) {
      assert InFlight(s, w, p) ==> (w, p) in Pending(s);
    }
  }

  /** The message that carries the other value comes last. */
  lemma EndOtherwise(n: nat, events: seq<Event>, key: string, w: nat, p: nat) returns (more: seq<Event>)
    requires Wf(Run(n, events)) && (w, p) in Pending(Run(n, events)) && Run(n, events).log[w].key == key
    ensures OnlyDelivers(more, key) && KeyQuiet(Run(n, events + more), key)
    ensures p < |Run(n, events + more).nodes| && Holds(Run(n, events + more), p, key, Run(n, events).log[w].value)
  {
    hide Run, Next;
    more := DeliverAllBut(n, events, key, w, p);
    var t := Run(n, events + more);
    DeliverReturns(t, w, p);
    RunSnoc(n, events + more, Deliver(w, p));
    assert events + (more + [Deliver(w, p)]) == events + more + [Deliver(w, p)];
    assert Pending(t) - {(w, p)} == {};
    more := more + [Deliver(w, p)];
    NothingPending(Run(n, events + more), key);
    assert p < |t.nodes| by {
      assert (w, p) in Pending(t);
    }
  }

  /** Exactly when a new write wins. Let a write to a key begin at any node in any run,
      whatever was lost or given up on before. However the messages are then delivered, none
      being lost and no other write to the key being issued, all nodes end with its value if
      and only if no earlier write with another value was under way to some node when it began. */
  lemma NewWriteWinsIff(n: nat, events: seq<Event>, node: nat, key: string, value: string)
    requires node < n && key != ""
    ensures var s := Run(n, events);
            var begun := events + [Begin(node, key, value)];
            (forall more :: OnlyDelivers(more, key) && KeyQuiet(Run(n, begun + more), key) ==> AllHold(Run(n, begun + more), key, value))
            <==> !OtherValueInFlight(s, key, value)
  {
    var s, e := Run(n, events), Begin(node, key, value);
    var begun := events + [e];
    VersionsHold(n, events);
    RunSnoc(n, events, e);
    hide Run;
    if w: nat, p: nat :| w < |s.log| && s.log[w].key == key && s.log[w].value != value && InFlight(s, w, p) {
      BeginKeepsPending(s, e, w, p);
      var more := EndOtherwise(n, begun, key, w, p);
      assert Run(n, begun).log[w] == s.log[w];
      assert !Holds(Run(n, begun + more), p, key, value);
    }
    if !OtherValueInFlight(s, key, value) {
      SpreadsBegins(s, node, key, value);
      forall more | OnlyDelivers(more, key) && KeyQuiet(Run(n, begun + more), key) ensures AllHold(Run(n, begun + more), key, value) {
        SpreadsHold(n, begun, more, |s.log|, key, value);
        SpreadMeansHeld(Run(n, begun + more), |s.log|, key, value);
      }
    }
  }

  lemma SpreadMeansHeld(s: State, w0: nat, key: string, value: string)
    requires Spreads(s, w0, key, value) && KeyQuiet(s, key)
    ensures AllHold(s, key, value)
  {
    assert Quiet(s, w0);
    assert forall p: nat :: p < |s.nodes| ==> !InFlight(s, w0, p);
  }

  lemma BeginKeepsPending(s: State, e: Event, w: nat, p: nat)
    requires Wf(s) && e.Begin? && Enabled(s, e) && w < |s.log| && InFlight(s, w, p)
    ensures var t := Next(s, e);
            Wf(t) && w < |t.log| && t.log[w] == s.log[w] && (w, p) in Pending(t)
  {
    hide AppliedAt, VersionOf;
    assert InFlight(Next(s, e), w, p);
  }
}
