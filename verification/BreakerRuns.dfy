/** What concurrent callers can make of the breaker: when callers probe it together, when a
    late success closes it, and runs that reach the bounds. */
module BreakerRuns {
  import opened Common
  import opened FailFast
  import opened HungRankers

  // ----- with one slot there is one probe at a time -----

  /** A probe is running while the breaker is half-open; with one slot, none is running
      while it is open. */
  ghost predicate ProbeInv(c: Config, s: State) {
    && (s.breaker.state.HalfOpen? ==> CountOf(s, Running) >= 1)
    && (s.breaker.state.Open? && c.capacity <= 1 ==> CountOf(s, Running) == 0)
  }

  lemma ProbeStep(c: Config, s: State, e: Event)
    requires SlotInv(c, s) && ProbeInv(c, s)
    ensures ProbeInv(c, Next(c, s, e))
  {
    SlotStep(c, s, e);
    if Enabled(c, s, e) {
      CountStep(c, s, e, Running);
      hide CountOf;
    }
  }

  lemma {:induction false} ProbeHolds(c: Config, events: seq<Event>)
    ensures ProbeInv(c, Run(c, events))
  {
    if events != [] {
      ProbeHolds(c, events[..|events| - 1]);
      SlotsHold(c, events[..|events| - 1]);
      assert Run(c, events) == Next(c, Run(c, events[..|events| - 1]), events[|events| - 1]);
      hide Run, RunFrom, Next, SlotInv, ProbeInv;
      ProbeStep(c, Run(c, events[..|events| - 1]), events[|events| - 1]);
    }
  }

  lemma PhaseCounted(s: State, i: nat)
    requires i < |s.phases|
    ensures CountOf(s, s.phases[i]) > 0
  {
    assert s.phases[i] in multiset(s.phases);
  }

  /** One more caller is let through while the breaker is half-open, and it stays half-open. */
  predicate SecondProbe(c: Config, s: State, i: nat) {
    && s.breaker.state.HalfOpen? && Enabled(c, s, Check(i, false))
    && Next(c, s, Check(i, false)).admitted == s.admitted + 1
    && Next(c, s, Check(i, false)).breaker == s.breaker
  }

  /** A call is answered in time while the breaker is open, and that closes the breaker. */
  predicate LateSuccess(c: Config, s: State, i: nat) {
    && s.breaker.state.Open? && Enabled(c, s, Answer(i)) && s.now <= s.starts[i].value.time + c.timeout
    && Next(c, s, Answer(i)).breaker.state.Closed?
  }

  lemma OneSlotOneProbe(c: Config, events: seq<Event>, i: nat)
    requires c.capacity <= 1
    ensures !SecondProbe(c, Run(c, events), i) && !LateSuccess(c, Run(c, events), i)
  {
    ProbeHolds(c, events);
    SlotsHold(c, events);
    hide Run;
    if i < |Run(c, events).phases| {
      PhaseCounted(Run(c, events), i);
    }
  }

  // ----- building blocks of runs -----

  lemma RunSnoc(c: Config, events: seq<Event>, e: Event)
    ensures Run(c, events + [e]) == Next(c, Run(c, events), e)
  {
    assert (events + [e])[..|events|] == events;
  }

  predicate LetsIn(s: State) {
    Allows(s.breaker, s.now)
  }

  /** A caller arrives and is let through. */
  lemma AdmitStep(c: Config, s: State, hung: bool)
    requires |s.phases| == |s.starts| && s.inUse < c.capacity && LetsIn(s)
    ensures var t := Next(c, Next(c, s, Arrive), Check(|s.phases|, hung));
            && t.phases == s.phases + [Running] && t.starts == s.starts + [Some(Start(s.now, hung))]
            && t == s.(breaker := AfterAllow(s.breaker, s.now), inUse := s.inUse + 1, admitted := s.admitted + 1,
                       phases := t.phases, starts := t.starts)
  {
    var t := Next(c, s, Arrive);
    assert t.phases == s.phases + [Holding] && t.starts == s.starts + [None];
    assert Enabled(c, t, Check(|s.phases|, hung));
  }

  function Runners(m: nat): seq<Phase> {
    seq(m, _ => Running)
  }

  function Begun(now: int, hung: bool, m: nat): seq<Option<Start>> {
    seq(m, _ => Some(Start(now, hung)))
  }

  /** The state after m more callers have been let through at once. */
  function Admitted(s: State, m: nat, hung: bool): State {
    s.(breaker := if m == 0 then s.breaker else AfterAllow(s.breaker, s.now), inUse := s.inUse + m, admitted := s.admitted + m,
       phases := s.phases + Runners(m), starts := s.starts + Begun(s.now, hung, m))
  }

  lemma {:induction false} AdmitMany(c: Config, events: seq<Event>, m: nat, hung: bool) returns (longer: seq<Event>)
    requires var s := Run(c, events); |s.phases| == |s.starts| && s.inUse + m <= c.capacity && LetsIn(s)
    ensures events <= longer && Run(c, longer) == Admitted(Run(c, events), m, hung)
  {
    var s := Run(c, events);
    hide Run, Next, RunFrom;
    if m == 0 {
      longer := events;
      assert s.phases + Runners(0) == s.phases && s.starts + Begun(s.now, hung, 0) == s.starts;
    } else {
      longer := AdmitMany(c, events, m - 1, hung);
      var t, i := Run(c, longer), |Run(c, longer).phases|;
      AdmitStep(c, t, hung);
      RunSnoc(c, longer, Arrive);
      RunSnoc(c, longer + [Arrive], Check(i, hung));
      longer := longer + [Arrive] + [Check(i, hung)];
      assert s.phases + Runners(m - 1) + [Running] == s.phases + Runners(m);
      assert s.starts + Begun(s.now, hung, m - 1) + [Some(Start(s.now, hung))] == s.starts + Begun(s.now, hung, m);
    }
  }

  lemma TickRun(c: Config, events: seq<Event>, ticks: nat)
    ensures var s := Run(c, events); Run(c, events + [Tick(ticks)]) == s.(now := s.now + ticks)
  {
    RunSnoc(c, events, Tick(ticks));
    hide Run;
  }

  /** A call that is due times out and gives its slot back. */
  lemma TimeOutStep(c: Config, s: State, i: nat)
    requires |s.phases| == |s.starts| && i < |s.phases| && s.phases[i] == Running && s.inUse > 0
    requires s.starts[i].Some? && s.now >= s.starts[i].value.time + c.timeout
    ensures var t := Next(c, Next(c, s, TimeOut(i)), Release(i));
            && t.phases == s.phases[i := Done(TimeoutFallback)]
            && t == s.(breaker := AfterFailure(s.breaker, s.now), inUse := s.inUse - 1, phases := t.phases,
                       recorded := s.recorded + [false])
  {
    var t := Next(c, s, TimeOut(i));
    assert t.phases == s.phases[i := Leaving(TimeoutFallback)];
    assert s.phases[i := Leaving(TimeoutFallback)][i := Done(TimeoutFallback)] == s.phases[i := Done(TimeoutFallback)];
    assert Enabled(c, t, Release(i));
  }

  lemma TimeOutRun(c: Config, events: seq<Event>, i: nat) returns (longer: seq<Event>)
    requires var s := Run(c, events);
             && |s.phases| == |s.starts| && i < |s.phases| && s.phases[i] == Running && s.inUse > 0
             && s.starts[i].Some? && s.now >= s.starts[i].value.time + c.timeout
    ensures var s, t := Run(c, events), Run(c, longer);
            && events <= longer && t.phases == s.phases[i := Done(TimeoutFallback)]
            && t == s.(breaker := AfterFailure(s.breaker, s.now), inUse := s.inUse - 1, phases := t.phases,
                       recorded := s.recorded + [false])
  {
    var s := Run(c, events);
    TimeOutStep(c, s, i);
    hide Run, Next;
    RunSnoc(c, events, TimeOut(i));
    RunSnoc(c, events + [TimeOut(i)], Release(i));
    longer := events + [TimeOut(i)] + [Release(i)];
  }

  lemma FailureIsNoSuccess(recorded: seq<bool>)
    ensures Outcomes(recorded + [false], true) == Outcomes(recorded, true)
  {
  }

  /** The breaker is closed, as its counter says, and a slot is free. */
  predicate Serving(c: Config, s: State) {
    && |s.phases| == |s.starts| && s.inUse < c.capacity
    && s.breaker.threshold == c.threshold && s.breaker.resetTimeout == c.resetTimeout
    && s.breaker.state.Closed? && s.breaker.failures < Limit(c)
  }

  /** What the state is after one more call has timed out, whatever the other callers do. */
  predicate FailedOnce(c: Config, s: State, t: State) {
    && s.phases < t.phases && s.starts < t.starts && |t.phases| == |t.starts|
    && t.inUse == s.inUse && t.admitted == s.admitted + 1 && t.now == s.now + c.timeout
    && t.breaker == AfterFailure(s.breaker, t.now) && t.recorded == s.recorded + [false]
  }

  lemma FailOne(c: Config, events: seq<Event>) returns (longer: seq<Event>)
    requires Serving(c, Run(c, events))
    ensures events <= longer && FailedOnce(c, Run(c, events), Run(c, longer))
  {
    var s := Run(c, events);
    var i := |s.phases|;
    longer := AdmitMany(c, events, 1, false);
    TickRun(c, longer, c.timeout);
    longer := longer + [Tick(c.timeout)];
    assert Runners(1) == [Running] && Begun(s.now, false, 1) == [Some(Start(s.now, false))];
    hide Run, Runners, Begun;
    var t := Run(c, longer);
    assert t.phases[i] == Running && t.starts[i] == Some(Start(s.now, false));
    longer := TimeOutRun(c, longer, i);
  }

  /** k calls have timed out, one after the other. */
  predicate Failed(c: Config, s: State, t: State, k: nat) {
    && s.phases <= t.phases && s.starts <= t.starts && |t.phases| == |t.starts|
    && t.inUse == s.inUse && t.admitted == s.admitted + k && t.now == s.now + k * c.timeout
    && t.breaker.threshold == c.threshold && t.breaker.resetTimeout == c.resetTimeout
    && t.breaker.failures == s.breaker.failures + k
    && t.breaker.state == (if t.breaker.failures < Limit(c) then Closed else Open)
    && (k > 0 ==> t.breaker.lastFailure == t.now)
    && Outcomes(t.recorded, true) == Outcomes(s.recorded, true)
  }

  lemma {:induction false} FailTimes(c: Config, events: seq<Event>, k: nat) returns (longer: seq<Event>)
    requires Serving(c, Run(c, events)) && Run(c, events).breaker.failures + k <= Limit(c)
    ensures events <= longer && Failed(c, Run(c, events), Run(c, longer), k)
  {
    longer := events;
    if k > 0 {
      longer := FailTimes(c, events, k - 1);
      var t := Run(c, longer);
      hide Run;
      longer := FailOne(c, longer);
      FailureIsNoSuccess(t.recorded);
      assert (k - 1) * c.timeout + c.timeout == k * c.timeout;
    }
  }

  // ----- exactly when callers probe together, and when a success comes late -----

  lemma InitServes(c: Config)
    requires c.capacity > 0
    ensures Run(c, []) == Init(c) && Serving(c, Init(c))
  {
  }

  /** Two callers hold a slot when the breaker may be tried again. */
  lemma TwoProbes(c: Config) returns (events: seq<Event>, i: nat)
    requires c.capacity >= 2
    ensures SecondProbe(c, Run(c, events), i)
  {
    InitServes(c);
    hide Run;
    events := FailTimes(c, [], Limit(c));
    var s := Run(c, events);
    var ticks: nat := Max(0, c.resetTimeout + 1);
    TickRun(c, events, ticks);
    events := events + [Tick(ticks)];
    i := |s.phases| + 1;
    RunSnoc(c, events, Arrive);
    RunSnoc(c, events + [Arrive], Arrive);
    RunSnoc(c, events + [Arrive] + [Arrive], Check(|s.phases|, false));
    TwoArriveOneChecks(c, Run(c, events));
    events := events + [Arrive] + [Arrive] + [Check(|s.phases|, false)];
  }

  lemma TwoArriveOneChecks(c: Config, s: State)
    requires |s.phases| == |s.starts| && s.inUse + 2 <= c.capacity && LetsIn(s) && s.breaker.state.Open?
    ensures SecondProbe(c, Next(c, Next(c, Next(c, s, Arrive), Arrive), Check(|s.phases|, false)), |s.phases| + 1)
  {
    var t := Next(c, s, Arrive);
    assert t.phases == s.phases + [Holding] && t.starts == s.starts + [None];
    var u := Next(c, t, Arrive);
    assert u.phases == s.phases + [Holding] + [Holding] && |u.starts| == |u.phases|;
    assert Enabled(c, u, Check(|s.phases|, false));
  }

  /** A call that is let through just before the last failure is answered after it. */
  lemma SuccessAfterOpening(c: Config) returns (events: seq<Event>, i: nat)
    requires c.capacity >= 2
    ensures LateSuccess(c, Run(c, events), i)
  {
    InitServes(c);
    hide Run;
    events := FailTimes(c, [], Limit(c) - 1);
    var s := Run(c, events);
    events := AdmitMany(c, events, 1, false);
    TickRun(c, events, c.timeout);
    events := events + [Tick(c.timeout)];
    OneRunner(s.now);
    OneRunner(s.now + c.timeout);
    events := AdmitMany(c, events, 1, false);
    hide Runners, Begun;
    var t := Run(c, events);
    i := |s.phases| + 1;
    assert t.phases == s.phases + [Running] + [Running];
    assert t.starts == s.starts + [Some(Start(s.now, false))] + [Some(Start(s.now + c.timeout, false))];
    events := TimeOutRun(c, events, |s.phases|);
    OpensInTime(c, Run(c, events), i);
  }

  lemma OneRunner(now: int)
    ensures Runners(1) == [Running] && Begun(now, false, 1) == [Some(Start(now, false))] && Begun(now, true, 1) == [Some(Start(now, true))]
  {
  }

  lemma OpensInTime(c: Config, s: State, i: nat)
    requires s.breaker.state.Open? && InPhase(s, i, Running) && s.starts[i] == Some(Start(s.now, false))
    ensures LateSuccess(c, s, i)
  {
  }

  /** The half-open state lets only one caller through at a time exactly if the bulkhead has
      at most one slot. */
  lemma ProbesAloneIffOneSlot(c: Config)
    ensures (forall events, i :: !SecondProbe(c, Run(c, events), i)) <==> c.capacity <= 1
  {
    if c.capacity <= 1 {
      forall events, i ensures !SecondProbe(c, Run(c, events), i) {
        OneSlotOneProbe(c, events, i);
      }
    } else {
      var events, i := TwoProbes(c);
    }
  }

  /** No success moves the breaker from open straight to closed exactly if the bulkhead has
      at most one slot. */
  lemma NoLateSuccessIffOneSlot(c: Config)
    ensures (forall events, i :: !LateSuccess(c, Run(c, events), i)) <==> c.capacity <= 1
  {
    if c.capacity <= 1 {
      forall events, i ensures !LateSuccess(c, Run(c, events), i) {
        OneSlotOneProbe(c, events, i);
      }
    } else {
      var events, i := SuccessAfterOpening(c);
    }
  }

  // ----- runs that reach the bounds -----

  /** All slots belong to calls that are waiting for the ranker and began by now. */
  predicate AllWaiting(c: Config, s: State) {
    && |s.phases| == |s.starts| && s.inUse == CountOf(s, Running)
    && s.breaker.threshold == c.threshold && s.breaker.resetTimeout == c.resetTimeout
    && (forall i :: 0 <= i < |s.phases| && s.phases[i] == Running ==> s.starts[i].Some? && s.starts[i].value.time <= s.now)
  }

  predicate AllDue(c: Config, s: State) {
    forall i :: 0 <= i < |s.phases| && s.phases[i] == Running ==>
      i < |s.starts| && s.starts[i].Some? && s.starts[i].value.time + c.timeout <= s.now
  }

  /** All waiting calls have timed out and given back their slots. */
  predicate Cleared(c: Config, s: State, t: State) {
    && |t.phases| == |t.starts| && t.starts == s.starts && t.inUse == 0 == CountOf(t, Running)
    && t.now == s.now && t.admitted == s.admitted && Outcomes(t.recorded, true) == Outcomes(s.recorded, true)
    && t.breaker.threshold == c.threshold && t.breaker.resetTimeout == c.resetTimeout
    && t.breaker.failures == s.breaker.failures + s.inUse
    && (s.inUse == 0 ==> t.breaker == s.breaker)
    && (s.inUse > 0 ==> t.breaker.lastFailure == s.now)
    && (s.inUse > 0 && s.breaker.failures + 1 >= c.threshold ==> t.breaker.state.Open?)
    && (s.breaker.state.Closed? && t.breaker.failures < c.threshold ==> t.breaker.state.Closed?)
  }

  lemma SomeRunner(s: State) returns (i: nat)
    requires CountOf(s, Running) > 0
    ensures i < |s.phases| && s.phases[i] == Running
  {
    assert Running in multiset(s.phases);
    assert Running in s.phases;
    i :| 0 <= i < |s.phases| && s.phases[i] == Running;
  }

  lemma {:induction false} Clear(c: Config, events: seq<Event>) returns (longer: seq<Event>)
    requires AllWaiting(c, Run(c, events)) && AllDue(c, Run(c, events))
    ensures events <= longer && Cleared(c, Run(c, events), Run(c, longer))
    decreases Run(c, events).inUse
  {
    var s := Run(c, events);
    longer := events;
    if s.inUse > 0 {
      var i := SomeRunner(s);
      longer := TimeOutRun(c, events, i);
      var t := Run(c, longer);
      hide Run;
      Moved(s.phases, i, Done(TimeoutFallback), Running);
      FailureIsNoSuccess(s.recorded);
      hide CountOf, Outcomes;
      assert CountOf(t, Running) == s.inUse - 1 by {
        CountIs(s);
        CountIs(t);
      }
      assert AllWaiting(c, t) && AllDue(c, t);
      longer := Clear(c, longer);
    }
  }

  lemma CountIs(s: State)
    ensures CountOf(s, Running) == multiset(s.phases)[Running]
  {
  }

  lemma NoRunner(s: State)
    requires CountOf(s, Running) == 0
    ensures forall i :: 0 <= i < |s.phases| ==> s.phases[i] != Running
  {
    assert Running !in multiset(s.phases);
  }

  lemma {:induction false} RunnersCount(phases: seq<Phase>, m: nat)
    ensures multiset(phases + Runners(m))[Running] == multiset(phases)[Running] + m
  {
    if m == 0 {
      assert phases + Runners(0) == phases;
    } else {
      RunnersCount(phases, m - 1);
      assert phases + Runners(m) == phases + Runners(m - 1) + [Running];
    }
  }

  /** Every slot waits for the ranker. */
  predicate Full(c: Config, s: State) {
    AllWaiting(c, s) && s.inUse == c.capacity
  }

  /** A wave: once the slots are free and the breaker lets callers in, all slots fill up. */
  lemma Fill(c: Config, events: seq<Event>, hung: bool) returns (longer: seq<Event>)
    requires var s := Run(c, events);
             && |s.phases| == |s.starts| && s.inUse == 0 == CountOf(s, Running) && LetsIn(s)
             && s.breaker.threshold == c.threshold && s.breaker.resetTimeout == c.resetTimeout
    ensures events <= longer && Run(c, longer) == Admitted(Run(c, events), c.capacity, hung) && Full(c, Run(c, longer))
  {
    var s := Run(c, events);
    longer := AdmitMany(c, events, c.capacity, hung);
    hide Run;
    RunnersCount(s.phases, c.capacity);
    NoRunner(s);
    var t := Run(c, longer);
    forall i | 0 <= i < |t.phases| && t.phases[i] == Running ensures t.starts[i].Some? && t.starts[i].value.time <= t.now {
      assert i >= |s.phases|;
      assert t.starts[i] == Begun(s.now, hung, c.capacity)[i - |s.phases|];
    }
  }

  /** The waiting calls time out together, `timeout` later. */
  lemma TimeOutAll(c: Config, events: seq<Event>) returns (longer: seq<Event>)
    requires AllWaiting(c, Run(c, events))
    ensures var s := Run(c, events); events <= longer && Cleared(c, s.(now := s.now + c.timeout), Run(c, longer))
  {
    TickRun(c, events, c.timeout);
    var s := Run(c, events);
    longer := events + [Tick(c.timeout)];
    hide Run;
    assert CountOf(Run(c, longer), Running) == CountOf(s, Running);
    hide CountOf;
    longer := Clear(c, longer);
  }

  /** After the k-th half-open period of a failing ranker. */
  predicate Loaded(c: Config, s: State, k: nat) {
    && Full(c, s) && !s.breaker.state.Open? && s.breaker.failures + 1 >= c.threshold
    && Outcomes(s.recorded, true) == 0
    && s.admitted == Limit(c) - 1 + c.capacity + c.capacity * k
    && s.now == (Limit(c) - 1) * c.timeout + k * (c.timeout + c.resetTimeout + 1)
  }

  lemma {:induction false} LoadRun(c: Config, k: nat) returns (events: seq<Event>)
    requires c.capacity > 0 && c.resetTimeout > 0
    ensures Loaded(c, Run(c, events), k)
  {
    if k == 0 {
      InitServes(c);
      hide Run;
      events := FailTimes(c, [], Limit(c) - 1);
      var s := Run(c, events);
      assert s.inUse == 0 && CountOf(s, Running) == 0 by {
        SlotsHold(c, events);
      }
      events := Fill(c, events, false);
    } else {
      events := LoadRun(c, k - 1);
      hide Run;
      events := LoadAgain(c, events, k - 1);
    }
  }

  lemma LoadAgain(c: Config, events: seq<Event>, k: nat) returns (longer: seq<Event>)
    requires c.capacity > 0 && c.resetTimeout > 0 && Loaded(c, Run(c, events), k)
    ensures Loaded(c, Run(c, longer), k + 1)
  {
    hide Run;
    var s := Run(c, events);
    longer := TimeOutAll(c, events);
    TickRun(c, longer, c.resetTimeout + 1);
    var t := Run(c, longer);
    longer := longer + [Tick(c.resetTimeout + 1)];
    assert CountOf(Run(c, longer), Running) == CountOf(t, Running);
    hide CountOf;
    longer := Fill(c, longer, false);
    assert c.capacity * k + c.capacity == c.capacity * (k + 1);
    assert k * (c.timeout + c.resetTimeout + 1) + (c.timeout + c.resetTimeout + 1) == (k + 1) * (c.timeout + c.resetTimeout + 1);
  }

  /** The load bound is reached, for every number k of half-open periods that fit: a run of
      k full periods without a success lets exactly as many callers through as the bound says. */
  lemma LoadBoundReached(c: Config, k: nat) returns (events: seq<Event>)
    requires c.capacity > 0 && c.resetTimeout > 0
    requires (Limit(c) - 1) * c.timeout + k * (c.timeout + 1) < c.resetTimeout
    ensures var s := Run(c, events);
            && NoSuccess(Run(c, []), s) && s.now / c.resetTimeout == k
            && s.admitted == Limit(c) + c.capacity - 1 + c.capacity * (s.now / c.resetTimeout)
  {
    events := LoadRun(c, k);
    assert Run(c, []) == Init(c);
    hide *;
    var s, a := Run(c, events), (Limit(c) - 1) * c.timeout;
    LoadTime(a, k, c.timeout, c.resetTimeout);
    QuotientIs(a + k * (c.timeout + 1), k, c.resetTimeout);
    LoadSum(c, s, k);
  }

  lemma LoadTime(a: int, k: int, timeout: int, reset: int)
    ensures a + k * (timeout + reset + 1) == a + k * (timeout + 1) + k * reset
  {
  }

  lemma LoadSum(c: Config, s: State, k: nat)
    requires Loaded(c, s, k)
    ensures s.now == (Limit(c) - 1) * c.timeout + k * (c.timeout + c.resetTimeout + 1)
    ensures NoSuccess(Init(c), s) && s.admitted == Limit(c) + c.capacity - 1 + c.capacity * k
  {
    hide Full, Limit;
  }

  lemma QuotientIs(rest: nat, k: nat, d: nat)
    requires rest < d
    ensures (rest + k * d) / d == k
  {
    var q, r := (rest + k * d) / d, (rest + k * d) % d;
    assert q * d + r == rest + k * d;
    assert (q - k) * d == q * d - k * d;
    AtLeastOneTime(q - k, d);
  }

  lemma AtLeastOneTime(x: int, d: int)
    requires d >= 0
    ensures x >= 1 ==> x * d >= d
    ensures x <= -1 ==> x * d <= 0 - d
  {
  }

  // ----- the bound on abandoned work is reached -----

  lemma AnswerStep(c: Config, s: State, i: nat)
    requires |s.phases| == |s.starts| && i < |s.phases| && s.phases[i] == Running && s.inUse > 0
    requires s.starts[i].Some? && !s.starts[i].value.hung
    ensures var t := Next(c, Next(c, s, Answer(i)), Release(i));
            && t.phases == s.phases[i := Done(Ranked)]
            && t == s.(breaker := AfterSuccess(s.breaker), inUse := s.inUse - 1, phases := t.phases, recorded := s.recorded + [true])
  {
    var t := Next(c, s, Answer(i));
    assert t.phases == s.phases[i := Leaving(Ranked)];
    assert s.phases[i := Leaving(Ranked)][i := Done(Ranked)] == s.phases[i := Done(Ranked)];
    assert Enabled(c, t, Release(i));
  }

  lemma AnswerRun(c: Config, events: seq<Event>, i: nat) returns (longer: seq<Event>)
    requires var s := Run(c, events);
             && |s.phases| == |s.starts| && i < |s.phases| && s.phases[i] == Running && s.inUse > 0
             && s.starts[i].Some? && !s.starts[i].value.hung
    ensures var s, t := Run(c, events), Run(c, longer);
            && t.phases == s.phases[i := Done(Ranked)]
            && t == s.(breaker := AfterSuccess(s.breaker), inUse := s.inUse - 1, phases := t.phases, recorded := s.recorded + [true])
  {
    AnswerStep(c, Run(c, events), i);
    hide Run, Next;
    RunSnoc(c, events, Answer(i));
    RunSnoc(c, events + [Answer(i)], Release(i));
    longer := events + [Answer(i)] + [Release(i)];
  }

  /** All slots wait for the ranker, and no failure is on record; the waiting calls are due or
      have just begun. */
  predicate Waving(c: Config, s: State) {
    && |s.phases| == |s.starts| && s.inUse == c.capacity == CountOf(s, Running)
    && s.breaker.threshold == c.threshold && s.breaker.state.Closed? && s.breaker.failures == 0
    && (forall i :: 0 <= i < |s.phases| && s.phases[i] == Running ==>
          s.starts[i].Some? && (s.starts[i].value.time + c.timeout <= s.now || s.starts[i].value.time == s.now))
  }

  /** The waiting calls that are due. */
  function Due(c: Config, s: State): set<nat> {
    set i: nat | i < |s.phases| && i < |s.starts| && s.phases[i] == Running
                 && s.starts[i].Some? && s.starts[i].value.time + c.timeout <= s.now
  }

  /** One slot changes from a due call to a hung one: the due call times out, a quick call
      clears the failure, and the hung call begins. */
  predicate Renewed(s: State, t: State, i: nat) {
    && i < |s.phases| && s.phases[i] == Running && t.now == s.now && t.inUse == s.inUse
    && t.phases == s.phases[i := Done(TimeoutFallback)] + [Done(Ranked), Running]
    && t.starts == s.starts + [Some(Start(s.now, false)), Some(Start(s.now, true))]
    && t.breaker.threshold == s.breaker.threshold && t.breaker.state.Closed? && t.breaker.failures == 0
  }

  lemma Renew(c: Config, events: seq<Event>, i: nat) returns (longer: seq<Event>)
    requires Waving(c, Run(c, events)) && i in Due(c, Run(c, events)) && Limit(c) >= 2 && c.capacity > 0
    ensures Renewed(Run(c, events), Run(c, longer), i)
  {
    var s := Run(c, events);
    OneRunner(s.now);
    longer := TimeOutRun(c, events, i);
    hide Run, Runners, Begun, CountOf;
    var j := |s.phases|;
    longer := AdmitMany(c, longer, 1, false);
    var t := Run(c, longer);
    assert t.phases == s.phases[i := Done(TimeoutFallback)] + [Running] && t.starts == s.starts + [Some(Start(s.now, false))];
    longer := AnswerRun(c, longer, j);
    assert Run(c, longer).phases == s.phases[i := Done(TimeoutFallback)] + [Done(Ranked)];
    longer := AdmitMany(c, longer, 1, true);
  }

  lemma RenewedWaving(c: Config, s: State, t: State, i: nat)
    requires Waving(c, s) && Renewed(s, t, i) && i in Due(c, s) && c.timeout > 0
    ensures Waving(c, t) && Due(c, t) == Due(c, s) - {i}
  {
    RenewedCount(s, t, i);
    hide CountOf;
    var n := |s.phases|;
    assert t.phases[n] == Done(Ranked) && t.phases[n + 1] == Running;
    assert forall k :: 0 <= k < n ==> t.starts[k] == s.starts[k] && (t.phases[k] == if k == i then Done(TimeoutFallback) else s.phases[k]);
  }

  lemma RenewedCount(s: State, t: State, i: nat)
    requires Renewed(s, t, i)
    ensures CountOf(t, Running) == CountOf(s, Running)
  {
    Moved(s.phases, i, Done(TimeoutFallback), Running);
    assert multiset([Done(Ranked), Running]) == multiset{Done(Ranked), Running};
  }

  lemma RenewedHung(s: State, t: State, i: nat, lo: int)
    requires Renewed(s, t, i) && |s.phases| == |s.starts| && lo < s.now
    ensures |HungIn(t.starts, lo, t.now)| == |HungIn(s.starts, lo, s.now)| + 1
  {
    var n := |s.starts|;
    assert t.starts[n] == Some(Start(s.now, false)) && t.starts[n + 1] == Some(Start(s.now, true));
    assert forall k :: 0 <= k < n ==> t.starts[k] == s.starts[k];
    assert HungIn(t.starts, lo, t.now) == HungIn(s.starts, lo, s.now) + {n + 1};
  }

  lemma {:induction false} RenewAll(c: Config, events: seq<Event>, lo: int) returns (longer: seq<Event>)
    requires Waving(c, Run(c, events)) && Limit(c) >= 2 && c.capacity > 0 && c.timeout > 0 && lo < Run(c, events).now
    ensures var s, t := Run(c, events), Run(c, longer);
            && Waving(c, t) && Due(c, t) == {} && t.now == s.now
            && |HungIn(t.starts, lo, t.now)| == |HungIn(s.starts, lo, s.now)| + |Due(c, s)|
    decreases |Due(c, Run(c, events))|
  {
    var s := Run(c, events);
    hide Run, Waving, Due, HungIn, Limit;
    if Due(c, s) == {} {
      longer := events;
    } else {
      var i :| i in Due(c, s);
      longer := Renew(c, events, i);
      var t := Run(c, longer);
      RenewedWaving(c, s, t, i);
      assert Renewed(s, t, i) && |s.phases| == |s.starts| by {
        WavingLengths(c, s);
      }
      RenewedHung(s, t, i, lo);
      longer := RenewAll(c, longer, lo);
    }
  }

  lemma WavingLengths(c: Config, s: State)
    requires Waving(c, s)
    ensures |s.phases| == |s.starts|
  {
  }

  /** After w waves of hung calls, one timeout apart; the last one has just begun. */
  predicate Waved(c: Config, s: State, w: nat) {
    && Waving(c, s) && (c.timeout > 0 ==> Due(c, s) == {})
    && |HungIn(s.starts, s.now - (w * c.timeout - c.timeout) - 1, s.now)| >= w * c.capacity
  }

  lemma {:induction false} WaveRun(c: Config, w: nat) returns (events: seq<Event>)
    requires c.capacity > 0 && c.timeout > 0 && w > 0 && (w == 1 || Limit(c) >= 2)
    ensures Waved(c, Run(c, events), w)
  {
    if w == 1 {
      InitServes(c);
      hide Run;
      assert CountOf(Init(c), Running) == 0;
      events := Fill(c, [], true);
      FirstWave(c, Run(c, events));
    } else {
      events := WaveRun(c, w - 1);
      hide Run, Limit;
      events := WaveAgain(c, events, w - 1);
    }
  }

  lemma FirstWave(c: Config, s: State)
    requires c.timeout > 0 && s == Admitted(Init(c), c.capacity, true) && Full(c, s)
    ensures Waved(c, s, 1)
  {
    FirstWaving(c, s);
    AllHung(c.capacity);
    hide *;
    assert 1 * c.timeout - c.timeout == 0 && 1 * c.capacity == c.capacity;
    WavedIs(c, s, 1);
  }

  lemma WavedIs(c: Config, s: State, w: nat)
    requires Waving(c, s) && Due(c, s) == {}
    requires |HungIn(s.starts, s.now - (w * c.timeout - c.timeout) - 1, s.now)| >= w * c.capacity
    ensures Waved(c, s, w)
  {
  }

  lemma FirstWaving(c: Config, s: State)
    requires c.timeout > 0 && s == Admitted(Init(c), c.capacity, true) && Full(c, s)
    ensures Waving(c, s) && Due(c, s) == {} && s.now == 0 && s.starts == Begun(0, true, c.capacity)
  {
    assert s.starts == Begun(0, true, c.capacity);
    hide HungIn, CountOf;
    forall i | 0 <= i < |s.starts| ensures s.starts[i] == Some(Start(0, true)) {
    }
  }

  lemma AllHung(m: nat)
    ensures |HungIn(Begun(0, true, m), -1, 0)| == m
  {
    assert HungIn(Begun(0, true, m), -1, 0) == Below(m);
  }

  lemma WaveAgain(c: Config, events: seq<Event>, w: nat) returns (longer: seq<Event>)
    requires c.capacity > 0 && c.timeout > 0 && w > 0 && Limit(c) >= 2 && Waved(c, Run(c, events), w)
    ensures Waved(c, Run(c, longer), w + 1)
  {
    hide Run, Limit;
    var s := Run(c, events);
    TickRun(c, events, c.timeout);
    longer := events + [Tick(c.timeout)];
    var t := Run(c, longer);
    AllComeDue(c, s);
    var lo := t.now - w * c.timeout - 1;
    hide Waving, Due;
    longer := RenewAll(c, longer, lo);
    EarlierStay(s.starts, lo, s.now, t.now);
    assert (w + 1) * c.timeout == w * c.timeout + c.timeout && (w + 1) * c.capacity == w * c.capacity + c.capacity;
    assert lo == s.now - (w * c.timeout - c.timeout) - 1;
  }

  lemma EarlierStay(starts: seq<Option<Start>>, lo: int, hi: int, later: int)
    requires hi <= later
    ensures |HungIn(starts, lo, hi)| <= |HungIn(starts, lo, later)|
  {
    SubsetSmaller(HungIn(starts, lo, hi), HungIn(starts, lo, later));
  }

  /** A timeout later all waiting calls are due. */
  lemma AllComeDue(c: Config, s: State)
    requires Waving(c, s) && Due(c, s) == {} && c.timeout > 0
    ensures var t := s.(now := s.now + c.timeout); Waving(c, t) && |Due(c, t)| == c.capacity
  {
    var t := s.(now := s.now + c.timeout);
    forall i: nat | i < |s.phases| && s.phases[i] == Running ensures s.starts[i].value.time == s.now {
      assert i !in Due(c, s);
    }
    CallersCounted(t.phases, Running);
    assert CountOf(t, Running) == CountOf(s, Running);
    assert Due(c, t) == CallersIn(t.phases, Running);
  }

  lemma CeilDivBelow(a: nat, b: nat)
    requires a > 0 && b > 0
    ensures CeilDiv(a, b) > 0 && CeilDiv(a, b) * b - b < a
    ensures a <= b ==> CeilDiv(a, b) == 1
  {
    var q, m := (a + b - 1) / b, (a + b - 1) % b;
    assert a + b - 1 == q * b + m && 0 <= m < b;
    assert CeilDiv(a, b) == q;
    assert q <= 0 ==> q * b <= 0;
    assert q >= 2 ==> q * b >= 2 * b;
  }

  /** The times at which the calls were let through. */
  function Times(starts: seq<Option<Start>>): seq<int> {
    seq(|starts|, i requires 0 <= i < |starts| => if starts[i].Some? then starts[i].value.time else 0)
  }

  /** The bound on abandoned work is reached for every threshold of at least 2, as in the
      program, and by a single wave for any: a run after which
      capacity * ceil(hang / timeout) hung goroutines sleep. */
  lemma AbandonedBoundReached(c: Config) returns (events: seq<Event>, began: seq<int>)
    requires c.capacity > 0 && c.timeout > 0 && c.hang > 0 && (Limit(c) >= 2 || c.hang <= c.timeout)
    ensures BeginsWithin(Run(c, events), began, 0)
    ensures |Asleep(c, Run(c, events), began)| == CeilDiv(c.hang, c.timeout) * c.capacity
  {
    var w := CeilDiv(c.hang, c.timeout);
    CeilDivBelow(c.hang, c.timeout);
    events := WaveRun(c, w);
    hide Run, CeilDiv, Limit;
    var s := Run(c, events);
    began := Times(s.starts);
    StartsAreOver(c, events);
    var lo := s.now - (w * c.timeout - c.timeout) - 1;
    hide Waving, Due;
    SubsetSmaller(HungIn(s.starts, lo, s.now), Asleep(c, s, began));
    PromptWorkBounded(c, events, began);
  }

  lemma StartsAreOver(c: Config, events: seq<Event>)
    ensures forall i :: 0 <= i < |Run(c, events).starts| && Run(c, events).starts[i].Some? ==> Run(c, events).starts[i].value.time <= Run(c, events).now
  {
    HungHolds(c, events);
    hide Run;
  }
}
