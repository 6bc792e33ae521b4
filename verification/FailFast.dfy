/** The protected ranker call of midterm: bulkhead, circuit breaker and timeout, first as
    the objects the program updates under their locks, then as a machine in which any
    number of callers interleave while a clock runs. */
module FailFast {
  import opened Common

  datatype CircuitState = Closed | Open | HalfOpen

  /** The fields of a breaker; times are ticks of one clock. */
  datatype Breaker = Breaker(state: CircuitState, failures: nat, lastFailure: int, threshold: int, resetTimeout: int)

  function NewBreaker(threshold: int, resetTimeout: int): Breaker {
    Breaker(Closed, 0, 0, threshold, resetTimeout)
  }

  predicate Allows(b: Breaker, now: int) {
    b.state.Open? ==> now - b.lastFailure > b.resetTimeout
  }

  function AfterAllow(b: Breaker, now: int): Breaker {
    if b.state.Open? && Allows(b, now) then b.(state := HalfOpen) else b
  }

  function AfterSuccess(b: Breaker): Breaker {
    b.(failures := 0, state := Closed)
  }

  function AfterFailure(b: Breaker, now: int): Breaker {
    b.(failures := b.failures + 1,
       lastFailure := now,
       state := if b.failures + 1 >= b.threshold || b.state.HalfOpen? then Open else b.state)
  }

  class CircuitBreaker {
    var state: CircuitState
    var failures: nat
    var lastFailure: int
    const threshold: int
    const resetTimeout: int

    function Value(): Breaker
      reads this
    {
      Breaker(state, failures, lastFailure, threshold, resetTimeout)
    }

    constructor (threshold: int, resetTimeout: int)
      ensures Value() == NewBreaker(threshold, resetTimeout)
    {
      this.state := Closed;
      this.failures := 0;
      this.lastFailure := 0;
      this.threshold := threshold;
      this.resetTimeout := resetTimeout;
    }

    method Allow(now: int) returns (allowed: bool)
      modifies this
      ensures allowed == Allows(old(Value()), now)
      ensures Value() == AfterAllow(old(Value()), now)
    {
      match state
      case Closed =>
        allowed := true;
      case Open =>
        if now - lastFailure > resetTimeout {
          state := HalfOpen;
          return true;
        }
        allowed := false;
      case HalfOpen =>
        allowed := true;
    }

    method RecordSuccess()
      modifies this
      ensures Value() == AfterSuccess(old(Value()))
    {
      failures := 0;
      state := Closed;
    }

    method RecordFailure(now: int)
      modifies this
      ensures Value() == AfterFailure(old(Value()), now)
    {
      failures := failures + 1;
      lastFailure := now;
      if failures >= threshold || state == HalfOpen {
        state := Open;
      }
    }
  }

  class Bulkhead {
    const capacity: nat
    var inUse: nat
    var rejected: nat

    ghost predicate Valid()
      reads this
    {
      inUse <= capacity
    }

    constructor (maxConcurrent: nat)
      ensures Valid() && capacity == maxConcurrent && inUse == 0 && rejected == 0
    {
      capacity := maxConcurrent;
      inUse := 0;
      rejected := 0;
    }

    method Acquire() returns (acquired: bool)
      requires Valid()
      modifies this
      ensures Valid() && acquired == (old(inUse) < capacity)
      ensures inUse == old(inUse) + (if acquired then 1 else 0)
      ensures rejected == old(rejected) + (if acquired then 0 else 1)
    {
      if inUse < capacity {
        inUse := inUse + 1;
        return true;
      }
      rejected := rejected + 1;
      return false;
    }

    /** Taking a token from an empty channel would block; no caller does. */
    method Release()
      requires Valid() && inUse > 0
      modifies this
      ensures Valid() && inUse == old(inUse) - 1 && rejected == old(rejected)
    {
      inUse := inUse - 1;
    }
  }

  datatype Status = BulkheadRejected | CircuitOpen | TimeoutFallback | Ranked

  /** One whole call with no other caller in between; `answered` tells whether the ranker
      answered before the timeout, at time `done`. */
  method CallRankerSafely(bulkhead: Bulkhead, breaker: CircuitBreaker, now: int, done: int, answered: bool)
    returns (status: Status)
    requires bulkhead.Valid()
    modifies bulkhead, breaker
    ensures bulkhead.Valid() && bulkhead.inUse == old(bulkhead.inUse)
    ensures status == BulkheadRejected <==> old(bulkhead.inUse) == bulkhead.capacity
    ensures bulkhead.rejected == old(bulkhead.rejected) + (if status == BulkheadRejected then 1 else 0)
    ensures status == CircuitOpen ==> !Allows(old(breaker.Value()), now)
    ensures status == TimeoutFallback || status == Ranked ==>
              Allows(old(breaker.Value()), now) && answered == (status == Ranked)
    ensures breaker.Value() ==
            match status
            case BulkheadRejected => old(breaker.Value())
            case CircuitOpen => old(breaker.Value())
            case TimeoutFallback => AfterFailure(AfterAllow(old(breaker.Value()), now), done)
            case Ranked => AfterSuccess(AfterAllow(old(breaker.Value()), now))
  {
    var acquired := bulkhead.Acquire();
    if !acquired {
      return BulkheadRejected;
    }
    var allowed := breaker.Allow(now);
    if !allowed {
      status := CircuitOpen;
    } else if !answered {
      breaker.RecordFailure(done);
      status := TimeoutFallback;
    } else {
      breaker.RecordSuccess();
      status := Ranked;
    }
    bulkhead.Release();
  }

  // ----- any number of interleaving callers -----

  /** Where a caller is: it holds a slot in all but the last phase. */
  datatype Phase = Holding | Running | Leaving(status: Status) | Done(status: Status)

  /** The ranker call of a caller that was let through, and whether the ranker hangs on it. */
  datatype Start = Start(time: int, hung: bool)

  datatype Config = Config(capacity: nat, timeout: nat, hang: nat, threshold: int, resetTimeout: int)

  /** `recorded` lists the outcomes told to the breaker, true for a success. */
  datatype State = State(now: int, breaker: Breaker, inUse: nat, rejected: nat, phases: seq<Phase>,
                         starts: seq<Option<Start>>, admitted: nat, recorded: seq<bool>)

  datatype Event =
    | Tick(ticks: nat)
    | Arrive
    | Check(caller: nat, hung: bool)
    | TimeOut(caller: nat)
    | Answer(caller: nat)
    | Release(caller: nat)

  function Init(c: Config): State {
    State(0, NewBreaker(c.threshold, c.resetTimeout), 0, 0, [], [], 0, [])
  }

  predicate InPhase(s: State, caller: nat, phase: Phase) {
    caller < |s.phases| == |s.starts| && s.phases[caller] == phase
  }

  /** A timeout fires from the deadline on; an answer comes at any time, but from a hung
      ranker only after the hang. */
  predicate Enabled(c: Config, s: State, e: Event) {
    match e
    case Tick(_) => true
    case Arrive => true
    case Check(i, _) => InPhase(s, i, Holding)
    case TimeOut(i) =>
      InPhase(s, i, Running) && s.starts[i].Some? && s.now >= s.starts[i].value.time + c.timeout
    case Answer(i) =>
      && InPhase(s, i, Running) && s.starts[i].Some?
      && (s.starts[i].value.hung ==> s.now >= s.starts[i].value.time + c.hang)
    case Release(i) => i < |s.phases| && s.phases[i].Leaving? && s.inUse > 0
  }

  function Do(c: Config, s: State, e: Event): State
    requires Enabled(c, s, e)
  {
    match e
    case Tick(ticks) => s.(now := s.now + ticks)
    case Arrive =>
      if s.inUse < c.capacity
      then s.(inUse := s.inUse + 1, phases := s.phases + [Holding], starts := s.starts + [None])
      else s.(rejected := s.rejected + 1, phases := s.phases + [Done(BulkheadRejected)], starts := s.starts + [None])
    case Check(i, hung) =>
      var t := s.(breaker := AfterAllow(s.breaker, s.now));
      if Allows(s.breaker, s.now)
      then t.(phases := s.phases[i := Running], starts := s.starts[i := Some(Start(s.now, hung))], admitted := s.admitted + 1)
      else t.(phases := s.phases[i := Leaving(CircuitOpen)])
    case TimeOut(i) =>
      s.(breaker := AfterFailure(s.breaker, s.now), phases := s.phases[i := Leaving(TimeoutFallback)],
         recorded := s.recorded + [false])
    case Answer(i) =>
      s.(breaker := AfterSuccess(s.breaker), phases := s.phases[i := Leaving(Ranked)],
         recorded := s.recorded + [true])
    case Release(i) =>
      s.(inUse := s.inUse - 1, phases := s.phases[i := Done(s.phases[i].status)])
  }

  function Next(c: Config, s: State, e: Event): State {
    if Enabled(c, s, e) then Do(c, s, e) else s
  }

  function RunFrom(c: Config, s: State, events: seq<Event>): State {
    if events == [] then s
    else Next(c, RunFrom(c, s, events[..|events| - 1]), events[|events| - 1])
  }

  function Run(c: Config, events: seq<Event>): State {
    RunFrom(c, Init(c), events)
  }

  // ----- slots and statuses -----

  function CountOf(s: State, phase: Phase): nat {
    multiset(s.phases)[phase]
  }

  function LeavingCount(s: State): nat {
    CountOf(s, Leaving(CircuitOpen)) + CountOf(s, Leaving(TimeoutFallback)) + CountOf(s, Leaving(Ranked))
  }

  function Finished(s: State, status: Status): nat {
    CountOf(s, Leaving(status)) + CountOf(s, Done(status))
  }

  function Outcomes(recorded: seq<bool>, success: bool): nat {
    multiset(recorded)[success]
  }

  ghost predicate SlotInv(c: Config, s: State) {
    && |s.phases| == |s.starts|
    && s.inUse <= c.capacity
    && s.inUse == CountOf(s, Holding) + CountOf(s, Running) + LeavingCount(s)
    && CountOf(s, Leaving(BulkheadRejected)) == 0
    && Finished(s, BulkheadRejected) == s.rejected
    && Finished(s, TimeoutFallback) == Outcomes(s.recorded, false)
    && Finished(s, Ranked) == Outcomes(s.recorded, true)
    && s.admitted == CountOf(s, Running) + Outcomes(s.recorded, false) + Outcomes(s.recorded, true)
  }

  lemma Moved(phases: seq<Phase>, i: nat, to: Phase, phase: Phase)
    requires i < |phases|
    ensures multiset(phases[i := to])[phase]
            == multiset(phases)[phase] - (if phases[i] == phase then 1 else 0) + (if to == phase then 1 else 0)
    ensures multiset(phases)[phases[i]] > 0
  {
  }

  /** What one step does to the number of callers in a phase. */
  lemma CountStep(c: Config, s: State, e: Event, phase: Phase)
    requires Enabled(c, s, e)
    ensures CountOf(Next(c, s, e), phase) == CountOf(s, phase) +
            match e
            case Tick(_) => 0
            case Arrive => if phase == (if s.inUse < c.capacity then Holding else Done(BulkheadRejected)) then 1 else 0
            case Check(_, _) =>
              (if phase == (if Allows(s.breaker, s.now) then Running else Leaving(CircuitOpen)) then 1 else 0)
              - if phase == Holding then 1 else 0
            case TimeOut(_) => (if phase == Leaving(TimeoutFallback) then 1 else 0) - if phase == Running then 1 else 0
            case Answer(_) => (if phase == Leaving(Ranked) then 1 else 0) - if phase == Running then 1 else 0
            case Release(i) =>
              (if phase == Done(s.phases[i].status) then 1 else 0) - if phase == s.phases[i] then 1 else 0
  {
    hide Allows, AfterAllow, AfterFailure, AfterSuccess;
    match e
    case Tick(_) =>
    case Arrive =>
    case Check(i, _) => Moved(s.phases, i, Next(c, s, e).phases[i], phase);
    case TimeOut(i) => Moved(s.phases, i, Leaving(TimeoutFallback), phase);
    case Answer(i) => Moved(s.phases, i, Leaving(Ranked), phase);
    case Release(i) => Moved(s.phases, i, Done(s.phases[i].status), phase);
  }

  /** What one step does to the callers with a given status, leaving and done. */
  lemma StatusStep(c: Config, s: State, e: Event, status: Status)
    requires Enabled(c, s, e)
    ensures CountOf(Next(c, s, e), Leaving(status)) == CountOf(s, Leaving(status)) +
            (if e.Release? && s.phases[e.caller].status == status then -1
             else if e.Check? && !Allows(s.breaker, s.now) && status == CircuitOpen then 1
             else if e.TimeOut? && status == TimeoutFallback then 1
             else if e.Answer? && status == Ranked then 1 else 0)
    ensures Finished(Next(c, s, e), status) == Finished(s, status) +
            (if e.Arrive? && s.inUse >= c.capacity && status == BulkheadRejected then 1
             else if e.Check? && !Allows(s.breaker, s.now) && status == CircuitOpen then 1
             else if e.TimeOut? && status == TimeoutFallback then 1
             else if e.Answer? && status == Ranked then 1 else 0)
  {
    CountStep(c, s, e, Leaving(status));
    CountStep(c, s, e, Done(status));
    hide CountOf;
  }

  lemma OutcomesStep(c: Config, s: State, e: Event)
    requires Enabled(c, s, e)
    ensures Outcomes(Next(c, s, e).recorded, false) == Outcomes(s.recorded, false) + if e.TimeOut? then 1 else 0
    ensures Outcomes(Next(c, s, e).recorded, true) == Outcomes(s.recorded, true) + if e.Answer? then 1 else 0
    ensures e.Release? ==> CountOf(s, s.phases[e.caller]) > 0
  {
    if e.Release? {
      assert s.phases[e.caller] in multiset(s.phases);
    }
  }

  lemma LeavingStep(c: Config, s: State, e: Event)
    requires Enabled(c, s, e) && CountOf(s, Leaving(BulkheadRejected)) == 0
    ensures CountOf(Next(c, s, e), Leaving(BulkheadRejected)) == 0
    ensures LeavingCount(Next(c, s, e)) == LeavingCount(s) +
            if e.Release? then -1
            else if e.TimeOut? || e.Answer? || (e.Check? && !Allows(s.breaker, s.now)) then 1 else 0
  {
    StatusStep(c, s, e, BulkheadRejected);
    StatusStep(c, s, e, CircuitOpen);
    StatusStep(c, s, e, TimeoutFallback);
    StatusStep(c, s, e, Ranked);
    assert e.Release? ==> CountOf(s, s.phases[e.caller]) > 0 by {
      OutcomesStep(c, s, e);
    }
    hide CountOf, Finished, Outcomes, Allows, Next;
  }

  /** The slot count stays what the phases say. */
  lemma SlotCountStep(c: Config, s: State, e: Event)
    requires SlotInv(c, s) && Enabled(c, s, e)
    ensures var t := Next(c, s, e);
            && |t.phases| == |t.starts| && t.inUse <= c.capacity
            && CountOf(t, Leaving(BulkheadRejected)) == 0
            && t.inUse == CountOf(t, Holding) + CountOf(t, Running) + LeavingCount(t)
  {
    CountStep(c, s, e, Holding);
    CountStep(c, s, e, Running);
    LeavingStep(c, s, e);
    hide CountOf, LeavingCount, Finished, Outcomes, Allows, AfterAllow, AfterFailure, AfterSuccess;
  }

  lemma StatusCountStep(c: Config, s: State, e: Event)
    requires SlotInv(c, s) && Enabled(c, s, e)
    ensures var t := Next(c, s, e);
            && Finished(t, BulkheadRejected) == t.rejected
            && Finished(t, TimeoutFallback) == Outcomes(t.recorded, false)
            && Finished(t, Ranked) == Outcomes(t.recorded, true)
            && t.admitted == CountOf(t, Running) + Outcomes(t.recorded, false) + Outcomes(t.recorded, true)
  {
    CountStep(c, s, e, Running);
    StatusStep(c, s, e, BulkheadRejected);
    StatusStep(c, s, e, TimeoutFallback);
    StatusStep(c, s, e, Ranked);
    OutcomesStep(c, s, e);
    hide CountOf, LeavingCount, Finished, Outcomes, AfterAllow, AfterFailure, AfterSuccess;
  }

  lemma SlotStep(c: Config, s: State, e: Event)
    requires SlotInv(c, s)
    ensures SlotInv(c, Next(c, s, e))
  {
    if Enabled(c, s, e) {
      SlotCountStep(c, s, e);
      StatusCountStep(c, s, e);
      hide CountOf, LeavingCount, Finished, Outcomes, Do;
    }
  }

  lemma {:induction false} SlotsHold(c: Config, events: seq<Event>)
    ensures SlotInv(c, Run(c, events))
  {
    if events != [] {
      SlotsHold(c, events[..|events| - 1]);
      SlotStep(c, Run(c, events[..|events| - 1]), events[|events| - 1]);
    }
  }

  /** In every run the slots in use are the callers between Acquire and Release, at most
      the capacity; and every caller let through has timed out, been ranked, or is still
      waiting for the ranker. */
  lemma SlotsMatchCallers(c: Config, events: seq<Event>)
    ensures var s := Run(c, events);
            && s.inUse == CountOf(s, Holding) + CountOf(s, Running) + LeavingCount(s) <= c.capacity
            && s.rejected == CountOf(s, Done(BulkheadRejected))
            && s.admitted == CountOf(s, Running) + Finished(s, TimeoutFallback) + Finished(s, Ranked)
  {
    SlotsHold(c, events);
  }

  // ----- the breaker as a function of what was recorded -----

  /** Failures recorded since the last success. */
  function SinceSuccess(recorded: seq<bool>): nat {
    if recorded == [] || recorded[|recorded| - 1] then 0
    else SinceSuccess(recorded[..|recorded| - 1]) + 1
  }

  /** A threshold below 1 acts like 1: the first failure opens the breaker. */
  function Limit(c: Config): nat {
    Max(c.threshold, 1)
  }

  ghost predicate BreakerInv(c: Config, s: State) {
    && s.breaker.threshold == c.threshold && s.breaker.resetTimeout == c.resetTimeout
    && s.breaker.failures == SinceSuccess(s.recorded)
    && (s.breaker.state.Closed? <==> s.breaker.failures < Limit(c))
    && (!s.breaker.state.Closed? ==> s.breaker.lastFailure <= s.now)
  }

  lemma SinceSuccessSnoc(recorded: seq<bool>, success: bool)
    ensures SinceSuccess(recorded + [success]) == if success then 0 else SinceSuccess(recorded) + 1
  {
    assert (recorded + [success])[..|recorded|] == recorded;
  }

  lemma SinceSuccessStep(c: Config, s: State, e: Event)
    requires s.breaker.failures == SinceSuccess(s.recorded)
    ensures Next(c, s, e).breaker.failures == SinceSuccess(Next(c, s, e).recorded)
  {
    SinceSuccessSnoc(s.recorded, false);
    SinceSuccessSnoc(s.recorded, true);
    hide SinceSuccess, Allows;
  }

  /** What a step may do to the breaker. */
  lemma BreakerMoves(c: Config, s: State, e: Event)
    ensures var b := Next(c, s, e).breaker;
            || b == s.breaker || (b == AfterAllow(s.breaker, s.now) && Next(c, s, e).now == s.now)
            || (b == AfterFailure(s.breaker, s.now) && Next(c, s, e).now == s.now) || b == AfterSuccess(s.breaker)
    ensures Next(c, s, e).now >= s.now
  {
    hide AfterAllow, AfterFailure, AfterSuccess, Allows;
  }

  lemma BreakerStep(c: Config, s: State, e: Event)
    requires BreakerInv(c, s)
    ensures BreakerInv(c, Next(c, s, e))
  {
    BreakerMoves(c, s, e);
    SinceSuccessStep(c, s, e);
    hide SinceSuccess, Allows, Next;
  }

  lemma {:induction false} BreakerHolds(c: Config, events: seq<Event>)
    ensures BreakerInv(c, Run(c, events))
  {
    if events != [] {
      BreakerHolds(c, events[..|events| - 1]);
      BreakerStep(c, Run(c, events[..|events| - 1]), events[|events| - 1]);
    }
  }

  /** In every run the breaker is Closed exactly while fewer than threshold failures were
      recorded since the last success, so a failure opens it by the count alone: the
      half-open case of the test never decides. */
  lemma BreakerFollowsItsTrace(c: Config, events: seq<Event>)
    ensures var s := Run(c, events);
            && (s.breaker.state.Closed? <==> SinceSuccess(s.recorded) < Limit(c))
            && AfterFailure(s.breaker, s.now).state
               == (if SinceSuccess(s.recorded) + 1 >= c.threshold then Open else s.breaker.state)
  {
    BreakerHolds(c, events);
  }

  // ----- stretches without a success -----

  predicate NoSuccess(s: State, t: State) {
    Outcomes(t.recorded, true) == Outcomes(s.recorded, true)
  }

  lemma {:induction false} RunConcat(c: Config, s: State, before: seq<Event>, events: seq<Event>)
    ensures RunFrom(c, s, before + events) == RunFrom(c, RunFrom(c, s, before), events)
  {
    if events == [] {
      assert before + events == before;
    } else {
      assert (before + events)[..|before + events| - 1] == before + events[..|events| - 1];
      RunConcat(c, s, before, events[..|events| - 1]);
    }
  }

  /** Successes and the clock never go back. */
  lemma {:induction false} RunGrows(c: Config, s: State, events: seq<Event>)
    ensures Outcomes(RunFrom(c, s, events).recorded, true) >= Outcomes(s.recorded, true)
    ensures RunFrom(c, s, events).now >= s.now
    ensures RunFrom(c, s, events).admitted >= s.admitted
  {
    if events != [] {
      RunGrows(c, s, events[..|events| - 1]);
    }
  }

  /** While the breaker is Open, with no success and no more than the reset time after the
      failure that opened it, no caller is let through. */
  lemma {:induction false} OpenBreakerIsQuiet(c: Config, s: State, events: seq<Event>)
    requires BreakerInv(c, s) && s.breaker.state.Open?
    requires NoSuccess(s, RunFrom(c, s, events))
    requires RunFrom(c, s, events).now <= s.breaker.lastFailure + c.resetTimeout
    ensures RunFrom(c, s, events).admitted == s.admitted
    ensures var b := RunFrom(c, s, events).breaker;
            b.state.Open? && b.lastFailure >= s.breaker.lastFailure && b.resetTimeout == c.resetTimeout
  {
    if events != [] {
      var u, e := RunFrom(c, s, events[..|events| - 1]), events[|events| - 1];
      RunGrows(c, s, events[..|events| - 1]);
      RunGrows(c, u, [e]);
      assert RunFrom(c, u, [e]) == Next(c, u, e) by {
        assert [e][..0] == [];
      }
      OpenBreakerIsQuiet(c, s, events[..|events| - 1]);
    }
  }

  // ----- how many calls get through while the ranker is failing -----

  /** The most admissions up to the k-th half-open period. */
  function Budget(c: Config, k: int): int {
    Limit(c) - 1 + c.capacity * (k + 1)
  }

  lemma BudgetNext(c: Config, k: int)
    ensures Budget(c, k + 1) == Budget(c, k) + c.capacity
  {
    assert c.capacity * (k + 2) == c.capacity * (k + 1) + c.capacity;
  }

  /** Since `start` nothing succeeded, `admitted` callers were let through, `running` of
      them or of earlier ones still wait, and k half-open periods began (one more if the
      breaker was not closed at `start`). A period's callers all hold slots when it ends. */
  ghost predicate LoadInv(c: Config, b: Breaker, start: int, now: int, admitted: int, running: nat, k: int) {
    && start <= now
    && match b.state
       case Closed => k == 0 && admitted <= b.failures + running
       case Open => k >= -1 && admitted <= Budget(c, k) && (k >= 0 ==> b.lastFailure >= start + k * c.resetTimeout)
       case HalfOpen => k >= 0 && admitted <= Budget(c, k - 1) + running && now >= start + k * c.resetTimeout
  }

  ghost predicate LoadAt(c: Config, s: State, t: State, k: int) {
    LoadInv(c, t.breaker, s.now, t.now, t.admitted - s.admitted, CountOf(t, Running), k)
  }

  lemma LoadAdmit(c: Config, b: Breaker, start: int, now: int, admitted: int, running: nat, k: int) returns (k': int)
    requires LoadInv(c, b, start, now, admitted, running, k)
    requires Allows(b, now) && b.resetTimeout == c.resetTimeout > 0
    ensures LoadInv(c, AfterAllow(b, now), start, now, admitted + 1, running + 1, k')
  {
    hide Budget;
    if b.state.Open? {
      k' := k + 1;
      assert (k + 1) * c.resetTimeout == k * c.resetTimeout + c.resetTimeout;
    } else {
      k' := k;
    }
  }

  lemma LoadFail(c: Config, b: Breaker, start: int, now: int, admitted: int, running: nat, k: int)
    requires LoadInv(c, b, start, now, admitted, running, k) && 0 < running <= c.capacity
    requires b.threshold == c.threshold && c.resetTimeout > 0
    requires b.state.Closed? ==> b.failures < Limit(c)
    requires !b.state.Closed? ==> b.lastFailure <= now
    ensures LoadInv(c, AfterFailure(b, now), start, now, admitted, running - 1, k)
  {
    BudgetNext(c, k - 1);
    assert Budget(c, 0) == Limit(c) - 1 + c.capacity;
    hide Budget;
  }

  lemma LoadWait(c: Config, b: Breaker, start: int, now: int, later: int, admitted: int, running: nat, k: int)
    requires LoadInv(c, b, start, now, admitted, running, k) && now <= later
    ensures LoadInv(c, b, start, later, admitted, running, k)
  {
  }

  lemma LoadStep(c: Config, s: State, t: State, e: Event, k: int) returns (k': int)
    requires LoadAt(c, s, t, k) && BreakerInv(c, t) && SlotInv(c, t) && c.resetTimeout > 0
    requires Enabled(c, t, e) && !e.Answer?
    ensures LoadAt(c, s, Next(c, t, e), k')
  {
    var admitted, running, u := t.admitted - s.admitted, CountOf(t, Running), Next(c, t, e);
    CountStep(c, t, e, Running);
    assert running <= c.capacity;
    hide CountOf, Budget, LoadInv, SlotInv, SinceSuccess;
    k' := k;
    if e.TimeOut? {
      LoadFail(c, t.breaker, s.now, t.now, admitted, running, k);
    } else if e.Check? && Allows(t.breaker, t.now) {
      k' := LoadAdmit(c, t.breaker, s.now, t.now, admitted, running, k);
    } else {
      assert u.breaker == t.breaker && u.admitted == t.admitted && t.now <= u.now;
      LoadWait(c, t.breaker, s.now, t.now, u.now, admitted, running, k);
    }
  }

  lemma {:induction false} LoadHolds(c: Config, s: State, events: seq<Event>) returns (k: int)
    requires BreakerInv(c, s) && SlotInv(c, s) && c.resetTimeout > 0
    requires NoSuccess(s, RunFrom(c, s, events))
    ensures LoadAt(c, s, RunFrom(c, s, events), k)
    ensures BreakerInv(c, RunFrom(c, s, events)) && SlotInv(c, RunFrom(c, s, events))
  {
    if events == [] {
      k := if s.breaker.state.Open? then -1 else 0;
    } else {
      var u, e := RunFrom(c, s, events[..|events| - 1]), events[|events| - 1];
      RunGrows(c, s, events[..|events| - 1]);
      assert Outcomes(Next(c, u, e).recorded, true) >= Outcomes(u.recorded, true);
      k := LoadHolds(c, s, events[..|events| - 1]);
      assert !(e.Answer? && Enabled(c, u, e));
      assert RunFrom(c, s, events) == Next(c, u, e);
      hide LoadAt, RunFrom, SlotInv, BreakerInv, Do;
      SlotStep(c, u, e);
      BreakerStep(c, u, e);
      if Enabled(c, u, e) {
        k := LoadStep(c, s, u, e, k);
      }
    }
  }

  lemma BudgetGrows(c: Config, k: int, m: int)
    requires k <= m
    ensures Budget(c, k) <= Budget(c, m)
  {
    assert c.capacity * (k + 1) <= c.capacity * (m + 1);
  }

  lemma {:induction false} ProductGrows(a: int, b: int, factor: nat)
    requires a <= b
    ensures a * factor <= b * factor
    decreases b - a
  {
    if a < b {
      ProductGrows(a, b - 1, factor);
      assert b * factor == (b - 1) * factor + factor;
    }
  }

  /** k periods of length reset fit in `elapsed`. */
  lemma PeriodsFit(k: int, reset: int, elapsed: nat)
    requires reset > 0 && k * reset <= elapsed
    ensures k <= elapsed / reset
  {
    var fit := elapsed / reset;
    if k > fit {
      ProductGrows(fit + 1, k, reset);
      assert false;
    }
  }

  /** The load bound. From any reachable state, over any interleaving that lasts
      `elapsed` ticks and has no success, at most
      threshold + capacity - 1 + capacity * (elapsed / resetTimeout) callers reach the ranker. */
  lemma FailingRankerLoad(c: Config, before: seq<Event>, events: seq<Event>)
    requires c.resetTimeout > 0
    requires NoSuccess(Run(c, before), Run(c, before + events))
    ensures Run(c, before + events).now >= Run(c, before).now
    ensures Run(c, before + events).admitted - Run(c, before).admitted
            <= Limit(c) + c.capacity - 1
               + c.capacity * ((Run(c, before + events).now - Run(c, before).now) / c.resetTimeout)
  {
    var s := Run(c, before);
    RunConcat(c, Init(c), before, events);
    BreakerHolds(c, before);
    SlotsHold(c, before);
    hide RunFrom;
    var t := RunFrom(c, s, events);
    var k := LoadHolds(c, s, events);
    var elapsed := t.now - s.now;
    assert k * c.resetTimeout <= elapsed;
    PeriodsFit(k, c.resetTimeout, elapsed);
    assert elapsed / c.resetTimeout >= 0;
    BudgetNext(c, k - 1);
    BudgetNext(c, -1);
    BudgetGrows(c, Max(k, 0), elapsed / c.resetTimeout);
    BudgetGrows(c, k, Max(k, 0));
    assert t.admitted - s.admitted <= Budget(c, Max(k, 0)) by {
      assert Budget(c, 0) == Limit(c) - 1 + c.capacity;
      hide SinceSuccess, Budget;
    }
    assert Budget(c, elapsed / c.resetTimeout) == Limit(c) - 1 + c.capacity * (elapsed / c.resetTimeout) + c.capacity;
  }
}
