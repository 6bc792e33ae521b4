/** The ranker goroutines of the midterm that hang and outlive their callers' slots. */
module HungRankers {
  import opened Common
  import opened FailFast

  /** How long a hung call keeps its slot at least. */
  function Hold(c: Config): nat {
    Min(c.hang, c.timeout)
  }

  /** The hung calls begun after `lo` and no later than `hi`. */
  function HungIn(starts: seq<Option<Start>>, lo: int, hi: int): set<nat> {
    set i: nat | i < |starts| && starts[i].Some? && starts[i].value.hung && lo < starts[i].value.time <= hi
  }

  function HungPerHold(c: Config, s: State, lo: int): nat {
    |HungIn(s.starts, lo, lo + Hold(c))|
  }

  /** Hung calls hold their slot for a while, so few begin in any stretch that long. */
  ghost predicate HungInv(c: Config, s: State) {
    && |s.phases| == |s.starts|
    && (forall i :: 0 <= i < |s.starts| && s.starts[i].Some? ==>
          && s.starts[i].value.time <= s.now && s.phases[i] != Holding
          && (s.starts[i].value.hung && s.now < s.starts[i].value.time + Hold(c) ==> s.phases[i] == Running))
    && (forall lo: int :: HungPerHold(c, s, lo) <= c.capacity)
  }

  function CallersIn(phases: seq<Phase>, phase: Phase): set<nat> {
    set i: nat | i < |phases| && phases[i] == phase
  }

  lemma {:induction false} CallersCounted(phases: seq<Phase>, phase: Phase)
    ensures |CallersIn(phases, phase)| == multiset(phases)[phase]
  {
    if phases != [] {
      var front, n := phases[..|phases| - 1], |phases| - 1;
      CallersCounted(front, phase);
      assert phases == front + [phases[n]];
      assert CallersIn(phases, phase) == CallersIn(front, phase) + (if phases[n] == phase then {n} else {});
    }
  }

  lemma PhaseStep(c: Config, s: State, e: Event)
    requires HungInv(c, s)
    ensures var t := Next(c, s, e);
            && |t.phases| == |t.starts|
            && (forall i :: 0 <= i < |t.starts| && t.starts[i].Some? ==>
                  && t.starts[i].value.time <= t.now && t.phases[i] != Holding
                  && (t.starts[i].value.hung && t.now < t.starts[i].value.time + Hold(c) ==> t.phases[i] == Running))
  {
    hide HungIn;
  }

  /** In a window that reaches the present all hung calls still hold slots. */
  lemma HungNow(c: Config, s: State, lo: int)
    requires SlotInv(c, s) && lo < s.now <= lo + Hold(c)
    requires forall i :: 0 <= i < |s.starts| && s.starts[i].Some? ==>
               (s.starts[i].value.hung && s.now < s.starts[i].value.time + Hold(c) ==> s.phases[i] == Running)
    ensures HungPerHold(c, s, lo) <= c.capacity
  {
    CallersCounted(s.phases, Running);
    assert |CallersIn(s.phases, Running)| == CountOf(s, Running) <= c.capacity;
    hide SlotInv;
    assert HungIn(s.starts, lo, lo + Hold(c)) <= CallersIn(s.phases, Running);
    SubsetSmaller(HungIn(s.starts, lo, lo + Hold(c)), CallersIn(s.phases, Running));
  }

  lemma HungArrive(starts: seq<Option<Start>>, lo: int, hi: int)
    ensures HungIn(starts + [None], lo, hi) == HungIn(starts, lo, hi)
  {
  }

  lemma HungStart(starts: seq<Option<Start>>, i: nat, start: Start, lo: int, hi: int)
    requires i < |starts| && starts[i].None? && !(lo < start.time <= hi)
    ensures HungIn(starts[i := Some(start)], lo, hi) == HungIn(starts, lo, hi)
  {
  }

  /** A window that does not reach the present gains no hung call. */
  lemma HungThen(c: Config, s: State, e: Event, lo: int)
    requires HungInv(c, s) && (e.Check? ==> !(lo < s.now <= lo + Hold(c)))
    ensures HungPerHold(c, Next(c, s, e), lo) == HungPerHold(c, s, lo)
  {
    HungArrive(s.starts, lo, lo + Hold(c));
    if e.Check? && Enabled(c, s, e) {
      assert s.starts[e.caller].None?;
      HungStart(s.starts, e.caller, Start(s.now, e.hung), lo, lo + Hold(c));
    }
    hide HungIn;
  }

  lemma HungWindow(c: Config, s: State, e: Event, lo: int)
    requires HungInv(c, s) && SlotInv(c, s)
    ensures HungPerHold(c, Next(c, s, e), lo) <= c.capacity
  {
    if e.Check? && lo < s.now <= lo + Hold(c) {
      PhaseStep(c, s, e);
      SlotStep(c, s, e);
      assert Next(c, s, e).now == s.now;
      hide SlotInv, HungPerHold, Next;
      HungNow(c, Next(c, s, e), lo);
    } else {
      HungThen(c, s, e, lo);
    }
  }

  lemma {:induction false} HungHolds(c: Config, events: seq<Event>)
    ensures HungInv(c, Run(c, events))
  {
    if events == [] {
      forall lo: int ensures HungPerHold(c, Init(c), lo) <= c.capacity {
        assert HungIn([], lo, lo + Hold(c)) == {};
      }
    } else {
      var s, e := Run(c, events[..|events| - 1]), events[|events| - 1];
      HungHolds(c, events[..|events| - 1]);
      SlotsHold(c, events[..|events| - 1]);
      PhaseStep(c, s, e);
      assert Run(c, events) == Next(c, s, e);
      hide Run, RunFrom, SlotInv, Next, HungPerHold;
      forall lo: int ensures HungPerHold(c, Next(c, s, e), lo) <= c.capacity {
        HungWindow(c, s, e, lo);
      }
    }
  }

  lemma HungSplits(starts: seq<Option<Start>>, lo: int, mid: int, hi: int)
    ensures |HungIn(starts, lo, hi)| <= |HungIn(starts, lo, mid)| + |HungIn(starts, mid, hi)|
  {
    SubsetSmaller(HungIn(starts, lo, hi), HungIn(starts, lo, mid) + HungIn(starts, mid, hi));
  }

  lemma {:induction false} HungInWindows(c: Config, s: State, lo: int, windows: nat)
    requires HungInv(c, s)
    ensures |HungIn(s.starts, lo, lo + windows * Hold(c))| <= windows * c.capacity
  {
    if windows == 0 {
      assert HungIn(s.starts, lo, lo) == {};
    } else {
      var mid := lo + (windows - 1) * Hold(c);
      HungInWindows(c, s, lo, windows - 1);
      assert HungPerHold(c, s, mid) <= c.capacity;
      hide HungIn, HungInv;
      HungSplits(s.starts, lo, mid, mid + Hold(c));
      assert mid + Hold(c) == lo + windows * Hold(c);
      assert windows * c.capacity == (windows - 1) * c.capacity + c.capacity;
    }
  }

  /** A hung call may still be answered, however short the timeout: where its caller looks only
      once the answer is there, either may be taken. */
  lemma HungCallMayAnswer(c: Config, s: State, i: nat)
    requires HungInv(c, s) && i < |s.starts| && s.starts[i].Some? && s.phases[i] == Running
    ensures var late := Next(c, s, Tick(c.hang));
            && Next(c, late, Answer(i)).phases[i] == Leaving(Ranked)
            && (c.timeout <= c.hang ==> Next(c, late, TimeOut(i)).phases[i] == Leaving(TimeoutFallback))
  {
  }

  function CeilDiv(a: nat, b: nat): nat
    requires b > 0
  {
    (a + b - 1) / b
  }

  lemma CeilDivCovers(a: nat, b: nat)
    requires b > 0
    ensures CeilDiv(a, b) * b >= a
  {
  }

  lemma CeilDivOnce(a: nat, b: nat)
    requires 0 < a <= b
    ensures CeilDiv(a, b) == 1
  {
  }

  lemma HoldIs(c: Config)
    ensures Hold(c) == if c.hang < c.timeout then c.hang else c.timeout
  {
  }

  /** The hung ranker goroutines asleep now, when goroutine i began at `began[i]`, whether
      or not their caller has left. */
  function Asleep(c: Config, s: State, began: seq<int>): set<nat> {
    set i: nat | i < |s.starts| && i < |began| && s.starts[i].Some? && s.starts[i].value.hung
                 && began[i] <= s.now < began[i] + c.hang
  }

  /** Each ranker goroutine begins within `delay` of its caller's admission. */
  predicate BeginsWithin(s: State, began: seq<int>, delay: nat) {
    && |began| == |s.starts|
    && (forall i :: 0 <= i < |began| && s.starts[i].Some? ==>
          s.starts[i].value.time <= began[i] <= s.starts[i].value.time + delay)
  }

  /** At any instant of any run at most capacity * ceil((hang + delay) / hold) hung ranker
      goroutines are asleep, however late within `delay` each began; a hung call holds its
      slot for the smaller of hang time and timeout. */
  lemma AbandonedWorkBounded(c: Config, events: seq<Event>, began: seq<int>, delay: nat)
    requires c.timeout > 0 && c.hang > 0 && BeginsWithin(Run(c, events), began, delay)
    ensures |Asleep(c, Run(c, events), began)| <= CeilDiv(c.hang + delay, Hold(c)) * c.capacity
  {
    var s, windows := Run(c, events), CeilDiv(c.hang + delay, Hold(c));
    var lo, hi := s.now - c.hang - delay, s.now - c.hang - delay + windows * Hold(c);
    HungHolds(c, events);
    HungInWindows(c, s, lo, windows);
    CeilDivCovers(c.hang + delay, Hold(c));
    hide Run;
    SubsetSmaller(Asleep(c, s, began), HungIn(s.starts, lo, hi));
  }

  /** With prompt goroutines the bound is capacity * ceil(hang / timeout). */
  lemma PromptWorkBounded(c: Config, events: seq<Event>, began: seq<int>)
    requires c.timeout > 0 && BeginsWithin(Run(c, events), began, 0)
    ensures |Asleep(c, Run(c, events), began)| <= CeilDiv(c.hang, c.timeout) * c.capacity
  {
    if c.hang == 0 {
      assert Asleep(c, Run(c, events), began) == {};
    } else {
      AbandonedWorkBounded(c, events, began, 0);
      hide *;
      if c.hang < c.timeout {
        CeilDivOnce(c.hang, c.timeout);
        CeilDivOnce(c.hang, c.hang);
        assert Hold(c) == c.hang by {
          HoldIs(c);
        }
      } else {
        HoldIs(c);
      }
    }
  }
}
