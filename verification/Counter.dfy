/** hw3: goroutines increment one shared counter, with `ops++` (a load and a later store)
    or with an atomic add. A run is any list of steps; a disabled step changes nothing. */
module Counter {
  import opened Common

  /** `done` iterations are finished; `loaded` is the value read by an `ops++` that has not stored yet. */
  datatype Goroutine = Goroutine(done: nat, loaded: Option<nat>)

  datatype State = State(ops: nat, goroutines: seq<Goroutine>)

  datatype Config = Config(goroutines: nat, increments: nat)

  datatype Event = Load(g: nat) | Store(g: nat)

  function Init(c: Config): State {
    State(0, seq(c.goroutines, _ => Goroutine(0, None)))
  }

  predicate Enabled(c: Config, s: State, e: Event) {
    && e.g < |s.goroutines|
    && (if e.Load? then s.goroutines[e.g].loaded.None? && s.goroutines[e.g].done < c.increments
        else s.goroutines[e.g].loaded.Some?)
  }

  function Next(c: Config, s: State, e: Event): State {
    if !Enabled(c, s, e) then s
    else
      var me := s.goroutines[e.g];
      if e.Load? then s.(goroutines := s.goroutines[e.g := Goroutine(me.done, Some(s.ops))])
      else State(me.loaded.value + 1, s.goroutines[e.g := Goroutine(me.done + 1, None)])
  }

  function Run(c: Config, s: State, events: seq<Event>): State {
    if events == [] then s
    else Next(c, Run(c, s, events[..|events| - 1]), events[|events| - 1])
  }

  /** Every goroutine has left its loop: `wg.Wait()` returns. */
  predicate Finished(c: Config, s: State) {
    forall g :: 0 <= g < |s.goroutines| ==> s.goroutines[g] == Goroutine(c.increments, None)
  }

  // ----- the atomic counter -----

  /** One `ops.Add(1)` of a goroutine that is not inside an `ops++`. */
  function Add(c: Config, s: State, g: nat): State {
    if g < |s.goroutines| && s.goroutines[g].loaded.None? && s.goroutines[g].done < c.increments
    then State(s.ops + 1, s.goroutines[g := Goroutine(s.goroutines[g].done + 1, None)])
    else s
  }

  function RunAtomic(c: Config, s: State, adds: seq<nat>): State {
    if adds == [] then s
    else Add(c, RunAtomic(c, s, adds[..|adds| - 1]), adds[|adds| - 1])
  }

  // ----- upper bound -----

  /** How many iterations the goroutines have finished between them. */
  function TotalDone(goroutines: seq<Goroutine>): nat {
    if goroutines == [] then 0 else TotalDone(goroutines[..|goroutines| - 1]) + goroutines[|goroutines| - 1].done
  }

  lemma {:induction false} TotalDoneUpdate(gs: seq<Goroutine>, g: nat, me: Goroutine)
    requires g < |gs|
    ensures TotalDone(gs[g := me]) == TotalDone(gs) - gs[g].done + me.done
  {
    var last := |gs| - 1;
    if g == last {
      assert gs[g := me][..last] == gs[..last];
    } else {
      TotalDoneUpdate(gs[..last], g, me);
      assert gs[g := me][..last] == gs[..last][g := me];
    }
  }

  lemma {:induction false} TotalDoneEqual(gs: seq<Goroutine>, m: nat)
    requires forall g :: 0 <= g < |gs| ==> gs[g].done == m
    ensures TotalDone(gs) == |gs| * m
  {
    if gs != [] {
      TotalDoneEqual(gs[..|gs| - 1], m);
      assert (|gs| - 1) * m + m == |gs| * m;
    }
  }

  /** Neither the counter nor a value some goroutine holds exceeds the finished iterations. */
  ghost predicate NotAhead(s: State) {
    && s.ops <= TotalDone(s.goroutines)
    && (forall g :: 0 <= g < |s.goroutines| && s.goroutines[g].loaded.Some? ==>
          s.goroutines[g].loaded.value <= TotalDone(s.goroutines))
  }

  lemma NotAheadStep(c: Config, s: State, e: Event)
    requires NotAhead(s)
    ensures NotAhead(Next(c, s, e))
  {
    if Enabled(c, s, e) {
      TotalDoneUpdate(s.goroutines, e.g, Next(c, s, e).goroutines[e.g]);
    }
  }

  /** In every run no goroutine does more than its share, nor starts on one it does not owe. */
  lemma {:induction false} SharesBounded(c: Config, events: seq<Event>, g: nat)
    requires g < |Run(c, Init(c), events).goroutines|
    ensures var me := Run(c, Init(c), events).goroutines[g];
            me.done <= c.increments && (me.loaded.Some? ==> me.done < c.increments)
  {
    if events != [] {
      var front := events[..|events| - 1];
      assert |Run(c, Init(c), front).goroutines| == |Run(c, Init(c), events).goroutines|;
      SharesBounded(c, front, g);
    }
  }

  // ----- lower bound -----

  predicate HasStored(s: State) {
    exists g :: 0 <= g < |s.goroutines| && s.goroutines[g].done > 0
  }

  /** Once anyone has stored, the counter is positive, and so is what a goroutine loads
      after a store of its own; hence the very last store leaves at least 2 if it is not
      its goroutine's first. */
  ghost predicate NotLost(c: Config, s: State) {
    && (HasStored(s) ==> s.ops >= 1)
    && (forall g :: 0 <= g < |s.goroutines| && s.goroutines[g].done > 0 && s.goroutines[g].loaded.Some? ==>
          s.goroutines[g].loaded.value >= 1)
    && (Finished(c, s) && |s.goroutines| >= 1 && c.increments >= 2 ==> s.ops >= 2)
  }

  lemma NotLostStep(c: Config, s: State, e: Event)
    requires NotLost(c, s)
    ensures NotLost(c, Next(c, s, e))
  {
    if Enabled(c, s, e) {
      var t := Next(c, s, e);
      assert s.goroutines[e.g].done > 0 ==> HasStored(s);
      assert t.goroutines[e.g].loaded.Some? ==> !Finished(c, t);
      if e.Load? && HasStored(t) {
        var g :| 0 <= g < |t.goroutines| && t.goroutines[g].done > 0;
        assert s.goroutines[g].done > 0;
      }
    }
  }

  /** A goroutine on its own loses nothing. */
  ghost predicate AloneExact(s: State) {
    |s.goroutines| == 1 ==>
      && s.ops == s.goroutines[0].done
      && (s.goroutines[0].loaded.Some? ==> s.goroutines[0].loaded.value == s.ops)
  }

  lemma {:induction false} InvHolds(c: Config, events: seq<Event>)
    ensures NotAhead(Run(c, Init(c), events)) && NotLost(c, Run(c, Init(c), events)) && AloneExact(Run(c, Init(c), events))
    ensures |Run(c, Init(c), events).goroutines| == c.goroutines
  {
    if events != [] {
      InvHolds(c, events[..|events| - 1]);
      var s, e := Run(c, Init(c), events[..|events| - 1]), events[|events| - 1];
      NotAheadStep(c, s, e);
      NotLostStep(c, s, e);
    }
  }

  /** The smallest possible result: 2 as soon as there are two goroutines and two
      increments each, whatever their numbers. */
  function Lowest(c: Config): nat {
    if c.goroutines == 0 then 0
    else if c.goroutines == 1 then c.increments
    else Min(c.increments, 2)
  }

  /** Some interleaving of the loads and stores ends with the counter at `v`. */
  ghost predicate CanEndAt(c: Config, v: nat) {
    exists events :: EndsAt(c, events, v)
  }

  predicate EndsAt(c: Config, events: seq<Event>, v: nat) {
    Finished(c, Run(c, Init(c), events)) && Run(c, Init(c), events).ops == v
  }

  lemma EndIsInRange(c: Config, events: seq<Event>, v: nat)
    requires EndsAt(c, events, v)
    ensures Lowest(c) <= v <= c.goroutines * c.increments
  {
    InvHolds(c, events);
    hide Run;
    var s := Run(c, Init(c), events);
    TotalDoneEqual(s.goroutines, c.increments);
    if c.goroutines >= 1 && c.increments == 1 {
      assert s.goroutines[0].done > 0;
    }
  }

  // ----- every value in the range is reached -----

  lemma {:induction false} RunConcat(c: Config, s: State, first: seq<Event>, second: seq<Event>)
    ensures Run(c, s, first + second) == Run(c, Run(c, s, first), second)
  {
    if second == [] {
      assert first + second == first;
    } else {
      var k := |second| - 1;
      RunConcat(c, s, first, second[..k]);
      assert (first + second)[..|first| + k] == first + second[..k];
    }
  }

  /** The goroutines of the list increment one after the other, each without interruption. */
  function OneByOne(adds: seq<nat>): seq<Event> {
    if adds == [] then []
    else OneByOne(adds[..|adds| - 1]) + [Load(adds[|adds| - 1]), Store(adds[|adds| - 1])]
  }

  /** How often the list mentions the goroutine. */
  function Mentions(adds: seq<nat>, g: nat): nat {
    if adds == [] then 0
    else Mentions(adds[..|adds| - 1], g) + if adds[|adds| - 1] == g then 1 else 0
  }

  lemma {:induction false} MentionsConcat(a: seq<nat>, b: seq<nat>, g: nat)
    ensures Mentions(a + b, g) == Mentions(a, g) + Mentions(b, g)
  {
    if b == [] {
      assert a + b == a;
    } else {
      MentionsConcat(a, b[..|b| - 1], g);
      assert (a + b)[..|a| + |b| - 1] == a + b[..|b| - 1];
    }
  }

  lemma MentionsOne(g: nat, h: nat)
    ensures Mentions([g], h) == if g == h then 1 else 0
  {
    assert [g][..0] == [];
  }

  predicate HasLeft(c: Config, s: State, g: nat, n: nat) {
    n > 0 ==> g < |s.goroutines| && s.goroutines[g].loaded.None? && s.goroutines[g].done + n <= c.increments
  }

  /** The listed goroutines are between increments and have enough of them left. */
  ghost predicate CanAdd(c: Config, s: State, adds: seq<nat>) {
    forall g: nat :: HasLeft(c, s, g, Mentions(adds, g))
  }

  /** The goroutines after each of those listed has incremented once per mention. */
  function Added(gs: seq<Goroutine>, adds: seq<nat>): seq<Goroutine> {
    seq(|gs|, g requires 0 <= g < |gs| => Goroutine(gs[g].done + Mentions(adds, g), gs[g].loaded))
  }

  lemma AddedSnoc(gs: seq<Goroutine>, adds: seq<nat>, g: nat)
    requires g < |gs|
    ensures Added(gs, adds + [g]) == Added(gs, adds)[g := Goroutine(Added(gs, adds)[g].done + 1, gs[g].loaded)]
  {
    var one, two := Added(gs, adds + [g]), Added(gs, adds)[g := Goroutine(Added(gs, adds)[g].done + 1, gs[g].loaded)];
    forall h: nat | h < |gs| ensures one[h] == two[h] {
      MentionsConcat(adds, [g], h);
      MentionsOne(g, h);
    }
  }

  lemma CanAddLess(c: Config, s: State, a: seq<nat>, b: seq<nat>)
    requires CanAdd(c, s, a + b)
    ensures CanAdd(c, s, a) && CanAdd(c, s, b)
  {
    forall g: nat ensures HasLeft(c, s, g, Mentions(a, g)) && HasLeft(c, s, g, Mentions(b, g)) {
      MentionsConcat(a, b, g);
      assert HasLeft(c, s, g, Mentions(a + b, g));
    }
  }

  lemma LoadAndStore(c: Config, s: State, g: nat)
    requires HasLeft(c, s, g, 1)
    ensures Next(c, Next(c, s, Load(g)), Store(g)) == Add(c, s, g)
  {
    assert s.goroutines[g := Goroutine(s.goroutines[g].done, Some(s.ops))][g := Goroutine(s.goroutines[g].done + 1, None)]
        == s.goroutines[g := Goroutine(s.goroutines[g].done + 1, None)];
  }

  lemma AddLast(c: Config, s: State, before: seq<nat>, g: nat)
    requires CanAdd(c, s, before + [g])
    ensures var t := State(s.ops + |before|, Added(s.goroutines, before));
            HasLeft(c, t, g, 1) && Add(c, t, g) == State(s.ops + |before| + 1, Added(s.goroutines, before + [g]))
  {
    MentionsConcat(before, [g], g);
    MentionsOne(g, g);
    assert HasLeft(c, s, g, Mentions(before + [g], g));
    AddedSnoc(s.goroutines, before, g);
  }

  /** Uninterrupted increments act like atomic ones, and nothing is lost. */
  lemma {:induction false} OneByOneAdds(c: Config, s: State, adds: seq<nat>)
    requires CanAdd(c, s, adds)
    ensures Run(c, s, OneByOne(adds)) == RunAtomic(c, s, adds) == State(s.ops + |adds|, Added(s.goroutines, adds))
  {
    if adds == [] {
      assert Added(s.goroutines, adds) == s.goroutines;
    } else {
      var before, g := adds[..|adds| - 1], adds[|adds| - 1];
      assert adds == before + [g];
      CanAddLess(c, s, before, [g]);
      AddLast(c, s, before, g);
      OneByOneAdds(c, s, before);
      hide Added, CanAdd, HasLeft, Next, Add;
      var t := State(s.ops + |before|, Added(s.goroutines, before));
      LoadAndStore(c, t, g);
      RunConcat(c, s, OneByOne(before), [Load(g), Store(g)]);
      RunTwo(c, t, Load(g), Store(g));
    }
  }

  lemma RunTwo(c: Config, s: State, e: Event, f: Event)
    ensures Run(c, s, [e, f]) == Next(c, Next(c, s, e), f) && Run(c, s, [e]) == Next(c, s, e)
  {
    assert [e, f][..1] == [e];
    assert Run(c, s, [e]) == Next(c, s, e);
  }

  lemma RunInFour(c: Config, s: State, a: seq<Event>, e: Event, b: seq<Event>, f: Event)
    ensures Run(c, s, a + [e] + b + [f]) == Next(c, Run(c, Next(c, Run(c, s, a), e), b), f)
  {
    RunConcat(c, s, a, [e]);
    RunConcat(c, s, a + [e], b);
    RunConcat(c, s, a + [e] + b, [f]);
    RunTwo(c, Run(c, s, a), e, e);
    RunTwo(c, Run(c, s, a + [e] + b), f, f);
  }

  /** Goroutine `g` holds what it loaded while the goroutines of `lost` increment, and
      then overwrites their increments. */
  function Overwrite(g: nat, kept: seq<nat>, lost: seq<nat>): seq<Event> {
    OneByOne(kept) + [Load(g)] + OneByOne(lost) + [Store(g)]
  }

  /** The goroutines between the load and the store of `g`. */
  function Holding(gs: seq<Goroutine>, kept: seq<nat>, g: nat, value: nat): seq<Goroutine>
    requires g < |gs|
  {
    Added(gs, kept)[g := Goroutine(gs[g].done, Some(value))]
  }

  lemma HoldingSteps(c: Config, s: State, g: nat, kept: seq<nat>)
    requires HasLeft(c, s, g, 1) && Mentions(kept, g) == 0
    ensures Next(c, State(s.ops + |kept|, Added(s.goroutines, kept)), Load(g))
         == State(s.ops + |kept|, Holding(s.goroutines, kept, g, s.ops + |kept|))
  {
    hide Mentions;
    var t := State(s.ops + |kept|, Added(s.goroutines, kept));
    assert t.goroutines[g] == s.goroutines[g];
    hide Added;
    assert Enabled(c, t, Load(g));
  }

  lemma HoldingCanAdd(c: Config, s: State, g: nat, kept: seq<nat>, lost: seq<nat>, ops: nat)
    requires g < |s.goroutines| && Mentions(lost, g) == 0 && CanAdd(c, s, kept + lost)
    ensures CanAdd(c, State(ops, Holding(s.goroutines, kept, g, ops)), lost)
  {
    forall h: nat ensures HasLeft(c, State(ops, Holding(s.goroutines, kept, g, ops)), h, Mentions(lost, h)) {
      MentionsConcat(kept, lost, h);
      assert HasLeft(c, s, h, Mentions(kept + lost, h));
    }
  }

  lemma HoldingEnds(c: Config, s: State, g: nat, kept: seq<nat>, lost: seq<nat>, ops: nat, now: nat)
    requires g < |s.goroutines| && Mentions(kept, g) == 0 && Mentions(lost, g) == 0 && s.goroutines[g].loaded.None?
    ensures Next(c, State(now, Added(Holding(s.goroutines, kept, g, ops), lost)), Store(g))
         == State(ops + 1, Added(s.goroutines, kept + lost + [g]))
  {
    var t := State(now, Added(Holding(s.goroutines, kept, g, ops), lost));
    var u := Next(c, t, Store(g)).goroutines;
    assert t.goroutines[g] == Goroutine(s.goroutines[g].done, Some(ops));
    forall h: nat | h < |s.goroutines| ensures u[h] == Added(s.goroutines, kept + lost + [g])[h] {
      MentionsConcat(kept, lost, h);
      MentionsConcat(kept + lost, [g], h);
      MentionsOne(g, h);
    }
    assert u == Added(s.goroutines, kept + lost + [g]);
  }

  /** `Overwrite` loses exactly the increments of `lost`. */
  lemma OverwriteLoses(c: Config, s: State, g: nat, kept: seq<nat>, lost: seq<nat>)
    requires Mentions(kept, g) == 0 && Mentions(lost, g) == 0 && CanAdd(c, s, kept + lost + [g])
    ensures Run(c, s, Overwrite(g, kept, lost)) == State(s.ops + |kept| + 1, Added(s.goroutines, kept + lost + [g]))
  {
    MentionsOne(g, g);
    CanAddLess(c, s, kept + lost, [g]);
    CanAddLess(c, s, kept, lost);
    assert HasLeft(c, s, g, Mentions([g], g));
    hide Next, Run, CanAdd, OneByOne, Added, Holding, Mentions;
    OneByOneAdds(c, s, kept);
    HoldingSteps(c, s, g, kept);
    var ops := s.ops + |kept|;
    var held := State(ops, Holding(s.goroutines, kept, g, ops));
    HoldingCanAdd(c, s, g, kept, lost, ops);
    OneByOneAdds(c, held, lost);
    HoldingEnds(c, s, g, kept, lost, ops, ops + |lost|);
    RunInFour(c, s, OneByOne(kept), Load(g), OneByOne(lost), Store(g));
  }

  function Times(g: nat, n: nat): seq<nat> {
    seq(n, _ => g)
  }

  lemma {:induction false} TimesMentions(g: nat, n: nat, h: nat)
    ensures Mentions(Times(g, n), h) == if g == h then n else 0
  {
    if n > 0 {
      TimesMentions(g, n - 1, h);
      assert Times(g, n)[..n - 1] == Times(g, n - 1);
    }
  }

  /** All increments of the goroutines from 2 to `k - 1`. */
  function Others(c: Config, k: nat): seq<nat> {
    if k <= 2 then [] else Others(c, k - 1) + Times(k - 1, c.increments)
  }

  lemma {:induction false} OthersMention(c: Config, k: nat, h: nat)
    ensures Mentions(Others(c, k), h) == if 2 <= h < k then c.increments else 0
    ensures k >= 2 ==> |Others(c, k)| == (k - 2) * c.increments
  {
    if k > 2 {
      OthersMention(c, k - 1, h);
      TimesMentions(k - 1, c.increments, h);
      MentionsConcat(Others(c, k - 1), Times(k - 1, c.increments), h);
      assert (k - 3) * c.increments + c.increments == (k - 2) * c.increments;
    }
  }

  /** Everyone's increments except goroutine 0's, and `left` fewer of goroutine 1's. */
  function Rest(c: Config, left: nat): seq<nat>
    requires left <= c.increments
  {
    Others(c, c.goroutines) + Times(1, c.increments - left)
  }

  lemma RestMentions(c: Config, left: nat, h: nat)
    requires left <= c.increments && c.goroutines >= 2
    ensures Mentions(Rest(c, left), h) ==
            if h == 1 then c.increments - left else if 2 <= h < c.goroutines then c.increments else 0
  {
    OthersMention(c, c.goroutines, h);
    TimesMentions(1, c.increments - left, h);
    MentionsConcat(Others(c, c.goroutines), Times(1, c.increments - left), h);
    hide Mentions, Others;
  }

  lemma RestLength(c: Config, left: nat)
    requires left <= c.increments && c.goroutines >= 2
    ensures |Rest(c, left)| == (c.goroutines - 1) * c.increments - left
  {
    OthersMention(c, c.goroutines, 0);
    hide Mentions, Others;
    assert (c.goroutines - 2) * c.increments + c.increments == (c.goroutines - 1) * c.increments;
  }

  predicate Shared(c: Config, first: seq<nat>, second: seq<nat>, h: nat) {
    Mentions(first, h) + Mentions(second, h) == if h < c.goroutines then c.increments else 0
  }

  /** The two lists together mention every goroutine once per iteration. */
  ghost predicate ListsAll(c: Config, first: seq<nat>, second: seq<nat>) {
    forall h: nat :: Shared(c, first, second, h)
  }

  lemma SharedCanAdd(c: Config, first: seq<nat>, second: seq<nat>, ops: nat)
    requires ListsAll(c, first, second)
    ensures CanAdd(c, Init(c), first)
    ensures CanAdd(c, State(ops, Added(Init(c).goroutines, first)), second)
    ensures Finished(c, State(ops, Added(Added(Init(c).goroutines, first), second)))
  {
    forall h: nat
      ensures HasLeft(c, Init(c), h, Mentions(first, h))
      ensures HasLeft(c, State(ops, Added(Init(c).goroutines, first)), h, Mentions(second, h))
    {
      assert Shared(c, first, second, h);
    }
    var gs := Added(Added(Init(c).goroutines, first), second);
    forall h: nat | h < |gs| ensures gs[h] == Goroutine(c.increments, None) {
      assert Shared(c, first, second, h);
    }
  }

  /** Two overwrites, one after the other, that use up everyone's iterations. */
  lemma TwoOverwrites(c: Config, g: nat, kept: seq<nat>, lost: seq<nat>, h: nat, kept2: seq<nat>, lost2: seq<nat>)
    requires Mentions(kept, g) == 0 && Mentions(lost, g) == 0 && Mentions(kept2, h) == 0 && Mentions(lost2, h) == 0
    requires ListsAll(c, kept + lost + [g], kept2 + lost2 + [h])
    ensures EndsAt(c, Overwrite(g, kept, lost) + Overwrite(h, kept2, lost2), |kept| + |kept2| + 2)
  {
    hide ListsAll, Mentions, Overwrite, Run, CanAdd, Added, Finished;
    var first, second := kept + lost + [g], kept2 + lost2 + [h];
    SharedCanAdd(c, first, second, |kept| + 1);
    SharedCanAdd(c, first, second, |kept| + |kept2| + 2);
    OverwriteLoses(c, Init(c), g, kept, lost);
    OverwriteLoses(c, State(|kept| + 1, Added(Init(c).goroutines, first)), h, kept2, lost2);
    RunConcat(c, Init(c), Overwrite(g, kept, lost), Overwrite(h, kept2, lost2));
  }

  /** Goroutine 0 overwrites the last `x` increments of `rest`, and goroutine 1 the last `y` of `times`. */
  lemma LoseTails(c: Config, rest: seq<nat>, times: seq<nat>, x: nat, y: nat) returns (events: seq<Event>)
    requires x <= |rest| && y <= |times| && Mentions(rest, 0) == 0 && Mentions(times, 1) == 0
    requires ListsAll(c, rest + [0], times + [1])
    ensures EndsAt(c, events, |rest| - x + |times| - y + 2)
  {
    hide *;
    var kept, lost := rest[..|rest| - x], rest[|rest| - x..];
    assert kept + lost == rest;
    MentionsConcat(kept, lost, 0);
    var kept2, lost2 := times[..|times| - y], times[|times| - y..];
    assert kept2 + lost2 == times;
    MentionsConcat(kept2, lost2, 1);
    TwoOverwrites(c, 0, kept, lost, 1, kept2, lost2);
    events := Overwrite(0, kept, lost) + Overwrite(1, kept2, lost2);
  }

  lemma RestLists(c: Config)
    requires c.goroutines >= 2 && c.increments >= 1
    ensures ListsAll(c, Rest(c, 1) + [0], Times(0, c.increments - 1) + [1])
  {
    var first: seq<nat>, second: seq<nat> := Rest(c, 1) + [0], Times(0, c.increments - 1) + [1];
    forall h: nat ensures Shared(c, first, second, h) {
      hide Rest, Times;
      RestMentions(c, 1, h);
      TimesMentions(0, c.increments - 1, h);
      MentionsConcat(Rest(c, 1), [0], h);
      MentionsConcat(Times(0, c.increments - 1), [1], h);
      MentionsOne(0, h);
      MentionsOne(1, h);
    }
  }

  /** The last increment of goroutine 1 overwrites `y` increments of goroutine 0, and the
      first one of goroutine 0 overwrites `x` of the others'. */
  lemma LoseInTwo(c: Config, x: nat, y: nat) returns (events: seq<Event>)
    requires c.goroutines >= 2 && c.increments >= 2
    requires x <= (c.goroutines - 1) * c.increments - 1 && y <= c.increments - 1
    ensures EndsAt(c, events, c.goroutines * c.increments - x - y)
  {
    RestMentions(c, 1, 0);
    RestLength(c, 1);
    RestLists(c);
    TimesMentions(0, c.increments - 1, 1);
    hide EndsAt, ListsAll, Rest, Mentions;
    events := LoseTails(c, Rest(c, 1), Times(0, c.increments - 1), x, y);
    assert (c.goroutines - 1) * c.increments + c.increments == c.goroutines * c.increments;
  }

  /** With one increment each, goroutine 0's overwrites `x` of the others'. */
  lemma LoseInOne(c: Config, x: nat) returns (events: seq<Event>)
    requires c.goroutines >= 2 && c.increments == 1 && x <= c.goroutines - 1
    ensures EndsAt(c, events, c.goroutines - x)
  {
    RestMentions(c, 0, 0);
    RestLength(c, 0);
    forall h: nat ensures Shared(c, Rest(c, 0) + [0], [], h) {
      RestMentions(c, 0, h);
      MentionsConcat(Rest(c, 0), [0], h);
      MentionsOne(0, h);
    }
    var rest: seq<nat>, n: nat := Rest(c, 0), c.goroutines - 1;
    SharedCanAdd(c, rest + [0], [], n - x + 1);
    hide Mentions, Rest, CanAdd, ListsAll;
    var kept, lost := rest[..n - x], rest[n - x..];
    assert kept + lost == rest;
    MentionsConcat(kept, lost, 0);
    OverwriteLoses(c, Init(c), 0, kept, lost);
    events := Overwrite(0, kept, lost);
    AddedNone(Added(Init(c).goroutines, rest + [0]));
  }

  lemma AddedNone(gs: seq<Goroutine>)
    ensures Added(gs, []) == gs
  {
  }

  lemma Alone(c: Config) returns (events: seq<Event>)
    requires c.goroutines == 1
    ensures EndsAt(c, events, c.increments)
  {
    events := OneByOne(Times(0, c.increments));
    forall h: nat ensures HasLeft(c, Init(c), h, Mentions(Times(0, c.increments), h)) {
      TimesMentions(0, c.increments, h);
    }
    TimesMentions(0, c.increments, 0);
    OneByOneAdds(c, Init(c), Times(0, c.increments));
  }

  /** The results of the racy counter are exactly the values from `Lowest` to the product:
      every interleaving ends there, and each of these values is the end of some
      interleaving. With two goroutines and two increments or more, that is 2 to the product. */
  lemma PossibleResults(c: Config, v: nat)
    ensures CanEndAt(c, v) <==> Lowest(c) <= v <= c.goroutines * c.increments
  {
    if events :| EndsAt(c, events, v) {
      EndIsInRange(c, events, v);
    }
    if Lowest(c) <= v <= c.goroutines * c.increments {
      var events := ReachResult(c, v);
    }
  }

  lemma ReachResult(c: Config, v: nat) returns (events: seq<Event>)
    requires Lowest(c) <= v <= c.goroutines * c.increments
    ensures EndsAt(c, events, v)
  {
    if c.goroutines == 0 || c.increments == 0 {
      events := [];
      assert v == 0;
    } else if c.goroutines == 1 {
      events := Alone(c);
    } else if c.increments == 1 {
      events := LoseInOne(c, c.goroutines - v);
    } else {
      hide EndsAt;
      var lost, most := c.goroutines * c.increments - v, (c.goroutines - 1) * c.increments - 1;
      assert most + c.increments + 1 == c.goroutines * c.increments;
      events := LoseInTwo(c, Min(lost, most), lost - Min(lost, most));
    }
  }

  // ----- the atomic counter is exact -----

  lemma {:induction false} AtomicHolds(c: Config, adds: seq<nat>)
    ensures var s := RunAtomic(c, Init(c), adds);
            s.ops == TotalDone(s.goroutines) && |s.goroutines| == c.goroutines
  {
    if adds == [] {
      TotalDoneEqual(Init(c).goroutines, 0);
    } else {
      AtomicHolds(c, adds[..|adds| - 1]);
      var s, g := RunAtomic(c, Init(c), adds[..|adds| - 1]), adds[|adds| - 1];
      if g < |s.goroutines| {
        TotalDoneUpdate(s.goroutines, g, Goroutine(s.goroutines[g].done + 1, None));
      }
    }
  }

  /** However the atomic adds interleave, the counter ends at exactly the product. */
  lemma AtomicIsExact(c: Config, adds: seq<nat>)
    requires Finished(c, RunAtomic(c, Init(c), adds))
    ensures RunAtomic(c, Init(c), adds).ops == c.goroutines * c.increments
  {
    AtomicHolds(c, adds);
    TotalDoneEqual(RunAtomic(c, Init(c), adds).goroutines, c.increments);
  }
}
