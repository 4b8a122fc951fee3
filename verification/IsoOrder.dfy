/** When the scheduler keeps the order of a handle's SDUs (tools/emu/le_audio/controller.py). The SDU interval
    is looked up for each SDU, so it can change while SDUs wait: then a younger SDU may be due before an older
    one. Here is exactly when order is kept, over every run. */
module IsoOrder {
  import opened IsoScheduler

  /** Each SDU of a handle is due later than all older ones. */
  predicate Ordered<S>(p: seq<Entry<S>>) {
    forall i, j :: 0 <= i < j < |p| ==> p[i].Due() < p[j].Due()
  }

  predicate Later<S>(p: seq<Entry<S>>, due: int) {
    forall i :: 0 <= i < |p| ==> p[i].Due() < due
  }

  /** If this step accepts an SDU on h: its slot begins later than those of the SDUs pending on h. */
  predicate InTurn<S>(s: Sched<S>, step: Step<S>, h: int)
    requires Enabled(s, step)
  {
    step.Accepts? && step.h == h ==>
      Later(Get(s.pending, h), SlotFor(s, h, step.interval, step.latencyMs, step.excused) * step.interval)
  }

  /** Every SDU accepted on h came in turn. */
  predicate Punctual<S>(now: int, steps: seq<Step<S>>, h: int)
    requires IsRun(now, steps)
    decreases |steps|
  {
    steps == [] ||
    (&& Punctual(now, steps[..|steps| - 1], h)
     && InTurn(After(now, steps[..|steps| - 1]), steps[|steps| - 1], h))
  }

  ghost predicate OrderInv<S>(s: Sched<S>, h: int) {
    var p := Get(s.pending, h);
    Ordered(p) && Get(s.accepted, h) == Sdus(CarriedOf(h, s.carried)) + Sdus(p)
  }

  // ---- One step ----

  lemma OrderedOneMore<S>(p: seq<Entry<S>>, e: Entry<S>)
    requires Ordered(p)
    ensures Ordered(p + [e]) <==> Later(p, e.Due())
  {
    var q := p + [e];
    assert q[|p|] == e && forall i :: 0 <= i < |p| ==> q[i] == p[i];
  }

  lemma AcceptShape<S>(s: Sched<S>, step: Step<S>, h: int)
    requires step.Accepts? && Enabled(s, step)
    ensures var s' := Apply(s, step);
            var e := Entry(SlotFor(s, step.h, step.interval, step.latencyMs, step.excused), step.interval, step.sdu);
            && s'.carried == s.carried
            && Get(s'.pending, h) == Get(s.pending, h) + (if h == step.h then [e] else [])
            && Get(s'.accepted, h) == Get(s.accepted, h) + (if h == step.h then [step.sdu] else [])
  {
    hide SlotFor;
    assert Get(s.pending, h) + [] == Get(s.pending, h) && Get(s.accepted, h) + [] == Get(s.accepted, h);
  }

  /** An accepted SDU keeps its handle's order if and only if its slot begins after those of the SDUs pending
      on the handle. */
  lemma AcceptKeepsOrderExactly<S>(s: Sched<S>, step: Step<S>)
    requires step.Accepts? && Enabled(s, step) && Ordered(Get(s.pending, step.h))
    ensures Ordered(Get(Apply(s, step).pending, step.h)) <==> InTurn(s, step, step.h)
  {
    hide SlotFor, Ordered, Later, Apply;
    AcceptShape(s, step, step.h);
    OrderedOneMore(Get(s.pending, step.h),
                   Entry(SlotFor(s, step.h, step.interval, step.latencyMs, step.excused), step.interval, step.sdu));
  }

  lemma AcceptKeepsOrder<S>(s: Sched<S>, step: Step<S>, h: int)
    requires step.Accepts? && Enabled(s, step) && OrderInv(s, h) && InTurn(s, step, h)
    ensures OrderInv(Apply(s, step), h)
  {
    hide SlotFor, Ordered, Later, CarriedOf, Sdus, Apply;
    var c, p := CarriedOf(h, s.carried), Get(s.pending, h);
    AcceptShape(s, step, h);
    if h == step.h {
      var e := Entry(SlotFor(s, h, step.interval, step.latencyMs, step.excused), step.interval, step.sdu);
      OrderedOneMore(p, e);
      SdusAppend(p, [e]);
      OneSdu(e);
      assert Sdus(c) + Sdus(p) + [step.sdu] == Sdus(c) + (Sdus(p) + [step.sdu]);
    } else {
      assert p + [] == p && Get(s.accepted, h) + [] == Get(s.accepted, h);
    }
  }

  lemma OldestIsDueFirst<S>(p: seq<Entry<S>>, k: nat)
    requires Ordered(p) && 0 < k < |p|
    ensures p[0].Due() < p[k].Due()
  {
  }

  /** In order, only the oldest SDU's timer can fire. */
  lemma OldestFires<S>(s: Sched<S>, h: int, k: nat)
    requires CanFire(s, h, k) && Ordered(Get(s.pending, h))
    ensures k == 0
  {
    if k > 0 {
      OldestIsDueFirst(s.pending[h], k);
    }
  }

  lemma OrderedRest<S>(p: seq<Entry<S>>)
    requires Ordered(p) && p != []
    ensures Ordered(p[..0] + p[1..]) && p[..0] + p[1..] == p[1..]
  {
    var q := p[1..];
    assert forall i :: 0 <= i < |q| ==> q[i] == p[i + 1];
  }

  lemma SdusMove<S>(c: seq<Entry<S>>, p: seq<Entry<S>>)
    requires p != []
    ensures Sdus(c) + Sdus(p) == Sdus(c + [p[0]]) + Sdus(p[1..])
  {
    hide Sdus;
    assert p == [p[0]] + p[1..];
    SdusAppend(c, [p[0]]);
    SdusAppend([p[0]], p[1..]);
    assert Sdus(c) + (Sdus([p[0]]) + Sdus(p[1..])) == Sdus(c) + Sdus([p[0]]) + Sdus(p[1..]);
  }

  lemma FirstKeepsOrder<S>(s: Sched<S>, h: int, h': int)
    requires Get(s.pending, h) != [] && OrderInv(s, h')
    ensures OrderInv(Deliver(s, h, 0), h')
  {
    hide CarriedOf, Sdus, Ordered;
    var p, c := s.pending[h], CarriedOf(h', s.carried);
    CarriedOne(h', s.carried, (h, p[0]));
    if h == h' {
      OrderedRest(p);
      SdusMove(c, p);
    } else {
      assert c + [] == c;
    }
  }

  /** A delivery on another handle, whichever its timer. */
  lemma OthersKeepOrder<S>(s: Sched<S>, h: int, k: nat, h': int)
    requires k < |Get(s.pending, h)| && h != h' && OrderInv(s, h')
    ensures OrderInv(Deliver(s, h, k), h')
  {
    hide CarriedOf, Sdus, Ordered;
    CarriedOne(h', s.carried, (h, s.pending[h][k]));
    assert CarriedOf(h', s.carried) + [] == CarriedOf(h', s.carried);
  }

  lemma FlushKeepsOrder<S>(s: Sched<S>, h: int, h': int)
    requires OrderInv(s, h')
    ensures OrderInv(Flush(s, h), h')
  {
    hide CarriedOf, Sdus, Flush;
    var c := CarriedOf(h', s.carried);
    FlushShape(s, h, h');
    FlushCarries(s, h, h');
    if h == h' {
      SdusAppend(c, Get(s.pending, h));
      NoSdus<S>();
      assert Sdus(c + Get(s.pending, h)) + [] == Sdus(c + Get(s.pending, h));
    }
  }

  lemma {:induction false} FlushAllKeepsOrder<S>(s: Sched<S>, handles: seq<int>, h: int)
    requires OrderInv(s, h)
    ensures OrderInv(FlushAll(s, handles), h)
    decreases |handles|
  {
    if handles == [] {
    } else {
      FlushKeepsOrder(s, handles[0], h);
      FlushAllKeepsOrder(Flush(s, handles[0]), handles[1..], h);
    }
  }

  lemma StepKeepsOrder<S>(s: Sched<S>, step: Step<S>, h: int)
    requires Enabled(s, step) && OrderInv(s, h) && InTurn(s, step, h)
    ensures OrderInv(Apply(s, step), h)
  {
    hide CarriedOf, Sdus, Ordered, Later, Accept, FlushAll, Deliver;
    match step
    case Accepts(_, _, _, _, _) => AcceptKeepsOrder(s, step, h);
    case Refuses(_) =>
    case Fires(h', k) =>
      if h' == h {
        OldestFires(s, h, k);
        FirstKeepsOrder(s, h, h);
      } else {
        OthersKeepOrder(s, h', k, h);
      }
    case Flushes(handles) => FlushAllKeepsOrder(s, handles, h);
    case Ticks(_) =>
  }

  lemma {:induction false} RunsKeepOrder<S>(now: int, steps: seq<Step<S>>, h: int)
    requires IsRun(now, steps) && Punctual(now, steps, h)
    ensures OrderInv(After(now, steps), h)
    decreases |steps|
  {
    hide Enabled, Apply, InTurn;
    if steps == [] {
      assert OrderInv(EmptySched<S>(now), h);
    } else {
      var front := steps[..|steps| - 1];
      RunsKeepOrder(now, front, h);
      StepKeepsOrder(After(now, front), steps[|steps| - 1], h);
    }
  }

  // ---- Results over every punctual run ----

  /** Exactly once and in order: what a handle carried, followed by what waits, is what was accepted. */
  lemma ExactlyOnceInOrder<S>(now: int, steps: seq<Step<S>>, h: int)
    requires IsRun(now, steps) && Punctual(now, steps, h)
    ensures var s := After(now, steps);
            && Get(s.accepted, h) == Sdus(CarriedOf(h, s.carried)) + Sdus(Get(s.pending, h))
            && Count(s.completions, h) == |Get(s.accepted, h)| - |Get(s.pending, h)| + Count(s.refused, h)
  {
    hide CarriedOf, IsRun, After, Punctual, Sdus;
    RunsKeepOrder(now, steps, h);
    ExactlyOnce(now, steps, h);
  }

  /** The timer that fires next on a handle is its oldest SDU's. */
  lemma TimersFireInOrder<S>(now: int, steps: seq<Step<S>>, h: int, k: nat)
    requires IsRun(now, steps) && Punctual(now, steps, h) && CanFire(After(now, steps), h, k)
    ensures k == 0
  {
    hide IsRun, After, Punctual;
    RunsKeepOrder(now, steps, h);
    OldestFires(After(now, steps), h, k);
  }

  // ---- An unchanged interval ----

  lemma SameIntervalIsInTurn<S>(s: Sched<S>, step: Step<S>)
    requires Enabled(s, step) && step.Accepts? && SlotInv(s, step.h)
    requires forall i :: 0 <= i < |Get(s.pending, step.h)| ==> Get(s.pending, step.h)[i].interval == step.interval
    ensures InTurn(s, step, step.h)
  {
    hide SlotFor;
    var h, p, ns := step.h, Get(s.pending, step.h), Get(s.numbers, step.h);
    var n := SlotFor(s, h, step.interval, step.latencyMs, step.excused);
    forall i | 0 <= i < |p|
      ensures p[i].Due() < n * step.interval
    {
      LastIsLargest(ns, p[i].n);
      SlotIsFree(s, h, step.interval, step.latencyMs, step.excused);
      MulLess(p[i].n, n, step.interval);
    }
  }

  lemma MulLess(a: int, b: int, c: nat)
    requires a < b && c > 0
    ensures a * c < b * c
  {
  }

  /** Each SDU accepted on h has the interval of those pending on it. */
  predicate SameIntervals<S>(now: int, steps: seq<Step<S>>, h: int)
    requires IsRun(now, steps)
    decreases |steps|
  {
    steps == [] ||
    (&& SameIntervals(now, steps[..|steps| - 1], h)
     && var p, step := Get(After(now, steps[..|steps| - 1]).pending, h), steps[|steps| - 1];
     step.Accepts? && step.h == h ==> forall i :: 0 <= i < |p| ==> p[i].interval == step.interval)
  }

  /** A handle whose interval does not change while SDUs wait is punctual, so its SDUs keep their order. */
  lemma {:induction false} SameIntervalsArePunctual<S>(now: int, steps: seq<Step<S>>, h: int)
    requires IsRun(now, steps) && SameIntervals(now, steps, h)
    ensures Punctual(now, steps, h)
    decreases |steps|
  {
    hide SlotFor, Later, Apply;
    if steps == [] {
    } else {
      var front, step := steps[..|steps| - 1], steps[|steps| - 1];
      SameIntervalsArePunctual(now, front, h);
      if step.Accepts? && step.h == h {
        RunsKeepInv(now, front);
        assert SlotInv(After(now, front), h);
        SameIntervalIsInTurn(After(now, front), step);
      }
    }
  }

  // ---- The exact condition, over every run ----

  predicate TimersOnly<S>(more: seq<Step<S>>) {
    forall i :: 0 <= i < |more| ==> more[i].Ticks? || more[i].Fires?
  }

  /** No delivery on h overtakes an older SDU. */
  predicate NoneOvertaken<S>(more: seq<Step<S>>, h: int) {
    forall i :: 0 <= i < |more| && more[i].Fires? && more[i].h == h ==> more[i].k == 0
  }

  /** However time and timers go on from any point of the run, no SDU of h is overtaken. */
  ghost predicate OrderIsSafe<S(!new)>(now: int, steps: seq<Step<S>>, h: int) {
    forall i: nat, more: seq<Step<S>> ::
      i <= |steps| && TimersOnly(more) && IsRun(now, steps[..i] + more) ==> NoneOvertaken(more, h)
  }

  lemma RunOne<S>(now: int, steps: seq<Step<S>>, step: Step<S>)
    requires IsRun(now, steps) && Enabled(After(now, steps), step)
    ensures IsRun(now, steps + [step]) && After(now, steps + [step]) == Apply(After(now, steps), step)
  {
    hide Enabled, Apply;
    assert (steps + [step])[..|steps|] == steps;
  }

  lemma RunFront<S>(now: int, steps: seq<Step<S>>, more: seq<Step<S>>)
    requires more != [] && IsRun(now, steps + more)
    ensures var front := steps + more[..|more| - 1];
            && IsRun(now, front) && Enabled(After(now, front), more[|more| - 1])
            && steps + more == front + [more[|more| - 1]]
  {
    hide Enabled, Apply;
    assert (steps + more)[..|steps + more| - 1] == steps + more[..|more| - 1];
  }

  lemma {:induction false} RunPrefix<S>(now: int, steps: seq<Step<S>>, i: nat)
    requires IsRun(now, steps) && i <= |steps|
    ensures IsRun(now, steps[..i])
    decreases |steps|
  {
    if i == |steps| {
      assert steps[..i] == steps;
    } else {
      assert steps[..|steps| - 1][..i] == steps[..i];
      RunPrefix(now, steps[..|steps| - 1], i);
    }
  }

  lemma {:induction false} PunctualPrefix<S>(now: int, steps: seq<Step<S>>, i: nat, h: int)
    requires IsRun(now, steps) && i <= |steps| && Punctual(now, steps, h) && IsRun(now, steps[..i])
    ensures Punctual(now, steps[..i], h)
    decreases |steps|
  {
    hide InTurn, Enabled;
    if i == |steps| {
      assert steps[..i] == steps;
    } else {
      assert steps[..|steps| - 1][..i] == steps[..i];
      PunctualPrefix(now, steps[..|steps| - 1], i, h);
    }
  }

  /** Time and timers do not end punctuality. */
  lemma {:induction false} TimersArePunctual<S>(now: int, steps: seq<Step<S>>, more: seq<Step<S>>, h: int)
    requires IsRun(now, steps) && Punctual(now, steps, h) && TimersOnly(more) && IsRun(now, steps + more)
    ensures Punctual(now, steps + more, h) && NoneOvertaken(more, h)
    decreases |more|
  {
    hide Enabled, Apply, After;
    if more == [] {
      assert steps + more == steps;
    } else {
      var front, step := more[..|more| - 1], more[|more| - 1];
      RunFront(now, steps, more);
      TimersArePunctual(now, steps, front, h);
      PunctualOne(now, steps + front, step, h);
      if step.Fires? && step.h == h {
        FiresIsCanFire(After(now, steps + front), step);
        TimersFireInOrder(now, steps + front, h, step.k);
      }
    }
  }

  lemma FiresIsCanFire<S>(s: Sched<S>, step: Step<S>)
    requires Enabled(s, step) && step.Fires?
    ensures CanFire(s, step.h, step.k)
  {
  }

  lemma PunctualOne<S>(now: int, steps: seq<Step<S>>, step: Step<S>, h: int)
    requires IsRun(now, steps) && Punctual(now, steps, h) && !step.Accepts? && Enabled(After(now, steps), step)
    requires IsRun(now, steps + [step])
    ensures Punctual(now, steps + [step], h)
  {
    hide Enabled, Apply;
    assert (steps + [step])[..|steps|] == steps;
  }

  // ---- Where order is lost ----

  /** Some younger SDU can fire next once all are due, or the oldest one is due first. */
  lemma {:induction false} OldestIsEarliest<S>(s: Sched<S>, h: int, k: nat)
    requires 0 < k < |Get(s.pending, h)|
    requires forall i :: 0 <= i < |Get(s.pending, h)| ==> s.pending[h][i].Due() <= s.now
    requires forall k' :: 0 < k' < |Get(s.pending, h)| ==> !CanFire(s, h, k')
    ensures s.pending[h][0].Due() < s.pending[h][k].Due()
    decreases k
  {
    assert !CanFire(s, h, k);
    var k' :| 0 <= k' < k && s.pending[h][k'].Due() < s.pending[h][k].Due();
    if k' > 0 {
      OldestIsEarliest(s, h, k');
    }
  }

  lemma UnorderedRest<S>(p: seq<Entry<S>>)
    requires !Ordered(p) && forall k :: 0 < k < |p| ==> p[0].Due() < p[k].Due()
    ensures |p| > 1 && !Ordered(p[1..])
  {
    var i, j :| 0 <= i < j < |p| && p[i].Due() >= p[j].Due();
    assert p[1..][i - 1] == p[i] && p[1..][j - 1] == p[j];
  }

  /** Once all SDUs of h are due: SDUs that are not in order can be overtaken. */
  lemma {:induction false} Overtaking<S>(now: int, steps: seq<Step<S>>, h: int) returns (more: seq<Step<S>>)
    requires IsRun(now, steps) && !Ordered(Get(After(now, steps).pending, h))
    requires var s := After(now, steps);
             forall i :: 0 <= i < |Get(s.pending, h)| ==> Get(s.pending, h)[i].Due() <= s.now
    ensures TimersOnly(more) && IsRun(now, steps + more) && !NoneOvertaken(more, h)
    decreases |Get(After(now, steps).pending, h)|
  {
    hide IsRun, After, Ordered, CanFire;
    var s := After(now, steps);
    var p := Get(s.pending, h);
    if k :| 0 < k < |p| && CanFire(s, h, k) {
      RunOne(now, steps, Fires(h, k));
      more := [Fires(h, k)];
      assert more[0].Fires? && more[0].k != 0;
    } else {
      forall k | 0 < k < |p|
        ensures p[0].Due() < p[k].Due()
      {
        OldestIsEarliest(s, h, k);
      }
      UnorderedRest(p);
      FirstCanFire(s, h);
      RunOne(now, steps, Fires(h, 0));
      assert p[..0] + p[1..] == p[1..];
      var rest := Overtaking(now, steps + [Fires(h, 0)], h);
      more := [Fires(h, 0)] + rest;
      assert steps + [Fires(h, 0)] + rest == steps + more;
      var i :| 0 <= i < |rest| && rest[i].Fires? && rest[i].h == h && rest[i].k != 0;
      assert more[i + 1] == rest[i];
    }
  }

  lemma FirstCanFire<S>(s: Sched<S>, h: int)
    requires Get(s.pending, h) != [] && s.pending[h][0].Due() <= s.now
    ensures CanFire(s, h, 0)
  {
  }

  function Latest<S>(p: seq<Entry<S>>): (t: int)
    ensures forall i :: 0 <= i < |p| ==> p[i].Due() <= t
  {
    if p == [] then 0 else Max(Latest(p[..|p| - 1]), p[|p| - 1].Due())
  }

  /** From any state of a run in which SDUs of h are not in order, time and timers can overtake one. */
  lemma Overtaken<S>(now: int, steps: seq<Step<S>>, h: int) returns (more: seq<Step<S>>)
    requires IsRun(now, steps) && !Ordered(Get(After(now, steps).pending, h))
    ensures TimersOnly(more) && IsRun(now, steps + more) && !NoneOvertaken(more, h)
  {
    hide IsRun, After, Ordered;
    var s := After(now, steps);
    var wait := Ticks(Max(0, Latest(Get(s.pending, h)) - s.now));
    RunOne(now, steps, wait);
    var rest := Overtaking(now, steps + [wait], h);
    more := [wait] + rest;
    assert steps + [wait] + rest == steps + more;
    var i :| 0 <= i < |rest| && rest[i].Fires? && rest[i].h == h && rest[i].k != 0;
    assert more[i + 1] == rest[i];
  }

  lemma {:induction false} SafeIsPunctual<S(!new)>(now: int, steps: seq<Step<S>>, h: int)
    requires IsRun(now, steps) && OrderIsSafe(now, steps, h)
    ensures Punctual(now, steps, h)
    decreases |steps|
  {
    if steps == [] {
    } else {
      hide Enabled, Apply, InTurn, OrderInv, Ordered;
      var front, step := steps[..|steps| - 1], steps[|steps| - 1];
      SafeFront(now, steps, h);
      SafeIsPunctual(now, front, h);
      RunsKeepOrder(now, front, h);
      assert steps[..|steps|] == steps;
      if !InTurn(After(now, front), step, h) {
        OutOfTurn(After(now, front), step, h);
        var more := Overtaken(now, steps, h);
      }
    }
  }

  lemma SafeFront<S(!new)>(now: int, steps: seq<Step<S>>, h: int)
    requires steps != [] && OrderIsSafe(now, steps, h)
    ensures OrderIsSafe(now, steps[..|steps| - 1], h)
  {
    hide IsRun, TimersOnly, NoneOvertaken;
    var front := steps[..|steps| - 1];
    forall i: nat, more: seq<Step<S>> | i <= |front| && TimersOnly(more) && IsRun(now, front[..i] + more)
      ensures NoneOvertaken(more, h)
    {
      assert front[..i] == steps[..i];
    }
  }

  lemma OutOfTurn<S>(s: Sched<S>, step: Step<S>, h: int)
    requires Enabled(s, step) && OrderInv(s, h) && !InTurn(s, step, h)
    ensures !Ordered(Get(Apply(s, step).pending, h))
  {
    hide SlotFor, Ordered, Later, Apply;
    AcceptKeepsOrderExactly(s, step);
  }

  /** Over every run: a handle's SDUs cannot overtake each other, however time and timers go on from any of
      its points, if and only if every SDU accepted on it came in turn. */
  lemma OrderExactly<S(!new)>(now: int, steps: seq<Step<S>>, h: int)
    requires IsRun(now, steps)
    ensures Punctual(now, steps, h) <==> OrderIsSafe(now, steps, h)
  {
    hide IsRun, Punctual, TimersOnly, NoneOvertaken;
    if Punctual(now, steps, h) {
      forall i: nat, more: seq<Step<S>> | i <= |steps| && TimersOnly(more) && IsRun(now, steps[..i] + more)
        ensures NoneOvertaken(more, h)
      {
        RunPrefix(now, steps, i);
        PunctualPrefix(now, steps, i, h);
        TimersArePunctual(now, steps[..i], more, h);
      }
    }
    if OrderIsSafe(now, steps, h) {
      SafeIsPunctual(now, steps, h);
    }
  }

  /** The interval of handle 2 becomes 7.5 ms while an SDU of 10 ms waits: the younger SDU is carried first. */
  lemma ShorterIntervalOvertakes()
    ensures var steps := [Accepts(1, 10000, 0, 0, 'x'), Ticks(31000), Accepts(2, 10000, 0, 0, 'a'),
                          Accepts(2, 7500, 0, 0, 'b'), Ticks(7000), Fires(2, 1)];
            && IsRun(0, steps) && Get(After(0, steps).accepted, 2) == ['a', 'b']
            && Sdus(CarriedOf(2, After(0, steps).carried)) == ['b']
  {
    var x, a, b := Accepts(1, 10000, 0, 0, 'x'), Accepts(2, 10000, 0, 0, 'a'), Accepts(2, 7500, 0, 0, 'b');
    var t2, s2 := TwoSteps(x);
    var t4, s4 := FourSteps(t2, s2, a, b);
    var s5 := s4.(now := 38000);
    hide SlotFor, IsRun, After, CarriedOf;
    RunOne(0, t4, Ticks(7000));
    var t5 := t4 + [Ticks(7000)];
    assert CanFire(s5, 2, 1);
    RunOne(0, t5, Fires(2, 1));
    assert t5 + [Fires(2, 1)] == [x, Ticks(31000), a, b, Ticks(7000), Fires(2, 1)];
    CarriedOne(2, s5.carried, (2, s5.pending[2][1]));
    NoneCarried<char>(2);
    OneSdu(s5.pending[2][1]);
  }

  lemma NoneCarried<S>(h: int)
    ensures CarriedOf<S>(h, []) == []
  {
  }

  lemma TwoSteps(x: Step<char>) returns (t: seq<Step<char>>, s: Sched<char>)
    requires x == Accepts(1, 10000, 0, 0, 'x')
    ensures t == [x, Ticks(31000)] && IsRun(0, t) && s == After(0, t)
    ensures s.now == 31000 && 2 !in s.nextSlot && 2 !in s.pending && 2 !in s.accepted && s.carried == []
  {
    hide SlotFor;
    var none: seq<Step<char>> := [];
    assert IsRun(0, none) && After(0, none) == EmptySched(0);
    RunOne(0, none, x);
    assert none + [x] == [x];
    RunOne(0, [x], Ticks(31000));
    t := [x] + [Ticks(31000)];
    s := After(0, t);
  }

  lemma FourSteps(t2: seq<Step<char>>, s2: Sched<char>, a: Step<char>, b: Step<char>)
      returns (t: seq<Step<char>>, s: Sched<char>)
    requires a == Accepts(2, 10000, 0, 0, 'a') && b == Accepts(2, 7500, 0, 0, 'b')
    requires IsRun(0, t2) && s2 == After(0, t2)
    requires s2.now == 31000 && 2 !in s2.nextSlot && 2 !in s2.pending && 2 !in s2.accepted && s2.carried == []
    ensures t == t2 + [a] + [b] && IsRun(0, t) && s == After(0, t)
    ensures s.now == 31000 && s.carried == [] && Get(s.accepted, 2) == ['a', 'b']
    ensures Get(s.pending, 2) == [Entry(4, 10000, 'a'), Entry(5, 7500, 'b')]
  {
    hide IsRun, After;
    RunOne(0, t2, a);
    assert SlotFor(s2, 2, 10000, 0, 0) == 4;
    var s3 := After(0, t2 + [a]);
    assert s3.nextSlot[2] == 5 && s3.now == 31000;
    assert SlotFor(s3, 2, 7500, 0, 0) == 5;
    hide SlotFor;
    RunOne(0, t2 + [a], b);
    t := t2 + [a] + [b];
    s := After(0, t);
  }
}
