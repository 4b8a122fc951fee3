/** Which SDU interval an SDU gets, told from times alone (tools/emu/le_audio/controller.py,
    `schedule_iso_sdu`): microseconds since the controller's first SDU, the numbers given to the handle so far,
    and the time the emulation itself was stalled. */
module IsoSlots {
  import opened IsoScheduler

  /** Interval n began before now, by more than the tolerance of a millionth of an interval. */
  predicate Begun(now: int, interval: nat, n: int) { 1_000_000 * (now - n * interval) > interval }

  /** f is the first interval that has not begun. */
  ghost predicate IsFirstFree(now: int, interval: nat, f: int) {
    !Begun(now, interval, f) && forall n :: n < f ==> Begun(now, interval, n)
  }

  /** How late the host may be before its SDU is moved, in microseconds. */
  function Limit(latencyMs: nat): int { if latencyMs * 1000 > 30_000 then latencyMs * 1000 else 30_000 }

  /** L is the least number of intervals, and at least 3, that lasts the limit. */
  predicate IsLateIntervals(interval: nat, latencyMs: nat, L: int) {
    && L >= 3 && L * interval >= Limit(latencyMs)
    && (L == 3 || (L - 1) * interval < Limit(latencyMs))
  }

  /** The host is in time for interval m: it is not later than the limit, beyond what is excused, or the
      intervals it may be late by are not over. */
  ghost predicate InTimeFor(now: int, interval: nat, latencyMs: nat, excused: nat, m: int) {
    || now - m * interval - excused <= Limit(latencyMs)
    || exists L :: IsLateIntervals(interval, latencyMs, L) && !Begun(now, interval, m + L)
  }

  // ---- The arithmetic ----

  lemma CeilIs(a: int, b: nat, c: int)
    requires b > 0
    ensures c == CeilDiv(a, b) <==> (c - 1) * b < a <= c * b
  {
    var q := (-a) / b;
    assert -a == q * b + (-a) % b && 0 <= (-a) % b < b;
    var k := CeilDiv(a, b);
    assert k == -q;
    assert k * b == -(q * b) && (k - 1) * b == k * b - b;
    assert (k - 1) * b < a <= k * b;
    if (c - 1) * b < a <= c * b {
      SameMultiple(c, k, b, a);
    }
  }

  lemma SameMultiple(c: int, k: int, b: nat, a: int)
    requires b > 0 && (c - 1) * b < a <= c * b && (k - 1) * b < a <= k * b
    ensures c == k
  {
    if c < k {
      MulMono(c, k - 1, b);
    } else if k < c {
      MulMono(k, c - 1, b);
    }
  }

  lemma MulMono(a: int, b: int, c: nat)
    requires a <= b
    ensures a * c <= b * c
  {
  }

  /** The code's current interval is the first that has not begun. */
  lemma CurrentIsFirstFree(now: int, interval: nat)
    requires interval > 0
    ensures IsFirstFree(now, interval, CurrentSlot(now, interval))
  {
    var f := CurrentSlot(now, interval);
    CeilIs(1_000_000 * now - interval, 1_000_000 * interval, f);
    Scale(f, interval);
    Scale(f - 1, interval);
    assert !Begun(now, interval, f) && Begun(now, interval, f - 1);
    forall n | n < f
      ensures Begun(now, interval, n)
    {
      MulMono(n, f - 1, interval);
    }
  }

  lemma Scale(n: int, interval: nat)
    ensures n * (1_000_000 * interval) == 1_000_000 * (n * interval)
  {
  }

  lemma FirstFreeIsOne(now: int, interval: nat, f: int, g: int)
    requires IsFirstFree(now, interval, f) && IsFirstFree(now, interval, g)
    ensures f == g
  {
    assert f < g ==> Begun(now, interval, f);
    assert g < f ==> Begun(now, interval, g);
  }

  function LateIntervals(interval: nat, latencyMs: nat): int
    requires interval > 0
  {
    Max(LATE_INTERVALS, CeilDiv(Max(LATE_US, latencyMs * 1000), interval))
  }

  lemma LateIntervalsAre(interval: nat, latencyMs: nat, L: int)
    requires interval > 0
    ensures IsLateIntervals(interval, latencyMs, L) <==> L == LateIntervals(interval, latencyMs)
  {
    var a := Limit(latencyMs);
    var c := CeilDiv(a, interval);
    CeilIs(a, interval, c);
    if c < 3 {
      MulMono(c, 3, interval);
      if L > 3 {
        MulMono(c, L - 1, interval);
      }
    } else {
      if L > c {
        MulMono(c, L - 1, interval);
      } else if L < c {
        MulMono(L, c - 1, interval);
      }
    }
  }

  // ---- One SDU ----

  /** The number an SDU takes, if `given` are the numbers the handle's SDUs took since its last flush. */
  ghost predicate TakesNumber(now: int, given: seq<int>, interval: nat, latencyMs: nat, excused: nat, n: int) {
    if given == [] then IsFirstFree(now, interval, n)
    else
      var m := given[|given| - 1] + 1;
      if InTimeFor(now, interval, latencyMs, excused, m) then n == m
      else
        exists f, L :: IsFirstFree(now, interval, f) && IsLateIntervals(interval, latencyMs, L) && n == f - L > m
  }

  /** An SDU takes the first interval that has not begun if it is the handle's first since a flush; the number
      after the handle's last one if the host is in time for it; and else the first interval that has not begun
      less those the host may be late by, which is a later one. */
  lemma SlotExactly<S>(s: Sched<S>, h: int, interval: nat, latencyMs: nat, excused: nat)
    requires interval > 0 && SlotInv(s, h)
    ensures TakesNumber(s.now, Get(s.numbers, h), interval, latencyMs, excused,
                        SlotFor(s, h, interval, latencyMs, excused))
  {
    hide CurrentSlot, CeilDiv, Begun, IsFirstFree, IsLateIntervals, Given, Increasing;
    var now, given := s.now, Get(s.numbers, h);
    var f, L := CurrentSlot(now, interval), LateIntervals(interval, latencyMs);
    CurrentIsFirstFree(now, interval);
    LateIntervalsAre(interval, latencyMs, L);
    if given != [] {
      var m := given[|given| - 1] + 1;
      BegunExactly(now, interval, f, m + L);
      forall L' | IsLateIntervals(interval, latencyMs, L')
        ensures L' == L
      {
        LateIntervalsAre(interval, latencyMs, L');
      }
    }
  }

  lemma BegunExactly(now: int, interval: nat, f: int, n: int)
    requires IsFirstFree(now, interval, f)
    ensures Begun(now, interval, n) <==> n < f
  {
    if f <= n {
      MulMono(f, n, interval);
    }
  }

  // ---- Over runs ----

  /** The numbers each handle gets, over every run: an accepted SDU adds one number to its handle's, and it is
      the one its time of arrival and the handle's numbers so far say. */
  lemma NumbersFromTimes<S>(now: int, steps: seq<Step<S>>, step: Step<S>)
    requires IsRun(now, steps) && step.Accepts? && Enabled(After(now, steps), step)
    ensures var s, s' := After(now, steps), Apply(After(now, steps), step);
            var given, given' := Get(s.numbers, step.h), Get(s'.numbers, step.h);
            && |given'| == |given| + 1 && given'[..|given|] == given
            && TakesNumber(s.now, given, step.interval, step.latencyMs, step.excused, given'[|given|])
  {
    hide IsRun, After, SlotFor, TakesNumber;
    RunsKeepInv(now, steps);
    var s := After(now, steps);
    assert SlotInv(s, step.h);
    SlotExactly(s, step.h, step.interval, step.latencyMs, step.excused);
  }

  /** The SDUs a run accepted on handle h since the last flush of it. */
  function Since<S>(steps: seq<Step<S>>, h: int): nat {
    if steps == [] then 0
    else
      var before := Since(steps[..|steps| - 1], h);
      match steps[|steps| - 1]
      case Accepts(h', _, _, _, _) => if h' == h then before + 1 else before
      case Flushes(handles) => if h in handles then 0 else before
      case _ => before
  }

  /** In every reachable state the handle's numbers are as many as the SDUs accepted since its last flush, so a
      flush starts the handle over; and right after it nothing waits. */
  lemma {:induction false} FlushStartsOver<S>(now: int, steps: seq<Step<S>>, h: int)
    requires IsRun(now, steps)
    ensures |Get(After(now, steps).numbers, h)| == Since(steps, h)
    ensures Since(steps, h) == 0 ==> Get(After(now, steps).pending, h) == []
  {
    hide Apply, Enabled;
    if steps == [] {
    } else {
      var front, step := steps[..|steps| - 1], steps[|steps| - 1];
      FlushStartsOver(now, front, h);
      StepNumbers(After(now, front), step, h);
    }
  }

  lemma StepNumbers<S>(s: Sched<S>, step: Step<S>, h: int)
    requires Enabled(s, step)
    ensures var s' := Apply(s, step);
            && |Get(s'.numbers, h)| == (match step
                                        case Accepts(h', _, _, _, _) => |Get(s.numbers, h)| + if h' == h then 1 else 0
                                        case Flushes(handles) => if h in handles then 0 else |Get(s.numbers, h)|
                                        case _ => |Get(s.numbers, h)|)
            && ((step.Flushes? && h in step.handles) || (Get(s.pending, h) == [] && !(step.Accepts? && step.h == h))
                ==> Get(s'.pending, h) == [])
  {
    hide SlotFor, FlushAll;
    if step.Flushes? {
      FlushNumbers(s, step.handles, h);
    }
  }

  lemma {:induction false} FlushNumbers<S>(s: Sched<S>, handles: seq<int>, h: int)
    ensures var s' := FlushAll(s, handles);
            && Get(s'.numbers, h) == (if h in handles then [] else Get(s.numbers, h))
            && Get(s'.pending, h) == (if h in handles then [] else Get(s.pending, h))
    decreases |handles|
  {
    if handles == [] {
    } else {
      hide Tag;
      FlushNumbers(Flush(s, handles[0]), handles[1..], h);
      assert handles == [handles[0]] + handles[1..];
    }
  }

  /** A host that is at most 30 ms late, or its latency if that is more, is in time; so its SDUs take one
      number after the other. */
  lemma InTimeTakesNext<S>(s: Sched<S>, h: int, interval: nat, latencyMs: nat, excused: nat)
    requires interval > 0 && SlotInv(s, h) && Get(s.numbers, h) != []
    requires var given := Get(s.numbers, h);
             InTimeFor(s.now, interval, latencyMs, excused, given[|given| - 1] + 1)
    ensures h in s.nextSlot && SlotFor(s, h, interval, latencyMs, excused) == s.nextSlot[h]
  {
    hide CurrentSlot, CeilDiv, Begun, IsFirstFree, IsLateIntervals, Given, Increasing, InTimeFor;
    SlotExactly(s, h, interval, latencyMs, excused);
  }
}
