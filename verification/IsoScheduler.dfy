/** The per-handle SDU scheduler of the emulated controllers (tools/emu/le_audio/controller.py): one SDU
    per SDU interval, carried by a timer or by a flush, each with one completion to the sender. Times are
    integer microseconds since the controller's first SDU. `S` is what an SDU carries. */
module IsoScheduler {
  import opened Options

  const LATE_INTERVALS := 3
  const LATE_US := 30000

  /** What LE Set CIG Parameters keeps for a CIS. */
  datatype CisParams = CisParams(interval: nat, latencyMs: nat)

  /** The link of a handle: none, or a CIS, whose parameters may be missing. */
  datatype CisLink = Unknown | Cis(params: Option<CisParams>)

  /** An SDU in interval n of its handle. */
  datatype Entry<S> = Entry(n: int, interval: nat, sdu: S) {
    function Due(): int { n * interval }
    function TimeStamp(): int { (n * interval) % 0x1_0000_0000 }
  }

  datatype Sched<S> = Sched(
    now: int,
    nextSlot: map<int, int>,             // handle -> number of the next free SDU interval
    pending: map<int, seq<Entry<S>>>,    // handle -> SDUs that wait for their interval
    carried: seq<(int, Entry<S>)>,       // history: SDUs carried, with their handle
    completions: map<int, nat>,          // history: completed packets reported to the sender
    accepted: map<int, seq<S>>,          // history: SDUs taken from the sender
    refused: map<int, nat>,              // history: SDUs for a handle that is none, completed at once
    numbers: map<int, seq<int>>          // history: interval numbers given since the handle's last flush
  )

  function EmptySched<S>(now: int): Sched<S> { Sched(now, map[], map[], [], map[], map[], map[], map[]) }

  function Get<V>(m: map<int, seq<V>>, h: int): seq<V> { if h in m then m[h] else [] }

  function Count(m: map<int, nat>, h: int): nat { if h in m then m[h] else 0 }

  function CeilDiv(a: int, b: int): int
    requires b > 0
  {
    -((-a) / b)
  }

  function Max(a: int, b: int): int { if a < b then b else a }

  /** The next SDU interval to begin, with the code's tolerance of 1e-6 interval. */
  function CurrentSlot(now: int, interval: nat): int
    requires interval > 0
  {
    CeilDiv(1_000_000 * now - interval, 1_000_000 * interval)
  }

  /** The interval an SDU takes. `excused` is the time the emulation itself was stalled. */
  function SlotFor<S>(s: Sched<S>, h: int, interval: nat, latencyMs: nat, excused: nat): int
    requires interval > 0
  {
    var lateUs := Max(LATE_US, latencyMs * 1000);
    var late := Max(LATE_INTERVALS, CeilDiv(lateUs, interval));
    if h !in s.nextSlot then CurrentSlot(s.now, interval)
    else if s.now - s.nextSlot[h] * interval - excused > lateUs
    then Max(s.nextSlot[h], CurrentSlot(s.now, interval) - late)
    else s.nextSlot[h]
  }

  function Accept<S>(s: Sched<S>, h: int, interval: nat, latencyMs: nat, excused: nat, sdu: S): Sched<S>
    requires interval > 0
  {
    var n := SlotFor(s, h, interval, latencyMs, excused);
    s.(nextSlot := s.nextSlot[h := n + 1],
       pending := s.pending[h := Get(s.pending, h) + [Entry(n, interval, sdu)]],
       accepted := s.accepted[h := Get(s.accepted, h) + [sdu]],
       numbers := s.numbers[h := Get(s.numbers, h) + [n]])
  }

  /** An SDU for an unknown handle: only a completion. */
  function Refuse<S>(s: Sched<S>, h: int): Sched<S> {
    s.(completions := s.completions[h := Count(s.completions, h) + 1],
       refused := s.refused[h := Count(s.refused, h) + 1])
  }

  /** One delivery: the entry leaves the pending list, and the sender gets a completion. */
  function Deliver<S>(s: Sched<S>, h: int, k: nat): Sched<S>
    requires k < |Get(s.pending, h)|
  {
    var p := s.pending[h];
    s.(pending := s.pending[h := p[..k] + p[k + 1..]],
       carried := s.carried + [(h, p[k])],
       completions := s.completions[h := Count(s.completions, h) + 1])
  }

  function Tag<S>(h: int, es: seq<Entry<S>>): seq<(int, Entry<S>)> {
    seq(|es|, i requires 0 <= i < |es| => (h, es[i]))
  }

  /** Everything pending on a handle is carried now, in order; the handle starts over. */
  function Flush<S>(s: Sched<S>, h: int): Sched<S> {
    var p := Get(s.pending, h);
    s.(pending := s.pending - {h},
       nextSlot := s.nextSlot - {h},
       carried := s.carried + Tag(h, p),
       completions := if p == [] then s.completions else s.completions[h := Count(s.completions, h) + |p|],
       numbers := s.numbers - {h})
  }

  function FlushAll<S>(s: Sched<S>, handles: seq<int>): Sched<S>
    decreases |handles|
  {
    if handles == [] then s else FlushAll(Flush(s, handles[0]), handles[1..])
  }

  // ---- Runs of one controller ----

  datatype Step<S> =
    | Accepts(h: int, interval: nat, latencyMs: nat, excused: nat, sdu: S)
    | Refuses(h: int)
    | Fires(h: int, k: nat)
    | Flushes(handles: seq<int>)
    | Ticks(us: nat)

  /** A timer fires when it is due and no older SDU of its handle is due before it. The event loop takes due
      timers in the order of their times, but one it has already taken runs before a younger one that was
      armed since, whatever that one's time. */
  predicate CanFire<S>(s: Sched<S>, h: int, k: nat) {
    && k < |Get(s.pending, h)|
    && s.pending[h][k].Due() <= s.now
    && forall k' :: 0 <= k' < k ==> s.pending[h][k].Due() <= s.pending[h][k'].Due()
  }

  predicate Enabled<S>(s: Sched<S>, step: Step<S>) {
    match step
    case Accepts(_, interval, _, _, _) => interval > 0
    case Refuses(_) => true
    case Fires(h, k) => CanFire(s, h, k)
    case Flushes(_) => true
    case Ticks(_) => true
  }

  function Apply<S>(s: Sched<S>, step: Step<S>): Sched<S>
    requires Enabled(s, step)
  {
    match step
    case Accepts(h, interval, latencyMs, excused, sdu) => Accept(s, h, interval, latencyMs, excused, sdu)
    case Refuses(h) => Refuse(s, h)
    case Fires(h, k) => Deliver(s, h, k)
    case Flushes(handles) => FlushAll(s, handles)
    case Ticks(us) => s.(now := s.now + us)
  }

  predicate IsRun<S>(now: int, steps: seq<Step<S>>)
    decreases |steps|, 0
  {
    steps == [] || (IsRun(now, steps[..|steps| - 1]) && Enabled(After(now, steps[..|steps| - 1]), steps[|steps| - 1]))
  }

  function After<S>(now: int, steps: seq<Step<S>>): Sched<S>
    requires IsRun(now, steps)
    decreases |steps|, 1
  {
    if steps == [] then EmptySched(now) else Apply(After(now, steps[..|steps| - 1]), steps[|steps| - 1])
  }

  // ---- What is observed of one handle ----

  function CarriedOf<S>(h: int, carried: seq<(int, Entry<S>)>): seq<Entry<S>> {
    if carried == [] then []
    else
      var (h', e) := carried[|carried| - 1];
      CarriedOf(h, carried[..|carried| - 1]) + if h' == h then [e] else []
  }

  function Sdus<S>(es: seq<Entry<S>>): seq<S> {
    seq(|es|, i requires 0 <= i < |es| => es[i].sdu)
  }

  // ---- The invariant ----

  predicate Increasing(ns: seq<int>) {
    forall i, j :: 0 <= i < j < |ns| ==> ns[i] < ns[j]
  }

  /** The pending entries have increasing numbers, all of them given. */
  predicate Given<S>(p: seq<Entry<S>>, ns: seq<int>) {
    && (forall i, j :: 0 <= i < j < |p| ==> p[i].n < p[j].n)
    && (forall i :: 0 <= i < |p| ==> p[i].n in ns && p[i].interval > 0)
  }

  predicate SlotInv<S>(s: Sched<S>, h: int) {
    var ns := Get(s.numbers, h);
    && Increasing(ns)
    && Given(Get(s.pending, h), ns)
    && (h in s.nextSlot <==> ns != [])
    && (ns != [] ==> s.nextSlot[h] == ns[|ns| - 1] + 1)
  }

  /** Each accepted SDU is carried once or still pending; each carried or refused one was completed. */
  ghost predicate CarryInv<S>(s: Sched<S>, h: int) {
    var c := CarriedOf(h, s.carried);
    Sums(Get(s.accepted, h), c, Get(s.pending, h)) && Count(s.completions, h) == |c| + Count(s.refused, h)
  }

  ghost predicate Inv<S>(s: Sched<S>) {
    forall h :: SlotInv(s, h) && CarryInv(s, h)
  }

  lemma {:induction false} CarriedAppend<S>(h: int, a: seq<(int, Entry<S>)>, b: seq<(int, Entry<S>)>)
    ensures CarriedOf(h, a + b) == CarriedOf(h, a) + CarriedOf(h, b)
  {
    if b == [] {
      assert a + b == a;
    } else {
      assert (a + b)[..|a + b| - 1] == a + b[..|b| - 1];
      CarriedAppend(h, a, b[..|b| - 1]);
    }
  }

  lemma {:induction false} CarriedTag<S>(h: int, h': int, es: seq<Entry<S>>)
    ensures CarriedOf(h, Tag(h', es)) == if h == h' then es else []
  {
    if es == [] {
      assert Tag(h', es) == [];
    } else {
      var front := es[..|es| - 1];
      assert Tag(h', es)[..|es| - 1] == Tag(h', front);
      CarriedTag(h, h', front);
    }
  }

  lemma CarriedOne<S>(h: int, carried: seq<(int, Entry<S>)>, e: (int, Entry<S>))
    ensures CarriedOf(h, carried + [e]) == CarriedOf(h, carried) + if e.0 == h then [e.1] else []
  {
    assert (carried + [e])[..|carried|] == carried;
  }

  lemma SdusAppend<S>(a: seq<Entry<S>>, b: seq<Entry<S>>)
    ensures Sdus(a + b) == Sdus(a) + Sdus(b)
  {
  }

  lemma OneSdu<S>(e: Entry<S>)
    ensures |[e]| == 1 && Sdus([e]) == [e.sdu]
  {
  }

  lemma {:induction false} LastIsLargest(ns: seq<int>, x: int)
    requires Increasing(ns) && x in ns
    ensures ns != [] && x <= ns[|ns| - 1]
    decreases |ns|
  {
    var n := |ns| - 1;
    assert ns == ns[..n] + [ns[n]];
    if x != ns[n] {
      LastIsLargest(ns[..n], x);
    }
  }

  lemma GivenOneMore<S>(p: seq<Entry<S>>, ns: seq<int>, e: Entry<S>)
    requires Increasing(ns) && Given(p, ns) && (ns != [] ==> ns[|ns| - 1] < e.n) && e.interval > 0
    ensures Increasing(ns + [e.n]) && Given(p + [e], ns + [e.n])
  {
    var ns' := ns + [e.n];
    assert ns'[|ns|] == e.n;
    forall i | 0 <= i < |p|
      ensures p[i].n in ns' && p[i].n < e.n
    {
      LastIsLargest(ns, p[i].n);
    }
  }

  /** A slot given is never before the next free one. */
  lemma SlotIsFree<S>(s: Sched<S>, h: int, interval: nat, latencyMs: nat, excused: nat)
    requires interval > 0 && h in s.nextSlot
    ensures SlotFor(s, h, interval, latencyMs, excused) >= s.nextSlot[h]
  {
  }

  lemma AcceptKeepsSlots<S>(s: Sched<S>, step: Step<S>, h: int)
    requires step.Accepts? && Enabled(s, step) && SlotInv(s, h)
    ensures SlotInv(Apply(s, step), h)
  {
    hide SlotFor, Given, Increasing;
    if h == step.h {
      var n := SlotFor(s, h, step.interval, step.latencyMs, step.excused);
      if h in s.nextSlot {
        SlotIsFree(s, h, step.interval, step.latencyMs, step.excused);
      }
      GivenOneMore(Get(s.pending, h), Get(s.numbers, h), Entry(n, step.interval, step.sdu));
    }
  }

  lemma AcceptKeepsCarried<S>(s: Sched<S>, step: Step<S>, h: int)
    requires step.Accepts? && Enabled(s, step) && CarryInv(s, h)
    ensures CarryInv(Apply(s, step), h)
  {
    hide CarriedOf, SlotFor, Sums;
    if h == step.h {
      var e := Entry(SlotFor(s, h, step.interval, step.latencyMs, step.excused), step.interval, step.sdu);
      AcceptSums(Get(s.accepted, h), CarriedOf(h, s.carried), Get(s.pending, h), e);
    }
  }

  /** Accepted SDUs are those carried and those that wait. */
  ghost predicate Sums<S>(accepted: seq<S>, c: seq<Entry<S>>, p: seq<Entry<S>>) {
    multiset(accepted) == multiset(Sdus(c)) + multiset(Sdus(p)) && |accepted| == |c| + |p|
  }

  lemma AcceptSums<S>(accepted: seq<S>, c: seq<Entry<S>>, p: seq<Entry<S>>, e: Entry<S>)
    requires Sums(accepted, c, p)
    ensures Sums(accepted + [e.sdu], c, p + [e])
  {
    hide Sdus;
    SdusAppend(p, [e]);
    OneSdu(e);
  }

  lemma DeliverSums<S>(accepted: seq<S>, c: seq<Entry<S>>, p: seq<Entry<S>>, k: nat)
    requires Sums(accepted, c, p) && k < |p|
    ensures Sums(accepted, c + [p[k]], p[..k] + p[k + 1..])
  {
    hide Sdus;
    SdusWithout(p, k);
    SdusAppend(c, [p[k]]);
    OneSdu(p[k]);
  }

  lemma FlushSums<S>(accepted: seq<S>, c: seq<Entry<S>>, p: seq<Entry<S>>)
    requires Sums(accepted, c, p)
    ensures Sums(accepted, c + p, [])
  {
    hide Sdus;
    SdusAppend(c, p);
    NoSdus<S>();
  }

  lemma GivenWithout<S>(p: seq<Entry<S>>, ns: seq<int>, k: nat)
    requires Given(p, ns) && k < |p|
    ensures Given(p[..k] + p[k + 1..], ns)
  {
    var q := p[..k] + p[k + 1..];
    assert forall i :: 0 <= i < |q| ==> q[i] == p[if i < k then i else i + 1];
  }

  lemma DeliverKeepsSlots<S>(s: Sched<S>, h: int, k: nat, h': int)
    requires k < |Get(s.pending, h)| && SlotInv(s, h')
    ensures SlotInv(Deliver(s, h, k), h')
  {
    hide Given, Increasing;
    if h == h' {
      GivenWithout(s.pending[h], Get(s.numbers, h), k);
    }
  }

  /** The SDUs of a list and of the list without entry k. */
  lemma SdusWithout<S>(p: seq<Entry<S>>, k: nat)
    requires k < |p|
    ensures multiset(Sdus(p)) == multiset(Sdus(p[..k] + p[k + 1..])) + multiset([p[k].sdu])
  {
    hide Sdus;
    assert p == p[..k] + ([p[k]] + p[k + 1..]);
    SdusAppend(p[..k], [p[k]] + p[k + 1..]);
    SdusAppend([p[k]], p[k + 1..]);
    SdusAppend(p[..k], p[k + 1..]);
    OneSdu(p[k]);
  }

  lemma DeliverKeepsCarried<S>(s: Sched<S>, h: int, k: nat, h': int)
    requires k < |Get(s.pending, h)| && CarryInv(s, h')
    ensures CarryInv(Deliver(s, h, k), h')
  {
    hide CarriedOf, Sums;
    var p := s.pending[h];
    CarriedOne(h', s.carried, (h, p[k]));
    if h == h' {
      DeliverSums(Get(s.accepted, h), CarriedOf(h, s.carried), p, k);
    } else {
      assert CarriedOf(h', s.carried) + [] == CarriedOf(h', s.carried);
    }
  }

  lemma FlushKeepsInv<S>(s: Sched<S>, h: int, h': int)
    requires SlotInv(s, h') && CarryInv(s, h')
    ensures SlotInv(Flush(s, h), h') && CarryInv(Flush(s, h), h')
  {
    hide CarriedOf, Sums, Given, Increasing, Flush;
    FlushShape(s, h, h');
    FlushCarries(s, h, h');
    if h == h' {
      FlushSums(Get(s.accepted, h), CarriedOf(h, s.carried), Get(s.pending, h));
      NoneGiven<S>();
    }
  }

  lemma NoneGiven<S>()
    ensures Increasing([]) && Given<S>([], [])
  {
  }

  /** What a flush leaves of one handle. */
  lemma FlushShape<S>(s: Sched<S>, h: int, h': int)
    ensures var s', p := Flush(s, h), Get(s.pending, h);
            && s'.accepted == s.accepted && s'.refused == s.refused
            && Get(s'.pending, h') == (if h == h' then [] else Get(s.pending, h'))
            && Get(s'.numbers, h') == (if h == h' then [] else Get(s.numbers, h'))
            && (h' in s'.nextSlot <==> h' in s.nextSlot && h != h')
            && (h != h' && h' in s.nextSlot ==> s'.nextSlot[h'] == s.nextSlot[h'])
            && Count(s'.completions, h') == Count(s.completions, h') + if h == h' then |p| else 0
  {
    hide Tag;
  }

  lemma FlushCarries<S>(s: Sched<S>, h: int, h': int)
    ensures CarriedOf(h', Flush(s, h).carried) ==
            CarriedOf(h', s.carried) + if h == h' then Get(s.pending, h) else []
    ensures h != h' ==> CarriedOf(h', Flush(s, h).carried) == CarriedOf(h', s.carried)
  {
    hide CarriedOf, Tag;
    var p := Get(s.pending, h);
    CarriedAppend(h', s.carried, Tag(h, p));
    CarriedTag(h', h, p);
    assert CarriedOf(h', s.carried) + [] == CarriedOf(h', s.carried);
  }

  lemma NoSdus<S>()
    ensures Sdus<S>([]) == []
  {
  }

  lemma {:induction false} FlushAllKeepsInv<S>(s: Sched<S>, handles: seq<int>)
    requires Inv(s)
    ensures Inv(FlushAll(s, handles))
    decreases |handles|
  {
    if handles == [] {
    } else {
      forall h
        ensures SlotInv(Flush(s, handles[0]), h) && CarryInv(Flush(s, handles[0]), h)
      {
        FlushKeepsInv(s, handles[0], h);
      }
      FlushAllKeepsInv(Flush(s, handles[0]), handles[1..]);
    }
  }

  lemma HandleKeepsInv<S>(s: Sched<S>, step: Step<S>, h: int)
    requires Enabled(s, step) && !step.Flushes? && SlotInv(s, h) && CarryInv(s, h)
    ensures SlotInv(Apply(s, step), h) && CarryInv(Apply(s, step), h)
  {
    hide CarriedOf, Given, Increasing, Accept, Deliver, Sums;
    match step
    case Accepts(_, _, _, _, _) =>
      AcceptKeepsSlots(s, step, h);
      AcceptKeepsCarried(s, step, h);
    case Fires(h0, k) =>
      DeliverKeepsSlots(s, h0, k, h);
      DeliverKeepsCarried(s, h0, k, h);
    case Refuses(_) =>
    case Ticks(_) =>
  }

  lemma StepKeepsInv<S>(s: Sched<S>, step: Step<S>)
    requires Inv(s) && Enabled(s, step)
    ensures Inv(Apply(s, step))
  {
    if step.Flushes? {
      FlushAllKeepsInv(s, step.handles);
    } else {
      hide Apply, Enabled, SlotInv, CarryInv;
      forall h
        ensures SlotInv(Apply(s, step), h) && CarryInv(Apply(s, step), h)
      {
        HandleKeepsInv(s, step, h);
      }
    }
  }

  lemma {:induction false} RunsKeepInv<S>(now: int, steps: seq<Step<S>>)
    requires IsRun(now, steps)
    ensures Inv(After(now, steps))
    decreases |steps|
  {
    if steps == [] {
      assert forall h :: SlotInv(EmptySched<S>(now), h) && CarryInv(EmptySched<S>(now), h);
    } else {
      RunsKeepInv(now, steps[..|steps| - 1]);
      StepKeepsInv(After(now, steps[..|steps| - 1]), steps[|steps| - 1]);
    }
  }

  // ---- Results over every run ----

  /** Exactly once: what a handle carried and what waits are together what was accepted, whatever intervals
      its SDUs came with. The sender's credits are conserved: completions are the SDUs accepted less those
      still pending, and those refused. */
  lemma ExactlyOnce<S>(now: int, steps: seq<Step<S>>, h: int)
    requires IsRun(now, steps)
    ensures var s := After(now, steps);
            && multiset(Get(s.accepted, h)) ==
               multiset(Sdus(CarriedOf(h, s.carried))) + multiset(Sdus(Get(s.pending, h)))
            && Count(s.completions, h) == |Get(s.accepted, h)| - |Get(s.pending, h)| + Count(s.refused, h)
  {
    hide CarriedOf, IsRun, After, Sdus;
    RunsKeepInv(now, steps);
    assert CarryInv(After(now, steps), h);
  }

  /** One SDU per interval: between two flushes of a handle, interval numbers strictly increase, and the
      pending SDUs hold different ones of them, the older the smaller. */
  lemma OneSduPerInterval<S>(now: int, steps: seq<Step<S>>, h: int)
    requires IsRun(now, steps)
    ensures var s := After(now, steps);
            && Increasing(Get(s.numbers, h))
            && Given(Get(s.pending, h), Get(s.numbers, h))
  {
    hide IsRun, After;
    RunsKeepInv(now, steps);
    assert SlotInv(After(now, steps), h);
  }

  // ---- The controller's object ----

  class LeEmuController<S> {
    var now: int
    var nextSlot: map<int, int>
    var pending: map<int, seq<Entry<S>>>
    var completions: map<int, nat>
    var carried: seq<(int, Entry<S>)>
    ghost var accepted: map<int, seq<S>>
    ghost var refused: map<int, nat>
    ghost var numbers: map<int, seq<int>>

    ghost function View(): Sched<S>
      reads this
    {
      Sched(now, nextSlot, pending, carried, completions, accepted, refused, numbers)
    }

    /** HCI ISO data on a CIS handle. `link`: the CIS parameters kept for the handle's link, as they are
        now; the code takes 10000 us and no latency for a link without any. */
    method OnHciIsoData(h: int, link: CisLink, excused: nat, sdu: S)
      requires link.Cis? && link.params.Some? ==> link.params.value.interval > 0
      modifies this
      ensures View() ==
              if link.Unknown? then Refuse(old(View()), h)
              else
                var p := link.params.GetOr(CisParams(10000, 0));
                Accept(old(View()), h, p.interval, p.latencyMs, excused, sdu)
    {
      if link.Unknown? {
        completions := completions[h := Count(completions, h) + 1];
        refused := refused[h := Count(refused, h) + 1];
        return;
      }
      var p := link.params.GetOr(CisParams(10000, 0));
      ScheduleIsoSdu(h, p.interval, p.latencyMs, excused, sdu);
    }

    method ScheduleIsoSdu(h: int, intervalUs: nat, latencyMs: nat, excused: nat, sdu: S)
      requires intervalUs > 0
      modifies this
      ensures View() == Accept(old(View()), h, intervalUs, latencyMs, excused, sdu)
    {
      var lateUs := Max(LATE_US, latencyMs * 1000);
      var late := Max(LATE_INTERVALS, CeilDiv(lateUs, intervalUs));
      var current := CurrentSlot(now, intervalUs);
      var n := current;
      if h in nextSlot {
        n := nextSlot[h];
        if now - nextSlot[h] * intervalUs - excused > lateUs {
          n := Max(nextSlot[h], current - late);
        }
      }
      nextSlot := nextSlot[h := n + 1];
      pending := pending[h := Get(pending, h) + [Entry(n, intervalUs, sdu)]];
      accepted := accepted[h := Get(accepted, h) + [sdu]];
      numbers := numbers[h := Get(numbers, h) + [n]];
    }

    /** One delivery: called by the timer of entry k, or by a flush. */
    method DeliverEntry(h: int, k: nat)
      requires k < |Get(pending, h)|
      modifies this
      ensures View() == Deliver(old(View()), h, k)
    {
      carried := carried + [(h, pending[h][k])];
      completions := completions[h := Count(completions, h) + 1];
      pending := pending[h := pending[h][..k] + pending[h][k + 1..]];
    }

    method FlushIso(handles: seq<int>)
      modifies this
      ensures View() == FlushAll(old(View()), handles)
    {
      var i := 0;
      ghost var start := View();
      while i < |handles|
        invariant 0 <= i <= |handles|
        invariant FlushAll(View(), handles[i..]) == FlushAll(start, handles)
      {
        assert handles[i..][0] == handles[i] && handles[i..][1..] == handles[i + 1..];
        FlushOne(handles[i]);
        i := i + 1;
      }
    }

    method FlushOne(h: int)
      modifies this
      ensures View() == Flush(old(View()), h)
    {
      ghost var start := View();
      while |Get(pending, h)| > 0
        invariant Flush(View(), h) == Flush(start, h)
        decreases |Get(pending, h)|
      {
        FlushAfterDelivery(View(), h);
        DeliverEntry(h, 0);
      }
      assert carried + Tag(h, Get(pending, h)) == carried;
      pending := pending - {h};
      nextSlot := nextSlot - {h};
      numbers := numbers - {h};
    }
  }

  /** A flush is its first delivery and then the flush of the rest. */
  lemma FlushAfterDelivery<S>(s: Sched<S>, h: int)
    requires Get(s.pending, h) != []
    ensures Flush(Deliver(s, h, 0), h) == Flush(s, h)
  {
    var p := s.pending[h];
    assert [] + p[1..] == p[1..];
    assert Tag(h, p) == [(h, p[0])] + Tag(h, p[1..]);
    assert Deliver(s, h, 0).pending - {h} == s.pending - {h};
    assert s.carried + [(h, p[0])] + Tag(h, p[1..]) == s.carried + Tag(h, p);
  }
}
