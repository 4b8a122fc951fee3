/** From the emulated controller to the decoder: SDUs a scheduler run carries, as HCI ISO packets, read by
    the capture decoder (tools/emu/le_audio/controller.py, tools/a2dp_decode/le_audio_decode.cpp). */
module IsoEndToEnd {
  import opened Bytes
  import Sched = IsoScheduler
  import Order = IsoOrder
  import Slots = IsoSlots
  import Dec = IsoDecoder

  /** What the host hands over: a sequence number and the SDU. */
  datatype Packet = Packet(sn: u16, data: seq<byte>)

  type Entry = Sched.Entry<Packet>
  type Step = Sched.Step<Packet>
  type Steps = seq<Step>
  type State = Sched.Sched<Packet>

  // ---- The packet on the wire ----

  /** HCI ISO data of a complete SDU with a time stamp: PB flag 0b10, TS flag set, status 0. */
  function IsoBytes(handle: nat, timestamp: u32, sn: u16, data: seq<byte>): seq<byte>
    requires handle < 0x1000 && |data| < 0x1000
  {
    Put16(handle + 0x2000 + 0x4000) + Put16(8 + |data|) + Put32(timestamp) + Put16(sn) + Put16(|data|) + data
  }

  lemma IsoBytesLayout(handle: nat, timestamp: u32, sn: u16, data: seq<byte>)
    requires handle < 0x1000 && |data| < 0x1000
    ensures var p := IsoBytes(handle, timestamp, sn, data);
            && |p| == 12 + |data|
            && p[0..2] == Put16(handle + 0x6000) && p[2..4] == Put16(8 + |data|) && p[4..8] == Put32(timestamp)
            && p[8..10] == Put16(sn) && p[10..12] == Put16(|data|) && p[12..] == data
  {
    hide Put16, Put32;
  }

  /** The decoder reads back what the controller wrote. */
  lemma PacketRoundTrip(handle: nat, timestamp: u32, sn: u16, data: seq<byte>)
    requires handle < 0x1000 && |data| < 0x1000
    ensures Dec.Parse(IsoBytes(handle, timestamp, sn, data)) == Dec.Sdu(true, timestamp, sn, 0, data)
  {
    hide IsoBytes, Put32, Le32, Le16;
    var p := IsoBytes(handle, timestamp, sn, data);
    IsoBytesLayout(handle, timestamp, sn, data);
    Read16(p, 2, 8 + |data|);
    Read32(p, 4, timestamp);
    Read16(p, 8, sn);
    Read16(p, 10, |data|);
    assert p[1] == p[0..2][1] && p[11] == p[10..12][1];
    HeaderFlags(handle);
    assert p[12..4 + (8 + |data|)] == p[12..];
  }

  lemma HeaderFlags(handle: nat)
    requires handle < 0x1000
    ensures Put16(handle + 0x6000)[1] / 16 % 4 == 2 && Put16(handle + 0x6000)[1] / 64 % 2 == 1
  {
  }

  // ---- Decoding what was carried ----

  function Wire(handle: nat, es: seq<Entry>): seq<seq<byte>>
    requires handle < 0x1000 && Sized(es)
  {
    seq(|es|, i requires 0 <= i < |es| => IsoBytes(handle, es[i].TimeStamp(), es[i].sdu.sn, es[i].sdu.data))
  }

  predicate Sized(es: seq<Entry>) { forall i :: 0 <= i < |es| ==> |es[i].sdu.data| < 0x1000 }

  /** The host numbers its SDUs consecutively from `first`, wrapping at 16 bits. */
  predicate Numbered(sdus: seq<Packet>, first: nat) {
    forall i :: 0 <= i < |sdus| ==> sdus[i].sn == (first + i) % 0x1_0000
  }

  /** Steps between carried SDUs whose time stamps do not differ by one interval. */
  function Moves(es: seq<Entry>, interval: nat): nat {
    if |es| < 2 then 0
    else
      var e, e' := es[|es| - 2], es[|es| - 1];
      Moves(es[..|es| - 1], interval) + if (e'.n - e.n - 1) * interval % 0x1_0000_0000 == 0 then 0 else 1
  }

  predicate Decoded(s: Dec.Stream, es: seq<Entry>, interval: nat, first: nat) {
    && s.sdus == |es| && s.gaps == 0 && s.missing == 0 && s.badLen == 0 && s.statusErr == 0 && s.fragments == 0
    && s.tsBad == Moves(es, interval)
    && |s.keys| == |es|
    && (forall i :: 0 <= i < |es| ==> s.keys[i] == first % 0x1_0000 + i)
    && (es == [] ==> s == Dec.FRESH)
    && (es != [] ==>
         && s.lastSeq == (first + |es| - 1) % 0x1_0000
         && s.seqBase + s.lastSeq == first % 0x1_0000 + |es| - 1
         && s.haveTs && s.lastTs == es[|es| - 1].TimeStamp())
  }

  /** However SDUs were moved, consecutive numbers leave no gap and consecutive timeline keys, across any
      number of wraps; `ts_bad` counts exactly the moves that show in the 32-bit time stamp. */
  lemma {:induction false} CarriedIsDecoded(cfg: Dec.Config, handle: nat, es: seq<Entry>, first: nat)
    requires handle < 0x1000 && Sized(es) && cfg.sduInterval > 0
    requires Numbered(Sched.Sdus(es), first)
    requires forall i :: 0 <= i < |es| ==> es[i].interval == cfg.sduInterval && |es[i].sdu.data| == cfg.expected
    ensures Decoded(Dec.TakeAll(cfg, Dec.FRESH, Wire(handle, es)), es, cfg.sduInterval, first)
    decreases |es|
  {
    hide Dec.Parse, Dec.Take, IsoBytes, Decoded;
    if es == [] {
      NothingDecoded(cfg.sduInterval, first);
      assert Wire(handle, es) == [];
    } else {
      var n := |es| - 1;
      var front, e := es[..n], es[n];
      assert Sched.Sdus(front) == Sched.Sdus(es)[..n];
      assert Wire(handle, es)[..n] == Wire(handle, front);
      CarriedIsDecoded(cfg, handle, front, first);
      var s := Dec.TakeAll(cfg, Dec.FRESH, Wire(handle, front));
      PacketRoundTrip(handle, e.TimeStamp(), e.sdu.sn, e.sdu.data);
      assert e.sdu == Sched.Sdus(es)[n];
      NextDecoded(cfg, s, es, first);
    }
  }

  lemma NothingDecoded(interval: nat, first: nat)
    ensures Decoded(Dec.FRESH, [], interval, first)
  {
  }

  lemma NextDecoded(cfg: Dec.Config, s: Dec.Stream, es: seq<Entry>, first: nat)
    requires es != [] && cfg.sduInterval > 0
    requires Decoded(s, es[..|es| - 1], cfg.sduInterval, first)
    requires var e := es[|es| - 1];
             e.interval == cfg.sduInterval && e.sdu.sn == (first + |es| - 1) % 0x1_0000 && |e.sdu.data| == cfg.expected
    requires |es| >= 2 ==> es[|es| - 2].interval == cfg.sduInterval
    ensures var e := es[|es| - 1];
            Decoded(Dec.Take(cfg, s, Dec.Sdu(true, e.TimeStamp(), e.sdu.sn, 0, e.sdu.data)), es, cfg.sduInterval, first)
  {
    hide Dec.InStep, Dec.Sub16, Dec.Sub32, Dec.Number;
    var n := |es| - 1;
    var e := es[n];
    var s1 := Dec.Number(s, e.sdu.sn);
    if n == 0 {
      FirstNumber(s, first);
    } else {
      ConsecutiveNumber(s, first + n - 1);
      StepInTime(cfg.sduInterval, es[n - 1].n, e.n, first + n - 1);
      assert es[..n][n - 1] == es[n - 1];
    }
  }

  lemma FirstNumber(s: Dec.Stream, first: nat)
    requires s.lastSeq == -1
    ensures Dec.Number(s, first % 0x1_0000) == s.(firstSeq := first % 0x1_0000)
  {
  }

  lemma ConsecutiveNumber(s: Dec.Stream, t: nat)
    requires s.lastSeq == t % 0x1_0000
    ensures var s' := Dec.Number(s, (t + 1) % 0x1_0000);
            s'.seqBase + (t + 1) % 0x1_0000 == s.seqBase + t % 0x1_0000 + 1 && s' == s.(seqBase := s'.seqBase)
  {
    hide Dec.Sub16;
    NextMod(t);
  }

  lemma NextMod(t: nat)
    ensures Dec.Sub16(t % 0x1_0000 + 1, 0) == (t + 1) % 0x1_0000
    ensures (t + 1) % 0x1_0000 == if t % 0x1_0000 == 0xFFFF then 0 else t % 0x1_0000 + 1
  {
    assert t == 0x1_0000 * (t / 0x1_0000) + t % 0x1_0000;
  }

  /** Time stamps of intervals n and n' are in step exactly if n' is n + 1 modulo what a stamp can show. */
  lemma StepInTime(interval: nat, n: int, n': int, t: nat)
    ensures Dec.InStep(interval, n' * interval % 0x1_0000_0000, n * interval % 0x1_0000_0000,
                       (t + 1) % 0x1_0000, t % 0x1_0000)
            <==> (n' - n - 1) * interval % 0x1_0000_0000 == 0
  {
    hide Dec.InStep, Dec.Sub16;
    var a, b := n' * interval, n * interval;
    OneApart(t);
    InStepOne(interval, a % 0x1_0000_0000, b % 0x1_0000_0000, (t + 1) % 0x1_0000, t % 0x1_0000);
    ModDiff(a, b, 0x1_0000_0000);
    ModEqual(a - b, interval, 0x1_0000_0000);
    Distribute(n, n', interval);
  }

  lemma OneApart(t: nat)
    ensures Dec.Sub16((t + 1) % 0x1_0000, t % 0x1_0000) == 1
  {
    NextMod(t);
  }

  lemma InStepOne(interval: nat, x: u32, y: u32, sn: int, last: int)
    requires Dec.Sub16(sn, last) == 1
    ensures Dec.InStep(interval, x, y, sn, last) <==> (x - y) % 0x1_0000_0000 == interval % 0x1_0000_0000
  {
    hide Dec.Sub16;
  }

  lemma Distribute(n: int, n': int, interval: nat)
    ensures (n' - n - 1) * interval == n' * interval - n * interval - interval
  {
  }

  lemma ModDiff(a: int, b: int, m: nat)
    requires m == 0x1_0000_0000
    ensures (a % m - b % m) % m == (a - b) % m
  {
    assert a == m * (a / m) + a % m && b == m * (b / m) + b % m;
  }

  lemma ModEqual(a: int, b: int, m: nat)
    requires m == 0x1_0000_0000
    ensures a % m == b % m <==> (a - b) % m == 0
  {
    assert a == m * (a / m) + a % m && b == m * (b / m) + b % m;
  }

  // ---- Runs with a host in time on h ----

  /** What this step does on h: SDUs of one interval, in time for the interval after the handle's last, and no
      flush. */
  ghost predicate InTime(s: State, step: Step, h: int, interval: nat)
    requires Sched.Enabled(s, step)
  {
    match step
    case Accepts(h', interval', latencyMs, excused, _) =>
      var given := Sched.Get(s.numbers, h);
      h' == h ==> interval' == interval
                  && (given != [] ==>
                       Slots.InTimeFor(s.now, interval, latencyMs, excused, given[|given| - 1] + 1))
    case Flushes(handles) => h !in handles
    case Refuses(_) => true
    case Fires(_, _) => true
    case Ticks(_) => true
  }

  ghost predicate HostInTime(now: int, steps: Steps, h: int, interval: nat)
    requires Sched.IsRun(now, steps)
    decreases |steps|
  {
    steps == [] ||
    (&& HostInTime(now, steps[..|steps| - 1], h, interval)
     && InTime(Sched.After(now, steps[..|steps| - 1]), steps[|steps| - 1], h, interval))
  }

  function All(s: State, h: int): seq<Entry> { Sched.CarriedOf(h, s.carried) + Sched.Get(s.pending, h) }

  predicate Consecutive(es: seq<Entry>, interval: nat) {
    && (forall i :: 0 <= i < |es| ==> es[i].interval == interval)
    && forall i :: 0 < i < |es| ==> es[i].n == es[i - 1].n + 1
  }

  predicate Regular(s: State, h: int, interval: nat) {
    var es := All(s, h);
    && Consecutive(es, interval)
    && (es != [] ==> h in s.nextSlot && s.nextSlot[h] == es[|es| - 1].n + 1)
  }

  lemma ConsecutiveAppend(es: seq<Entry>, e: Entry, interval: nat)
    requires Consecutive(es, interval) && e.interval == interval
    requires es != [] ==> e.n == es[|es| - 1].n + 1
    ensures Consecutive(es + [e], interval)
  {
  }

  lemma Assoc(a: seq<Entry>, b: seq<Entry>, c: seq<Entry>)
    ensures a + b + c == a + (b + c)
  {
  }

  lemma AcceptEffect(s: State, h: int, interval: nat, latencyMs: nat, excused: nat, sdu: Packet)
    requires interval > 0
    ensures var n := Sched.SlotFor(s, h, interval, latencyMs, excused);
            var s' := Sched.Accept(s, h, interval, latencyMs, excused, sdu);
            && All(s', h) == All(s, h) + [Sched.Entry(n, interval, sdu)]
            && h in s'.nextSlot && s'.nextSlot[h] == n + 1
  {
    hide Sched.CarriedOf, Sched.SlotFor;
    var e := Sched.Entry(Sched.SlotFor(s, h, interval, latencyMs, excused), interval, sdu);
    Assoc(Sched.CarriedOf(h, s.carried), Sched.Get(s.pending, h), [e]);
  }

  lemma AcceptKeepsRegular(s: State, step: Step, h: int, interval: nat)
    requires step.Accepts? && Sched.Enabled(s, step) && InTime(s, step, h, interval) && Regular(s, h, interval)
    requires Sched.SlotInv(s, h)
    ensures Regular(Sched.Apply(s, step), h, interval)
  {
    hide Sched.CarriedOf, Sched.SlotFor, Consecutive, Slots.InTimeFor, Sched.Given, Sched.Increasing;
    if step.h == h && Sched.Get(s.numbers, h) != [] {
      Slots.InTimeTakesNext(s, h, interval, step.latencyMs, step.excused);
    }
    if step.h == h {
      hide All, Sched.Accept;
      var e := Sched.Entry(Sched.SlotFor(s, h, interval, step.latencyMs, step.excused), interval, step.sdu);
      AcceptEffect(s, h, interval, step.latencyMs, step.excused, step.sdu);
      ConsecutiveAppend(All(s, h), e, interval);
    }
  }

  lemma FireKeepsAll(s: State, h: int)
    requires Sched.Get(s.pending, h) != []
    ensures All(Sched.Deliver(s, h, 0), h) == All(s, h)
  {
    hide Sched.CarriedOf;
    var p := s.pending[h];
    Sched.CarriedOne(h, s.carried, (h, p[0]));
    WithoutFirst(p);
    Assoc(Sched.CarriedOf(h, s.carried), [p[0]], p[1..]);
  }

  lemma OtherFireKeepsAll(s: State, h: int, h': int, k: nat)
    requires h != h' && k < |Sched.Get(s.pending, h')|
    ensures All(Sched.Deliver(s, h', k), h) == All(s, h)
  {
    hide Sched.CarriedOf;
    Sched.CarriedOne(h, s.carried, (h', s.pending[h'][k]));
    assert Sched.CarriedOf(h, s.carried) + [] == Sched.CarriedOf(h, s.carried);
  }

  lemma WithoutFirst(p: seq<Entry>)
    requires p != []
    ensures p[..0] + p[0 + 1..] == p[1..] && p == [p[0]] + p[1..]
  {
  }

  lemma {:induction false} FlushKeepsOthers(s: State, handles: seq<int>, h: int)
    requires h !in handles
    ensures var s' := Sched.FlushAll(s, handles);
            && Sched.CarriedOf(h, s'.carried) == Sched.CarriedOf(h, s.carried)
            && Sched.Get(s'.pending, h) == Sched.Get(s.pending, h)
            && (h in s.nextSlot <==> h in s'.nextSlot) && (h in s.nextSlot ==> s'.nextSlot[h] == s.nextSlot[h])
    decreases |handles|
  {
    hide Sched.CarriedOf, Sched.Tag;
    if handles == [] {
    } else {
      var p := Sched.Get(s.pending, handles[0]);
      Sched.CarriedAppend(h, s.carried, Sched.Tag(handles[0], p));
      Sched.CarriedTag(h, handles[0], p);
      FlushKeepsOthers(Sched.Flush(s, handles[0]), handles[1..], h);
    }
  }

  lemma StepKeepsRegular(s: State, step: Step, h: int, interval: nat)
    requires Sched.Enabled(s, step) && InTime(s, step, h, interval) && Regular(s, h, interval)
    requires Order.Ordered(Sched.Get(s.pending, h)) && Sched.SlotInv(s, h)
    ensures Regular(Sched.Apply(s, step), h, interval)
  {
    hide Sched.CarriedOf, Sched.SlotFor, Consecutive, Order.Ordered, Sched.CanFire, Sched.SlotInv, Sched.Deliver,
      Sched.Accept, Sched.FlushAll, Slots.InTimeFor;
    match step
    case Accepts(_, _, _, _, _) => AcceptKeepsRegular(s, step, h, interval);
    case Refuses(_) =>
    case Fires(h', k) => FireKeepsRegular(s, h', k, h, interval);
    case Flushes(handles) => FlushKeepsOthers(s, handles, h);
    case Ticks(_) =>
  }

  lemma FireKeepsRegular(s: State, h': int, k: nat, h: int, interval: nat)
    requires Sched.CanFire(s, h', k) && Regular(s, h, interval) && Order.Ordered(Sched.Get(s.pending, h))
    ensures Regular(Sched.Deliver(s, h', k), h, interval)
  {
    hide Consecutive, Order.Ordered, All;
    if h' == h {
      Order.OldestFires(s, h, k);
      FireKeepsAll(s, h);
    } else {
      OtherFireKeepsAll(s, h, h', k);
    }
  }

  lemma {:induction false} RunsKeepRegular(now: int, steps: Steps, h: int, interval: nat)
    requires Sched.IsRun(now, steps) && HostInTime(now, steps, h, interval)
    ensures Regular(Sched.After(now, steps), h, interval) && Order.Punctual(now, steps, h)
    decreases |steps|
  {
    hide Sched.Enabled, Sched.Apply, InTime, Regular, Order.InTurn, Order.OrderInv;
    if steps == [] {
      StartIsRegular(now, h, interval);
    } else {
      var front, step := steps[..|steps| - 1], steps[|steps| - 1];
      RunsKeepRegular(now, front, h, interval);
      Order.RunsKeepOrder(now, front, h);
      Sched.RunsKeepInv(now, front);
      assert Sched.SlotInv(Sched.After(now, front), h);
      RegularStep(Sched.After(now, front), step, h, interval);
    }
  }

  lemma StartIsRegular(now: int, h: int, interval: nat)
    ensures Regular(Sched.EmptySched<Packet>(now), h, interval)
  {
  }

  lemma RegularStep(s: State, step: Step, h: int, interval: nat)
    requires Sched.Enabled(s, step) && InTime(s, step, h, interval) && Regular(s, h, interval)
    requires Order.OrderInv(s, h) && Sched.SlotInv(s, h)
    ensures Regular(Sched.Apply(s, step), h, interval) && Order.InTurn(s, step, h)
  {
    hide Sched.Apply, Sched.SlotFor, Order.InTurn, Order.Ordered;
    StepKeepsRegular(s, step, h, interval);
    if step.Accepts? && step.h == h {
      hide Regular, Sched.SlotInv;
      PendingInterval(s, h, interval);
      Order.SameIntervalIsInTurn(s, step);
    } else {
      NoTurn(s, step, h);
    }
  }

  lemma PendingInterval(s: State, h: int, interval: nat)
    requires Regular(s, h, interval)
    ensures forall i :: 0 <= i < |Sched.Get(s.pending, h)| ==> Sched.Get(s.pending, h)[i].interval == interval
  {
    hide Sched.CarriedOf;
    var p, c := Sched.Get(s.pending, h), Sched.CarriedOf(h, s.carried);
    assert forall i :: 0 <= i < |p| ==> p[i] == All(s, h)[|c| + i];
  }

  lemma NoTurn(s: State, step: Step, h: int)
    requires Sched.Enabled(s, step) && !(step.Accepts? && step.h == h)
    ensures Order.InTurn(s, step, h)
  {
  }

  lemma {:induction false} NoMoves(es: seq<Entry>, interval: nat)
    requires Consecutive(es, interval)
    ensures Moves(es, interval) == 0
    decreases |es|
  {
    if |es| < 2 {
    } else {
      NoMoves(es[..|es| - 1], interval);
    }
  }

  // ---- Results ----

  /** What the host handed over on h: SDUs of the configured size, numbered consecutively. */
  predicate HostBehaves(s: State, h: int, expected: nat, first: nat) {
    && Numbered(Sched.Get(s.accepted, h), first)
    && forall i :: 0 <= i < |Sched.Get(s.accepted, h)| ==> |Sched.Get(s.accepted, h)[i].data| == expected
  }

  /** A decoder that saw `es` counted no loss and no wrong time stamp, and its timeline has no hole. */
  predicate Flawless(cfg: Dec.Config, receiver: nat, es: seq<Entry>, first: nat)
    requires receiver < 0x1000 && Sized(es)
  {
    var s := Dec.TakeAll(cfg, Dec.FRESH, Wire(receiver, es));
    && s.sdus == |es| == |s.keys| && s.gaps == 0 && s.missing == 0 && s.tsBad == 0 && s.badLen == 0
    && forall i :: 0 <= i < |es| ==> s.keys[i] == first % 0x1_0000 + i
  }

  lemma PrefixIsFlawless(cfg: Dec.Config, receiver: nat, es: seq<Entry>, accepted: seq<Packet>, first: nat)
    requires receiver < 0x1000 && cfg.sduInterval > 0 && cfg.expected < 0x1000
    requires Sched.Sdus(es) <= accepted && Numbered(accepted, first) && Consecutive(es, cfg.sduInterval)
    requires forall i :: 0 <= i < |accepted| ==> |accepted[i].data| == cfg.expected
    ensures Sized(es) && Flawless(cfg, receiver, es, first)
  {
    hide Dec.TakeAll, Wire, Moves, Dec.Parse;
    forall i | 0 <= i < |es|
      ensures |es[i].sdu.data| == cfg.expected
    {
      assert es[i].sdu == Sched.Sdus(es)[i] == accepted[i];
    }
    CarriedIsDecoded(cfg, receiver, es, first);
    NoMoves(es, cfg.sduInterval);
  }

  /** End to end: consecutive numbers from a host that is in time give a decoder that counts no gap, nothing
      missing and no bad time stamp, over every run and any number of wraps. */
  lemma EndToEnd(now: int, steps: Steps, h: int, cfg: Dec.Config, receiver: nat, first: nat)
    requires Sched.IsRun(now, steps) && receiver < 0x1000 && cfg.sduInterval > 0 && cfg.expected < 0x1000
    requires HostInTime(now, steps, h, cfg.sduInterval)
    requires HostBehaves(Sched.After(now, steps), h, cfg.expected, first)
    ensures var es := Sched.CarriedOf(h, Sched.After(now, steps).carried);
            Sized(es) && Flawless(cfg, receiver, es, first)
  {
    hide Sched.IsRun, Sched.After, Sched.CarriedOf, HostInTime, Flawless, Order.Punctual, Sched.Sdus;
    var s := Sched.After(now, steps);
    var es := Sched.CarriedOf(h, s.carried);
    RunsKeepRegular(now, steps, h, cfg.sduInterval);
    Order.ExactlyOnceInOrder(now, steps, h);
    ConsecutivePrefix(es, Sched.Get(s.pending, h), cfg.sduInterval);
    PrefixIsFlawless(cfg, receiver, es, Sched.Get(s.accepted, h), first);
  }

  /** And so for the flush that ends the stream: every accepted SDU is then carried and decoded. */
  lemma EndToEndFlushed(now: int, steps: Steps, h: int, cfg: Dec.Config, receiver: nat, first: nat)
    requires Sched.IsRun(now, steps) && receiver < 0x1000 && cfg.sduInterval > 0 && cfg.expected < 0x1000
    requires HostInTime(now, steps, h, cfg.sduInterval)
    requires HostBehaves(Sched.After(now, steps), h, cfg.expected, first)
    ensures var s := Sched.After(now, steps);
            var es := Sched.CarriedOf(h, Sched.Flush(s, h).carried);
            Sched.Sdus(es) == Sched.Get(s.accepted, h) && Sized(es) && Flawless(cfg, receiver, es, first)
  {
    hide Sched.IsRun, Sched.After, Sched.CarriedOf, HostInTime, Flawless, Order.Punctual, Sched.Sdus, Sched.Tag;
    var s := Sched.After(now, steps);
    var p := Sched.Get(s.pending, h);
    RunsKeepRegular(now, steps, h, cfg.sduInterval);
    Order.ExactlyOnceInOrder(now, steps, h);
    Sched.CarriedAppend(h, s.carried, Sched.Tag(h, p));
    Sched.CarriedTag(h, h, p);
    Sched.SdusAppend(Sched.CarriedOf(h, s.carried), p);
    PrefixIsFlawless(cfg, receiver, All(s, h), Sched.Get(s.accepted, h), first);
  }

  lemma ConsecutivePrefix(a: seq<Entry>, b: seq<Entry>, interval: nat)
    requires Consecutive(a + b, interval)
    ensures Consecutive(a, interval)
  {
    assert forall i :: 0 <= i < |a| ==> a[i] == (a + b)[i];
  }
}
