/** From the host to the air: over every run of the emulated controllers (tools/emu/le_audio/broadcast.py), the
    SDUs a broadcaster sent are exactly those its scheduler carried, in that order, and a BIS has taken exactly
    what its host gave it. */
module BroadcastAir {
  import opened Broadcast
  import BroadcastProofs
  import BroadcastEffects
  import IsoScheduler
  import IsoSlots

  type Data = seq<bv8>

  /** What controller c sent, in order. */
  function OnAir(air: seq<Delivery>, c: nat): seq<BisSdu> {
    if air == [] then []
    else
      var d := air[|air| - 1];
      OnAir(air[..|air| - 1], c) + if d.source == c then [d.sdu] else []
  }

  function CarriedSdus(carried: seq<(int, IsoScheduler.Entry<BisSdu>)>): seq<BisSdu> {
    seq(|carried|, i requires 0 <= i < |carried| => carried[i].1.sdu)
  }

  function Datas(sdus: seq<BisSdu>): seq<Data> {
    seq(|sdus|, i requires 0 <= i < |sdus| => sdus[i].data)
  }

  /** The data the host of controller c gave on handle h while it was a BIS. */
  ghost function Offered(w: Link, steps: seq<Step>, c: nat, h: int): seq<Data>
    requires IsRun(w, steps)
  {
    if steps == [] then []
    else
      var front, s := steps[..|steps| - 1], steps[|steps| - 1];
      Offered(w, front, c, h)
      + if s.IsoData? && s.c == c && s.h == h && h in After(w, front).ctl[c].bisTx then [s.data] else []
  }

  ghost predicate SentIsCarried(w: Link, c: nat) {
    c in w.ctl && OnAir(w.air, c) == CarriedSdus(w.ctl[c].iso.carried)
  }

  lemma {:induction false} OnAirAppend(a: seq<Delivery>, b: seq<Delivery>, c: nat)
    ensures OnAir(a + b, c) == OnAir(a, c) + OnAir(b, c)
    decreases |b|
  {
    if b == [] {
      assert a + b == a;
    } else {
      assert (a + b)[..|a + b| - 1] == a + b[..|b| - 1];
      OnAirAppend(a, b[..|b| - 1], c);
    }
  }

  lemma {:induction false} OnAirCarry(w: Link, c: nat, h: int, es: seq<IsoScheduler.Entry<BisSdu>>, x: nat)
    ensures OnAir(Carry(w, c, es), x) == if x == c then CarriedSdus(IsoScheduler.Tag(h, es)) else []
    decreases |es|
  {
    hide Targets;
    if es == [] {
    } else {
      var front := es[..|es| - 1];
      assert Carry(w, c, es)[..|es| - 1] == Carry(w, c, front);
      OnAirCarry(w, c, h, front, x);
      if x == c {
        assert CarriedSdus(IsoScheduler.Tag(h, es)) == CarriedSdus(IsoScheduler.Tag(h, front)) + [es[|es| - 1].sdu];
      }
    }
  }

  /** Entries of handle h are carried by controller c: the air and the scheduler's history grow alike. */
  lemma CarryKeeps(w: Link, c: nat, h: int, es: seq<IsoScheduler.Entry<BisSdu>>, w': Link, x: nat)
    requires c in w.ctl && SentIsCarried(w, x) && w'.air == w.air + Carry(w, c, es)
    requires w'.ctl.Keys == w.ctl.Keys
    requires forall r :: r in w.ctl ==>
               w'.ctl[r].iso.carried == w.ctl[r].iso.carried + if r == c then IsoScheduler.Tag(h, es) else []
    ensures SentIsCarried(w', x)
  {
    hide Carry, OnAir, IsoScheduler.Tag;
    OnAirAppend(w.air, Carry(w, c, es), x);
    OnAirCarry(w, c, h, es, x);
    assert x in w'.ctl;
    var more := if x == c then IsoScheduler.Tag(h, es) else [];
    assert CarriedSdus(w.ctl[x].iso.carried + more) == CarriedSdus(w.ctl[x].iso.carried) + CarriedSdus(more);
  }

  /** The schedulers' histories and the air stand still. */
  ghost predicate Still(w: Link, w': Link) {
    && w'.air == w.air && w'.ctl.Keys == w.ctl.Keys
    && forall r :: r in w.ctl ==> && w'.ctl[r].iso.carried == w.ctl[r].iso.carried
                                  && w'.ctl[r].iso.accepted == w.ctl[r].iso.accepted
  }

  lemma StillKeeps(w: Link, w': Link, x: nat)
    requires SentIsCarried(w, x) && Still(w, w')
    ensures SentIsCarried(w', x)
  {
  }

  lemma TrySyncStill(w: Link, r: nat, k: int)
    requires r in w.ctl
    ensures Still(w, TrySync(w, r, k))
  {
    hide Establish, HasBigOn;
    forall c: Controller, source: nat, b: int, big: Big | k in c.bigSyncs
      ensures Establish(c, k, source, b, big).iso == c.iso
    {
      EstablishKeepsIso(c, k, source, b, big);
    }
  }

  lemma EstablishKeepsIso(c: Controller, k: int, source: nat, b: int, big: Big)
    requires k in c.bigSyncs
    ensures Establish(c, k, source, b, big).iso == c.iso
  {
    hide EstablishStatus, Allocate, Bind;
  }

  lemma {:induction false} TrySyncsStill(w: Link, tries: seq<(nat, int)>)
    ensures Still(w, TrySyncs(w, tries))
    decreases |tries|
  {
    hide TrySync;
    if tries == [] {
    } else if tries[0].0 in w.ctl {
      TrySyncStill(w, tries[0].0, tries[0].1);
      TrySyncsStill(TrySync(w, tries[0].0, tries[0].1), tries[1..]);
    } else {
      TrySyncsStill(w, tries[1..]);
    }
  }

  lemma CreateStill(w: Link, c: nat, b: int, p: BigParams, tries: seq<(nat, int)>)
    requires c in w.ctl
    ensures Still(w, CreateBig(w, c, b, p, tries))
  {
    hide TrySyncs, AddBig, CreateBigStatus, Still;
    if CreateBigStatus(w.ctl[c], b, p) == Success {
      BroadcastEffects.CreateStatusExactly(w.ctl[c], b, p);
      BroadcastEffects.CanCreateMeans(w.ctl[c], b, p);
      var c1 := AddBig(w.ctl[c], w.nextUid, b, p);
      AddStill(w, c, b, p);
      var w1 := w.(ctl := w.ctl[c := c1], nextUid := w.nextUid + 1);
      TrySyncsStill(w1, tries);
      StillTwice(w, w1, TrySyncs(w1, tries));
    } else {
      StillSame(w);
    }
  }

  lemma AddStill(w: Link, c: nat, b: int, p: BigParams)
    requires c in w.ctl && p.numBis >= 0
    ensures Still(w, w.(ctl := w.ctl[c := AddBig(w.ctl[c], w.nextUid, b, p)], nextUid := w.nextUid + 1))
  {
    hide Allocate, Bind;
  }

  lemma StillTwice(w: Link, w1: Link, w2: Link)
    requires Still(w, w1) && Still(w1, w2)
    ensures Still(w, w2)
  {
  }

  lemma StillSame(w: Link)
    ensures Still(w, w)
  {
  }

  lemma FlushKeeps(w: Link, c: nat, h: int, x: nat)
    requires c in w.ctl && SentIsCarried(w, x)
    ensures SentIsCarried(FlushHandle(w, c, h), x)
  {
    hide Carry, OnAir, IsoScheduler.Tag, CarriedSdus;
    var w' := FlushHandle(w, c, h);
    var es := IsoScheduler.Get(w.ctl[c].iso.pending, h);
    assert forall r :: r in w.ctl && r != c ==> w'.ctl[r] == w.ctl[r];
    CarryKeeps(w, c, h, es, w', x);
  }

  lemma {:induction false} FlushesKeep(w: Link, c: nat, hs: seq<int>, x: nat)
    requires c in w.ctl && SentIsCarried(w, x)
    ensures SentIsCarried(FlushHandles(w, c, hs), x)
    decreases |hs|
  {
    hide FlushHandle, SentIsCarried;
    if hs == [] {
    } else {
      FlushKeeps(w, c, hs[0], x);
      BroadcastProofs.FlushShape(w, c, hs[0]);
      FlushesKeep(FlushHandle(w, c, hs[0]), c, hs[1..], x);
    }
  }

  lemma TerminateKeeps(w: Link, c: nat, b: int, x: nat)
    requires c in w.ctl && SentIsCarried(w, x)
    ensures SentIsCarried(TerminateBig(w, c, b), x)
  {
    hide FlushHandles, WithoutBig, SentIsCarried, Still;
    if b in w.ctl[c].bigs {
      var w1 := FlushHandles(w, c, w.ctl[c].bigs[b].bis);
      FlushesKeep(w, c, w.ctl[c].bigs[b].bis, x);
      WithoutStill(w1, c, b);
      StillKeeps(w1, WithoutBig(w1, c, b), x);
    }
  }

  lemma WithoutStill(w: Link, c: nat, b: int)
    ensures Still(w, WithoutBig(w, c, b))
  {
    hide AllHandles, SyncsTo;
  }

  lemma TimerKeeps(w: Link, c: nat, h: int, n: nat, x: nat)
    requires Enabled(w, TimerFires(c, h, n)) && SentIsCarried(w, x)
    ensures SentIsCarried(Apply(w, TimerFires(c, h, n)), x)
  {
    hide Carry, OnAir, CarriedSdus;
    var e := w.ctl[c].iso.pending[h][n];
    assert IsoScheduler.Tag(h, [e]) == [(h, e)];
    var w' := Apply(w, TimerFires(c, h, n));
    assert forall r :: r in w.ctl && r != c ==> w'.ctl[r] == w.ctl[r];
    CarryKeeps(w, c, h, [e], w', x);
  }

  lemma PathsKeepIso(c: Controller, h: int, direction: int)
    requires LookupsSafe(c, h)
    ensures SetupPath(c, h, direction).iso == c.iso && RemovePath(c, h).iso == c.iso
  {
  }

  lemma SyncsKeepIso(c: Controller, k: int, p: SyncParams)
    ensures BigCreateSync(c, k, p).iso == c.iso && BigTerminateSync(c, k).iso == c.iso
  {
    hide HandlesOf;
  }

  lemma SetsKeepIso(c: Controller, adv: int, removed: bool)
    ensures RemoveAdvSet(c, adv, removed).iso == c.iso && ClearAdvSets(c).iso == c.iso
  {
    hide HasBigOn;
  }

  lemma TakeCarriesNone(c: Controller, h: int, excused: nat, data: Data)
    requires LookupsSafe(c, h) && (h in c.bisTx ==> c.bigs[c.bisTx[h].0].params.interval > 0)
    ensures TakeSdu(c, h, excused, data).iso.carried == c.iso.carried
  {
    hide IsoScheduler.SlotFor, SduOf;
  }

  lemma LocalCarried(w: Link, s: Step)
    requires Enabled(w, s) && BroadcastEffects.IsLocal(s)
    ensures Local(w, s).iso.carried == w.ctl[s.c].iso.carried
    ensures !s.IsoData? ==> Local(w, s).iso.accepted == w.ctl[s.c].iso.accepted
  {
    hide SetupPath, RemovePath, BigCreateSync, BigTerminateSync, RemoveAdvSet, ClearAdvSets, TakeSdu;
    var c := w.ctl[s.c];
    match s
    case RemoveSet(_, adv, removed) => SetsKeepIso(c, adv, removed);
    case ClearSets(_) => SetsKeepIso(c, 0, false);
    case CreateSync(_, k, sp) => SyncsKeepIso(c, k, sp);
    case TerminateSync(_, k) => SyncsKeepIso(c, k, SyncParams(0, [], false, []));
    case Setup(_, h, direction) => PathsKeepIso(c, h, direction);
    case Remove(_, h) => PathsKeepIso(c, h, 0);
    case IsoData(_, h, excused, data) => TakeCarriesNone(c, h, excused, data);
    case _ =>
  }

  lemma LocalKeeps(w: Link, s: Step, x: nat)
    requires Enabled(w, s) && BroadcastEffects.IsLocal(s) && SentIsCarried(w, x)
    ensures SentIsCarried(Apply(w, s), x)
  {
    hide OnAir, CarriedSdus, Local;
    LocalCarried(w, s);
    assert Apply(w, s) == w.(ctl := w.ctl[s.c := Local(w, s)]);
  }

  lemma StepKeeps(w: Link, s: Step, x: nat)
    requires Enabled(w, s) && SentIsCarried(w, x)
    ensures SentIsCarried(Apply(w, s), x)
  {
    hide SentIsCarried, FlushHandle, TerminateBig, CreateBig, TrySyncs, Local, Carry, Still;
    match s
    case Create(c, b, p, tries) =>
      CreateStill(w, c, b, p, tries);
      StillKeeps(w, CreateBig(w, c, b, p, tries), x);
    case Terminate(c, b) => TerminateKeeps(w, c, b, x);
    case TryPending(_, tries) =>
      TrySyncsStill(w, tries);
      StillKeeps(w, TrySyncs(w, tries), x);
    case TimerFires(c, h, n) => TimerKeeps(w, c, h, n, x);
    case Disconnects(c, h) => FlushKeeps(w, c, h, x);
    case _ => LocalKeeps(w, s, x);
  }

  /** In every reachable state, what a broadcaster sent is exactly what its scheduler carried, in that order:
      by timers, by the flush of a BIG that ends, and by nothing else. */
  lemma {:induction false} AirIsCarried(w: Link, steps: seq<Step>, c: nat)
    requires Initial(w) && IsRun(w, steps) && c in w.ctl
    ensures SentIsCarried(After(w, steps), c)
    decreases |steps|
  {
    hide Apply, SentIsCarried, Enabled;
    if steps == [] {
      NoneSent(w, c);
    } else {
      AirIsCarried(w, steps[..|steps| - 1], c);
      StepKeeps(After(w, steps[..|steps| - 1]), steps[|steps| - 1], c);
    }
  }

  lemma NoneSent(w: Link, c: nat)
    requires Initial(w) && c in w.ctl
    ensures SentIsCarried(w, c) && w.ctl[c].iso.accepted == map[]
  {
  }

  // ---- From the host ----

  /** The BISes have taken the same. */
  ghost predicate SameTaken(w: Link, w': Link) {
    w'.ctl.Keys == w.ctl.Keys && forall r :: r in w.ctl ==> w'.ctl[r].iso.accepted == w.ctl[r].iso.accepted
  }

  lemma {:induction false} FlushesTakeNone(w: Link, c: nat, hs: seq<int>)
    requires c in w.ctl
    ensures SameTaken(w, FlushHandles(w, c, hs))
    decreases |hs|
  {
    hide FlushHandle;
    if hs == [] {
    } else {
      FlushTakesNone(w, c, hs[0]);
      FlushesTakeNone(FlushHandle(w, c, hs[0]), c, hs[1..]);
    }
  }

  lemma FlushTakesNone(w: Link, c: nat, h: int)
    requires c in w.ctl
    ensures SameTaken(w, FlushHandle(w, c, h))
  {
    hide Carry, IsoScheduler.Tag;
  }

  lemma TerminateTakesNone(w: Link, c: nat, b: int)
    requires c in w.ctl
    ensures SameTaken(w, TerminateBig(w, c, b))
  {
    hide FlushHandles, WithoutBig;
    if b in w.ctl[c].bigs {
      FlushesTakeNone(w, c, w.ctl[c].bigs[b].bis);
      WithoutStill(FlushHandles(w, c, w.ctl[c].bigs[b].bis), c, b);
    }
  }

  lemma LocalTakesNone(w: Link, s: Step)
    requires Enabled(w, s) && BroadcastEffects.IsLocal(s) && !s.IsoData?
    ensures SameTaken(w, Apply(w, s))
  {
    hide Local;
    LocalCarried(w, s);
    assert Apply(w, s) == w.(ctl := w.ctl[s.c := Local(w, s)]);
  }

  lemma TimerTakesNone(w: Link, c: nat, h: int, n: nat)
    requires Enabled(w, TimerFires(c, h, n))
    ensures SameTaken(w, Apply(w, TimerFires(c, h, n)))
  {
    hide Carry, CreateBig, TerminateBig, TrySyncs, FlushHandle, Local;
  }

  lemma StillTakesNone(w: Link, w': Link)
    requires Still(w, w')
    ensures SameTaken(w, w')
  {
  }

  lemma OthersTakeNone(w: Link, s: Step)
    requires Enabled(w, s) && !s.IsoData?
    ensures SameTaken(w, Apply(w, s))
  {
    hide FlushHandle, TerminateBig, CreateBig, TrySyncs, Local, Carry, Still, SameTaken;
    match s
    case Create(c, b, p, tries) =>
      CreateStill(w, c, b, p, tries);
      StillTakesNone(w, CreateBig(w, c, b, p, tries));
    case Terminate(c, b) => TerminateTakesNone(w, c, b);
    case TryPending(_, tries) =>
      TrySyncsStill(w, tries);
      StillTakesNone(w, TrySyncs(w, tries));
    case TimerFires(c, h, n) => TimerTakesNone(w, c, h, n);
    case Disconnects(c, h) => FlushTakesNone(w, c, h);
    case _ => LocalTakesNone(w, s);
  }

  lemma DataTaken(w: Link, s: Step, c: nat, h: int)
    requires Enabled(w, s) && s.IsoData? && c in w.ctl
    ensures c in Apply(w, s).ctl
    ensures Datas(IsoScheduler.Get(Apply(w, s).ctl[c].iso.accepted, h)) ==
            Datas(IsoScheduler.Get(w.ctl[c].iso.accepted, h))
            + if s.c == c && s.h == h && h in w.ctl[c].bisTx then [s.data] else []
  {
    hide IsoScheduler.SlotFor;
  }

  /** In every reachable state, a handle has taken exactly the data its host gave it while it was a BIS, data
      path or not, in order; the rest was refused. */
  lemma {:induction false} TakenIsOffered(w: Link, steps: seq<Step>, c: nat, h: int)
    requires Initial(w) && IsRun(w, steps) && c in w.ctl
    ensures c in After(w, steps).ctl
    ensures Datas(IsoScheduler.Get(After(w, steps).ctl[c].iso.accepted, h)) == Offered(w, steps, c, h)
    decreases |steps|
  {
    hide Apply, Enabled, Datas, SentIsCarried;
    if steps == [] {
      NoneSent(w, c);
      NoDatas();
    } else {
      var front, s := steps[..|steps| - 1], steps[|steps| - 1];
      TakenIsOffered(w, front, c, h);
      if s.IsoData? {
        DataTaken(After(w, front), s, c, h);
      } else {
        OthersTakeNone(After(w, front), s);
      }
    }
  }

  /** The number an SDU given to handle h of c takes, with its BIG's interval and latency. */
  ghost predicate NumberTaken(c: Controller, c': Controller, h: int, excused: nat)
    requires h in c.bisTx && LookupsSafe(c, h)
  {
    var p := c.bigs[c.bisTx[h].0].params;
    var given, given' := IsoScheduler.Get(c.iso.numbers, h), IsoScheduler.Get(c'.iso.numbers, h);
    && |given'| == |given| + 1 && given'[..|given|] == given
    && IsoSlots.TakesNumber(c.iso.now, given, p.interval, p.latencyMs, excused, given'[|given|])
  }

  lemma TakeTakesNumber(c: Controller, h: int, excused: nat, data: Data)
    requires h in c.bisTx && LookupsSafe(c, h) && c.bigs[c.bisTx[h].0].params.interval > 0
    requires IsoScheduler.SlotInv(c.iso, h)
    ensures NumberTaken(c, TakeSdu(c, h, excused, data), h, excused)
  {
    hide IsoScheduler.SlotFor, IsoSlots.TakesNumber, IsoScheduler.SlotInv;
    var p := c.bigs[c.bisTx[h].0].params;
    IsoSlots.SlotExactly(c.iso, h, p.interval, p.latencyMs, excused);
  }

  /** An SDU on a BIS takes the interval its time of arrival says, with its BIG's interval and latency. */
  lemma BisTakesNumber(w: Link, steps: seq<Step>, c: nat, h: int, excused: nat, data: Data)
    requires Initial(w) && IsRun(w, steps) && Enabled(After(w, steps), IsoData(c, h, excused, data))
    requires h in After(w, steps).ctl[c].bisTx
    ensures var w1, w' := After(w, steps), Apply(After(w, steps), IsoData(c, h, excused, data));
            NumberTaken(w1.ctl[c], w'.ctl[c], h, excused)
  {
    hide IsRun, After, NumberTaken, TakeSdu, BroadcastProofs.LocalInv;
    BroadcastProofs.RunsKeepInv(w, steps);
    SlotsKept(After(w, steps).ctl[c], h);
    TakeTakesNumber(After(w, steps).ctl[c], h, excused, data);
  }

  lemma SlotsKept(c: Controller, h: int)
    requires BroadcastProofs.LocalInv(c)
    ensures IsoScheduler.SlotInv(c.iso, h)
  {
    hide BroadcastProofs.TxInv, BroadcastProofs.RxInv, BroadcastProofs.IsoInv, IsoScheduler.SlotInv,
      IsoScheduler.CarryInv;
  }

  /** A handle that is disconnected has nothing left to wait: in every reachable state, all that its host gave it
      has then been sent. */
  lemma DisconnectSends(w: Link, steps: seq<Step>, c: nat, h: int)
    requires Initial(w) && IsRun(w, steps + [Disconnects(c, h)]) && c in w.ctl
    ensures var all := steps + [Disconnects(c, h)];
            && c in After(w, all).ctl
            && var iso := After(w, all).ctl[c].iso;
               && h !in iso.pending
               && Datas(IsoScheduler.Sdus(IsoScheduler.CarriedOf(h, iso.carried))) == Offered(w, all, c, h)
  {
    hide IsoScheduler.CarriedOf, Datas, Offered, FlushHandle;
    var all := steps + [Disconnects(c, h)];
    TakenIsOffered(w, all, c, h);
    BroadcastProofs.BisKeepsOrder(w, all, c, h);
    assert all[..|all| - 1] == steps && all[|all| - 1] == Disconnects(c, h);
    BroadcastProofs.FlushShape(After(w, steps), c, h);
    var iso := After(w, all).ctl[c].iso;
    var carried := IsoScheduler.Sdus(IsoScheduler.CarriedOf(h, iso.carried));
    assert IsoScheduler.Sdus(IsoScheduler.Get(iso.pending, h)) == [];
    assert carried + [] == carried;
  }

  lemma NoDatas()
    ensures Datas([]) == []
  {
  }
}
