/** Table consistency of every controller, agreement between a receiver's syncs and the broadcaster's
    BIGs, and safe delivery, over every run of the link. */
module BroadcastProofs {
  import opened Broadcast
  import IsoScheduler
  import IsoOrder

  // ---- One controller's tables ----

  predicate TxForward(c: Controller) {
    forall h :: h in c.bisTx ==>
      var (b, i) := c.bisTx[h];
      b in c.bigs && 1 <= i <= |c.bigs[b].bis| && c.bigs[b].bis[i - 1] == h
  }

  predicate TxBackward(c: Controller) {
    forall b, i :: b in c.bigs && 0 <= i < |c.bigs[b].bis| ==>
      c.bigs[b].bis[i] in c.bisTx && c.bisTx[c.bigs[b].bis[i]] == (b, i + 1)
  }

  predicate GoodBig(c: Controller, big: Big) {
    && |big.bis| == big.params.numBis
    && big.params.interval > 0
    && (forall h :: h in big.dataPaths ==> h in big.bis)
    && big.params.adv in c.advSets && big.params.adv in c.periodic
  }

  /** `bis_tx` is exactly the inverse of the BIGs' handles, and each BIG has its own advertising set, which
      still exists with its periodic parameters. */
  predicate TxInv(c: Controller) {
    && TxForward(c) && TxBackward(c)
    && (forall b :: b in c.bigs ==> GoodBig(c, c.bigs[b]))
    && (forall b, b' :: b in c.bigs && b' in c.bigs && c.bigs[b].params.adv == c.bigs[b'].params.adv ==> b == b')
  }

  predicate RxForward(c: Controller) {
    forall h :: h in c.bisRx ==>
      var (k, i) := c.bisRx[h];
      k in c.bigSyncs && i in c.bigSyncs[k].bis && c.bigSyncs[k].bis[i] == h
  }

  predicate RxBackward(c: Controller) {
    forall k, i :: k in c.bigSyncs && i in c.bigSyncs[k].bis ==>
      c.bigSyncs[k].bis[i] in c.bisRx && c.bisRx[c.bigSyncs[k].bis[i]] == (k, i)
  }

  predicate GoodSync(sync: BigSync) {
    && (!sync.established ==> sync.bis == map[])
    && (forall i :: i in sync.bis ==> i in sync.params.indices)
    && (sync.established ==> forall n :: 0 <= n < |sync.params.indices| ==> sync.params.indices[n] in sync.bis)
    && (forall h :: h in sync.dataPaths ==> HasHandle(sync, h))
  }

  /** `bis_rx` is exactly the inverse of the established syncs' handles. */
  predicate RxInv(c: Controller) {
    RxForward(c) && RxBackward(c) && forall k :: k in c.bigSyncs ==> GoodSync(c.bigSyncs[k])
  }

  lemma LookupsNeverFail(c: Controller, h: int)
    requires TxInv(c) && RxInv(c)
    ensures LookupsSafe(c, h)
  {
  }

  predicate Distinct(s: seq<int>) { forall i, j :: 0 <= i < j < |s| ==> s[i] != s[j] }

  lemma {:induction false} BindAt<V>(t: map<int, V>, keys: seq<int>, vals: seq<V>, i: nat)
    requires |keys| == |vals| && i < |keys| && Distinct(keys)
    ensures keys[i] in Bind(t, keys, vals) && Bind(t, keys, vals)[keys[i]] == vals[i]
    decreases |keys|
  {
    var n := |keys| - 1;
    if i < n {
      BindAt(t, keys[..n], vals[..n], i);
    }
  }

  lemma {:induction false} BindOther<V>(t: map<int, V>, keys: seq<int>, vals: seq<V>, x: int)
    requires |keys| == |vals| && x !in keys
    ensures x in Bind(t, keys, vals) <==> x in t
    ensures x in t ==> Bind(t, keys, vals)[x] == t[x]
    decreases |keys|
  {
    if keys == [] {
    } else {
      var n := |keys| - 1;
      BindOther(t, keys[..n], vals[..n], x);
    }
  }

  lemma NewHandle(c: Controller, uid: nat, b: int, p: BigParams, i: nat)
    requires p.numBis >= 0 && i < p.numBis
    ensures var c' := AddBig(c, uid, b, p);
            var hs := c'.bigs[b].bis;
            hs[i] in c'.bisTx && c'.bisTx[hs[i]] == (b, i + 1)
  {
    hide Allocate, Bind;
    var hs := Allocate(c.bisTx.Keys, p.numBis);
    BindAt(c.bisTx, hs, Numbered(b, |hs|), i);
  }

  lemma OldHandle(c: Controller, uid: nat, b: int, p: BigParams, h: int)
    requires p.numBis >= 0 && h in c.bisTx
    ensures var c' := AddBig(c, uid, b, p); h in c'.bisTx && c'.bisTx[h] == c.bisTx[h]
  {
    hide Allocate, Bind;
    var hs := Allocate(c.bisTx.Keys, p.numBis);
    assert h in c.bisTx.Keys;
    assert h !in hs;
    BindOther(c.bisTx, hs, Numbered(b, |hs|), h);
  }

  lemma AddBigBackward(c: Controller, uid: nat, b: int, p: BigParams, b': int, i: nat)
    requires TxBackward(c) && b !in c.bigs && p.numBis >= 0
    requires b' in AddBig(c, uid, b, p).bigs && i < |AddBig(c, uid, b, p).bigs[b'].bis|
    ensures var c' := AddBig(c, uid, b, p);
            c'.bigs[b'].bis[i] in c'.bisTx && c'.bisTx[c'.bigs[b'].bis[i]] == (b', i + 1)
  {
    hide Allocate, Bind;
    if b' == b {
      NewHandle(c, uid, b, p, i);
    } else {
      OldHandle(c, uid, b, p, c.bigs[b'].bis[i]);
    }
  }

  lemma AddBigForward(c: Controller, uid: nat, b: int, p: BigParams, h: int)
    requires TxForward(c) && b !in c.bigs && p.numBis >= 0 && h in AddBig(c, uid, b, p).bisTx
    ensures var c' := AddBig(c, uid, b, p);
            var (b', i) := c'.bisTx[h];
            b' in c'.bigs && 1 <= i <= |c'.bigs[b'].bis| && c'.bigs[b'].bis[i - 1] == h
  {
    hide Allocate, Bind;
    var hs := Allocate(c.bisTx.Keys, p.numBis);
    if h in hs {
      var i :| 0 <= i < |hs| && hs[i] == h;
      NewHandle(c, uid, b, p, i);
    } else {
      BindOther(c.bisTx, hs, Numbered(b, |hs|), h);
    }
  }

  lemma AddBigTables(c: Controller, uid: nat, b: int, p: BigParams)
    requires TxForward(c) && TxBackward(c) && b !in c.bigs && p.numBis >= 0
    ensures TxForward(AddBig(c, uid, b, p)) && TxBackward(AddBig(c, uid, b, p))
  {
    hide AddBig;
    var c' := AddBig(c, uid, b, p);
    forall b', i | b' in c'.bigs && 0 <= i < |c'.bigs[b'].bis|
      ensures c'.bigs[b'].bis[i] in c'.bisTx && c'.bisTx[c'.bigs[b'].bis[i]] == (b', i + 1)
    {
      AddBigBackward(c, uid, b, p, b', i);
    }
    forall h | h in c'.bisTx
      ensures var (b', i) := c'.bisTx[h]; b' in c'.bigs && 1 <= i <= |c'.bigs[b'].bis| && c'.bigs[b'].bis[i - 1] == h
    {
      AddBigForward(c, uid, b, p, h);
    }
  }

  lemma AddBigKeepsTx(c: Controller, uid: nat, b: int, p: BigParams)
    requires TxInv(c) && CreateBigStatus(c, b, p) == Success
    ensures TxInv(AddBig(c, uid, b, p))
  {
    hide TxForward, TxBackward, Bind, Allocate;
    AddBigTables(c, uid, b, p);
    AddBigGood(c, uid, b, p);
  }

  lemma AddBigGood(c: Controller, uid: nat, b: int, p: BigParams)
    requires TxInv(c) && CreateBigStatus(c, b, p) == Success
    ensures var c' := AddBig(c, uid, b, p);
            forall b' :: b' in c'.bigs ==> GoodBig(c', c'.bigs[b'])
  {
    hide TxForward, TxBackward, Bind, Allocate;
    var c' := AddBig(c, uid, b, p);
    forall b' | b' in c'.bigs
      ensures GoodBig(c', c'.bigs[b'])
    {
      if b' != b {
        assert GoodBig(c, c.bigs[b']);
      }
    }
  }

  lemma RemoveBigKeepsTx(c: Controller, b: int)
    requires TxInv(c) && b in c.bigs
    ensures TxInv(RemoveBig(c, b))
  {
    var c' := RemoveBig(c, b);
    forall b', i | b' in c'.bigs && 0 <= i < |c'.bigs[b'].bis|
      ensures c'.bigs[b'].bis[i] in c'.bisTx && c'.bisTx[c'.bigs[b'].bis[i]] == (b', i + 1)
    {
      assert c.bisTx[c.bigs[b'].bis[i]] == (b', i + 1);
    }
    assert TxBackward(c');
  }

  lemma EstablishTables(c: Controller, k: int, source: nat, sourceBig: int, big: Big)
    requires RxForward(c) && RxBackward(c) && k in c.bigSyncs && c.bigSyncs[k].bis == map[]
    requires EstablishStatus(c.bigSyncs[k].params, big) == Success
    ensures RxForward(Establish(c, k, source, sourceBig, big))
    ensures RxBackward(Establish(c, k, source, sourceBig, big))
  {
    hide Allocate, Bind;
    var c' := Establish(c, k, source, sourceBig, big);
    var idx, hs := c.bigSyncs[k].params.indices, IsoHandles(c, k);
    forall k', i | k' in c'.bigSyncs && i in c'.bigSyncs[k'].bis
      ensures c'.bigSyncs[k'].bis[i] in c'.bisRx && c'.bisRx[c'.bigSyncs[k'].bis[i]] == (k', i)
    {
      if k' == k {
        var n := SyncedAt(c, k, source, sourceBig, big, i);
      } else {
        var h := c.bigSyncs[k'].bis[i];
        assert h in c.bisRx.Keys;
        assert h !in hs;
        BindOther(c.bisRx, hs, Labelled(k, idx), h);
      }
    }
    forall h | h in c'.bisRx
      ensures var (k', i) := c'.bisRx[h]; k' in c'.bigSyncs && i in c'.bigSyncs[k'].bis && c'.bigSyncs[k'].bis[i] == h
    {
      if h in hs {
        var n :| 0 <= n < |hs| && hs[n] == h;
        BindAt(c.bisRx, hs, Labelled(k, idx), n);
        BindAt(map[], idx, hs, n);
      } else {
        BindOther(c.bisRx, hs, Labelled(k, idx), h);
      }
    }
    hide Establish;
  }

  lemma SyncedAt(c: Controller, k: int, source: nat, sourceBig: int, big: Big, i: int) returns (n: nat)
    requires k in c.bigSyncs && c.bigSyncs[k].bis == map[]
    requires EstablishStatus(c.bigSyncs[k].params, big) == Success
    requires i in Establish(c, k, source, sourceBig, big).bigSyncs[k].bis
    ensures var c' := Establish(c, k, source, sourceBig, big);
            var idx, hs := c.bigSyncs[k].params.indices, IsoHandles(c, k);
            && n < |idx| && idx[n] == i && c'.bigSyncs[k].bis[i] == hs[n]
            && hs[n] in c'.bisRx && c'.bisRx[hs[n]] == (k, i)
  {
    hide Allocate, Bind;
    var idx, hs := c.bigSyncs[k].params.indices, IsoHandles(c, k);
    if i !in idx {
      BindOther(map[], idx, hs, i);
    }
    n :| 0 <= n < |idx| && idx[n] == i;
    BindAt(map[], idx, hs, n);
    BindAt(c.bisRx, hs, Labelled(k, idx), n);
  }

  lemma FailedTables(c: Controller, k: int)
    requires RxForward(c) && RxBackward(c) && k in c.bigSyncs && c.bigSyncs[k].bis == map[]
    ensures var c' := c.(bigSyncs := c.bigSyncs - {k}); RxForward(c') && RxBackward(c')
  {
  }

  lemma EstablishKeepsRx(c: Controller, k: int, source: nat, sourceBig: int, big: Big)
    requires RxInv(c) && k in c.bigSyncs && !c.bigSyncs[k].established
    ensures RxInv(Establish(c, k, source, sourceBig, big))
  {
    hide Allocate, Bind, RxForward, RxBackward;
    assert GoodSync(c.bigSyncs[k]);
    if EstablishStatus(c.bigSyncs[k].params, big) == Success {
      EstablishTables(c, k, source, sourceBig, big);
      assert forall h :: h !in c.bigSyncs[k].dataPaths;
      EstablishedIsGood(c, k, source, sourceBig, big);
    } else {
      FailedTables(c, k);
    }
  }

  lemma EstablishedIsGood(c: Controller, k: int, source: nat, sourceBig: int, big: Big)
    requires k in c.bigSyncs && c.bigSyncs[k].bis == map[] && (forall h :: h !in c.bigSyncs[k].dataPaths)
    requires EstablishStatus(c.bigSyncs[k].params, big) == Success
    ensures GoodSync(Establish(c, k, source, sourceBig, big).bigSyncs[k])
  {
    hide Allocate, Bind;
    var sync := Establish(c, k, source, sourceBig, big).bigSyncs[k];
    var idx, hs := c.bigSyncs[k].params.indices, IsoHandles(c, k);
    forall n | 0 <= n < |idx|
      ensures idx[n] in sync.bis
    {
      BindAt(map[], idx, hs, n);
    }
    forall i | i in sync.bis
      ensures i in idx
    {
      if i !in idx {
        BindOther(map[], idx, hs, i);
      }
    }
  }

  function IsoHandles(c: Controller, k: int): seq<int>
    requires k in c.bigSyncs
  {
    Allocate(c.bisRx.Keys, |c.bigSyncs[k].params.indices|)
  }

  lemma DropSyncsToKeepsRx(c: Controller, source: nat, b: int)
    requires RxInv(c)
    ensures RxInv(DropSyncsTo(c, source, b))
  {
    var c' := DropSyncsTo(c, source, b);
    forall h | h in c'.bisRx
      ensures var (k, i) := c'.bisRx[h]; k in c'.bigSyncs && i in c'.bigSyncs[k].bis && c'.bigSyncs[k].bis[i] == h
    {
      var (k, i) := c.bisRx[h];
      assert c.bigSyncs[k].bis[i] == h && h in HandlesOf(c.bigSyncs[k]);
    }
    forall k, i | k in c'.bigSyncs && i in c'.bigSyncs[k].bis
      ensures c'.bigSyncs[k].bis[i] in c'.bisRx && c'.bisRx[c'.bigSyncs[k].bis[i]] == (k, i)
    {
      var h := c.bigSyncs[k].bis[i];
      assert c.bisRx[h] == (k, i);
    }
    assert RxForward(c') && RxBackward(c');
  }

  lemma DropSyncKeepsRx(c: Controller, k: int)
    requires RxInv(c) && k in c.bigSyncs
    ensures RxInv(DropSync(c, k))
  {
    var c' := DropSync(c, k);
    forall h | h in c'.bisRx
      ensures var (k', i) := c'.bisRx[h]; k' in c'.bigSyncs && i in c'.bigSyncs[k'].bis && c'.bigSyncs[k'].bis[i] == h
    {
      var (k', i) := c.bisRx[h];
      assert c.bigSyncs[k'].bis[i] == h && h in HandlesOf(c.bigSyncs[k']);
    }
    forall k', i | k' in c'.bigSyncs && i in c'.bigSyncs[k'].bis
      ensures c'.bigSyncs[k'].bis[i] in c'.bisRx && c'.bisRx[c'.bigSyncs[k'].bis[i]] == (k', i)
    {
      var h := c.bigSyncs[k'].bis[i];
      assert c.bisRx[h] == (k', i);
    }
    assert RxForward(c') && RxBackward(c');
  }

  /** A change of one group's data paths to a set of its own handles keeps the tables. */
  lemma TxPathsKeepTables(c: Controller, b: int, paths: set<int>)
    requires TxInv(c) && b in c.bigs && forall h :: h in paths ==> h in c.bigs[b].bis
    ensures TxInv(c.(bigs := c.bigs[b := c.bigs[b].(dataPaths := paths)]))
  {
  }

  lemma RxPathsKeepTables(c: Controller, k: int, paths: set<int>)
    requires RxInv(c) && k in c.bigSyncs && forall h :: h in paths ==> HasHandle(c.bigSyncs[k], h)
    ensures RxInv(c.(bigSyncs := c.bigSyncs[k := c.bigSyncs[k].(dataPaths := paths)]))
  {
  }

  lemma SameTables(c: Controller, c': Controller)
    requires TxInv(c) && RxInv(c)
    ensures c' == c.(bigs := c'.bigs) ==> RxInv(c')
    ensures c' == c.(bigSyncs := c'.bigSyncs) ==> TxInv(c')
  {
    hide TxForward, TxBackward, RxForward, RxBackward;
    assert forall b :: b in c.bigs ==> GoodBig(c, c.bigs[b]);
    if c' == c.(bigs := c'.bigs) {
      RxFrame(c, c');
    }
    if c' == c.(bigSyncs := c'.bigSyncs) {
      TxFrame(c, c');
    }
  }

  lemma OwnTx(c: Controller, h: int)
    requires TxInv(c) && h in c.bisTx
    ensures var b := c.bisTx[h].0;
            b in c.bigs && h in c.bigs[b].bis && forall x :: x in c.bigs[b].dataPaths ==> x in c.bigs[b].bis
  {
    hide TxBackward;
    var (b, i) := c.bisTx[h];
    assert c.bigs[b].bis[i - 1] == h && GoodBig(c, c.bigs[b]);
  }

  lemma OwnRx(c: Controller, h: int)
    requires RxInv(c) && h in c.bisRx
    ensures var k := c.bisRx[h].0;
            k in c.bigSyncs && HasHandle(c.bigSyncs[k], h)
            && forall x :: x in c.bigSyncs[k].dataPaths ==> HasHandle(c.bigSyncs[k], x)
  {
    hide RxBackward;
    var (k, i) := c.bisRx[h];
    assert c.bigSyncs[k].bis[i] == h && GoodSync(c.bigSyncs[k]);
  }

  lemma SetupKeepsTables(c: Controller, h: int, direction: int)
    requires TxInv(c) && RxInv(c) && LookupsSafe(c, h)
    ensures TxInv(SetupPath(c, h, direction)) && RxInv(SetupPath(c, h, direction))
  {
    hide TxInv, RxInv, HasHandle;
    if h in c.bisTx {
      var b := c.bisTx[h].0;
      OwnTx(c, h);
      TxPathsKeepTables(c, b, c.bigs[b].dataPaths + {h});
    } else if h in c.bisRx {
      var k := c.bisRx[h].0;
      OwnRx(c, h);
      RxPathsKeepTables(c, k, c.bigSyncs[k].dataPaths + {h});
    }
    SameTables(c, SetupPath(c, h, direction));
  }

  lemma RemoveKeepsTables(c: Controller, h: int)
    requires TxInv(c) && RxInv(c) && LookupsSafe(c, h)
    ensures TxInv(RemovePath(c, h)) && RxInv(RemovePath(c, h))
  {
    hide TxInv, RxInv, HasHandle;
    if h in c.bisTx {
      var b := c.bisTx[h].0;
      OwnTx(c, h);
      TxPathsKeepTables(c, b, c.bigs[b].dataPaths - {h});
    } else if h in c.bisRx {
      var k := c.bisRx[h].0;
      OwnRx(c, h);
      RxPathsKeepTables(c, k, c.bigSyncs[k].dataPaths - {h});
    }
    SameTables(c, RemovePath(c, h));
  }

  // ---- SDUs that wait, and the scheduler ----

  /** A pending SDU belongs to the BIG its handle belongs to now. */
  predicate Matches(c: Controller, h: int, e: IsoScheduler.Entry<BisSdu>) {
    && h in c.bisTx && c.bisTx[h] == (e.sdu.bigHandle, e.sdu.index)
    && e.sdu.bigHandle in c.bigs
    && var big := c.bigs[e.sdu.bigHandle];
       && big.uid == e.sdu.uid && big.params.interval == e.interval
       && big.params.encrypted == e.sdu.encrypted && big.params.code == e.sdu.code
  }

  predicate IsoInv(c: Controller) {
    forall h, n :: h in c.iso.pending && 0 <= n < |c.iso.pending[h]| ==> Matches(c, h, c.iso.pending[h][n])
  }

  /** The same BIGs but for their data paths. */
  predicate SameBigs(c: Controller, c': Controller) {
    && c'.bigs.Keys == c.bigs.Keys && c'.bisTx == c.bisTx
    && forall b :: b in c.bigs ==> c'.bigs[b] == c.bigs[b].(dataPaths := c'.bigs[b].dataPaths)
  }

  lemma SameBigsKeepIso(c: Controller, c': Controller)
    requires IsoInv(c) && SameBigs(c, c') && c'.iso.pending == c.iso.pending
    ensures IsoInv(c')
  {
    forall h, n | h in c'.iso.pending && 0 <= n < |c'.iso.pending[h]|
      ensures Matches(c', h, c'.iso.pending[h][n])
    {
      assert Matches(c, h, c.iso.pending[h][n]);
    }
  }

  /** The scheduler's invariant, with every handle in order. */
  ghost predicate SchedInv(iso: IsoScheduler.Sched<BisSdu>) {
    IsoScheduler.Inv(iso) && forall h :: IsoOrder.OrderInv(iso, h)
  }

  lemma SchedStep(iso: IsoScheduler.Sched<BisSdu>, step: IsoScheduler.Step<BisSdu>)
    requires SchedInv(iso) && IsoScheduler.Enabled(iso, step)
    requires step.Accepts? ==>
               forall i :: 0 <= i < |IsoScheduler.Get(iso.pending, step.h)| ==>
                             IsoScheduler.Get(iso.pending, step.h)[i].interval == step.interval
    ensures SchedInv(IsoScheduler.Apply(iso, step))
  {
    hide IsoScheduler.Apply, IsoScheduler.SlotFor, IsoScheduler.CarryInv, IsoOrder.OrderInv, IsoOrder.Later;
    IsoScheduler.StepKeepsInv(iso, step);
    if step.Accepts? {
      assert IsoScheduler.SlotInv(iso, step.h);
      IsoOrder.SameIntervalIsInTurn(iso, step);
    }
    forall h
      ensures IsoOrder.OrderInv(IsoScheduler.Apply(iso, step), h)
    {
      IsoOrder.StepKeepsOrder(iso, step, h);
    }
  }

  lemma TakeKeepsIso(c: Controller, h: int, excused: nat, data: seq<bv8>)
    requires TxInv(c) && IsoInv(c) && SchedInv(c.iso)
    requires LookupsSafe(c, h) && (h in c.bisTx ==> c.bigs[c.bisTx[h].0].params.interval > 0)
    ensures IsoInv(TakeSdu(c, h, excused, data)) && SchedInv(TakeSdu(c, h, excused, data).iso)
  {
    hide IsoScheduler.SlotFor, TxInv, SchedInv;
    if h in c.bisTx {
      var p := c.bigs[c.bisTx[h].0].params;
      var step := IsoScheduler.Accepts(h, p.interval, p.latencyMs, excused, SduOf(c, h, data));
      forall i | 0 <= i < |IsoScheduler.Get(c.iso.pending, h)|
        ensures IsoScheduler.Get(c.iso.pending, h)[i].interval == p.interval
      {
        assert Matches(c, h, c.iso.pending[h][i]);
      }
      SchedStep(c.iso, step);
      TakeMatches(c, h, excused, data);
    } else {
      SchedStep(c.iso, IsoScheduler.Refuses(h));
      SameBigsKeepIso(c, TakeSdu(c, h, excused, data));
    }
  }

  lemma TakeMatches(c: Controller, h: int, excused: nat, data: seq<bv8>)
    requires IsoInv(c)
    requires h in c.bisTx && LookupsSafe(c, h) && c.bigs[c.bisTx[h].0].params.interval > 0
    ensures IsoInv(TakeSdu(c, h, excused, data))
  {
    hide IsoScheduler.SlotFor;
    var c' := TakeSdu(c, h, excused, data);
    forall h', n | h' in c'.iso.pending && 0 <= n < |c'.iso.pending[h']|
      ensures Matches(c', h', c'.iso.pending[h'][n])
    {
      if h' == h && n == |IsoScheduler.Get(c.iso.pending, h)| {
        assert c'.iso.pending[h][n].sdu == SduOf(c, h, data);
      } else {
        assert c'.iso.pending[h'][n] == c.iso.pending[h'][n];
        assert Matches(c, h', c.iso.pending[h'][n]);
      }
    }
  }

  lemma FlushKeepsIso(c: Controller, h: int)
    requires IsoInv(c) && SchedInv(c.iso)
    ensures var c' := c.(iso := IsoScheduler.Flush(c.iso, h));
            IsoInv(c') && SchedInv(c'.iso) && h !in c'.iso.pending
  {
    var c' := c.(iso := IsoScheduler.Flush(c.iso, h));
    SchedStep(c.iso, IsoScheduler.Flushes([h]));
    assert [h][1..] == [];
    assert IsoScheduler.FlushAll(c.iso, [h]) == IsoScheduler.Flush(c.iso, h);
    hide SchedInv;
    forall h', n | h' in c'.iso.pending && 0 <= n < |c'.iso.pending[h']|
      ensures Matches(c', h', c'.iso.pending[h'][n])
    {
      assert Matches(c, h', c.iso.pending[h'][n]);
    }
  }

  lemma FireKeepsIso(c: Controller, h: int, k: nat)
    requires IsoInv(c) && SchedInv(c.iso) && IsoScheduler.CanFire(c.iso, h, k)
    ensures var c' := c.(iso := IsoScheduler.Deliver(c.iso, h, k)); IsoInv(c') && SchedInv(c'.iso)
    ensures k == 0
  {
    assert IsoOrder.OrderInv(c.iso, h);
    IsoOrder.OldestFires(c.iso, h, k);
    SchedStep(c.iso, IsoScheduler.Fires(h, k));
    hide SchedInv;
    var c' := c.(iso := IsoScheduler.Deliver(c.iso, h, k));
    forall h', n | h' in c'.iso.pending && 0 <= n < |c'.iso.pending[h']|
      ensures Matches(c', h', c'.iso.pending[h'][n])
    {
      assert Matches(c, h', c.iso.pending[h'][if h' == h then n + 1 else n]);
    }
  }

  lemma AddBigKeepsIso(c: Controller, uid: nat, b: int, p: BigParams)
    requires IsoInv(c) && b !in c.bigs && p.numBis >= 0
    ensures IsoInv(AddBig(c, uid, b, p))
  {
    var c' := AddBig(c, uid, b, p);
    forall h, n | h in c'.iso.pending && 0 <= n < |c'.iso.pending[h]|
      ensures Matches(c', h, c'.iso.pending[h][n])
    {
      assert Matches(c, h, c.iso.pending[h][n]);
      OldHandle(c, uid, b, p, h);
    }
  }

  lemma RemoveBigKeepsIso(c: Controller, b: int)
    requires IsoInv(c) && TxInv(c) && b in c.bigs
    requires forall h :: h in c.bigs[b].bis ==> h !in c.iso.pending
    ensures IsoInv(RemoveBig(c, b))
  {
    var c' := RemoveBig(c, b);
    forall h, n | h in c'.iso.pending && 0 <= n < |c'.iso.pending[h]|
      ensures Matches(c', h, c'.iso.pending[h][n])
    {
      assert Matches(c, h, c.iso.pending[h][n]);
    }
  }

  // ---- Across controllers ----

  /** An established sync names a live BIG of another controller, the very one it was established to, with
      the Broadcast_Code that decrypts it. */
  predicate Agrees(ctl: map<nat, Controller>, r: nat, sync: BigSync) {
    && sync.source in ctl && sync.source != r
    && sync.sourceBig in ctl[sync.source].bigs
    && var big := ctl[sync.source].bigs[sync.sourceBig];
       && big.uid == sync.uid
       && (big.params.encrypted ==> sync.params.encryption && sync.params.code == big.params.code)
       && forall i :: i in sync.bis ==> 1 <= i <= big.params.numBis
  }

  predicate SyncInv(ctl: map<nat, Controller>, r: nat)
    requires r in ctl
  {
    forall k :: k in ctl[r].bigSyncs && ctl[r].bigSyncs[k].established ==> Agrees(ctl, r, ctl[r].bigSyncs[k])
  }

  predicate PaInv(ctl: map<nat, Controller>, r: nat)
    requires r in ctl
  {
    forall s :: s in ctl[r].paSyncs ==> ctl[r].paSyncs[s].source != r
  }

  predicate UidInv(w: Link) {
    && (forall c, b :: c in w.ctl && b in w.ctl[c].bigs ==> w.ctl[c].bigs[b].uid < w.nextUid)
    && (forall c, b, c', b' ::
          (c in w.ctl && b in w.ctl[c].bigs && c' in w.ctl && b' in w.ctl[c'].bigs
           && w.ctl[c].bigs[b].uid == w.ctl[c'].bigs[b'].uid) ==> c == c' && b == b')
  }

  /** The SDU reached only handles synced to that very BIG at that index with a data path, and a receiver
      of an encrypted BIG has its Broadcast_Code. */
  predicate SafeTarget(source: nat, sdu: BisSdu, t: Target) {
    && t.receiver != source
    && t.sync.established && t.sync.source == source && t.sync.uid == sdu.uid
    && sdu.index in t.sync.bis && t.sync.bis[sdu.index] == t.handle && t.handle in t.sync.dataPaths
    && (sdu.encrypted ==> t.sync.params.encryption && t.sync.params.code == sdu.code)
  }

  predicate SafeDelivery(d: Delivery) {
    forall t :: t in d.targets ==> SafeTarget(d.source, d.sdu, t)
  }

  predicate AirInv(air: seq<Delivery>) {
    forall i :: 0 <= i < |air| ==> SafeDelivery(air[i])
  }

  ghost predicate LocalInv(c: Controller) {
    TxInv(c) && RxInv(c) && IsoInv(c) && SchedInv(c.iso)
  }

  ghost predicate Inv(w: Link) {
    && (forall c :: c in w.ctl ==> LocalInv(w.ctl[c]))
    && (forall c :: c in w.ctl ==> SyncInv(w.ctl, c) && PaInv(w.ctl, c))
    && UidInv(w) && AirInv(w.air)
  }

  lemma TargetsSafe(ctl: map<nat, Controller>, c: nat, h: int, e: IsoScheduler.Entry<BisSdu>)
    requires c in ctl && Matches(ctl[c], h, e)
    requires forall r :: r in ctl ==> SyncInv(ctl, r)
    ensures SafeDelivery(Delivery(c, e.sdu, Targets(ctl, c, e.sdu)))
  {
    forall t | t in Targets(ctl, c, e.sdu)
      ensures SafeTarget(c, e.sdu, t)
    {
      var r, k :| r in ctl && r != c && k in ctl[r].bigSyncs && Receives(ctl[r].bigSyncs[k], c, e.sdu)
                  && t == Target(r, ctl[r].bigSyncs[k].bis[e.sdu.index], ctl[r].bigSyncs[k]);
      assert SyncInv(ctl, r);
      assert Agrees(ctl, r, ctl[r].bigSyncs[k]);
    }
  }

  lemma CarrySafe(w: Link, c: nat, h: int, es: seq<IsoScheduler.Entry<BisSdu>>)
    requires c in w.ctl && AirInv(w.air)
    requires forall i :: 0 <= i < |es| ==> Matches(w.ctl[c], h, es[i])
    requires forall r :: r in w.ctl ==> SyncInv(w.ctl, r)
    ensures AirInv(w.air + Carry(w, c, es))
  {
    forall i | 0 <= i < |es|
      ensures SafeDelivery(Carry(w, c, es)[i])
    {
      TargetsSafe(w.ctl, c, h, es[i]);
    }
  }

  /** The syncs of c' are those of c, or not established. */
  predicate SyncsFrom(c: Controller, c': Controller) {
    forall k :: k in c'.bigSyncs && c'.bigSyncs[k].established ==>
      k in c.bigSyncs && c'.bigSyncs[k] == c.bigSyncs[k].(dataPaths := c'.bigSyncs[k].dataPaths)
  }

  /** A change of one controller that keeps its BIGs and establishes nothing keeps the link. */
  lemma LocalChangeKeepsLink(w: Link, c: nat, c': Controller)
    requires Inv(w) && c in w.ctl && SameBigs(w.ctl[c], c') && SyncsFrom(w.ctl[c], c')
    requires LocalInv(c') && (forall s :: s in c'.paSyncs ==> c'.paSyncs[s].source != c)
    ensures Inv(w.(ctl := w.ctl[c := c']))
  {
    hide LocalInv;
    var ctl' := w.ctl[c := c'];
    forall r | r in ctl'
      ensures SyncInv(ctl', r) && PaInv(ctl', r)
    {
      assert SyncInv(w.ctl, r) && PaInv(w.ctl, r);
      forall k | k in ctl'[r].bigSyncs && ctl'[r].bigSyncs[k].established
        ensures Agrees(ctl', r, ctl'[r].bigSyncs[k])
      {
        assert Agrees(w.ctl, r, w.ctl[r].bigSyncs[k]);
      }
    }
  }

  lemma SetupShape(c: Controller, h: int, direction: int)
    requires LookupsSafe(c, h)
    ensures SameBigs(c, SetupPath(c, h, direction)) && SyncsFrom(c, SetupPath(c, h, direction))
  {
  }

  lemma RemoveShape(c: Controller, h: int)
    requires LookupsSafe(c, h)
    ensures SameBigs(c, RemovePath(c, h)) && SyncsFrom(c, RemovePath(c, h))
  {
  }

  lemma DropShape(c: Controller, k: int)
    requires k in c.bigSyncs
    ensures DropSync(c, k).bigs == c.bigs && DropSync(c, k).bisTx == c.bisTx && SyncsFrom(c, DropSync(c, k))
  {
  }

  lemma CreateSyncShape(c: Controller, k: int, p: SyncParams)
    ensures SyncsFrom(c, BigCreateSync(c, k, p))
  {
  }

  lemma SameBigsOf(c: Controller, c': Controller)
    requires c'.bigs == c.bigs && c'.bisTx == c.bisTx
    ensures SameBigs(c, c')
  {
  }

  lemma SyncsFromSame(c: Controller, c': Controller)
    requires c'.bigSyncs == c.bigSyncs
    ensures SyncsFrom(c, c')
  {
  }

  lemma LocalStepBigs(w: Link, s: Step)
    requires Enabled(w, s)
    ensures SameBigs(w.ctl[s.c], Local(w, s))
  {
    hide IsoScheduler.Accept, IsoScheduler.Refuse, DropSync, SetupPath, RemovePath, SameBigs, SyncsFrom, LookupsSafe;
    var c := w.ctl[s.c];
    match s
    case Setup(_, h, direction) => SetupShape(c, h, direction);
    case Remove(_, h) => RemoveShape(c, h);
    case TerminateSync(_, k) =>
      if k in c.bigSyncs {
        DropShape(c, k);
      }
      SameBigsOf(c, Local(w, s));
    case _ =>
      hide Local;
      if OfAdvertising(s) {
        AdvertisingKeepsBigs(w, s);
      } else {
        OthersKeepBigs(w, s);
      }
      SameBigsOf(c, Local(w, s));
  }

  predicate OfAdvertising(s: Step) {
    s.SetAdvSet? || s.RemoveSet? || s.ClearSets? || s.SetPeriodic? || s.EnablePeriodic?
  }

  lemma AdvertisingKeepsBigs(w: Link, s: Step)
    requires Enabled(w, s) && OfAdvertising(s)
    ensures Local(w, s).bigs == w.ctl[s.c].bigs && Local(w, s).bisTx == w.ctl[s.c].bisTx
  {
    hide HasBigOn, LookupsSafe;
    match s
    case SetAdvSet(_, _) =>
    case RemoveSet(_, _, _) =>
    case ClearSets(_) =>
    case SetPeriodic(_, _) =>
    case EnablePeriodic(_, _, _) =>
  }

  lemma OthersKeepBigs(w: Link, s: Step)
    requires Enabled(w, s) && !OfAdvertising(s) && !s.Setup? && !s.Remove? && !s.TerminateSync?
    ensures Local(w, s).bigs == w.ctl[s.c].bigs && Local(w, s).bisTx == w.ctl[s.c].bisTx
  {
    hide IsoScheduler.Accept, IsoScheduler.Refuse, LookupsSafe, SduOf;
    match s
    case PaEstablished(_, _, _) =>
    case PaGone(_, _) =>
    case CreateSync(_, _, _) =>
    case IsoData(_, _, _, _) =>
    case Waits(_, _) =>
    case _ =>
  }

  lemma LocalStepSyncs(w: Link, s: Step)
    requires Enabled(w, s)
    ensures SyncsFrom(w.ctl[s.c], Local(w, s))
  {
    hide IsoScheduler.Accept, IsoScheduler.Refuse, DropSync, SetupPath, RemovePath, SameBigs, SyncsFrom, LookupsSafe;
    hide BigCreateSync;
    var c := w.ctl[s.c];
    match s
    case Setup(_, h, direction) => SetupShape(c, h, direction);
    case Remove(_, h) => RemoveShape(c, h);
    case CreateSync(_, k, p) => CreateSyncShape(c, k, p);
    case TerminateSync(_, k) =>
      if k in c.bigSyncs {
        DropShape(c, k);
      } else {
        SyncsFromSame(c, c);
      }
    case _ => SyncsFromSame(c, Local(w, s));
  }

  lemma LocalStepShape(w: Link, s: Step)
    requires Enabled(w, s) && PaInv(w.ctl, s.c)
    ensures SameBigs(w.ctl[s.c], Local(w, s)) && SyncsFrom(w.ctl[s.c], Local(w, s))
    ensures forall p :: p in Local(w, s).paSyncs ==> Local(w, s).paSyncs[p].source != s.c
  {
    LocalStepBigs(w, s);
    LocalStepSyncs(w, s);
    hide IsoScheduler.Accept, SameBigs, SyncsFrom;
  }

  lemma LocalStepTables(c: Controller, w: Link, s: Step)
    requires Enabled(w, s) && c == w.ctl[s.c] && TxInv(c) && RxInv(c)
    ensures TxInv(Local(w, s)) && RxInv(Local(w, s))
  {
    hide TxForward, TxBackward, RxInv, IsoScheduler.Accept;
    match s
    case Setup(_, h, direction) => SetupKeepsTables(c, h, direction);
    case Remove(_, h) => RemoveKeepsTables(c, h);
    case TerminateSync(_, k) =>
      if k in c.bigSyncs {
        DropSyncKeepsRx(c, k);
        assert forall b :: b in c.bigs ==> GoodBig(c, c.bigs[b]);
        TxFrame(c, DropSync(c, k));
      }
    case SetAdvSet(_, _) => AdvStepTables(c, w, s);
    case RemoveSet(_, _, _) => AdvStepTables(c, w, s);
    case ClearSets(_) => AdvStepTables(c, w, s);
    case SetPeriodic(_, _) => AdvStepTables(c, w, s);
    case EnablePeriodic(_, _, _) => AdvStepTables(c, w, s);
    case PaEstablished(_, _, _) => OtherStepTables(c, w, s);
    case PaGone(_, _) => OtherStepTables(c, w, s);
    case CreateSync(_, _, _) => CreateSyncTables(c, w, s);
    case IsoData(_, _, _, _) => IsoStepTables(c, w, s);
    case Waits(_, _) => IsoStepTables(c, w, s);
    case _ =>
  }

  lemma TxFrame(c: Controller, c': Controller)
    requires TxInv(c) && c'.bigs == c.bigs && c'.bisTx == c.bisTx
    requires forall b :: b in c.bigs ==> c.bigs[b].params.adv in c'.advSets && c.bigs[b].params.adv in c'.periodic
    ensures TxInv(c')
  {
    forall b | b in c'.bigs
      ensures GoodBig(c', c'.bigs[b])
    {
      assert GoodBig(c, c.bigs[b]);
    }
  }

  lemma RxFrame(c: Controller, c': Controller)
    requires RxInv(c) && c'.bisRx == c.bisRx
    requires c'.bigSyncs == c.bigSyncs || exists k :: NewSync(c, c', k)
    ensures RxInv(c')
  {
  }

  predicate NewSync(c: Controller, c': Controller, k: int) {
    && k !in c.bigSyncs && c'.bigSyncs.Keys == c.bigSyncs.Keys + {k}
    && (forall k' :: k' in c.bigSyncs ==> c'.bigSyncs[k'] == c.bigSyncs[k'])
    && c'.bigSyncs[k].bis == map[] && c'.bigSyncs[k].dataPaths == {} && !c'.bigSyncs[k].established
  }

  lemma AdvStepTables(c: Controller, w: Link, s: Step)
    requires Enabled(w, s) && c == w.ctl[s.c] && TxInv(c) && RxInv(c)
    requires s.SetAdvSet? || s.RemoveSet? || s.ClearSets? || s.SetPeriodic? || s.EnablePeriodic?
    ensures TxInv(Local(w, s)) && RxInv(Local(w, s))
  {
    hide TxForward, TxBackward, RxInv, SetupPath, RemovePath, TakeSdu, BigCreateSync, BigTerminateSync;
    assert forall b :: b in c.bigs ==> GoodBig(c, c.bigs[b]);
    TxFrame(c, Local(w, s));
    RxFrame(c, Local(w, s));
  }

  lemma OtherStepTables(c: Controller, w: Link, s: Step)
    requires Enabled(w, s) && c == w.ctl[s.c] && TxInv(c) && RxInv(c)
    requires s.PaEstablished? || s.PaGone?
    ensures TxInv(Local(w, s)) && RxInv(Local(w, s))
  {
    hide IsoScheduler.Accept, TxForward, TxBackward, RxInv;
    var c' := Local(w, s);
    assert forall b :: b in c.bigs ==> GoodBig(c, c.bigs[b]);
    TxFrame(c, c');
    RxFrame(c, c');
  }

  lemma IsoStepTables(c: Controller, w: Link, s: Step)
    requires Enabled(w, s) && c == w.ctl[s.c] && TxInv(c) && RxInv(c) && (s.IsoData? || s.Waits?)
    ensures TxInv(Local(w, s)) && RxInv(Local(w, s))
  {
    hide TxForward, TxBackward, RxInv, IsoScheduler.Accept, IsoScheduler.Refuse;
    assert forall b :: b in c.bigs ==> GoodBig(c, c.bigs[b]);
    assert Local(w, s) == c.(iso := Local(w, s).iso);
    hide Local;
    TxFrame(c, Local(w, s));
    RxFrame(c, Local(w, s));
  }

  lemma CreateSyncTables(c: Controller, w: Link, s: Step)
    requires Enabled(w, s) && c == w.ctl[s.c] && TxInv(c) && RxInv(c) && s.CreateSync?
    ensures TxInv(Local(w, s)) && RxInv(Local(w, s))
  {
    hide TxForward, TxBackward, RxInv;
    var c' := Local(w, s);
    assert forall b :: b in c.bigs ==> GoodBig(c, c.bigs[b]);
    assert c' == c || NewSync(c, c', s.k);
    TxFrame(c, c');
    RxFrame(c, c');
  }

  lemma LocalStepKeepsLink(w: Link, s: Step)
    requires Inv(w) && Enabled(w, s)
    requires !s.Create? && !s.Terminate? && !s.TryPending? && !s.TimerFires? && !s.Disconnects?
    ensures Inv(w.(ctl := w.ctl[s.c := Local(w, s)]))
  {
    var c := w.ctl[s.c];
    assert LocalInv(c) && PaInv(w.ctl, s.c);
    LocalStepShape(w, s);
    LocalStepTables(c, w, s);
    LocalStepIso(c, w, s);
    LocalChangeKeepsLink(w, s.c, Local(w, s));
  }

  lemma LocalKeepsSched(w: Link, s: Step)
    requires Enabled(w, s) && !s.IsoData? && !s.Waits?
    ensures Local(w, s).iso == w.ctl[s.c].iso
  {
    hide LookupsSafe;
  }

  lemma LocalStepIso(c: Controller, w: Link, s: Step)
    requires Enabled(w, s) && c == w.ctl[s.c] && LocalInv(c) && SameBigs(c, Local(w, s))
    ensures IsoInv(Local(w, s)) && SchedInv(Local(w, s).iso)
  {
    hide TxInv, RxInv, IsoInv, SchedInv, SameBigs;
    if s.IsoData? {
      TakeKeepsIso(c, s.h, s.excused, s.data);
    } else if s.Waits? {
      SchedStep(c.iso, IsoScheduler.Ticks(s.us));
      SameBigsKeepIso(c, Local(w, s));
    } else {
      hide Local;
      LocalKeepsSched(w, s);
      SameBigsKeepIso(c, Local(w, s));
    }
  }

  // ---- Syncs, Create and Terminate BIG, delivery ----

  lemma TrySyncKeepsLink(w: Link, r: nat, k: int)
    requires Inv(w) && r in w.ctl
    ensures Inv(TrySync(w, r, k))
  {
    var c := w.ctl[r];
    var w' := TrySync(w, r, k);
    if w' != w {
      var pa := c.paSyncs[c.bigSyncs[k].params.syncHandle];
      var b :| b in w.ctl[pa.source].bigs && w.ctl[pa.source].bigs[b].params.adv == pa.adv
               && w'.ctl == w.ctl[r := Establish(c, k, pa.source, b, w.ctl[pa.source].bigs[b])];
      EstablishKeepsLink(w, r, k, pa.source, b);
    }
  }

  /** What trying a sync changes: its own record and the receiver's handles. */
  lemma EstablishShape(c: Controller, k: int, source: nat, b: int, big: Big)
    requires k in c.bigSyncs && c.bigSyncs[k].bis == map[]
    ensures var c' := Establish(c, k, source, b, big);
            && c' == c.(bigSyncs := c'.bigSyncs, bisRx := c'.bisRx)
            && (forall k' :: k' != k ==> (k' in c'.bigSyncs <==> k' in c.bigSyncs))
            && (forall k' :: k' != k && k' in c.bigSyncs ==> c'.bigSyncs[k'] == c.bigSyncs[k'])
            && (k in c'.bigSyncs ==>
                 var sync := c'.bigSyncs[k];
                 && sync.source == source && sync.sourceBig == b && sync.uid == big.uid
                 && (big.params.encrypted ==> sync.params.encryption && sync.params.code == big.params.code)
                 && forall i :: i in sync.bis ==> 1 <= i <= big.params.numBis)
  {
    hide Allocate, Bind;
    var idx, hs := c.bigSyncs[k].params.indices, IsoHandles(c, k);
    if EstablishStatus(c.bigSyncs[k].params, big) == Success {
      forall i | i in Bind(c.bigSyncs[k].bis, idx, hs)
        ensures 1 <= i <= big.params.numBis
      {
        if i in idx {
          var j :| 0 <= j < |idx| && idx[j] == i;
        } else {
          BindOther(c.bigSyncs[k].bis, idx, hs, i);
        }
      }
    }
  }

  lemma LocalFrame(c: Controller, c': Controller)
    requires LocalInv(c) && RxInv(c') && c' == c.(bigSyncs := c'.bigSyncs, bisRx := c'.bisRx)
    ensures LocalInv(c')
  {
    hide RxInv, SchedInv;
    assert TxInv(c') by {
      hide IsoInv;
    }
    assert IsoInv(c') by {
      hide TxInv;
      SameBigsKeepIso(c, c');
    }
  }

  lemma EstablishKeepsLocal(c: Controller, k: int, source: nat, b: int, big: Big)
    requires LocalInv(c) && k in c.bigSyncs && !c.bigSyncs[k].established
    ensures LocalInv(Establish(c, k, source, b, big))
  {
    hide LocalInv, RxInv, Establish;
    LocalHasRx(c);
    EstablishKeepsRx(c, k, source, b, big);
    EstablishShape(c, k, source, b, big);
    LocalFrame(c, Establish(c, k, source, b, big));
  }

  lemma EstablishKeepsLink(w: Link, r: nat, k: int, source: nat, b: int)
    requires Inv(w) && r in w.ctl && k in w.ctl[r].bigSyncs && !w.ctl[r].bigSyncs[k].established
    requires source in w.ctl && source != r && b in w.ctl[source].bigs
    ensures Inv(w.(ctl := w.ctl[r := Establish(w.ctl[r], k, source, b, w.ctl[source].bigs[b])]))
  {
    hide LocalInv, Establish, UidInv, SyncInv, PaInv, AirInv;
    var c, big := w.ctl[r], w.ctl[source].bigs[b];
    assert LocalInv(c);
    LocalHasRx(c);
    EstablishKeepsLocal(c, k, source, b, big);
    EstablishShape(c, k, source, b, big);
    SyncedKeepsLink(w, r, Establish(c, k, source, b, big), k);
  }

  lemma SyncedKeepsLink(w: Link, r: nat, c': Controller, k: int)
    requires Inv(w) && r in w.ctl && LocalInv(c')
    requires c' == w.ctl[r].(bigSyncs := c'.bigSyncs, bisRx := c'.bisRx)
    requires forall k' :: k' in c'.bigSyncs && k' != k ==>
                            k' in w.ctl[r].bigSyncs && c'.bigSyncs[k'] == w.ctl[r].bigSyncs[k']
    requires k in c'.bigSyncs ==> Agrees(w.ctl, r, c'.bigSyncs[k])
    ensures Inv(w.(ctl := w.ctl[r := c']))
  {
    hide LocalInv;
    var ctl' := w.ctl[r := c'];
    forall r' | r' in ctl'
      ensures SyncInv(ctl', r') && PaInv(ctl', r')
    {
      assert SyncInv(w.ctl, r') && PaInv(w.ctl, r');
      forall k' | k' in ctl'[r'].bigSyncs && ctl'[r'].bigSyncs[k'].established
        ensures Agrees(ctl', r', ctl'[r'].bigSyncs[k'])
      {
        assert Agrees(w.ctl, r', ctl'[r'].bigSyncs[k']);
      }
    }
    assert UidInv(w.(ctl := ctl')) by {
      hide SyncInv, PaInv;
    }
  }

  lemma {:induction false} TrySyncsKeepLink(w: Link, tries: seq<(nat, int)>)
    requires Inv(w)
    ensures Inv(TrySyncs(w, tries))
    decreases |tries|
  {
    if tries == [] {
    } else {
      hide TrySync, Inv;
      if tries[0].0 in w.ctl {
        TrySyncKeepsLink(w, tries[0].0, tries[0].1);
        TrySyncsKeepLink(TrySync(w, tries[0].0, tries[0].1), tries[1..]);
      } else {
        TrySyncsKeepLink(w, tries[1..]);
      }
    }
  }

  lemma AddBigKeepsLocal(c: Controller, uid: nat, b: int, p: BigParams)
    requires LocalInv(c) && CreateBigStatus(c, b, p) == Success
    ensures LocalInv(AddBig(c, uid, b, p))
  {
    AddBigKeepsTx(c, uid, b, p);
    AddBigKeepsIso(c, uid, b, p);
    hide TxInv, IsoInv, SchedInv, Bind, Allocate;
    RxFrame(c, AddBig(c, uid, b, p));
  }

  lemma MoreBigsKeepSyncs(ctl: map<nat, Controller>, c: nat, c': Controller, r: nat)
    requires c in ctl && r in ctl && SyncInv(ctl, r) && PaInv(ctl, r)
    requires c'.bigSyncs == ctl[c].bigSyncs && c'.paSyncs == ctl[c].paSyncs
    requires forall b :: b in ctl[c].bigs ==> b in c'.bigs && c'.bigs[b] == ctl[c].bigs[b]
    ensures SyncInv(ctl[c := c'], r) && PaInv(ctl[c := c'], r)
  {
    var ctl' := ctl[c := c'];
    forall k | k in ctl'[r].bigSyncs && ctl'[r].bigSyncs[k].established
      ensures Agrees(ctl', r, ctl'[r].bigSyncs[k])
    {
      assert Agrees(ctl, r, ctl[r].bigSyncs[k]);
    }
  }

  lemma AddBigKeepsUids(w: Link, c: nat, b: int, p: BigParams)
    requires UidInv(w) && c in w.ctl && p.numBis >= 0 && b !in w.ctl[c].bigs
    ensures UidInv(w.(ctl := w.ctl[c := AddBig(w.ctl[c], w.nextUid, b, p)], nextUid := w.nextUid + 1))
  {
    hide Allocate, Bind;
  }

  lemma AddBigKeepsLink(w: Link, c: nat, b: int, p: BigParams)
    requires Inv(w) && c in w.ctl && CreateBigStatus(w.ctl[c], b, p) == Success
    ensures Inv(w.(ctl := w.ctl[c := AddBig(w.ctl[c], w.nextUid, b, p)], nextUid := w.nextUid + 1))
  {
    hide LocalInv, UidInv, Allocate, Bind, SyncInv, PaInv, AirInv;
    var c' := AddBig(w.ctl[c], w.nextUid, b, p);
    AddBigKeepsLocal(w.ctl[c], w.nextUid, b, p);
    AddBigKeepsUids(w, c, b, p);
    forall r | r in w.ctl
      ensures SyncInv(w.ctl[c := c'], r) && PaInv(w.ctl[c := c'], r)
    {
      MoreBigsKeepSyncs(w.ctl, c, c', r);
    }
  }

  lemma FlushKeepsLocal(c: Controller, h: int)
    requires LocalInv(c)
    ensures LocalInv(c.(iso := IsoScheduler.Flush(c.iso, h)))
    ensures h !in IsoScheduler.Flush(c.iso, h).pending
  {
    FlushKeepsIso(c, h);
    var c' := c.(iso := IsoScheduler.Flush(c.iso, h));
    hide IsoInv, SchedInv, IsoScheduler.Flush;
    assert TxInv(c') by {
      hide RxInv;
    }
    RxFrame(c, c');
  }

  lemma IsoChangeKeepsLink(w: Link, c: nat, iso: IsoScheduler.Sched<BisSdu>, air: seq<Delivery>)
    requires Inv(w) && c in w.ctl && LocalInv(w.ctl[c].(iso := iso)) && AirInv(air)
    ensures Inv(w.(air := air, ctl := w.ctl[c := w.ctl[c].(iso := iso)]))
  {
    hide LocalInv;
    assert PaInv(w.ctl, c);
    LocalChangeKeepsLink(w, c, w.ctl[c].(iso := iso));
  }

  lemma FlushedSafe(w: Link, c: nat, h: int)
    requires c in w.ctl && AirInv(w.air) && IsoInv(w.ctl[c])
    requires forall r :: r in w.ctl ==> SyncInv(w.ctl, r)
    ensures AirInv(w.air + Carry(w, c, IsoScheduler.Get(w.ctl[c].iso.pending, h)))
  {
    var es := IsoScheduler.Get(w.ctl[c].iso.pending, h);
    forall i | 0 <= i < |es|
      ensures Matches(w.ctl[c], h, es[i])
    {
      assert Matches(w.ctl[c], h, w.ctl[c].iso.pending[h][i]);
    }
    CarrySafe(w, c, h, es);
  }

  lemma FlushHandleKeepsLink(w: Link, c: nat, h: int)
    requires Inv(w) && c in w.ctl
    ensures Inv(FlushHandle(w, c, h))
    ensures h !in FlushHandle(w, c, h).ctl[c].iso.pending
  {
    assert LocalInv(w.ctl[c]);
    FlushedSafe(w, c, h);
    FlushKeepsLocal(w.ctl[c], h);
    hide LocalInv, IsoScheduler.Flush, AirInv;
    IsoChangeKeepsLink(w, c, IsoScheduler.Flush(w.ctl[c].iso, h),
                       w.air + Carry(w, c, IsoScheduler.Get(w.ctl[c].iso.pending, h)));
  }

  lemma {:induction false} FlushHandlesKeepLink(w: Link, c: nat, hs: seq<int>)
    requires Inv(w) && c in w.ctl
    ensures Inv(FlushHandles(w, c, hs))
    decreases |hs|
  {
    if hs == [] {
    } else {
      FlushHandleKeepsLink(w, c, hs[0]);
      hide Inv, FlushHandle;
      FlushShape(w, c, hs[0]);
      FlushHandlesKeepLink(FlushHandle(w, c, hs[0]), c, hs[1..]);
    }
  }

  /** A flush changes the scheduler of its controller only. */
  predicate OnlyIso(ctl: map<nat, Controller>, ctl': map<nat, Controller>, c: nat)
    requires c in ctl
  {
    c in ctl' && ctl' == ctl[c := ctl[c].(iso := ctl'[c].iso)]
  }

  lemma FlushShape(w: Link, c: nat, h: int)
    requires c in w.ctl
    ensures OnlyIso(w.ctl, FlushHandle(w, c, h).ctl, c)
    ensures FlushHandle(w, c, h).ctl[c].iso.pending == w.ctl[c].iso.pending - {h}
  {
    hide Carry;
  }

  lemma {:induction false} FlushesShape(w: Link, c: nat, hs: seq<int>)
    requires c in w.ctl
    ensures OnlyIso(w.ctl, FlushHandles(w, c, hs).ctl, c)
    ensures forall h :: h in FlushHandles(w, c, hs).ctl[c].iso.pending ==> h !in hs && h in w.ctl[c].iso.pending
    decreases |hs|
  {
    if hs == [] {
      assert w.ctl[c := w.ctl[c]] == w.ctl;
    } else {
      FlushShape(w, c, hs[0]);
      hide FlushHandle;
      FlushesShape(FlushHandle(w, c, hs[0]), c, hs[1..]);
      assert hs == [hs[0]] + hs[1..];
    }
  }

  lemma RemoveBigKeepsLocal(c: Controller, b: int)
    requires LocalInv(c) && b in c.bigs
    requires forall h :: h in c.bigs[b].bis ==> h !in c.iso.pending
    ensures LocalInv(RemoveBig(c, b))
  {
    RemoveBigKeepsTx(c, b);
    RemoveBigKeepsIso(c, b);
    hide TxInv, IsoInv, SchedInv;
    RxFrame(c, RemoveBig(c, b));
  }

  lemma DropSyncsKeepsLocal(c: Controller, source: nat, b: int)
    requires LocalInv(c)
    ensures LocalInv(DropSyncsTo(c, source, b))
  {
    hide LocalInv;
    assert RxInv(DropSyncsTo(c, source, b)) by {
      LocalHasRx(c);
      DropSyncsToKeepsRx(c, source, b);
    }
    hide RxInv;
    LocalFrame(c, DropSyncsTo(c, source, b));
  }

  lemma LocalHasRx(c: Controller)
    requires LocalInv(c)
    ensures RxInv(c)
    ensures forall k :: k in c.bigSyncs && !c.bigSyncs[k].established ==> c.bigSyncs[k].bis == map[]
  {
    assert forall k :: k in c.bigSyncs ==> GoodSync(c.bigSyncs[k]);
  }

  lemma WithoutBigKeepsSyncs(w: Link, c: nat, b: int, r: nat)
    requires c in w.ctl && b in w.ctl[c].bigs && r in w.ctl && SyncInv(w.ctl, r) && PaInv(w.ctl, r)
    ensures var ctl' := WithoutBig(w, c, b).ctl; SyncInv(ctl', r) && PaInv(ctl', r)
  {
    var ctl' := WithoutBig(w, c, b).ctl;
    forall k | k in ctl'[r].bigSyncs && ctl'[r].bigSyncs[k].established
      ensures Agrees(ctl', r, ctl'[r].bigSyncs[k])
    {
      assert Agrees(w.ctl, r, w.ctl[r].bigSyncs[k]);
    }
  }

  lemma WithoutBigKeepsLink(w: Link, c: nat, b: int)
    requires Inv(w) && c in w.ctl && b in w.ctl[c].bigs
    requires forall h :: h in w.ctl[c].bigs[b].bis ==> h !in w.ctl[c].iso.pending
    ensures Inv(WithoutBig(w, c, b))
  {
    hide LocalInv, SyncInv, PaInv, AirInv;
    var w' := WithoutBig(w, c, b);
    forall r | r in w'.ctl
      ensures LocalInv(w'.ctl[r]) && SyncInv(w'.ctl, r) && PaInv(w'.ctl, r)
    {
      assert LocalInv(w.ctl[r]);
      WithoutBigKeepsSyncs(w, c, b, r);
      if r == c {
        RemoveBigKeepsLocal(w.ctl[c], b);
      } else {
        DropSyncsKeepsLocal(w.ctl[r], c, b);
      }
    }
  }

  lemma TerminateKeepsLink(w: Link, c: nat, b: int)
    requires Inv(w) && c in w.ctl
    ensures Inv(TerminateBig(w, c, b))
  {
    if b in w.ctl[c].bigs {
      hide Inv, WithoutBig, FlushHandles;
      var hs := w.ctl[c].bigs[b].bis;
      var flushed := FlushHandles(w, c, hs);
      FlushHandlesKeepLink(w, c, hs);
      FlushesShape(w, c, hs);
      assert flushed.ctl[c].bigs == w.ctl[c].bigs;
      WithoutBigKeepsLink(flushed, c, b);
    }
  }

  lemma FireKeepsLink(w: Link, c: nat, h: int, n: nat)
    requires Inv(w) && Enabled(w, TimerFires(c, h, n))
    ensures Inv(Apply(w, TimerFires(c, h, n)))
  {
    hide Inv, LocalInv, AirInv, IsoScheduler.Deliver;
    var c0 := w.ctl[c];
    LocalOf(w, c);
    FireKeepsLocal(c0, h, n);
    FiredSafe(w, c, h, n);
    IsoChangeKeepsLink(w, c, IsoScheduler.Deliver(c0.iso, h, n), w.air + Carry(w, c, [c0.iso.pending[h][n]]));
  }

  lemma LocalOf(w: Link, c: nat)
    requires Inv(w) && c in w.ctl
    ensures LocalInv(w.ctl[c])
  {
  }

  lemma FiredSafe(w: Link, c: nat, h: int, n: nat)
    requires Inv(w) && c in w.ctl && n < |IsoScheduler.Get(w.ctl[c].iso.pending, h)|
    ensures AirInv(w.air + Carry(w, c, [w.ctl[c].iso.pending[h][n]]))
  {
    hide TxInv, RxInv, SchedInv, UidInv, SyncInv, PaInv, AirInv, Carry;
    assert LocalInv(w.ctl[c]);
    assert Matches(w.ctl[c], h, w.ctl[c].iso.pending[h][n]);
    CarrySafe(w, c, h, [w.ctl[c].iso.pending[h][n]]);
  }

  lemma FireKeepsLocal(c: Controller, h: int, n: nat)
    requires LocalInv(c) && IsoScheduler.CanFire(c.iso, h, n)
    ensures LocalInv(c.(iso := IsoScheduler.Deliver(c.iso, h, n)))
  {
    FireKeepsIso(c, h, n);
    var c' := c.(iso := IsoScheduler.Deliver(c.iso, h, n));
    hide IsoInv, SchedInv, IsoScheduler.Deliver;
    assert TxInv(c') by {
      hide RxInv;
    }
    RxFrame(c, c');
  }

  lemma CreateKeepsLink(w: Link, c: nat, b: int, p: BigParams, tries: seq<(nat, int)>)
    requires Inv(w) && c in w.ctl
    ensures Inv(CreateBig(w, c, b, p, tries))
  {
    hide Inv, TrySyncs, AddBig;
    if CreateBigStatus(w.ctl[c], b, p) == Success {
      AddBigKeepsLink(w, c, b, p);
      TrySyncsKeepLink(w.(ctl := w.ctl[c := AddBig(w.ctl[c], w.nextUid, b, p)], nextUid := w.nextUid + 1), tries);
    }
  }

  lemma StepKeepsInv(w: Link, s: Step)
    requires Inv(w) && Enabled(w, s)
    ensures Inv(Apply(w, s))
  {
    hide Inv, TrySyncs, TerminateBig, CreateBig, Local, FlushHandle;
    match s
    case Create(c, b, p, tries) => CreateKeepsLink(w, c, b, p, tries);
    case Terminate(c, b) => TerminateKeepsLink(w, c, b);
    case TryPending(_, tries) => TrySyncsKeepLink(w, tries);
    case TimerFires(c, h, n) => FireKeepsLink(w, c, h, n);
    case Disconnects(c, h) => FlushHandleKeepsLink(w, c, h);
    case _ => LocalStepKeepsLink(w, s);
  }

  lemma {:induction false} RunsKeepInv(w: Link, steps: seq<Step>)
    requires Initial(w) && IsRun(w, steps)
    ensures Inv(After(w, steps))
    decreases |steps|
  {
    if steps == [] {
      InitialInv(w);
    } else {
      hide Inv, Apply, Enabled;
      RunsKeepInv(w, steps[..|steps| - 1]);
      StepKeepsInv(After(w, steps[..|steps| - 1]), steps[|steps| - 1]);
    }
  }

  lemma InitialInv(w: Link)
    requires Initial(w)
    ensures Inv(w)
  {
    forall c | c in w.ctl
      ensures LocalInv(w.ctl[c])
    {
      var now :| w.ctl[c] == EmptyController(now);
      IsoScheduler.RunsKeepInv<BisSdu>(now, []);
      assert forall h :: IsoOrder.OrderInv(IsoScheduler.EmptySched<BisSdu>(now), h);
    }
  }

  // ---- Results over every run ----

  /** BIG / BIS table consistency, in every reachable state: `bis_tx` and `bis_rx` are exactly the inverses
      of the groups' handles, data paths are the group's own handles, every BIG has its own advertising
      set with periodic parameters, every established sync agrees with a live BIG of its source; so no
      table lookup by a handle fails. */
  lemma TablesConsistent(w: Link, steps: seq<Step>, c: nat, h: int)
    requires Initial(w) && IsRun(w, steps) && c in After(w, steps).ctl
    ensures var w' := After(w, steps);
            && TxInv(w'.ctl[c]) && RxInv(w'.ctl[c]) && SyncInv(w'.ctl, c)
            && LookupsSafe(w'.ctl[c], h)
            && (h in w'.ctl[c].bisTx ==> w'.ctl[c].bigs[w'.ctl[c].bisTx[h].0].params.interval > 0)
  {
    hide IsRun, After, TxBackward, RxForward, RxBackward, SyncInv, SchedInv;
    RunsKeepInv(w, steps);
    var c' := After(w, steps).ctl[c];
    assert LocalInv(c');
    LookupsNeverFail(c', h);
    if h in c'.bisTx {
      assert GoodBig(c', c'.bigs[c'.bisTx[h].0]);
    }
  }

  /** Delivery safety over whole runs: whatever was carried reached only handles synced to the very BIG
      the SDU was queued on, at its index and with a data path, with the BIG's Broadcast_Code if it is
      encrypted, however BIG and BIS handles were reused. */
  lemma DeliverySafety(w: Link, steps: seq<Step>)
    requires Initial(w) && IsRun(w, steps)
    ensures AirInv(After(w, steps).air)
    ensures UidInv(After(w, steps))
  {
    hide IsRun, After;
    RunsKeepInv(w, steps);
  }

  /** No SDU outlives its BIG: what waits on a handle in any reachable state belongs to the BIG the handle
      belongs to now. */
  lemma PendingBelongsToLiveBig(w: Link, steps: seq<Step>, c: nat, h: int, n: nat)
    requires Initial(w) && IsRun(w, steps) && c in After(w, steps).ctl
    requires var p := After(w, steps).ctl[c].iso.pending; h in p && n < |p[h]|
    ensures var c' := After(w, steps).ctl[c]; Matches(c', h, c'.iso.pending[h][n])
  {
    hide IsRun, After;
    RunsKeepInv(w, steps);
    assert LocalInv(After(w, steps).ctl[c]);
  }

  /** A BIG's SDU interval does not change, so every BIS keeps its order in every reachable state: what it
      carried and what waits is what was accepted, and the next timer is the oldest SDU's. */
  lemma BisKeepsOrder(w: Link, steps: seq<Step>, c: nat, h: int)
    requires Initial(w) && IsRun(w, steps) && c in After(w, steps).ctl
    ensures var iso := After(w, steps).ctl[c].iso;
            && IsoScheduler.Get(iso.accepted, h) ==
               IsoScheduler.Sdus(IsoScheduler.CarriedOf(h, iso.carried))
               + IsoScheduler.Sdus(IsoScheduler.Get(iso.pending, h))
            && forall k: nat :: IsoScheduler.CanFire(iso, h, k) ==> k == 0
  {
    hide IsRun, After, TxInv, RxInv, IsoInv, IsoScheduler.Inv, IsoScheduler.Sdus, IsoScheduler.CarriedOf;
    RunsKeepInv(w, steps);
    var iso := After(w, steps).ctl[c].iso;
    assert LocalInv(After(w, steps).ctl[c]);
    assert IsoOrder.OrderInv(iso, h);
    forall k: nat | IsoScheduler.CanFire(iso, h, k)
      ensures k == 0
    {
      IsoOrder.OldestFires(iso, h, k);
    }
  }

  lemma ReachedIsTarget(w: Link, c: nat, h: int, e: IsoScheduler.Entry<BisSdu>, r: nat, k: int)
    requires UidInv(w) && c in w.ctl && Matches(w.ctl[c], h, e)
    requires r in w.ctl && SyncInv(w.ctl, r) && k in w.ctl[r].bigSyncs
    requires var sync := w.ctl[r].bigSyncs[k];
             sync.established && sync.uid == e.sdu.uid
             && e.sdu.index in sync.bis && sync.bis[e.sdu.index] in sync.dataPaths
    ensures var sync := w.ctl[r].bigSyncs[k];
            Target(r, sync.bis[e.sdu.index], sync) in Targets(w.ctl, c, e.sdu)
  {
    var sync := w.ctl[r].bigSyncs[k];
    assert Agrees(w.ctl, r, sync);
    assert w.ctl[sync.source].bigs[sync.sourceBig].uid == w.ctl[c].bigs[e.sdu.bigHandle].uid;
    assert Receives(sync, c, e.sdu);
  }

  /** No handle is missed: in every reachable state, an SDU that is due reaches each handle of a sync to
      its very BIG, at its index, with a data path. With `DeliverySafety` this is if and only if. */
  lemma ExactDelivery(w: Link, steps: seq<Step>, c: nat, h: int, n: nat, r: nat, k: int)
    requires Initial(w) && IsRun(w, steps) && Enabled(After(w, steps), TimerFires(c, h, n))
    requires r in After(w, steps).ctl && k in After(w, steps).ctl[r].bigSyncs
    ensures var w' := After(w, steps);
            var sdu := w'.ctl[c].iso.pending[h][n].sdu;
            var sync := w'.ctl[r].bigSyncs[k];
            var reached := sync.established && sync.uid == sdu.uid
                           && sdu.index in sync.bis && sync.bis[sdu.index] in sync.dataPaths;
            reached ==> Target(r, sync.bis[sdu.index], sync) in Targets(w'.ctl, c, sdu)
  {
    hide IsRun, After, Targets, TxInv, RxInv, SchedInv, UidInv, AirInv, Matches;
    RunsKeepInv(w, steps);
    var w' := After(w, steps);
    assert LocalInv(w'.ctl[c]) && SyncInv(w'.ctl, r);
    var e := w'.ctl[c].iso.pending[h][n];
    assert Matches(w'.ctl[c], h, e);
    var sync := w'.ctl[r].bigSyncs[k];
    if sync.established && sync.uid == e.sdu.uid && e.sdu.index in sync.bis && sync.bis[e.sdu.index] in sync.dataPaths {
      ReachedIsTarget(w', c, h, e, r, k);
    }
  }
}
