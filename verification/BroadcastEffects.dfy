/** What each command of the emulated controllers does and when it is refused
    (tools/emu/le_audio/broadcast.py), told from the tables alone, in every state that keeps the link's
    invariant, and so in every reachable one. */
module BroadcastEffects {
  import opened Broadcast
  import opened BroadcastProofs
  import IsoScheduler

  // ---- Create BIG ----

  /** A BIG can be made: a new handle, an advertising set with periodic advertising that no BIG uses, 1 to 31
      BISes, an interval and an SDU size. */
  predicate CanCreate(c: Controller, b: int, p: BigParams) {
    && b !in c.bigs && p.adv in c.advSets && p.adv in c.periodic
    && 1 <= p.numBis <= 31 && p.interval > 0 && p.maxSdu > 0
    && forall b' :: b' in c.bigs ==> c.bigs[b'].params.adv != p.adv
  }

  lemma CreateStatusExactly(c: Controller, b: int, p: BigParams)
    ensures CreateBigStatus(c, b, p) == Success <==> CanCreate(c, b, p)
  {
  }

  /** The BIG's handles are new, and the table names its BISes by them in order. */
  predicate HasNewBig(c: Controller, c': Controller, b: int, p: BigParams) {
    && c'.bigs.Keys == c.bigs.Keys + {b}
    && (forall b' :: b' in c.bigs ==> c'.bigs[b'] == c.bigs[b'])
    && c'.bigs[b].params == p && |c'.bigs[b].bis| == p.numBis && c'.bigs[b].dataPaths == {}
    && forall i :: 0 <= i < p.numBis ==>
                     var h := c'.bigs[b].bis[i];
                     h !in c.bisTx && h in c'.bisTx && c'.bisTx[h] == (b, i + 1)
  }

  lemma AddBigIsNew(c: Controller, uid: nat, b: int, p: BigParams)
    requires b !in c.bigs && p.numBis >= 0
    ensures HasNewBig(c, AddBig(c, uid, b, p), b, p)
  {
    hide Allocate, Bind;
    var c' := AddBig(c, uid, b, p);
    forall i | 0 <= i < p.numBis
      ensures var h := c'.bigs[b].bis[i];
              h !in c.bisTx && h in c'.bisTx && c'.bisTx[h] == (b, i + 1)
    {
      NewHandle(c, uid, b, p, i);
      assert c'.bigs[b].bis[i] !in c.bisTx.Keys;
    }
  }

  lemma TrySyncKeepsBigs(w: Link, r: nat, k: int, c: nat)
    requires r in w.ctl && c in w.ctl
    ensures var w' := TrySync(w, r, k);
            c in w'.ctl && w'.ctl[c].bigs == w.ctl[c].bigs && w'.ctl[c].bisTx == w.ctl[c].bisTx
  {
    hide EstablishStatus, Allocate, Bind;
  }

  lemma {:induction false} TrySyncsKeepBigs(w: Link, tries: seq<(nat, int)>, c: nat)
    requires c in w.ctl
    ensures var w' := TrySyncs(w, tries);
            c in w'.ctl && w'.ctl[c].bigs == w.ctl[c].bigs && w'.ctl[c].bisTx == w.ctl[c].bisTx
    decreases |tries|
  {
    hide TrySync;
    if tries == [] {
    } else {
      var w1 := if tries[0].0 in w.ctl then TrySync(w, tries[0].0, tries[0].1) else w;
      if tries[0].0 in w.ctl {
        TrySyncKeepsBigs(w, tries[0].0, tries[0].1, c);
      }
      TrySyncsKeepBigs(w1, tries[1..], c);
    }
  }

  /** A BIG is made if and only if it can be; else nothing changes. */
  lemma CreateExactly(w: Link, c: nat, b: int, p: BigParams, tries: seq<(nat, int)>)
    requires c in w.ctl
    ensures var w' := Apply(w, Create(c, b, p, tries));
            && c in w'.ctl
            && (CanCreate(w.ctl[c], b, p) ==> HasNewBig(w.ctl[c], w'.ctl[c], b, p))
            && (!CanCreate(w.ctl[c], b, p) ==> w' == w)
  {
    hide CanCreate, CreateBigStatus, HasNewBig, AddBig, TrySyncs;
    CreateStatusExactly(w.ctl[c], b, p);
    if CanCreate(w.ctl[c], b, p) {
      CanCreateMeans(w.ctl[c], b, p);
      var c1 := AddBig(w.ctl[c], w.nextUid, b, p);
      AddBigIsNew(w.ctl[c], w.nextUid, b, p);
      TrySyncsKeepBigs(w.(ctl := w.ctl[c := c1], nextUid := w.nextUid + 1), tries, c);
      NewBigOf(w.ctl[c], c1, Apply(w, Create(c, b, p, tries)).ctl[c], b, p);
    }
  }

  lemma CanCreateMeans(c: Controller, b: int, p: BigParams)
    requires CanCreate(c, b, p)
    ensures b !in c.bigs && p.numBis >= 0
  {
  }

  lemma NewBigOf(c: Controller, c1: Controller, c2: Controller, b: int, p: BigParams)
    requires HasNewBig(c, c1, b, p) && c2.bigs == c1.bigs && c2.bisTx == c1.bisTx
    ensures HasNewBig(c, c2, b, p)
  {
  }

  // ---- BIG sync ----

  /** The sync fits the BIG: some BISes of it, each once, and its Broadcast_Code if it is encrypted. */
  predicate FitsBig(p: SyncParams, big: BigParams) {
    && p.indices != []
    && (forall i :: 0 <= i < |p.indices| ==> 1 <= p.indices[i] <= big.numBis)
    && (forall i, j :: 0 <= i < j < |p.indices| ==> p.indices[i] != p.indices[j])
    && (big.encrypted ==> p.encryption && p.code == big.code)
  }

  /** Sync k of c' is established to the BIG, with a new handle of its own for each index and no other. */
  ghost predicate SyncedNow(c: Controller, c': Controller, k: int, source: nat, b: int, uid: nat) {
    && k in c.bigSyncs && k in c'.bigSyncs
    && var p, sync := c.bigSyncs[k].params, c'.bigSyncs[k];
    && sync.params == p && sync.established && sync.source == source && sync.sourceBig == b && sync.uid == uid
    && (forall i :: i in sync.bis <==> i in p.indices)
    && (forall i :: i in sync.bis ==> sync.bis[i] !in c.bisRx)
    && (forall i :: i in sync.bis ==> sync.bis[i] in c'.bisRx && c'.bisRx[sync.bis[i]] == (k, i))
    && (forall h :: h in c.bisRx ==> h in c'.bisRx && c'.bisRx[h] == c.bisRx[h])
  }

  lemma StatusFits(p: SyncParams, big: Big)
    ensures EstablishStatus(p, big) == Success <==> FitsBig(p, big.params)
  {
  }

  lemma BoundKeys(c: Controller, k: int, i: int)
    requires k in c.bigSyncs && c.bigSyncs[k].bis == map[]
    ensures var idx := c.bigSyncs[k].params.indices;
            i in idx ==> i in Bind(c.bigSyncs[k].bis, idx, IsoHandles(c, k))
    ensures var idx := c.bigSyncs[k].params.indices;
            i !in idx ==> i !in Bind(c.bigSyncs[k].bis, idx, IsoHandles(c, k))
  {
    hide Allocate;
    var idx := c.bigSyncs[k].params.indices;
    BindKeys(c.bigSyncs[k].bis, idx, IsoHandles(c, k), i);
  }

  lemma {:induction false} BindKeys<V>(t: map<int, V>, keys: seq<int>, vals: seq<V>, x: int)
    requires |keys| == |vals|
    ensures x in Bind(t, keys, vals) <==> x in t || x in keys
    decreases |keys|
  {
    if keys == [] {
    } else {
      var n := |keys| - 1;
      BindKeys(t, keys[..n], vals[..n], x);
      assert keys == keys[..n] + [keys[n]];
    }
  }

  lemma EstablishedNow(c: Controller, k: int, source: nat, b: int, big: Big)
    requires k in c.bigSyncs && c.bigSyncs[k].bis == map[] && EstablishStatus(c.bigSyncs[k].params, big) == Success
    ensures SyncedNow(c, Establish(c, k, source, b, big), k, source, b, big.uid)
  {
    hide Allocate, Bind;
    var c' := Establish(c, k, source, b, big);
    var idx, hs := c.bigSyncs[k].params.indices, IsoHandles(c, k);
    forall i
      ensures i in c'.bigSyncs[k].bis <==> i in idx
    {
      BoundKeys(c, k, i);
    }
    forall i | i in c'.bigSyncs[k].bis
      ensures var h := c'.bigSyncs[k].bis[i]; h !in c.bisRx && h in c'.bisRx && c'.bisRx[h] == (k, i)
    {
      var n := SyncedAt(c, k, source, b, big, i);
      assert hs[n] !in c.bisRx.Keys;
    }
    forall h | h in c.bisRx
      ensures h in c'.bisRx && c'.bisRx[h] == c.bisRx[h]
    {
      assert h in c.bisRx.Keys;
      assert h !in hs;
      BindOther(c.bisRx, hs, Labelled(k, idx), h);
    }
  }

  /** A pending sync whose periodic sync names an advertising set with a BIG is tried: it ends established if
      and only if it fits the BIG, and is gone if it does not. */
  lemma TryExactly(w: Link, r: nat, k: int, b: int)
    requires Inv(w) && r in w.ctl && k in w.ctl[r].bigSyncs && !w.ctl[r].bigSyncs[k].established
    requires w.ctl[r].bigSyncs[k].params.syncHandle in w.ctl[r].paSyncs
    requires var pa := w.ctl[r].paSyncs[w.ctl[r].bigSyncs[k].params.syncHandle];
             pa.source in w.ctl && b in w.ctl[pa.source].bigs && w.ctl[pa.source].bigs[b].params.adv == pa.adv
    ensures var c, w' := w.ctl[r], TrySync(w, r, k);
            var source := c.paSyncs[c.bigSyncs[k].params.syncHandle].source;
            var big := w.ctl[source].bigs[b];
            && r in w'.ctl
            && (FitsBig(c.bigSyncs[k].params, big.params) ==> SyncedNow(c, w'.ctl[r], k, source, b, big.uid))
            && (!FitsBig(c.bigSyncs[k].params, big.params) ==>
                 k !in w'.ctl[r].bigSyncs && w'.ctl[r].bisRx == c.bisRx)
  {
    hide FitsBig, EstablishStatus, SyncedNow, Allocate, Bind, UidInv, AirInv, IsoInv, SchedInv;
    var c := w.ctl[r];
    var pa := c.paSyncs[c.bigSyncs[k].params.syncHandle];
    assert LocalInv(c) && LocalInv(w.ctl[pa.source]);
    assert GoodSync(c.bigSyncs[k]);
    assert HasBigOn(w.ctl[pa.source], pa.adv);
    OnlyBigOn(w.ctl[pa.source], pa.adv, b);
    var big := w.ctl[pa.source].bigs[b];
    StatusFits(c.bigSyncs[k].params, big);
    if EstablishStatus(c.bigSyncs[k].params, big) == Success {
      EstablishedNow(c, k, pa.source, b, big);
    }
  }

  lemma OnlyBigOn(c: Controller, adv: int, b: int)
    requires TxInv(c) && b in c.bigs && c.bigs[b].params.adv == adv
    ensures forall b' :: b' in c.bigs && c.bigs[b'].params.adv == adv ==> b' == b
  {
  }

  // ---- ISO data paths ----

  /** Whether LE Setup ISO Data Path can set the path of a handle: as a BIS sent (direction 0), or, if the
      controller sends none of that number, as one received (direction 1); and not twice. */
  predicate CanSetUp(c: Controller, h: int, direction: int)
    requires LookupsSafe(c, h)
  {
    if h in c.bisTx then direction == 0 && h !in c.bigs[c.bisTx[h].0].dataPaths
    else h in c.bisRx && direction == 1 && h !in c.bigSyncs[c.bisRx[h].0].dataPaths
  }

  /** A path is set if and only if it can be; it is the handle's own, and nothing else changes. */
  lemma SetupExactly(w: Link, c: nat, h: int, direction: int)
    requires Enabled(w, Setup(c, h, direction))
    ensures var c0, c' := w.ctl[c], Apply(w, Setup(c, h, direction)).ctl[c];
            if !CanSetUp(c0, h, direction) then c' == c0
            else if h in c0.bisTx then
              var b := c0.bisTx[h].0;
              c' == c0.(bigs := c0.bigs[b := c0.bigs[b].(dataPaths := c0.bigs[b].dataPaths + {h})])
            else
              var k := c0.bisRx[h].0;
              c' == c0.(bigSyncs := c0.bigSyncs[k := c0.bigSyncs[k].(dataPaths := c0.bigSyncs[k].dataPaths + {h})])
  {
  }

  /** A controller that sends a BIS of some handle number cannot set the path of a BIS it receives under the
      same number, which its allocator may give it: such a BIS is never received. */
  lemma DoubleRoleNeverReceives(w: Link, c: nat, h: int)
    requires Enabled(w, Setup(c, h, 1)) && h in w.ctl[c].bisTx
    ensures Apply(w, Setup(c, h, 1)).ctl[c] == w.ctl[c]
  {
    SetupExactly(w, c, h, 1);
  }

  /** The first BIS a controller receives gets the first handle number, whether or not it sends a BIS under it:
      each allocator looks at its own table. */
  lemma RolesShareHandles(c: Controller, k: int, source: nat, b: int, big: Big)
    requires k in c.bigSyncs && c.bigSyncs[k].bis == map[] && FitsBig(c.bigSyncs[k].params, big.params)
    requires c.bisRx == map[] && BIS_HANDLE_BASE in c.bisTx
    ensures var c', i := Establish(c, k, source, b, big), c.bigSyncs[k].params.indices[0];
            && k in c'.bigSyncs && i in c'.bigSyncs[k].bis
            && c'.bigSyncs[k].bis[i] == BIS_HANDLE_BASE && BIS_HANDLE_BASE in c'.bisTx
  {
    var idx := c.bigSyncs[k].params.indices;
    StatusFits(c.bigSyncs[k].params, big);
    FirstHandle(c.bisRx.Keys, |idx|);
    hide Allocate, Bind;
    BindAt(c.bigSyncs[k].bis, idx, IsoHandles(c, k), 0);
  }

  lemma FirstHandle(used: set<int>, n: nat)
    requires n > 0 && BIS_HANDLE_BASE !in used
    ensures Allocate(used, n)[0] == BIS_HANDLE_BASE
  {
  }

  // ---- Other commands ----

  /** A path removed is the handle's own, and nothing else changes. */
  lemma RemoveExactly(w: Link, c: nat, h: int)
    requires Enabled(w, Remove(c, h))
    ensures var c0, c' := w.ctl[c], Apply(w, Remove(c, h)).ctl[c];
            if h in c0.bisTx then
              var b := c0.bisTx[h].0;
              c'.bigs == c0.bigs[b := c0.bigs[b].(dataPaths := c0.bigs[b].dataPaths - {h})]
              && c' == c0.(bigs := c'.bigs)
            else if h in c0.bisRx then
              var k := c0.bisRx[h].0;
              c'.bigSyncs == c0.bigSyncs[k := c0.bigSyncs[k].(dataPaths := c0.bigSyncs[k].dataPaths - {h})]
              && c' == c0.(bigSyncs := c'.bigSyncs)
            else c' == c0
  {
  }

  /** BIG Create Sync makes a pending sync if and only if its handle is new and its periodic sync is there. */
  lemma CreateSyncExactly(w: Link, c: nat, k: int, p: SyncParams)
    requires Enabled(w, CreateSync(c, k, p)) && k !in w.ctl[c].bigSyncs
    ensures var c0, c' := w.ctl[c], Apply(w, CreateSync(c, k, p)).ctl[c];
            && (k in c'.bigSyncs <==> p.syncHandle in c0.paSyncs)
            && (k in c'.bigSyncs ==> c'.bigSyncs[k].params == p && !c'.bigSyncs[k].established)
            && (forall k' :: k' in c0.bigSyncs ==> k' in c'.bigSyncs && c'.bigSyncs[k'] == c0.bigSyncs[k'])
            && c'.bisRx == c0.bisRx
  {
  }

  /** BIG Terminate Sync ends the sync, with exactly its handles. */
  lemma TerminateSyncExactly(w: Link, c: nat, k: int)
    requires Inv(w) && Enabled(w, TerminateSync(c, k)) && k in w.ctl[c].bigSyncs
    ensures var c0, c' := w.ctl[c], Apply(w, TerminateSync(c, k)).ctl[c];
            && c'.bigSyncs == c0.bigSyncs - {k}
            && (forall h :: h in c'.bisRx <==> h in c0.bisRx && c0.bisRx[h].0 != k)
            && (forall h :: h in c'.bisRx ==> c'.bisRx[h] == c0.bisRx[h])
  {
    hide TxInv, IsoInv, SchedInv, UidInv, AirInv, SyncInv, PaInv;
    var c0 := w.ctl[c];
    assert LocalInv(c0);
    HandlesAre(c0, k);
  }

  /** The handles of a sync are those the table gives to it. */
  lemma HandlesAre(c: Controller, k: int)
    requires RxInv(c) && k in c.bigSyncs
    ensures forall h :: h in HandlesOf(c.bigSyncs[k]) <==> h in c.bisRx && c.bisRx[h].0 == k
  {
    forall h
      ensures h in HandlesOf(c.bigSyncs[k]) <==> h in c.bisRx && c.bisRx[h].0 == k
    {
      if h in HandlesOf(c.bigSyncs[k]) {
        var i :| i in c.bigSyncs[k].bis && c.bigSyncs[k].bis[i] == h;
        assert c.bisRx[h] == (k, i);
      }
      if h in c.bisRx && c.bisRx[h].0 == k {
        var (k', i) := c.bisRx[h];
        assert c.bigSyncs[k].bis[i] == h;
      }
    }
  }

  /** An advertising set and its periodic advertising can be removed if and only if no BIG uses it. */
  lemma RemoveSetExactly(w: Link, c: nat, adv: int)
    requires Enabled(w, RemoveSet(c, adv, true))
    ensures var c0, c' := w.ctl[c], Apply(w, RemoveSet(c, adv, true)).ctl[c];
            if exists b :: b in c0.bigs && c0.bigs[b].params.adv == adv then c' == c0
            else c'.advSets == c0.advSets - {adv} && c'.periodic == c0.periodic - {adv} && c'.bigs == c0.bigs
  {
  }

  // ---- Handles ----

  /** Each handle is the least number from 0x0100 on that is neither used nor one of those before it. */
  ghost predicate LeastFree(used: set<int>, hs: seq<int>) {
    forall i :: 0 <= i < |hs| ==>
                  && hs[i] >= 0x0100 && hs[i] !in used && hs[i] !in hs[..i]
                  && forall x :: 0x0100 <= x < hs[i] ==> x in used || x in hs[..i]
  }

  lemma {:induction false} AllocateLeast(used: set<int>, n: nat)
    ensures LeastFree(used, Allocate(used, n))
    decreases n
  {
    if n == 0 {
    } else {
      var hs := Allocate(used, n);
      var h := FreeHandleFrom(used, BIS_HANDLE_BASE);
      var rest := Allocate(used + {h}, n - 1);
      AllocateLeast(used + {h}, n - 1);
      hide Allocate;
      assert hs == [h] + rest;
      LeastOneMore(used, h, rest);
    }
  }

  lemma LeastOneMore(used: set<int>, h: int, rest: seq<int>)
    requires h >= 0x0100 && h !in used && (forall x :: 0x0100 <= x < h ==> x in used)
    requires LeastFree(used + {h}, rest)
    ensures LeastFree(used, [h] + rest)
  {
    var hs := [h] + rest;
    forall i | 0 < i < |hs|
      ensures && hs[i] >= 0x0100 && hs[i] !in used && hs[i] !in hs[..i]
              && forall x :: 0x0100 <= x < hs[i] ==> x in used || x in hs[..i]
    {
      assert hs[i] == rest[i - 1] && hs[..i] == [h] + rest[..i - 1];
      forall x | 0x0100 <= x < hs[i]
        ensures x in used || x in hs[..i]
      {
        assert x in used + {h} || x in rest[..i - 1];
      }
    }
  }

  /** A new BIG takes the least free numbers for its BISes, in order. */
  lemma BigHandlesAre(c: Controller, uid: nat, b: int, p: BigParams)
    requires p.numBis >= 0
    ensures LeastFree(c.bisTx.Keys, AddBig(c, uid, b, p).bigs[b].bis)
  {
    hide Allocate, Bind;
    AllocateLeast(c.bisTx.Keys, p.numBis);
  }

  /** A sync that is established takes the least free numbers for its BISes, in the order of its indices. */
  lemma SyncHandlesAre(c: Controller, k: int, source: nat, b: int, big: Big) returns (hs: seq<int>)
    requires k in c.bigSyncs && c.bigSyncs[k].bis == map[] && FitsBig(c.bigSyncs[k].params, big.params)
    ensures var idx, c' := c.bigSyncs[k].params.indices, Establish(c, k, source, b, big);
            && |hs| == |idx| && LeastFree(c.bisRx.Keys, hs) && k in c'.bigSyncs
            && forall n :: 0 <= n < |idx| ==> idx[n] in c'.bigSyncs[k].bis && c'.bigSyncs[k].bis[idx[n]] == hs[n]
  {
    hide Allocate, Bind, LeastFree;
    StatusFits(c.bigSyncs[k].params, big);
    hide EstablishStatus;
    hs := IsoHandles(c, k);
    AllocateLeast(c.bisRx.Keys, |hs|);
    var idx := c.bigSyncs[k].params.indices;
    forall n | 0 <= n < |idx|
      ensures var c' := Establish(c, k, source, b, big);
              idx[n] in c'.bigSyncs[k].bis && c'.bigSyncs[k].bis[idx[n]] == hs[n]
    {
      BindAt(c.bigSyncs[k].bis, idx, hs, n);
    }
  }

  // ---- Advertising sets and periodic syncs ----

  predicate Uses(c: Controller, adv: int) { exists b :: b in c.bigs && c.bigs[b].params.adv == adv }

  /** The step takes advertising set adv of controller c from its periodic advertising; none that a BIG uses. */
  ghost predicate Unsets(c: Controller, s: Step, adv: int) {
    (s.RemoveSet? && s.adv == adv && !Uses(c, adv)) || (s.ClearSets? && c.bigs == map[])
  }

  /** What step s of controller c0 itself makes of its advertising and its syncs to others' advertising. */
  ghost predicate Advertises(c0: Controller, c': Controller, s: Step, adv: int) {
    && (adv in c'.advSets <==>
        (s.SetAdvSet? && s.adv == adv)
        || (adv in c0.advSets && !(Unsets(c0, s, adv) && (s.RemoveSet? ==> s.removed))))
    && (adv in c'.periodic <==>
        (s.SetPeriodic? && s.adv == adv && adv in c0.advSets) || (adv in c0.periodic && !Unsets(c0, s, adv)))
    && (adv in c'.periodic ==>
          c'.periodic[adv] ==
          if s.EnablePeriodic? && s.adv == adv then s.on else adv in c0.periodic && c0.periodic[adv])
  }

  ghost predicate Follows(c0: Controller, c': Controller, s: Step, n: int) {
    && (n in c'.paSyncs <==>
        (s.PaEstablished? && n == c0.nextSync) || (n in c0.paSyncs && !(s.PaGone? && s.syncHandle == n)))
    && (n in c'.paSyncs ==>
          c'.paSyncs[n] == if s.PaEstablished? && n == c0.nextSync then PaSync(s.source, s.adv) else c0.paSyncs[n])
  }

  /** The advertising of a controller stands still. */
  predicate SameSets(c0: Controller, c': Controller) {
    c'.advSets == c0.advSets && c'.periodic == c0.periodic && c'.paSyncs == c0.paSyncs
  }

  lemma TrySyncKeepsSets(w: Link, r: nat, k: int, x: nat)
    requires r in w.ctl && x in w.ctl
    ensures x in TrySync(w, r, k).ctl && SameSets(w.ctl[x], TrySync(w, r, k).ctl[x])
  {
    hide EstablishStatus, Allocate, Bind;
  }

  lemma {:induction false} TrySyncsKeepSets(w: Link, tries: seq<(nat, int)>, x: nat)
    requires x in w.ctl
    ensures x in TrySyncs(w, tries).ctl && SameSets(w.ctl[x], TrySyncs(w, tries).ctl[x])
    decreases |tries|
  {
    hide TrySync;
    if tries == [] {
    } else if tries[0].0 in w.ctl {
      TrySyncKeepsSets(w, tries[0].0, tries[0].1, x);
      TrySyncsKeepSets(TrySync(w, tries[0].0, tries[0].1), tries[1..], x);
    } else {
      TrySyncsKeepSets(w, tries[1..], x);
    }
  }

  lemma CreateKeepsSets(w: Link, c: nat, b: int, p: BigParams, tries: seq<(nat, int)>, x: nat)
    requires c in w.ctl && x in w.ctl
    ensures x in CreateBig(w, c, b, p, tries).ctl && SameSets(w.ctl[x], CreateBig(w, c, b, p, tries).ctl[x])
  {
    hide TrySyncs, Allocate, Bind;
    if CreateBigStatus(w.ctl[c], b, p) == Success {
      TrySyncsKeepSets(w.(ctl := w.ctl[c := AddBig(w.ctl[c], w.nextUid, b, p)], nextUid := w.nextUid + 1), tries, x);
    }
  }

  lemma TerminateKeepsSets(w: Link, c: nat, b: int, x: nat)
    requires c in w.ctl && x in w.ctl
    ensures x in TerminateBig(w, c, b).ctl && SameSets(w.ctl[x], TerminateBig(w, c, b).ctl[x])
  {
    hide FlushHandles, AllHandles, SyncsTo;
    if b in w.ctl[c].bigs {
      FlushesShape(w, c, w.ctl[c].bigs[b].bis);
    }
  }

  lemma CarryingKeepsSets(w: Link, s: Step, x: nat)
    requires Enabled(w, s) && (s.TimerFires? || s.Disconnects?) && x in w.ctl
    ensures x in Apply(w, s).ctl && SameSets(w.ctl[x], Apply(w, s).ctl[x])
  {
    hide Carry, CreateBig, TerminateBig, TrySyncs, Local;
  }

  predicate IsLocal(s: Step) { !(s.Create? || s.Terminate? || s.TryPending? || s.TimerFires? || s.Disconnects?) }

  lemma OwnAdvertises(w: Link, s: Step, adv: int)
    requires Enabled(w, s) && IsLocal(s)
    ensures Advertises(w.ctl[s.c], Local(w, s), s, adv)
  {
    hide SetupPath, RemovePath, BigCreateSync, BigTerminateSync, TakeSdu;
    SameSetsOf(w, s);
  }

  lemma OwnFollows(w: Link, s: Step, n: int)
    requires Enabled(w, s) && IsLocal(s)
    ensures Follows(w.ctl[s.c], Local(w, s), s, n)
  {
    hide SetupPath, RemovePath, BigCreateSync, BigTerminateSync, TakeSdu, HasBigOn;
    SameSetsOf(w, s);
  }

  lemma SameSetsOf(w: Link, s: Step)
    requires Enabled(w, s)
    ensures s.Setup? ==> SameSets(w.ctl[s.c], SetupPath(w.ctl[s.c], s.h, s.direction))
    ensures s.Remove? ==> SameSets(w.ctl[s.c], RemovePath(w.ctl[s.c], s.h))
    ensures s.CreateSync? ==> SameSets(w.ctl[s.c], BigCreateSync(w.ctl[s.c], s.k, s.sp))
    ensures s.TerminateSync? ==> SameSets(w.ctl[s.c], BigTerminateSync(w.ctl[s.c], s.k))
    ensures s.IsoData? ==> SameSets(w.ctl[s.c], TakeSdu(w.ctl[s.c], s.h, s.excused, s.data))
  {
    hide HandlesOf, IsoScheduler.SlotFor, SduOf;
  }

  lemma OthersKeepSets(w: Link, s: Step, x: nat)
    requires Enabled(w, s) && x in w.ctl && (s.c != x || !IsLocal(s))
    ensures x in Apply(w, s).ctl && SameSets(w.ctl[x], Apply(w, s).ctl[x])
  {
    hide FlushHandle, TerminateBig, CreateBig, TrySyncs, Local, Carry, SameSets;
    SameAsItself(w.ctl[x]);
    match s
    case Create(c, b, p, tries) => CreateKeepsSets(w, c, b, p, tries, x);
    case Terminate(c, b) => TerminateKeepsSets(w, c, b, x);
    case TryPending(_, tries) => TrySyncsKeepSets(w, tries, x);
    case TimerFires(_, _, _) => CarryingKeepsSets(w, s, x);
    case Disconnects(_, _) => CarryingKeepsSets(w, s, x);
    case _ =>
  }

  lemma SameAsItself(c: Controller)
    ensures SameSets(c, c)
  {
  }

  /** Advertising sets, periodic advertising and syncs to it change exactly as the commands about them say:
      a set that a BIG uses stays, and no other command, timer or other controller touches them. */
  lemma AdvertisingExactly(w: Link, s: Step, x: nat, adv: int, n: int)
    requires Enabled(w, s) && x in w.ctl
    ensures x in Apply(w, s).ctl
    ensures s.c == x && IsLocal(s) ==>
              Advertises(w.ctl[x], Apply(w, s).ctl[x], s, adv) && Follows(w.ctl[x], Apply(w, s).ctl[x], s, n)
    ensures s.c != x || !IsLocal(s) ==> SameSets(w.ctl[x], Apply(w, s).ctl[x])
  {
    hide Local, Advertises, Follows, SameSets, CreateBig, TerminateBig, TrySyncs, FlushHandle, Carry;
    if s.c == x && IsLocal(s) {
      OwnAdvertises(w, s, adv);
      OwnFollows(w, s, n);
      LocalIs(w, s);
    } else {
      OthersKeepSets(w, s, x);
    }
  }

  lemma LocalIs(w: Link, s: Step)
    requires Enabled(w, s) && IsLocal(s)
    ensures Apply(w, s) == w.(ctl := w.ctl[s.c := Local(w, s)])
  {
    hide Local;
  }

  /** The sync is to BIG b of c. */
  predicate To(sync: BigSync, c: nat, b: int) { sync.established && sync.source == c && sync.sourceBig == b }

  lemma WithoutBigOwn(w: Link, c: nat, b: int)
    requires c in w.ctl && b in w.ctl[c].bigs && TxInv(w.ctl[c])
    ensures var c0, c' := w.ctl[c], WithoutBig(w, c, b).ctl[c];
            && c'.bigs == c0.bigs - {b}
            && (forall h :: h in c'.bisTx <==> h in c0.bisTx && h !in c0.bigs[b].bis)
            && (forall h :: h in c'.bisTx ==> c'.bisTx[h] == c0.bisTx[h])
  {
    hide TxForward, TxBackward;
    var bis := w.ctl[c].bigs[b].bis;
    forall h
      ensures h in (set i | 0 <= i < |bis| :: bis[i]) <==> h in bis
    {
      if h in bis {
        var i :| 0 <= i < |bis| && bis[i] == h;
      }
    }
  }

  lemma WithoutBigOther(w: Link, c: nat, b: int, r: nat)
    requires r in w.ctl && r != c
    ensures var c0, c' := w.ctl[r], WithoutBig(w, c, b).ctl[r];
            && c'.bigs == c0.bigs
            && (forall k :: k in c'.bigSyncs <==> k in c0.bigSyncs && !To(c0.bigSyncs[k], c, b))
            && (forall k :: k in c'.bigSyncs ==> c'.bigSyncs[k] == c0.bigSyncs[k])
  {
    hide AllHandles;
  }

  /** Terminate BIG: its record, its handles and the SDUs that wait on them go, and every sync to it, and
      nothing else of the tables. */
  lemma TerminateExactly(w: Link, c: nat, b: int)
    requires Inv(w) && c in w.ctl && b in w.ctl[c].bigs
    ensures var c0, w' := w.ctl[c], Apply(w, Terminate(c, b));
            && w'.ctl.Keys == w.ctl.Keys
            && w'.ctl[c].bigs == c0.bigs - {b}
            && (forall h :: h in w'.ctl[c].bisTx <==> h in c0.bisTx && h !in c0.bigs[b].bis)
            && (forall h :: h in c0.bigs[b].bis ==> h !in w'.ctl[c].iso.pending)
    ensures var w' := Apply(w, Terminate(c, b));
            forall r :: r in w.ctl && r != c ==>
                          && w'.ctl[r].bigs == w.ctl[r].bigs
                          && (forall k :: k in w'.ctl[r].bigSyncs <==>
                                            k in w.ctl[r].bigSyncs && !To(w.ctl[r].bigSyncs[k], c, b))
                          && forall k :: k in w'.ctl[r].bigSyncs ==> w'.ctl[r].bigSyncs[k] == w.ctl[r].bigSyncs[k]
  {
    hide FlushHandles, RxInv, IsoInv, SchedInv, UidInv, AirInv, SyncInv, PaInv, TxForward, TxBackward;
    assert LocalInv(w.ctl[c]);
    var hs := w.ctl[c].bigs[b].bis;
    var w1 := FlushHandles(w, c, hs);
    FlushesShape(w, c, hs);
    TxFrameIso(w.ctl[c], w1.ctl[c]);
    WithoutBigOwn(w1, c, b);
    forall r | r in w.ctl && r != c
      ensures w1.ctl[r] == w.ctl[r]
    {
    }
    KeepsPending(w1, c, b);
    hide WithoutBig, To;
    var w' := WithoutBig(w1, c, b);
    forall r | r in w.ctl && r != c
      ensures && w'.ctl[r].bigs == w.ctl[r].bigs
              && (forall k :: k in w'.ctl[r].bigSyncs <==>
                                k in w.ctl[r].bigSyncs && !To(w.ctl[r].bigSyncs[k], c, b))
              && forall k :: k in w'.ctl[r].bigSyncs ==> w'.ctl[r].bigSyncs[k] == w.ctl[r].bigSyncs[k]
    {
      WithoutBigOther(w1, c, b, r);
    }
  }

  lemma TxFrameIso(c: Controller, c': Controller)
    requires TxInv(c) && c' == c.(iso := c'.iso)
    ensures TxInv(c')
  {
    hide TxForward, TxBackward;
    assert forall b :: b in c.bigs ==> GoodBig(c, c.bigs[b]);
    TxFrame(c, c');
  }

  lemma KeepsPending(w: Link, c: nat, b: int)
    requires c in w.ctl
    ensures WithoutBig(w, c, b).ctl.Keys == w.ctl.Keys && WithoutBig(w, c, b).ctl[c].iso == w.ctl[c].iso
  {
  }

  // ---- From a sync to the data ----

  lemma RunOne(w: Link, steps: seq<Step>, s: Step)
    requires IsRun(w, steps) && Enabled(After(w, steps), s)
    ensures IsRun(w, steps + [s]) && After(w, steps + [s]) == Apply(After(w, steps), s)
  {
    hide Enabled, Apply;
    assert (steps + [s])[..|steps|] == steps;
  }

  /** An SDU taken on a BIS on which nothing waits. */
  lemma TakeEffect(c: Controller, h: int, data: seq<bv8>)
    requires LookupsSafe(c, h) && h in c.bisTx && c.bigs[c.bisTx[h].0].params.interval > 0
    requires IsoScheduler.Get(c.iso.pending, h) == []
    ensures var c' := TakeSdu(c, h, 0, data);
            && c' == c.(iso := c'.iso) && h in c'.iso.pending && |c'.iso.pending[h]| == 1
            && c'.iso.pending[h][0].sdu == SduOf(c, h, data) && c'.iso.now == c.iso.now
  {
    hide IsoScheduler.SlotFor;
  }

  /** Sync k of r is established to BIG b of `source`, with handle h for its BIS i, which is handle hs there. */
  predicate Synced(w: Link, r: nat, k: int, i: int, h: int, source: nat, b: int, hs: int) {
    && r in w.ctl && k in w.ctl[r].bigSyncs && source in w.ctl && source != r
    && var sync := w.ctl[r].bigSyncs[k];
    && sync.established && sync.source == source && sync.sourceBig == b && i in sync.bis && sync.bis[i] == h
    && b in w.ctl[source].bigs && 1 <= i <= |w.ctl[source].bigs[b].bis| && w.ctl[source].bigs[b].bis[i - 1] == hs
  }

  lemma SyncedMeans(w: Link, r: nat, k: int, i: int)
    requires Inv(w) && r in w.ctl && k in w.ctl[r].bigSyncs && w.ctl[r].bigSyncs[k].established
    requires i in w.ctl[r].bigSyncs[k].bis
    ensures var sync := w.ctl[r].bigSyncs[k];
            && sync.source in w.ctl && sync.sourceBig in w.ctl[sync.source].bigs
            && 1 <= i <= |w.ctl[sync.source].bigs[sync.sourceBig].bis|
            && Synced(w, r, k, i, sync.bis[i], sync.source, sync.sourceBig,
                      w.ctl[sync.source].bigs[sync.sourceBig].bis[i - 1])
  {
    hide TxForward, TxBackward, RxInv, UidInv, AirInv, SchedInv, IsoInv;
    var sync := w.ctl[r].bigSyncs[k];
    assert SyncInv(w.ctl, r);
    assert Agrees(w.ctl, r, sync) && LocalInv(w.ctl[sync.source]);
    assert GoodBig(w.ctl[sync.source], w.ctl[sync.source].bigs[sync.sourceBig]);
  }

  lemma SetupReceives(w: Link, r: nat, k: int, i: int, h: int, source: nat, b: int, hs: int)
    requires Inv(w) && Synced(w, r, k, i, h, source, b, hs)
    requires h !in w.ctl[r].bisTx && h !in w.ctl[r].bigSyncs[k].dataPaths
    ensures Enabled(w, Setup(r, h, 1))
    ensures var w' := Apply(w, Setup(r, h, 1));
            && Synced(w', r, k, i, h, source, b, hs) && h in w'.ctl[r].bigSyncs[k].dataPaths
            && w'.ctl[source] == w.ctl[source] && w'.air == w.air
  {
    hide TxInv, RxForward, UidInv, AirInv, SchedInv, IsoInv, SyncInv, PaInv;
    var c := w.ctl[r];
    assert LocalInv(c);
    LookupsNeverFail(c, h);
    assert c.bisRx[c.bigSyncs[k].bis[i]] == (k, i);
    SetupExactly(w, r, h, 1);
  }

  lemma DataTaken(w: Link, r: nat, k: int, i: int, h: int, source: nat, b: int, hs: int, data: seq<bv8>)
    requires Inv(w) && Synced(w, r, k, i, h, source, b, hs) && h in w.ctl[r].bigSyncs[k].dataPaths
    requires IsoScheduler.Get(w.ctl[source].iso.pending, hs) == []
    ensures Enabled(w, IsoData(source, hs, 0, data))
    ensures var w' := Apply(w, IsoData(source, hs, 0, data));
            && source in w'.ctl && hs in w'.ctl[source].iso.pending && |w'.ctl[source].iso.pending[hs]| == 1
            && var sdu := w'.ctl[source].iso.pending[hs][0].sdu;
            && sdu.bigHandle == b && sdu.index == i && sdu.data == data
            && Synced(w', r, k, i, h, source, b, hs) && h in w'.ctl[r].bigSyncs[k].dataPaths && w'.air == w.air
  {
    hide TxForward, RxInv, UidInv, AirInv, SchedInv, IsoInv, SyncInv, PaInv, TakeSdu;
    var c := w.ctl[source];
    assert LocalInv(c);
    assert c.bisTx[c.bigs[b].bis[i - 1]] == (b, i);
    assert GoodBig(c, c.bigs[b]);
    SafeOf(c, hs);
    TakeEffect(c, hs, data);
  }

  lemma SafeOf(c: Controller, h: int)
    requires LocalInv(c)
    ensures LookupsSafe(c, h)
  {
    LookupsNeverFail(c, h);
  }

  lemma TimerReaches(w: Link, r: nat, k: int, i: int, h: int, source: nat, b: int, hs: int)
    requires Synced(w, r, k, i, h, source, b, hs) && h in w.ctl[r].bigSyncs[k].dataPaths
    requires IsoScheduler.CanFire(w.ctl[source].iso, hs, 0)
    requires var sdu := w.ctl[source].iso.pending[hs][0].sdu; sdu.bigHandle == b && sdu.index == i
    ensures Enabled(w, TimerFires(source, hs, 0))
    ensures var w', sdu := Apply(w, TimerFires(source, hs, 0)), w.ctl[source].iso.pending[hs][0].sdu;
            && w'.air == w.air + [Delivery(source, sdu, Targets(w.ctl, source, sdu))]
            && Target(r, h, w.ctl[r].bigSyncs[k]) in Targets(w.ctl, source, sdu)
  {
    hide IsoScheduler.Deliver;
    var e := w.ctl[source].iso.pending[hs][0];
    assert Receives(w.ctl[r].bigSyncs[k], source, e.sdu);
  }

  /** A received handle whose controller sends no BIS of that number gets its path by one Setup, and then the
      next SDU its broadcaster takes on that BIS reaches it. */
  lemma NextSduReaches(w0: Link, steps: seq<Step>, r: nat, k: int, i: int, h: int, source: nat, b: int, hs: int,
                       data: seq<bv8>)
      returns (all: seq<Step>, us: nat)
    requires Initial(w0) && IsRun(w0, steps) && Synced(After(w0, steps), r, k, i, h, source, b, hs)
    requires var w := After(w0, steps);
             && h !in w.ctl[r].bisTx && h !in w.ctl[r].bigSyncs[k].dataPaths
             && IsoScheduler.Get(w.ctl[source].iso.pending, hs) == []
    ensures all == steps + [Setup(r, h, 1)] + [IsoData(source, hs, 0, data)] + [Waits(source, us)]
                   + [TimerFires(source, hs, 0)]
    ensures var w := After(w0, steps);
            && IsRun(w0, all) && |After(w0, all).air| == |w.air| + 1
            && var d := After(w0, all).air[|w.air|];
            && d.source == source && d.sdu.data == data
            && exists t :: t in d.targets && t.receiver == r && t.handle == h
  {
    hide IsRun, After, Inv, Synced, Targets, Initial, IsoScheduler.CanFire;
    var w := After(w0, steps);
    RunsKeepInv(w0, steps);
    SetupReceives(w, r, k, i, h, source, b, hs);
    var t1 := steps + [Setup(r, h, 1)];
    RunOne(w0, steps, Setup(r, h, 1));
    RunsKeepInv(w0, t1);
    var w1 := After(w0, t1);
    DataTaken(w1, r, k, i, h, source, b, hs, data);
    var t2 := t1 + [IsoData(source, hs, 0, data)];
    RunOne(w0, t1, IsoData(source, hs, 0, data));
    var w2 := After(w0, t2);
    us := IsoScheduler.Max(0, w2.ctl[source].iso.pending[hs][0].Due() - w2.ctl[source].iso.now);
    WaitReaches(w2, r, k, i, h, source, b, hs, us);
    var t3 := t2 + [Waits(source, us)];
    RunOne(w0, t2, Waits(source, us));
    var w3 := After(w0, t3);
    TimerReaches(w3, r, k, i, h, source, b, hs);
    all := t3 + [TimerFires(source, hs, 0)];
    RunOne(w0, t3, TimerFires(source, hs, 0));
    var sdu := w3.ctl[source].iso.pending[hs][0].sdu;
    assert After(w0, all).air[|w.air|] == Delivery(source, sdu, Targets(w3.ctl, source, sdu));
  }

  lemma WaitReaches(w: Link, r: nat, k: int, i: int, h: int, source: nat, b: int, hs: int, us: nat)
    requires Synced(w, r, k, i, h, source, b, hs) && h in w.ctl[r].bigSyncs[k].dataPaths
    requires hs in w.ctl[source].iso.pending && |w.ctl[source].iso.pending[hs]| == 1
    requires w.ctl[source].iso.pending[hs][0].Due() <= w.ctl[source].iso.now + us
    ensures Enabled(w, Waits(source, us))
    ensures var w' := Apply(w, Waits(source, us));
            && Synced(w', r, k, i, h, source, b, hs) && h in w'.ctl[r].bigSyncs[k].dataPaths && w'.air == w.air
            && w'.ctl[source].iso.pending == w.ctl[source].iso.pending
            && IsoScheduler.CanFire(w'.ctl[source].iso, hs, 0)
  {
  }
}
