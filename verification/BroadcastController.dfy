/** One controller's tables updated in place by its handlers (tools/emu/le_audio/broadcast.py,
    `BroadcastController`). Each method's contract is the function of module Broadcast that the runs of
    the link are made of. */
module BroadcastController {
  import opened Broadcast
  import IsoScheduler

  /** The allocator's loop finds the least free handle from the base. */
  method FreeIsoHandle(used: set<int>) returns (h: int)
    ensures h == FreeHandleFrom(used, BIS_HANDLE_BASE)
  {
    h := BIS_HANDLE_BASE;
    ghost var first := FreeHandleFrom(used, BIS_HANDLE_BASE);
    while h in used
      invariant BIS_HANDLE_BASE <= h <= first
      decreases first - h
    {
      h := h + 1;
    }
  }

  method AllocateHandles(taken: set<int>, n: nat) returns (hs: seq<int>)
    ensures hs == Allocate(taken, n)
  {
    hs := [];
    var used := taken;
    var i := 0;
    while i < n
      invariant 0 <= i <= n
      invariant hs + Allocate(used, n - i) == Allocate(taken, n)
    {
      var h := FreeIsoHandle(used);
      assert hs + ([h] + Allocate(used + {h}, n - i - 1)) == hs + [h] + Allocate(used + {h}, n - i - 1);
      used := used + {h};
      hs := hs + [h];
      i := i + 1;
    }
  }

  lemma BindGrows<V>(t: map<int, V>, keys: seq<int>, vals: seq<V>, i: nat)
    requires |keys| == |vals| && i < |keys|
    ensures Bind(t, keys[..i + 1], vals[..i + 1]) == Bind(t, keys[..i], vals[..i])[keys[i] := vals[i]]
  {
    assert keys[..i + 1][..i] == keys[..i] && vals[..i + 1][..i] == vals[..i];
  }

  lemma AllHandlesAdd(syncs: map<int, BigSync>, ks: set<int>, k: int)
    requires k in syncs
    ensures AllHandles(syncs, ks + {k}) == AllHandles(syncs, ks) + HandlesOf(syncs[k])
  {
    hide HandlesOf;
    forall h | h in AllHandles(syncs, ks + {k})
      ensures h in AllHandles(syncs, ks) + HandlesOf(syncs[k])
    {
      var k' :| k' in ks + {k} && k' in syncs && h in HandlesOf(syncs[k']);
      assert k' != k ==> k' in ks;
    }
    forall h | h in HandlesOf(syncs[k])
      ensures h in AllHandles(syncs, ks + {k})
    {
      assert k in ks + {k};
    }
    forall h | h in AllHandles(syncs, ks)
      ensures h in AllHandles(syncs, ks + {k})
    {
      var k' :| k' in ks && k' in syncs && h in HandlesOf(syncs[k']);
      assert k' in ks + {k};
    }
  }

  lemma HandleIn(sync: BigSync, i: int)
    requires i in sync.bis
    ensures sync.bis[i] in HandlesOf(sync)
  {
  }

  class Tables {
    var advSets: set<int>
    var periodic: map<int, bool>
    var bigs: map<int, Big>
    var bisTx: map<int, (int, int)>
    var paSyncs: map<int, PaSync>
    var nextSync: int
    var bigSyncs: map<int, BigSync>
    var bisRx: map<int, (int, int)>
    var iso: IsoScheduler.Sched<BisSdu>

    function View(): Controller
      reads this
    {
      Controller(advSets, periodic, bigs, bisTx, paSyncs, nextSync, bigSyncs, bisRx, iso)
    }

    method CreateBig(uid: nat, b: int, p: BigParams) returns (status: Status)
      modifies this
      ensures status == CreateBigStatus(old(View()), b, p)
      ensures View() == if status == Success then AddBig(old(View()), uid, b, p) else old(View())
    {
      if b in bigs {
        return CommandDisallowed;
      }
      if p.adv !in advSets || p.adv !in periodic {
        return UnknownIdentifier;
      }
      if !(1 <= p.numBis <= 31) || p.interval == 0 || p.maxSdu == 0 {
        return InvalidParameters;
      }
      if HasBigOn(View(), p.adv) {
        return CommandDisallowed;
      }
      AddBigRecord(uid, b, p);
      return Success;
    }

    method AddBigRecord(uid: nat, b: int, p: BigParams)
      requires p.numBis >= 0
      modifies this
      ensures View() == AddBig(old(View()), uid, b, p)
    {
      hide Allocate, Bind;
      var hs := AllocateHandles(bisTx.Keys, p.numBis);
      bigs := bigs[b := Big(uid, p, hs, {})];
      EnterHandles(b, hs);
    }

    method EnterHandles(b: int, hs: seq<int>)
      modifies this
      ensures View() == old(View()).(bisTx := Bind(old(bisTx), hs, Numbered(b, |hs|)))
    {
      var i := 0;
      ghost var vals := Numbered(b, |hs|);
      while i < |hs|
        invariant 0 <= i <= |hs|
        invariant View() == old(View()).(bisTx := bisTx)
        invariant bisTx == Bind(old(bisTx), hs[..i], vals[..i])
      {
        BindGrows(old(bisTx), hs, vals, i);
        bisTx := bisTx[hs[i] := (b, i + 1)];
        i := i + 1;
      }
      assert hs[..i] == hs && vals[..i] == vals;
    }

    /** A pending BIG sync meets its BIG: refused, or established with a new handle per BIS. */
    method EstablishBigSync(k: int, source: nat, sourceBig: int, big: Big) returns (status: Status)
      requires k in bigSyncs
      modifies this
      ensures status == EstablishStatus(old(bigSyncs)[k].params, big)
      ensures View() == Establish(old(View()), k, source, sourceBig, big)
    {
      hide Allocate;
      var sync := bigSyncs[k];
      var idx := sync.params.indices;
      status := EstablishStatus(sync.params, big);
      if status != Success {
        bigSyncs := bigSyncs - {k};
        return;
      }
      var hs := AllocateHandles(bisRx.Keys, |idx|);
      var bis := sync.bis;
      var i := 0;
      ghost var vals := Labelled(k, idx);
      while i < |idx|
        invariant 0 <= i <= |idx|
        invariant View() == old(View()).(bisRx := bisRx)
        invariant bis == Bind(sync.bis, idx[..i], hs[..i])
        invariant bisRx == Bind(old(bisRx), hs[..i], vals[..i])
      {
        BindGrows(sync.bis, idx, hs, i);
        BindGrows(old(bisRx), hs, vals, i);
        bis := bis[idx[i] := hs[i]];
        bisRx := bisRx[hs[i] := (k, idx[i])];
        i := i + 1;
      }
      assert idx[..i] == idx && hs[..i] == hs && vals[..i] == vals;
      bigSyncs := bigSyncs[k := sync.(established := true, source := source, sourceBig := sourceBig,
                                      uid := big.uid, bis := bis)];
    }

    /** The tables' part of LE Terminate BIG, after its SDUs were flushed. */
    method RemoveBigRecord(b: int)
      requires b in bigs
      modifies this
      ensures View() == RemoveBig(old(View()), b)
    {
      var hs := bigs[b].bis;
      var i := 0;
      while i < |hs|
        invariant 0 <= i <= |hs|
        invariant View() == old(View()).(bisTx := bisTx)
        invariant bisTx == old(bisTx) - set j | 0 <= j < i :: hs[j]
      {
        bisTx := bisTx - {hs[i]};
        i := i + 1;
      }
      bigs := bigs - {b};
    }

    method RemoveAdvertisingSet(adv: int, removed: bool) returns (status: Status)
      modifies this
      ensures status == if HasBigOn(old(View()), adv) then CommandDisallowed else Success
      ensures View() == RemoveAdvSet(old(View()), adv, removed)
    {
      if HasBigOn(View(), adv) {
        return CommandDisallowed;
      }
      if removed {
        advSets := advSets - {adv};
      }
      periodic := periodic - {adv};
      return Success;
    }

    method SetupIsoDataPath(h: int, direction: int) returns (status: Status)
      requires LookupsSafe(View(), h)
      modifies this
      ensures View() == SetupPath(old(View()), h, direction)
      ensures h in bisTx || h in bisRx ==> (status == Success <==> View() != old(View()))
    {
      if h in bisTx {
        var b := bisTx[h].0;
        if direction != 0 || h in bigs[b].dataPaths {
          return CommandDisallowed;
        }
        bigs := bigs[b := bigs[b].(dataPaths := bigs[b].dataPaths + {h})];
        return Success;
      }
      if h in bisRx {
        var k := bisRx[h].0;
        if direction != 1 || h in bigSyncs[k].dataPaths {
          return CommandDisallowed;
        }
        bigSyncs := bigSyncs[k := bigSyncs[k].(dataPaths := bigSyncs[k].dataPaths + {h})];
        return Success;
      }
      return UnknownIdentifier;
    }

    method RemoveIsoDataPath(h: int) returns (status: Status)
      requires LookupsSafe(View(), h)
      modifies this
      ensures View() == RemovePath(old(View()), h)
      ensures h in bisTx || h in bisRx ==> (status == Success <==> View() != old(View()))
    {
      if h in bisTx {
        var b := bisTx[h].0;
        if h !in bigs[b].dataPaths {
          assert bigs[b].dataPaths - {h} == bigs[b].dataPaths;
          assert bigs == bigs[b := bigs[b]];
          return CommandDisallowed;
        }
        bigs := bigs[b := bigs[b].(dataPaths := bigs[b].dataPaths - {h})];
        return Success;
      }
      if h in bisRx {
        var k := bisRx[h].0;
        if h !in bigSyncs[k].dataPaths {
          assert bigSyncs[k].dataPaths - {h} == bigSyncs[k].dataPaths;
          assert bigSyncs == bigSyncs[k := bigSyncs[k]];
          return CommandDisallowed;
        }
        bigSyncs := bigSyncs[k := bigSyncs[k].(dataPaths := bigSyncs[k].dataPaths - {h})];
        return Success;
      }
      return UnknownIdentifier;
    }

    /** The handles of a sync leave the table in the order of its BIS indices. */
    method DropBigSync(k: int)
      requires k in bigSyncs && forall i :: i in bigSyncs[k].bis ==> i in bigSyncs[k].params.indices
      modifies this
      ensures View() == DropSync(old(View()), k)
    {
      var sync := bigSyncs[k];
      var idx := sync.params.indices;
      var n := 0;
      ghost var gone: set<int> := {};
      while n < |idx|
        invariant 0 <= n <= |idx|
        invariant View() == old(View()).(bisRx := bisRx)
        invariant gone <= HandlesOf(sync) && bisRx == old(bisRx) - gone
        invariant forall j :: 0 <= j < n && idx[j] in sync.bis ==> sync.bis[idx[j]] in gone
      {
        if idx[n] in sync.bis {
          HandleIn(sync, idx[n]);
          bisRx := bisRx - {sync.bis[idx[n]]};
          gone := gone + {sync.bis[idx[n]]};
        }
        n := n + 1;
      }
      forall h | h in HandlesOf(sync)
        ensures h in gone
      {
        var i :| i in sync.bis && sync.bis[i] == h;
        var j :| 0 <= j < |idx| && idx[j] == i;
      }
      assert gone == HandlesOf(sync);
      bigSyncs := bigSyncs - {k};
    }

    /** A BIG of `source` ended: the syncs to it are dropped, in the order the table lists them. */
    method SourceBigTerminated(source: nat, b: int, order: seq<int>)
      requires forall k :: k in bigSyncs ==> k in order
      requires forall k, i :: k in bigSyncs && i in bigSyncs[k].bis ==> i in bigSyncs[k].params.indices
      modifies this
      ensures View() == DropSyncsTo(old(View()), source, b)
    {
      ghost var all := SyncsTo(View(), source, b);
      ghost var done: set<int> := {};
      var n := 0;
      while n < |order|
        invariant 0 <= n <= |order|
        invariant done <= all && forall j :: 0 <= j < n && order[j] in all ==> order[j] in done
        invariant View() == old(View()).(bisRx := bisRx, bigSyncs := bigSyncs)
        invariant bigSyncs == old(bigSyncs) - done
        invariant bisRx == old(bisRx) - AllHandles(old(bigSyncs), done)
      {
        var k := order[n];
        if k in bigSyncs && SyncedTo(bigSyncs[k], source, b) {
          AllHandlesAdd(old(bigSyncs), done, k);
          DropBigSync(k);
          done := done + {k};
        }
        n := n + 1;
      }
      forall k | k in all
        ensures k in done
      {
        assert k in order;
      }
      assert done == all;
    }

    method BisReceiving(source: nat, sdu: BisSdu, order: seq<int>) returns (hs: set<int>)
      requires forall k :: k in bigSyncs <==> k in order
      ensures hs == set k | k in bigSyncs && Receives(bigSyncs[k], source, sdu) :: bigSyncs[k].bis[sdu.index]
    {
      hs := {};
      var n := 0;
      while n < |order|
        invariant 0 <= n <= |order|
        invariant hs == set k | k in bigSyncs && k in order[..n] && Receives(bigSyncs[k], source, sdu)
                          :: bigSyncs[k].bis[sdu.index]
      {
        assert order[..n + 1] == order[..n] + [order[n]];
        var k := order[n];
        assert k in order;
        if Receives(bigSyncs[k], source, sdu) {
          hs := hs + {bigSyncs[k].bis[sdu.index]};
        }
        n := n + 1;
      }
      assert order[..n] == order;
    }

    method OnHciIsoData(h: int, excused: nat, data: seq<bv8>)
      requires LookupsSafe(View(), h) && (h in bisTx ==> bigs[bisTx[h].0].params.interval > 0)
      modifies this
      ensures View() == TakeSdu(old(View()), h, excused, data)
    {
      if h !in bisTx {
        iso := IsoScheduler.Refuse(iso, h);
        return;
      }
      var (b, i) := bisTx[h];
      var p := bigs[b].params;
      iso := IsoScheduler.Accept(iso, h, p.interval, p.latencyMs, excused,
                                 BisSdu(b, i, bigs[b].uid, p.encrypted, p.code, data));
    }
  }
}
