/** Auracast in the emulated controllers (tools/emu/le_audio/broadcast.py): several controllers on one
    link, each a broadcaster (BIGs and their BISes), a synchronized receiver (BIG syncs), or both. The
    handlers are functions on one controller's tables and on the link. */
module Broadcast {
  import opened IsoScheduler

  const BIS_HANDLE_BASE := 0x0100

  type Code = seq<bv8>

  /** LE Create BIG: the parameters the emulation uses. */
  datatype BigParams = BigParams(
    adv: int, numBis: int, interval: nat, maxSdu: nat, latencyMs: nat, encrypted: bool, code: Code)

  /** `uid` is history: it tells apart BIGs that use the same handle one after the other. */
  datatype Big = Big(uid: nat, params: BigParams, bis: seq<int>, dataPaths: set<int>)

  datatype PaSync = PaSync(source: nat, adv: int)

  /** LE BIG Create Sync. */
  datatype SyncParams = SyncParams(syncHandle: int, indices: seq<int>, encryption: bool, code: Code)

  /** `uid` is history: the uid of the BIG the sync was established to. */
  datatype BigSync = BigSync(
    params: SyncParams, established: bool, source: nat, sourceBig: int, uid: nat,
    bis: map<int, int>, dataPaths: set<int>)

  /** An SDU as it is queued: what names its BIS, and (history) the BIG it was queued on. */
  datatype BisSdu = BisSdu(bigHandle: int, index: int, uid: nat, encrypted: bool, code: Code, data: seq<bv8>)

  datatype Controller = Controller(
    advSets: set<int>,
    periodic: map<int, bool>,          // advertising handle -> enabled
    bigs: map<int, Big>,
    bisTx: map<int, (int, int)>,       // BIS handle -> (BIG handle, BIS index)
    paSyncs: map<int, PaSync>,
    nextSync: int,
    bigSyncs: map<int, BigSync>,
    bisRx: map<int, (int, int)>,       // BIS handle -> (BIG handle of the sync, BIS index)
    iso: Sched<BisSdu>)

  datatype Target = Target(receiver: nat, handle: int, sync: BigSync)

  /** An SDU that was carried, and the handles it reached. */
  datatype Delivery = Delivery(source: nat, sdu: BisSdu, targets: set<Target>)

  datatype Link = Link(ctl: map<nat, Controller>, nextUid: nat, air: seq<Delivery>)

  datatype Status = Success | CommandDisallowed | InvalidParameters | UnknownIdentifier | EncryptionMode | MicFailure

  // ---- Handles ----

  /** The first free handle, as the allocator's loop finds it. */
  function FreeHandleFrom(used: set<int>, h: int): (r: int)
    ensures r >= h && r !in used
    ensures forall x :: h <= x < r ==> x in used
    decreases |used|
  {
    if h !in used then h
    else
      var r := FreeHandleFrom(used - {h}, h + 1);
      assert forall x :: h <= x < r ==> x in used by {
        forall x | h <= x < r
          ensures x in used
        {
          assert x > h ==> x in used - {h};
        }
      }
      r
  }

  /** n free handles, each new one taken before the next is looked for. */
  function Allocate(used: set<int>, n: nat): (hs: seq<int>)
    ensures |hs| == n
    ensures forall i :: 0 <= i < n ==> hs[i] !in used && hs[i] >= BIS_HANDLE_BASE
    ensures forall i, j :: 0 <= i < j < n ==> hs[i] != hs[j]
    decreases n
  {
    if n == 0 then []
    else
      var h := FreeHandleFrom(used, BIS_HANDLE_BASE);
      [h] + Allocate(used + {h}, n - 1)
  }

  // ---- Broadcaster ----

  predicate HasBigOn(c: Controller, adv: int) {
    exists b :: b in c.bigs && c.bigs[b].params.adv == adv
  }

  function CreateBigStatus(c: Controller, b: int, p: BigParams): Status {
    if b in c.bigs then CommandDisallowed
    else if p.adv !in c.advSets || p.adv !in c.periodic then UnknownIdentifier
    else if !(1 <= p.numBis <= 31) || p.interval == 0 || p.maxSdu == 0 then InvalidParameters
    else if HasBigOn(c, p.adv) then CommandDisallowed
    else Success
  }

  /** The table with the keys bound to the values, one after the other. */
  function Bind<V>(t: map<int, V>, keys: seq<int>, vals: seq<V>): map<int, V>
    requires |keys| == |vals|
  {
    if keys == [] then t
    else
      var n := |keys| - 1;
      Bind(t, keys[..n], vals[..n])[keys[n] := vals[n]]
  }

  /** (g, 1), (g, 2), ... */
  function Numbered(g: int, n: nat): seq<(int, int)> { seq(n, i requires 0 <= i < n => (g, i + 1)) }

  /** (k, indices[0]), (k, indices[1]), ... */
  function Labelled(k: int, indices: seq<int>): seq<(int, int)> {
    seq(|indices|, i requires 0 <= i < |indices| => (k, indices[i]))
  }

  function AddBig(c: Controller, uid: nat, b: int, p: BigParams): Controller
    requires p.numBis >= 0
  {
    var hs := Allocate(c.bisTx.Keys, p.numBis);
    c.(bigs := c.bigs[b := Big(uid, p, hs, {})], bisTx := Bind(c.bisTx, hs, Numbered(b, |hs|)))
  }

  /** Terminate BIG: its handles and its record go, after its SDUs were flushed. */
  function RemoveBig(c: Controller, b: int): Controller
    requires b in c.bigs
  {
    c.(bisTx := c.bisTx - (set i | 0 <= i < |c.bigs[b].bis| :: c.bigs[b].bis[i]), bigs := c.bigs - {b})
  }

  function RemoveAdvSet(c: Controller, adv: int, removed: bool): Controller {
    if HasBigOn(c, adv) then c
    else c.(advSets := if removed then c.advSets - {adv} else c.advSets, periodic := c.periodic - {adv})
  }

  function ClearAdvSets(c: Controller): Controller {
    if c.bigs != map[] then c else c.(advSets := {}, periodic := map[])
  }

  // ---- Receiver ----

  function EstablishStatus(p: SyncParams, big: Big): Status {
    if |p.indices| == 0
       || (exists i :: 0 <= i < |p.indices| && !(1 <= p.indices[i] <= big.params.numBis))
       || (exists i, j :: 0 <= i < j < |p.indices| && p.indices[i] == p.indices[j])
    then InvalidParameters
    else if big.params.encrypted && !p.encryption then EncryptionMode
    else if big.params.encrypted && p.code != big.params.code then MicFailure
    else Success
  }

  function Establish(c: Controller, k: int, source: nat, sourceBig: int, big: Big): Controller
    requires k in c.bigSyncs
  {
    var sync := c.bigSyncs[k];
    var idx := sync.params.indices;
    if EstablishStatus(sync.params, big) != Success then c.(bigSyncs := c.bigSyncs - {k})
    else
      var hs := Allocate(c.bisRx.Keys, |idx|);
      c.(bigSyncs := c.bigSyncs[k := sync.(
                      established := true, source := source, sourceBig := sourceBig, uid := big.uid,
                      bis := Bind(sync.bis, idx, hs))],
         bisRx := Bind(c.bisRx, hs, Labelled(k, idx)))
  }

  predicate SyncedTo(sync: BigSync, source: nat, b: int) {
    sync.established && sync.source == source && sync.sourceBig == b
  }

  predicate HasHandle(sync: BigSync, h: int) { exists i :: i in sync.bis && sync.bis[i] == h }

  function HandlesOf(sync: BigSync): set<int> { set i | i in sync.bis :: sync.bis[i] }

  /** The syncs to one BIG of a source. */
  function SyncsTo(c: Controller, source: nat, b: int): set<int> {
    set k | k in c.bigSyncs && SyncedTo(c.bigSyncs[k], source, b)
  }

  function AllHandles(syncs: map<int, BigSync>, ks: set<int>): set<int> {
    set k, h | k in ks && k in syncs && h in HandlesOf(syncs[k]) :: h
  }

  /** The syncs to one BIG of a source are dropped, with their handles. */
  function DropSyncsTo(c: Controller, source: nat, b: int): Controller {
    c.(bisRx := c.bisRx - AllHandles(c.bigSyncs, SyncsTo(c, source, b)),
       bigSyncs := c.bigSyncs - SyncsTo(c, source, b))
  }

  function DropSync(c: Controller, k: int): Controller
    requires k in c.bigSyncs
  {
    c.(bisRx := c.bisRx - HandlesOf(c.bigSyncs[k]), bigSyncs := c.bigSyncs - {k})
  }

  // ---- ISO data paths, both roles ----

  /** The first two lookups name the group of a handle; they must not fail. */
  predicate LookupsSafe(c: Controller, h: int) {
    (h in c.bisTx ==> c.bisTx[h].0 in c.bigs) && (h in c.bisRx ==> c.bisRx[h].0 in c.bigSyncs)
  }

  function SetupPath(c: Controller, h: int, direction: int): Controller
    requires LookupsSafe(c, h)
  {
    if h in c.bisTx then
      var b := c.bisTx[h].0;
      if direction != 0 || h in c.bigs[b].dataPaths then c
      else c.(bigs := c.bigs[b := c.bigs[b].(dataPaths := c.bigs[b].dataPaths + {h})])
    else if h in c.bisRx then
      var k := c.bisRx[h].0;
      if direction != 1 || h in c.bigSyncs[k].dataPaths then c
      else c.(bigSyncs := c.bigSyncs[k := c.bigSyncs[k].(dataPaths := c.bigSyncs[k].dataPaths + {h})])
    else c
  }

  function RemovePath(c: Controller, h: int): Controller
    requires LookupsSafe(c, h)
  {
    if h in c.bisTx then
      var b := c.bisTx[h].0;
      c.(bigs := c.bigs[b := c.bigs[b].(dataPaths := c.bigs[b].dataPaths - {h})])
    else if h in c.bisRx then
      var k := c.bisRx[h].0;
      c.(bigSyncs := c.bigSyncs[k := c.bigSyncs[k].(dataPaths := c.bigSyncs[k].dataPaths - {h})])
    else c
  }

  // ---- ISO data ----

  function SduOf(c: Controller, h: int, data: seq<bv8>): BisSdu
    requires h in c.bisTx && LookupsSafe(c, h)
  {
    var (b, i) := c.bisTx[h];
    BisSdu(b, i, c.bigs[b].uid, c.bigs[b].params.encrypted, c.bigs[b].params.code, data)
  }

  /** An SDU on a BIS of this controller waits for its interval, data path or not; on a handle that is no BIS
      of it (and no CIS, which this link does not have) it is only completed. */
  function TakeSdu(c: Controller, h: int, excused: nat, data: seq<bv8>): Controller
    requires LookupsSafe(c, h) && (h in c.bisTx ==> c.bigs[c.bisTx[h].0].params.interval > 0)
  {
    if h !in c.bisTx then c.(iso := Refuse(c.iso, h))
    else
      var p := c.bigs[c.bisTx[h].0].params;
      c.(iso := Accept(c.iso, h, p.interval, p.latencyMs, excused, SduOf(c, h, data)))
  }

  /** Handles that take an SDU of `source`'s BIG now: synced to that BIG handle, data path set. */
  predicate Receives(sync: BigSync, source: nat, sdu: BisSdu) {
    && SyncedTo(sync, source, sdu.bigHandle)
    && sdu.index in sync.bis
    && sync.bis[sdu.index] in sync.dataPaths
  }

  ghost function Targets(ctl: map<nat, Controller>, source: nat, sdu: BisSdu): set<Target> {
    set r, k | r in ctl && r != source && k in ctl[r].bigSyncs && Receives(ctl[r].bigSyncs[k], source, sdu)
      :: Target(r, ctl[r].bigSyncs[k].bis[sdu.index], ctl[r].bigSyncs[k])
  }

  // ---- The link ----

  ghost function Carry(w: Link, c: nat, entries: seq<Entry<BisSdu>>): seq<Delivery> {
    seq(|entries|, i requires 0 <= i < |entries| => Delivery(c, entries[i].sdu, Targets(w.ctl, c, entries[i].sdu)))
  }

  ghost function FlushHandle(w: Link, c: nat, h: int): Link
    requires c in w.ctl
  {
    w.(air := w.air + Carry(w, c, Get(w.ctl[c].iso.pending, h)),
       ctl := w.ctl[c := w.ctl[c].(iso := Flush(w.ctl[c].iso, h))])
  }

  ghost function FlushHandles(w: Link, c: nat, hs: seq<int>): Link
    requires c in w.ctl
    decreases |hs|
  {
    if hs == [] then w else FlushHandles(FlushHandle(w, c, hs[0]), c, hs[1..])
  }

  /** One pending BIG sync of receiver r is tried: it waits, fails or is established. */
  ghost function TrySync(w: Link, r: nat, k: int): Link
    requires r in w.ctl
  {
    var c := w.ctl[r];
    if k !in c.bigSyncs || c.bigSyncs[k].established || c.bigSyncs[k].params.syncHandle !in c.paSyncs then w
    else
      var pa := c.paSyncs[c.bigSyncs[k].params.syncHandle];
      if pa.source !in w.ctl || !HasBigOn(w.ctl[pa.source], pa.adv) then w
      else
        var b :| b in w.ctl[pa.source].bigs && w.ctl[pa.source].bigs[b].params.adv == pa.adv;
        w.(ctl := w.ctl[r := Establish(c, k, pa.source, b, w.ctl[pa.source].bigs[b])])
  }

  /** The receivers' pending syncs, in the order their tables list them. */
  ghost function TrySyncs(w: Link, tries: seq<(nat, int)>): Link
    decreases |tries|
  {
    if tries == [] then w
    else TrySyncs(if tries[0].0 in w.ctl then TrySync(w, tries[0].0, tries[0].1) else w, tries[1..])
  }

  ghost function CreateBig(w: Link, c: nat, b: int, p: BigParams, tries: seq<(nat, int)>): Link
    requires c in w.ctl
  {
    if CreateBigStatus(w.ctl[c], b, p) != Success then w
    else TrySyncs(w.(ctl := w.ctl[c := AddBig(w.ctl[c], w.nextUid, b, p)], nextUid := w.nextUid + 1), tries)
  }

  /** The link after BIG b of controller c is gone: its record, its handles, and every sync to it. */
  function WithoutBig(w: Link, c: nat, b: int): Link {
    w.(ctl := map r | r in w.ctl ::
         if r == c then (if b in w.ctl[r].bigs then RemoveBig(w.ctl[r], b) else w.ctl[r])
         else DropSyncsTo(w.ctl[r], c, b))
  }

  ghost function TerminateBig(w: Link, c: nat, b: int): Link
    requires c in w.ctl
  {
    if b !in w.ctl[c].bigs then w else WithoutBig(FlushHandles(w, c, w.ctl[c].bigs[b].bis), c, b)
  }

  function BigCreateSync(c: Controller, k: int, p: SyncParams): Controller {
    if k in c.bigSyncs || p.syncHandle !in c.paSyncs then c
    else c.(bigSyncs := c.bigSyncs[k := BigSync(p, false, 0, 0, 0, map[], {})])
  }

  function BigTerminateSync(c: Controller, k: int): Controller {
    if k !in c.bigSyncs then c else DropSync(c, k)
  }

  datatype Step =
    | SetAdvSet(c: nat, adv: int)
    | RemoveSet(c: nat, adv: int, removed: bool)
    | ClearSets(c: nat)
    | SetPeriodic(c: nat, adv: int)
    | EnablePeriodic(c: nat, adv: int, on: bool)
    | Create(c: nat, b: int, p: BigParams, tries: seq<(nat, int)>)
    | Terminate(c: nat, b: int)
    | PaEstablished(c: nat, source: nat, adv: int)
    | PaGone(c: nat, syncHandle: int)
    | CreateSync(c: nat, k: int, sp: SyncParams)
    | TryPending(c: nat, tries: seq<(nat, int)>)
    | TerminateSync(c: nat, k: int)
    | Setup(c: nat, h: int, direction: int)
    | Remove(c: nat, h: int)
    | IsoData(c: nat, h: int, excused: nat, data: seq<bv8>)
    | TimerFires(c: nat, h: int, n: nat)
    | Disconnects(c: nat, h: int)
    | Waits(c: nat, us: nat)

  /** The guards: what the environment can do, and the table lookups that must not fail. */
  predicate Enabled(w: Link, s: Step) {
    && s.c in w.ctl
    && var c := w.ctl[s.c];
       match s
       case PaEstablished(_, source, adv) =>
         // a receiver never finds its own sets (_find_set looks at the other controllers)
         source in w.ctl && source != s.c && adv in w.ctl[source].periodic && w.ctl[source].periodic[adv]
       case Setup(_, h, _) => LookupsSafe(c, h)
       case Remove(_, h) => LookupsSafe(c, h)
       case IsoData(_, h, _, _) =>
         LookupsSafe(c, h) && (h in c.bisTx ==> c.bigs[c.bisTx[h].0].params.interval > 0)
       case TimerFires(_, h, n) => CanFire(c.iso, h, n)
       case _ => true
  }

  ghost function Local(w: Link, s: Step): Controller
    requires Enabled(w, s)
  {
    var c := w.ctl[s.c];
    match s
    case SetAdvSet(_, adv) => c.(advSets := c.advSets + {adv})
    case RemoveSet(_, adv, removed) => RemoveAdvSet(c, adv, removed)
    case ClearSets(_) => ClearAdvSets(c)
    case SetPeriodic(_, adv) =>
      if adv !in c.advSets || adv in c.periodic then c else c.(periodic := c.periodic[adv := false])
    case EnablePeriodic(_, adv, on) => if adv in c.periodic then c.(periodic := c.periodic[adv := on]) else c
    case PaEstablished(_, source, adv) =>
      c.(paSyncs := c.paSyncs[c.nextSync := PaSync(source, adv)], nextSync := c.nextSync + 1)
    case PaGone(_, syncHandle) => c.(paSyncs := c.paSyncs - {syncHandle})
    case CreateSync(_, k, sp) => BigCreateSync(c, k, sp)
    case TerminateSync(_, k) => BigTerminateSync(c, k)
    case Setup(_, h, direction) => SetupPath(c, h, direction)
    case Remove(_, h) => RemovePath(c, h)
    case IsoData(_, h, excused, data) => TakeSdu(c, h, excused, data)
    case Waits(_, us) => c.(iso := c.iso.(now := c.iso.now + us))
    case _ => c
  }

  ghost function Apply(w: Link, s: Step): Link
    requires Enabled(w, s)
  {
    match s
    case Create(c, b, p, tries) => CreateBig(w, c, b, p, tries)
    case Terminate(c, b) => TerminateBig(w, c, b)
    case TryPending(_, tries) => TrySyncs(w, tries)
    case TimerFires(c, h, n) =>
      w.(air := w.air + Carry(w, c, [w.ctl[c].iso.pending[h][n]]),
         ctl := w.ctl[c := w.ctl[c].(iso := Deliver(w.ctl[c].iso, h, n))])
    case Disconnects(c, h) => FlushHandle(w, c, h)
    case _ => w.(ctl := w.ctl[s.c := Local(w, s)])
  }

  function EmptyController(now: int): Controller {
    Controller({}, map[], map[], map[], map[], 1, map[], map[], EmptySched(now))
  }

  ghost predicate Initial(w: Link) {
    w.air == [] && forall c :: c in w.ctl ==> exists now :: w.ctl[c] == EmptyController(now)
  }

  ghost predicate IsRun(w: Link, steps: seq<Step>)
    decreases |steps|, 0
  {
    steps == [] || (IsRun(w, steps[..|steps| - 1]) && Enabled(After(w, steps[..|steps| - 1]), steps[|steps| - 1]))
  }

  ghost function After(w: Link, steps: seq<Step>): Link
    requires IsRun(w, steps)
    decreases |steps|, 1
  {
    if steps == [] then w else Apply(After(w, steps[..|steps| - 1]), steps[|steps| - 1])
  }
}
