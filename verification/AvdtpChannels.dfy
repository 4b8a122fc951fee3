/** A link's AVDTP channels, read from the L2CAP signalling of a capture alone
    (tools/a2dp_decode/a2dp_decode.cpp, `on_l2cap_signaling`), and so which frames are media packets. */
module AvdtpChannels {
  import opened Bytes
  import opened Avdtp
  import opened AvdtpProofs

  // ---- The signalling of a capture ----

  /** An L2CAP signalling command on a link, or the link's end. */
  datatype Signalled =
    | Sig(handle: nat, dir: Dir, code: byte, id: byte, data: seq<byte>)
    | Down(handle: nat)

  /** The commands of one signalling frame. */
  function Commands(h: nat, dir: Dir, p: seq<byte>, off: nat): seq<Signalled>
    decreases |p| - off
  {
    if off + 4 > |p| then []
    else
      var len: nat := Le16(p, off + 2);
      if off + 4 + len > |p| then []
      else [Sig(h, dir, p[off], p[off + 1], p[off + 4..off + 4 + len])] + Commands(h, dir, p, off + 4 + len)
  }

  function SignalledBy(input: Input): seq<Signalled> {
    match input
    case L2capFrame(h, dir, cid, p) => if cid == 1 then Commands(h, dir, p, 0) else []
    case Disconnected(h) => [Down(h)]
  }

  function Signalling(inputs: seq<Input>): seq<Signalled> {
    if inputs == [] then [] else Signalling(inputs[..|inputs| - 1]) + SignalledBy(inputs[|inputs| - 1])
  }

  // ---- The reference ----

  predicate IsRequest(e: Signalled, key: Key) {
    e.Sig? && e.code == 2 && |e.data| >= 4 && key == Key(e.handle, e.dir, e.id)
  }

  /** A final answer: not "pending". */
  predicate IsAnswer(e: Signalled, key: Key) {
    e.Sig? && e.code == 3 && |e.data| >= 8 && key == Key(e.handle, Opposite(e.dir), e.id) && Le16(e.data, 4) != 1
  }

  /** The connection request at j was neither repeated under its key nor answered. */
  ghost predicate Waiting(sigs: seq<Signalled>, j: int, key: Key) {
    && 0 <= j < |sigs| && IsRequest(sigs[j], key)
    && forall k :: j < k < |sigs| ==> !IsRequest(sigs[k], key) && !IsAnswer(sigs[k], key)
  }

  function PsmOf(e: Signalled): u16 { if e.Sig? && |e.data| >= 2 then Le16(e.data, 0) else 0 }

  ghost predicate WaitsFor(sigs: seq<Signalled>, j: int, key: Key, psm: u16) {
    Waiting(sigs, j, key) && PsmOf(sigs[j]) == psm
  }

  /** The answer at i is a success to an AVDTP connection request. */
  ghost predicate Opens(sigs: seq<Signalled>, i: int) {
    && 0 <= i < |sigs| && sigs[i].Sig?
    && var key := Key(sigs[i].handle, Opposite(sigs[i].dir), sigs[i].id);
    && IsAnswer(sigs[i], key) && Le16(sigs[i].data, 4) == 0
    && exists j :: WaitsFor(sigs[..i], j, key, 0x0019)
  }

  /** The channel an answer names, as the capturing host sees it. */
  function ChannelAt(e: Signalled): Channel
    requires e.Sig? && |e.data| >= 8
  {
    if e.dir.In? then Channel(Le16(e.data, 2), Le16(e.data, 0)) else Channel(Le16(e.data, 0), Le16(e.data, 2))
  }

  /** A disconnection request of a link, and the local CID it names. */
  predicate IsDisconnection(e: Signalled) { e.Sig? && e.code == 6 && |e.data| >= 4 }

  function LocalOf(e: Signalled): u16
    requires IsDisconnection(e)
  {
    if e.dir.Out? then Le16(e.data, 2) else Le16(e.data, 0)
  }

  /** What can end a channel of this local CID. */
  predicate Closes(e: Signalled, h: nat, local: u16) {
    e.handle == h && (e.Down? || (IsDisconnection(e) && LocalOf(e) == local))
  }

  /** A channel, and where in the signalling it was opened. */
  datatype Opened = Opened(at: nat, channel: Channel)

  /** The list without its first channel of that local CID. */
  function Without(os: seq<Opened>, local: u16): seq<Opened> {
    if os == [] then []
    else if os[0].channel.local == local then os[1..]
    else [os[0]] + Without(os[1..], local)
  }

  /** The channels of a link that are open, in the order they were opened. */
  ghost function OpenNow(sigs: seq<Signalled>, h: nat): seq<Opened> {
    if sigs == [] then []
    else
      var n := |sigs| - 1;
      var before, e := OpenNow(sigs[..n], h), sigs[n];
      if e.handle != h then before
      else if e.Down? then []
      else if Opens(sigs, n) then before + [Opened(n, ChannelAt(e))]
      else if IsDisconnection(e) then Without(before, LocalOf(e))
      else before
  }

  function ChannelList(os: seq<Opened>): seq<Channel> {
    seq(|os|, i requires 0 <= i < |os| => os[i].channel)
  }

  // ---- The analyser's tables follow the signalling alone ----

  function SigStep(a: Analysis, e: Signalled): (a': Analysis)
    requires WellFormed(a.tracker)
    ensures WellFormed(a'.tracker)
  {
    match e
    case Sig(h, dir, code, id, d) => Signal(a, h, dir, code, id, d)
    case Down(h) => OnDisconnect(a, h)
  }

  function SigAll(a: Analysis, sigs: seq<Signalled>): (a': Analysis)
    requires WellFormed(a.tracker)
    ensures WellFormed(a'.tracker)
  {
    if sigs == [] then a else SigStep(SigAll(a, sigs[..|sigs| - 1]), sigs[|sigs| - 1])
  }

  lemma {:induction false} SigAllAppend(a: Analysis, xs: seq<Signalled>, ys: seq<Signalled>)
    requires WellFormed(a.tracker)
    ensures SigAll(a, xs + ys) == SigAll(SigAll(a, xs), ys)
    decreases |ys|
  {
    hide SigStep;
    if ys == [] {
      assert xs + ys == xs;
    } else {
      assert (xs + ys)[..|xs + ys| - 1] == xs + ys[..|ys| - 1];
      SigAllAppend(a, xs, ys[..|ys| - 1]);
    }
  }

  lemma SigAllOne(a: Analysis, e: Signalled)
    requires WellFormed(a.tracker)
    ensures SigAll(a, [e]) == SigStep(a, e)
  {
    hide SigStep;
    var one := [e];
    assert one[..0] == [];
  }

  lemma {:induction false} SignalsAreCommands(a: Analysis, h: nat, dir: Dir, p: seq<byte>, off: nat)
    requires WellFormed(a.tracker)
    ensures Signals(a, h, dir, p, off) == SigAll(a, Commands(h, dir, p, off))
    decreases |p| - off
  {
    hide Signal, Le16, SigAll;
    NothingSignalled(a);
    if off + 4 <= |p| {
      var len: nat := Le16(p, off + 2);
      if off + 4 + len <= |p| {
        var e := Sig(h, dir, p[off], p[off + 1], p[off + 4..off + 4 + len]);
        SigAllOne(a, e);
        SigAllAppend(a, [e], Commands(h, dir, p, off + 4 + len));
        SignalsAreCommands(SigStep(a, e), h, dir, p, off + 4 + len);
      }
    }
  }

  lemma NothingSignalled(a: Analysis)
    requires WellFormed(a.tracker)
    ensures SigAll(a, []) == a
  {
  }

  predicate SameTables(a: Analysis, b: Analysis) { a.channels == b.channels && a.conns == b.conns }

  lemma SigStepSame(a: Analysis, b: Analysis, e: Signalled)
    requires WellFormed(a.tracker) && WellFormed(b.tracker) && SameTables(a, b)
    ensures SameTables(SigStep(a, e), SigStep(b, e))
  {
    hide Apply, Le16;
  }

  lemma {:induction false} SigAllSame(a: Analysis, b: Analysis, sigs: seq<Signalled>)
    requires WellFormed(a.tracker) && WellFormed(b.tracker) && SameTables(a, b)
    ensures SameTables(SigAll(a, sigs), SigAll(b, sigs))
  {
    hide SigStep, SameTables;
    if sigs == [] {
    } else {
      var n := |sigs| - 1;
      SigAllSame(a, b, sigs[..n]);
      SigStepSame(SigAll(a, sigs[..n]), SigAll(b, sigs[..n]), sigs[n]);
    }
  }

  lemma InputSame(a: Analysis, mediaDir: Dir, input: Input)
    requires WellFormed(a.tracker)
    ensures SameTables(Step(a, mediaDir, input), SigAll(a, SignalledBy(input)))
  {
    hide Apply, Signals, Commands, SigAll, Capabilities;
    NothingSignalled(a);
    match input
    case L2capFrame(h, dir, cid, p) => SignalsAreCommands(a, h, dir, p, 0);
    case Disconnected(h) => SigAllOne(a, Down(h));
  }

  lemma {:induction false} TablesFromSignalling(mediaDir: Dir, inputs: seq<Input>)
    ensures SameTables(After(mediaDir, inputs), SigAll(START, Signalling(inputs)))
  {
    hide Step, SigAll, SignalledBy;
    if inputs == [] {
      NothingSignalled(START);
    } else {
      var front, input := inputs[..|inputs| - 1], inputs[|inputs| - 1];
      TablesFromSignalling(mediaDir, front);
      var a, b := After(mediaDir, front), SigAll(START, Signalling(front));
      InputSame(a, mediaDir, input);
      SigAllSame(a, b, SignalledBy(input));
      SigAllAppend(START, Signalling(front), SignalledBy(input));
    }
  }

  // ---- Requests that wait ----

  ghost predicate ConnsSound(sigs: seq<Signalled>, conns: map<Key, u16>) {
    forall key :: key in conns ==> exists j :: WaitsFor(sigs, j, key, conns[key])
  }

  ghost predicate ConnsComplete(sigs: seq<Signalled>, conns: map<Key, u16>) {
    forall key, j, psm :: WaitsFor(sigs, j, key, psm) ==> key in conns && conns[key] == psm
  }

  lemma WaitsGrows(sigs: seq<Signalled>, e: Signalled, j: int, key: Key, psm: u16)
    ensures WaitsFor(sigs + [e], j, key, psm) <==>
            (j == |sigs| && IsRequest(e, key) && PsmOf(e) == psm)
            || (WaitsFor(sigs, j, key, psm) && !IsRequest(e, key) && !IsAnswer(e, key))
  {
    hide IsRequest, IsAnswer, PsmOf;
    var sigs' := sigs + [e];
    assert sigs'[|sigs|] == e && forall k :: 0 <= k < |sigs| ==> sigs'[k] == sigs[k];
  }

  /** What one signalling event does to the requests. */
  lemma ConnsStep(a: Analysis, e: Signalled, key: Key)
    requires WellFormed(a.tracker)
    ensures var conns := SigStep(a, e).conns;
            if IsRequest(e, key) then key in conns && conns[key] == PsmOf(e)
            else if IsAnswer(e, key) then key !in conns
            else (key in conns <==> key in a.conns) && (key in conns ==> conns[key] == a.conns[key])
  {
    hide Apply, Le16;
  }

  lemma ConnsKept(sigs: seq<Signalled>, a: Analysis, e: Signalled)
    requires WellFormed(a.tracker) && ConnsSound(sigs, a.conns) && ConnsComplete(sigs, a.conns)
    ensures var conns := SigStep(a, e).conns; ConnsSound(sigs + [e], conns) && ConnsComplete(sigs + [e], conns)
  {
    hide SigStep, WaitsFor, IsRequest, IsAnswer, PsmOf;
    var sigs', conns := sigs + [e], SigStep(a, e).conns;
    forall key | key in conns
      ensures exists j :: WaitsFor(sigs', j, key, conns[key])
    {
      ConnsStep(a, e, key);
      if IsRequest(e, key) {
        WaitsGrows(sigs, e, |sigs|, key, conns[key]);
      } else {
        var j :| WaitsFor(sigs, j, key, a.conns[key]);
        WaitsGrows(sigs, e, j, key, conns[key]);
      }
    }
    forall key, j, psm | WaitsFor(sigs', j, key, psm)
      ensures key in conns && conns[key] == psm
    {
      ConnsStep(a, e, key);
      WaitsGrows(sigs, e, j, key, psm);
    }
  }

  // ---- Channels ----

  /** The analyser's own test of an answer, before it is applied. */
  predicate OpensNow(conns: map<Key, u16>, e: Signalled) {
    e.Sig?
    && var key := Key(e.handle, Opposite(e.dir), e.id);
    IsAnswer(e, key) && Le16(e.data, 4) == 0 && key in conns && conns[key] == PSM_AVDTP
  }

  lemma OpensNowExactly(sigs: seq<Signalled>, conns: map<Key, u16>, e: Signalled)
    requires ConnsSound(sigs, conns) && ConnsComplete(sigs, conns)
    ensures OpensNow(conns, e) <==> Opens(sigs + [e], |sigs|)
  {
    hide WaitsFor, IsAnswer, Le16;
    var sigs' := sigs + [e];
    assert sigs'[..|sigs|] == sigs && sigs'[|sigs|] == e;
    if e.Sig? {
      var key := Key(e.handle, Opposite(e.dir), e.id);
      if OpensNow(conns, e) {
        var j :| WaitsFor(sigs, j, key, conns[key]);
      }
    }
  }

  /** The list without its member i, if it has one. */
  function CutAt(cs: seq<Channel>, i: nat): seq<Channel> { if i < |cs| then cs[..i] + cs[i + 1..] else cs }

  lemma CutCons(c: Channel, rest: seq<Channel>, i: nat)
    ensures CutAt([c] + rest, 0) == rest && CutAt([c] + rest, i + 1) == [c] + CutAt(rest, i)
  {
  }

  lemma {:induction false} FindShifts(c: Channel, cs: seq<Channel>, local: u16, i: nat)
    requires i <= |cs|
    ensures FindLocal([c] + cs, local, i + 1) == FindLocal(cs, local, i) + 1
    decreases |cs| - i
  {
    if i == |cs| {
    } else {
      FindShifts(c, cs, local, i + 1);
    }
  }

  lemma FindCons(c: Channel, rest: seq<Channel>, local: u16)
    ensures FindLocal([c] + rest, local, 0) == if c.local == local then 0 else FindLocal(rest, local, 0) + 1
  {
    FindShifts(c, rest, local, 0);
  }

  /** Taking the first channel of a local CID out of the list, by search and by recursion. */
  lemma {:induction false} WithoutIs(os: seq<Opened>, local: u16)
    ensures ChannelList(Without(os, local)) == CutAt(ChannelList(os), FindLocal(ChannelList(os), local, 0))
  {
    if os == [] {
    } else {
      hide ChannelList, CutAt, FindLocal;
      var c, rest := os[0].channel, ChannelList(os[1..]);
      assert os == [os[0]] + os[1..];
      ListCons(os[0], os[1..]);
      FindCons(c, rest, local);
      CutCons(c, rest, FindLocal(rest, local, 0));
      if c.local != local {
        WithoutIs(os[1..], local);
        ListCons(os[0], Without(os[1..], local));
      }
    }
  }

  lemma ListCons(o: Opened, os: seq<Opened>)
    ensures ChannelList([o] + os) == [o.channel] + ChannelList(os)
  {
  }

  /** What one signalling event does to a link's channels. */
  lemma ChannelsStep(a: Analysis, e: Signalled, h: nat)
    requires WellFormed(a.tracker)
    ensures var cs, cs' := ChannelsOf(a, h), ChannelsOf(SigStep(a, e), h);
            cs' ==
            if e.handle != h then cs
            else if e.Down? then []
            else if OpensNow(a.conns, e) then cs + [ChannelAt(e)]
            else if IsDisconnection(e) then CutAt(cs, FindLocal(cs, LocalOf(e), 0))
            else cs
  {
    hide Apply, Le16, Disconnection, ConnectionResponse;
    if IsDisconnection(e) {
      DisconnectionStep(a, e.handle, LocalOf(e), h);
    } else if e.Sig? && e.code == 3 && |e.data| >= 8 {
      ResponseStep(a, e, h);
    }
  }

  lemma DisconnectionStep(a: Analysis, h': nat, local: u16, h: nat)
    requires WellFormed(a.tracker)
    ensures var cs := ChannelsOf(a, h);
            ChannelsOf(Disconnection(a, h', local), h) ==
            if h == h' then CutAt(cs, FindLocal(cs, local, 0)) else cs
  {
    hide Apply, FindLocal;
  }

  lemma ResponseStep(a: Analysis, e: Signalled, h: nat)
    requires WellFormed(a.tracker) && e.Sig? && e.code == 3 && |e.data| >= 8
    ensures var cs := ChannelsOf(a, h);
            var a' := ConnectionResponse(a, e.handle, e.dir, e.id, Le16(e.data, 0), Le16(e.data, 2), Le16(e.data, 4));
            ChannelsOf(a', h) == if e.handle == h && OpensNow(a.conns, e) then cs + [ChannelAt(e)] else cs
  {
    hide Le16;
  }

  ghost predicate TableInv(sigs: seq<Signalled>, a: Analysis) {
    && ConnsSound(sigs, a.conns) && ConnsComplete(sigs, a.conns)
    && forall h :: ChannelsOf(a, h) == ChannelList(OpenNow(sigs, h))
  }

  lemma ListOne(os: seq<Opened>, o: Opened)
    ensures ChannelList(os + [o]) == ChannelList(os) + [o.channel]
  {
  }

  lemma NoList()
    ensures ChannelList([]) == []
  {
  }

  lemma ChannelsKept(sigs: seq<Signalled>, a: Analysis, e: Signalled, h: nat)
    requires WellFormed(a.tracker) && TableInv(sigs, a)
    ensures ChannelsOf(SigStep(a, e), h) == ChannelList(OpenNow(sigs + [e], h))
  {
    hide SigStep, ChannelList, Without, FindLocal, CutAt, ConnsSound, ConnsComplete, OpensNow, Opens, ChannelsOf;
    var sigs' := sigs + [e];
    assert sigs'[..|sigs|] == sigs && sigs'[|sigs|] == e;
    ChannelsStep(a, e, h);
    OpensNowExactly(sigs, a.conns, e);
    NoList();
    if e.handle == h && e.Sig? {
      if Opens(sigs', |sigs|) {
        OpensIsAnswer(sigs', |sigs|);
        ListOne(OpenNow(sigs, h), Opened(|sigs|, ChannelAt(e)));
      } else if IsDisconnection(e) {
        WithoutIs(OpenNow(sigs, h), LocalOf(e));
      }
    }
  }

  lemma OpensIsAnswer(sigs: seq<Signalled>, i: int)
    requires Opens(sigs, i)
    ensures 0 <= i < |sigs| && sigs[i].Sig? && |sigs[i].data| >= 8
  {
  }

  lemma {:induction false} TableInvHolds(sigs: seq<Signalled>)
    ensures TableInv(sigs, SigAll(START, sigs))
  {
    hide SigStep, ConnsSound, ConnsComplete, ChannelList;
    if sigs == [] {
      NothingWaits();
      NoList();
    } else {
      var front, e := sigs[..|sigs| - 1], sigs[|sigs| - 1];
      assert sigs == front + [e];
      TableInvHolds(front);
      var a := SigAll(START, front);
      ConnsKept(front, a, e);
      forall h
        ensures ChannelsOf(SigStep(a, e), h) == ChannelList(OpenNow(sigs, h))
      {
        ChannelsKept(front, a, e, h);
      }
    }
  }

  lemma NothingWaits()
    ensures ConnsSound([], map[]) && ConnsComplete([], map[])
  {
  }

  // ---- Results ----

  /** In every capture, a link's channel list is exactly what its signalling says: the AVDTP connections
      answered with success and not taken out since, in order. */
  lemma ChannelsExactly(mediaDir: Dir, inputs: seq<Input>, h: nat)
    ensures ChannelsOf(After(mediaDir, inputs), h) == ChannelList(OpenNow(Signalling(inputs), h))
  {
    hide After, SigAll, OpenNow, ChannelList, ConnsSound, ConnsComplete;
    TablesFromSignalling(mediaDir, inputs);
    TableInvHolds(Signalling(inputs));
  }

  // ---- When a channel is open ----

  ghost predicate DownSince(sigs: seq<Signalled>, i: nat, h: nat) {
    exists k :: i < k < |sigs| && sigs[k] == Down(h)
  }

  predicate Names(e: Signalled, h: nat, local: u16) {
    e.handle == h && IsDisconnection(e) && LocalOf(e) == local
  }

  /** Disconnection requests after i for a local CID of a link. */
  function AskedSince(sigs: seq<Signalled>, i: nat, h: nat, local: u16): nat {
    if |sigs| <= i + 1 then 0
    else AskedSince(sigs[..|sigs| - 1], i, h, local) + if Names(sigs[|sigs| - 1], h, local) then 1 else 0
  }

  function SameLocal(os: seq<Opened>, local: u16): nat {
    if os == [] then 0 else (if os[0].channel.local == local then 1 else 0) + SameLocal(os[1..], local)
  }

  /** o stands in the list once, behind r channels of its own local CID. */
  predicate Behind(os: seq<Opened>, o: Opened, r: int) {
    os != [] &&
    if os[0] == o then r == 0 && o !in os[1..]
    else Behind(os[1..], o, if os[0].channel.local == o.channel.local then r - 1 else r)
  }

  lemma {:induction false} BehindMeans(os: seq<Opened>, o: Opened, r: int)
    requires Behind(os, o, r)
    ensures o in os && r >= 0
  {
    if os[0] == o {
    } else {
      BehindMeans(os[1..], o, if os[0].channel.local == o.channel.local then r - 1 else r);
    }
  }

  lemma {:induction false} BehindLast(os: seq<Opened>, o: Opened)
    requires o !in os
    ensures Behind(os + [o], o, SameLocal(os, o.channel.local))
  {
    var all := os + [o];
    if os == [] {
      assert all[1..] == [];
    } else {
      assert all[0] == os[0] && all[1..] == os[1..] + [o];
      BehindLast(os[1..], o);
    }
  }

  lemma {:induction false} BehindMore(os: seq<Opened>, o: Opened, r: int, x: Opened)
    requires Behind(os, o, r) && x != o
    ensures Behind(os + [x], o, r)
  {
    var all := os + [x];
    assert all[0] == os[0] && all[1..] == os[1..] + [x];
    if os[0] == o {
    } else {
      BehindMore(os[1..], o, if os[0].channel.local == o.channel.local then r - 1 else r, x);
    }
  }

  /** A disconnection takes out the first channel of its CID: o itself, or one before it, or none of its. */
  lemma {:induction false} BehindWithout(os: seq<Opened>, o: Opened, r: int, local: u16)
    requires Behind(os, o, r)
    ensures local != o.channel.local ==> Behind(Without(os, local), o, r)
    ensures local == o.channel.local && r > 0 ==> Behind(Without(os, local), o, r - 1)
    ensures local == o.channel.local && r == 0 ==> o !in Without(os, local)
  {
    var x, rest := os[0], os[1..];
    if x == o {
      if local != o.channel.local {
        NotWithout(rest, o, local);
        assert ([x] + Without(rest, local))[1..] == Without(rest, local);
      }
    } else {
      var r' := if x.channel.local == o.channel.local then r - 1 else r;
      BehindMeans(rest, o, r');
      BehindWithout(rest, o, r', local);
      if x.channel.local != local {
        assert ([x] + Without(rest, local))[1..] == Without(rest, local);
      }
    }
  }

  lemma {:induction false} NotWithout(os: seq<Opened>, o: Opened, local: u16)
    requires o !in os
    ensures o !in Without(os, local)
  {
    if os == [] {
    } else {
      NotWithout(os[1..], o, local);
    }
  }

  lemma {:induction false} OpenedBefore(sigs: seq<Signalled>, h: nat, o: Opened)
    requires o in OpenNow(sigs, h)
    ensures o.at < |sigs|
    decreases |sigs|
  {
    hide Opens, IsDisconnection, LocalOf;
    var n := |sigs| - 1;
    var before := OpenNow(sigs[..n], h);
    if o in before {
      OpenedBefore(sigs[..n], h, o);
    } else if IsDisconnection(sigs[n]) {
      NotWithout(before, o, LocalOf(sigs[n]));
    }
  }

  /** Where the channel opened at i stands now. */
  ghost predicate Stands(sigs: seq<Signalled>, h: nat, o: Opened, r: int) {
    if r >= 0 && !DownSince(sigs, o.at, h) then Behind(OpenNow(sigs, h), o, r) else o !in OpenNow(sigs, h)
  }

  lemma {:induction false} StandsHolds(sigs: seq<Signalled>, h: nat, i: nat)
    requires i < |sigs| && Opens(sigs[..i + 1], i) && sigs[i].handle == h
    ensures sigs[i].Sig? && |sigs[i].data| >= 8
    ensures var o := Opened(i, ChannelAt(sigs[i]));
            var c := o.channel.local;
            Stands(sigs, h, o, SameLocal(OpenNow(sigs[..i], h), c) - AskedSince(sigs, i, h, c))
    decreases |sigs|
  {
    hide Opens, Behind, OpenNow, SameLocal;
    OpensIsAnswer(sigs[..i + 1], i);
    var o := Opened(i, ChannelAt(sigs[i]));
    if |sigs| == i + 1 {
      assert sigs[..i + 1] == sigs;
      OpenedNow(sigs, h);
    } else {
      var front, e := sigs[..|sigs| - 1], sigs[|sigs| - 1];
      assert front[..i + 1] == sigs[..i + 1] && front[..i] == sigs[..i] && front[i] == sigs[i];
      StandsHolds(front, h, i);
      assert sigs == front + [e];
      var c := o.channel.local;
      StandsStep(front, e, h, o, SameLocal(OpenNow(sigs[..i], h), c) - AskedSince(front, i, h, c));
    }
  }

  lemma OpenedNow(sigs: seq<Signalled>, h: nat)
    requires sigs != [] && Opens(sigs, |sigs| - 1) && sigs[|sigs| - 1].handle == h
    ensures var n := |sigs| - 1;
            && sigs[n].Sig? && |sigs[n].data| >= 8
            && var o := Opened(n, ChannelAt(sigs[n]));
            Stands(sigs, h, o, SameLocal(OpenNow(sigs[..n], h), o.channel.local))
  {
    hide Opens, Behind, SameLocal, Without;
    var n := |sigs| - 1;
    OpensIsAnswer(sigs, n);
    var o := Opened(n, ChannelAt(sigs[n]));
    var before := OpenNow(sigs[..n], h);
    if o in before {
      OpenedBefore(sigs[..n], h, o);
    }
    BehindLast(before, o);
  }

  lemma StandsStep(sigs: seq<Signalled>, e: Signalled, h: nat, o: Opened, r: int)
    requires o.at < |sigs| && Stands(sigs, h, o, r)
    ensures Stands(sigs + [e], h, o, r - if Names(e, h, o.channel.local) then 1 else 0)
  {
    hide Opens, Behind, Without, IsDisconnection, LocalOf;
    var sigs', n := sigs + [e], |sigs|;
    assert sigs'[..n] == sigs && sigs'[n] == e;
    DownGrows(sigs, e, o.at, h);
    var before := OpenNow(sigs, h);
    if r >= 0 && !DownSince(sigs, o.at, h) {
      if e.handle == h && e.Sig? {
        if Opens(sigs', n) {
          OpensIsNoDisconnection(sigs', n);
          BehindMore(before, o, r, Opened(n, ChannelAt(e)));
        } else if IsDisconnection(e) {
          BehindWithout(before, o, r, LocalOf(e));
        }
      }
    } else if e.handle == h && IsDisconnection(e) {
      NotWithout(before, o, LocalOf(e));
    }
  }

  lemma OpensIsNoDisconnection(sigs: seq<Signalled>, i: int)
    requires Opens(sigs, i)
    ensures 0 <= i < |sigs| && sigs[i].Sig? && |sigs[i].data| >= 8 && !IsDisconnection(sigs[i])
  {
  }

  lemma DownGrows(sigs: seq<Signalled>, e: Signalled, i: nat, h: nat)
    requires i < |sigs|
    ensures DownSince(sigs + [e], i, h) <==> DownSince(sigs, i, h) || e == Down(h)
  {
    var sigs' := sigs + [e];
    assert sigs'[|sigs|] == e && forall k :: 0 <= k < |sigs| ==> sigs'[k] == sigs[k];
    if DownSince(sigs, i, h) {
      var k :| i < k < |sigs| && sigs[k] == Down(h);
      assert sigs'[k] == Down(h);
    }
  }

  /** A channel is open if and only if its link has not gone since, and its local CID was not named by more
      disconnection requests since than there were open channels of that CID before it. */
  lemma OpenExactly(sigs: seq<Signalled>, h: nat, i: nat)
    requires i < |sigs| && Opens(sigs[..i + 1], i) && sigs[i].handle == h
    ensures sigs[i].Sig? && |sigs[i].data| >= 8
    ensures var c := ChannelAt(sigs[i]);
            Opened(i, c) in OpenNow(sigs, h) <==>
            !DownSince(sigs, i, h) && AskedSince(sigs, i, h, c.local) <= SameLocal(OpenNow(sigs[..i], h), c.local)
  {
    hide Opens, Behind, OpenNow, SameLocal, AskedSince, DownSince;
    StandsHolds(sigs, h, i);
    var o := Opened(i, ChannelAt(sigs[i]));
    var r := SameLocal(OpenNow(sigs[..i], h), o.channel.local) - AskedSince(sigs, i, h, o.channel.local);
    if r >= 0 && !DownSince(sigs, i, h) {
      BehindMeans(OpenNow(sigs, h), o, r);
    }
  }

  // ---- Media packets ----

  /** The CID first names a channel of the list other than the first. */
  predicate NamesMedia(cs: seq<Channel>, dir: Dir, cid: u16) {
    exists n :: 0 < n < |cs| && CidOf(cs[n], dir) == cid && forall m :: 0 <= m < n ==> CidOf(cs[m], dir) != cid
  }

  /** The media packets of a link, told from the frames and the signalling before each. */
  ghost function MediaFrames(mediaDir: Dir, inputs: seq<Input>, h: nat): seq<seq<byte>> {
    if inputs == [] then []
    else
      var front, input := inputs[..|inputs| - 1], inputs[|inputs| - 1];
      MediaFrames(mediaDir, front, h)
      + if input.L2capFrame? && input.handle == h && input.dir == mediaDir && input.cid != 1
           && NamesMedia(ChannelList(OpenNow(Signalling(front), h)), mediaDir, input.cid)
        then [input.payload] else []
  }

  /** One frame is a media packet exactly if it is in the media direction and its CID first names a channel
      that is not the first. */
  lemma MediaExactly(a: Analysis, mediaDir: Dir, h: nat, dir: Dir, cid: u16, p: seq<byte>)
    requires WellFormed(a.tracker) && cid != 1
    ensures Step(a, mediaDir, L2capFrame(h, dir, cid, p)) == Emit(a, Media(h, p)) <==>
            dir == mediaDir && NamesMedia(ChannelsOf(a, h), dir, cid)
  {
    hide Apply, Capabilities;
    var cs := ChannelsOf(a, h);
    var i := FindCid(cs, dir, cid, 0);
    NamesMediaIs(cs, dir, cid);
    assert |Emit(a, Media(h, p)).log| == |a.log| + 1 && Emit(a, Media(h, p)).log[|a.log|].Media?;
  }

  lemma NamesMediaIs(cs: seq<Channel>, dir: Dir, cid: u16)
    ensures NamesMedia(cs, dir, cid) <==> 0 < FindCid(cs, dir, cid, 0) < |cs|
  {
    var i := FindCid(cs, dir, cid, 0);
    if NamesMedia(cs, dir, cid) {
      var n :| 0 < n < |cs| && CidOf(cs[n], dir) == cid && forall m :: 0 <= m < n ==> CidOf(cs[m], dir) != cid;
      assert i == n;
    }
  }
}
