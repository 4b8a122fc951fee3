/** A link's whole history, told from the frames of a capture alone (tools/a2dp_decode/a2dp_decode.cpp): which
    AVDTP messages are configuration commands and answers, which disconnections close a channel and whether it
    was the first, and which frames are media packets. */
module AvdtpLog {
  import opened Bytes
  import opened Avdtp
  import opened AvdtpProofs
  import opened AvdtpChannels

  // ---- AVDTP messages ----

  const SET_CONFIGURATION := 3
  const RECONFIGURE := 5

  /** The two header bytes of a signalling message (section 8.4 of AVDTP) and what follows. */
  datatype Message = Message(tag: nat, packetType: nat, kind: nat, reserved: nat, signal: nat, body: seq<byte>)

  predicate Proper(m: Message) {
    m.tag < 16 && m.packetType < 4 && m.kind < 4 && m.reserved < 4 && m.signal < 64
  }

  function MessageBytes(m: Message): seq<byte>
    requires Proper(m)
  {
    [m.tag * 16 + m.packetType * 4 + m.kind, m.reserved * 64 + m.signal] + m.body
  }

  function ReadMessage(p: seq<byte>): Message
    requires |p| >= 2
  {
    Message(p[0] / 16, p[0] / 4 % 4, p[0] % 4, p[1] / 64, p[1] % 64, p[2..])
  }

  /** Every string of two bytes or more is one message, and each message is read back. */
  lemma MessagesAreBytes(p: seq<byte>, m: Message)
    requires |p| >= 2 && Proper(m)
    ensures Proper(ReadMessage(p)) && MessageBytes(ReadMessage(p)) == p
    ensures ReadMessage(MessageBytes(m)) == m
  {
    var a: int, b: int := p[0], p[1];
    HeaderByte(a);
    assert p == [p[0], p[1]] + p[2..];
    HeaderFields(m.tag, m.packetType, m.kind);
    assert MessageBytes(m)[2..] == m.body;
  }

  lemma HeaderByte(a: int)
    requires 0 <= a < 256
    ensures a / 16 * 16 + a / 4 % 4 * 4 + a % 4 == a && a / 64 * 64 + a % 64 == a
  {
  }

  lemma HeaderFields(x: nat, y: nat, z: nat)
    requires x < 16 && y < 4 && z < 4
    ensures var b := x * 16 + y * 4 + z; b / 16 == x && b / 4 % 4 == y && b % 4 == z
  {
    var b := x * 16 + y * 4 + z;
    assert b / 4 == x * 4 + y;
  }

  /** The capabilities of a configuration command, as far as they are whole. */
  function Listed(d: seq<byte>, off: nat): seq<Capability>
    decreases |d| - off
  {
    if off + 2 > |d| || off + 2 + d[off + 1] as nat > |d| then []
    else
      var end := off + 2 + d[off + 1] as nat;
      [Capability(d[off], d[off + 2..end])] + Listed(d, end)
  }

  /** They are what the bytes hold, up to a tail that is not whole. */
  lemma {:induction false} ListedIs(d: seq<byte>, off: nat) returns (tail: seq<byte>)
    requires off <= |d|
    ensures CapabilityFits(Listed(d, off)) && d[off..] == CapabilityBytes(Listed(d, off)) + tail
    ensures |tail| < 2 || |tail| < 2 + tail[1] as nat
    decreases |d| - off
  {
    if off + 2 > |d| || off + 2 + d[off + 1] as nat > |d| {
      tail := d[off..];
    } else {
      var end := off + 2 + d[off + 1] as nat;
      tail := ListedIs(d, end);
      var c, cs := Capability(d[off], d[off + 2..end]), Listed(d, end);
      assert Listed(d, off)[0] == c && Listed(d, off)[1..] == cs;
      Cut(d, off, end, |d|);
      Cut(d, off, off + 2, end);
      assert d[off..off + 2] == [c.category, |c.content|];
      assert d[off..] == d[off..|d|] && d[end..] == d[end..|d|];
      assert [c.category, |c.content|] + c.content + (CapabilityBytes(cs) + tail)
          == [c.category, |c.content|] + c.content + CapabilityBytes(cs) + tail;
    }
  }

  /** SET_CONFIGURATION names two stream end points before its capabilities, RECONFIGURE one. */
  function Seids(signal: nat): nat { if signal == SET_CONFIGURATION then 2 else 1 }

  function CodecOf(m: Message): Config {
    if |m.body| < Seids(m.signal) then NoCodec else LastCodec(Listed(m.body, Seids(m.signal)))
  }

  lemma CodecIs(m: Message)
    ensures Capabilities(NoCodec, m.body, Seids(m.signal)) == CodecOf(m)
  {
    var off := Seids(m.signal);
    if off <= |m.body| {
      var tail := ListedIs(m.body, off);
      CapabilitiesRead(NoCodec, m.body, off, Listed(m.body, off), tail);
      CodecOrNone(Listed(m.body, off));
    }
  }

  /** A whole SET_CONFIGURATION or RECONFIGURE: a command if its message type is 0, else an answer, which
      accepts if its type is 2. Every other message is nothing to the sessions. */
  function EventOf(h: nat, dir: Dir, m: Message): seq<Event> {
    if m.packetType != 0 || (m.signal != SET_CONFIGURATION && m.signal != RECONFIGURE) then []
    else if m.kind == 0 then [Command(h, dir, m.tag, m.signal, CodecOf(m))]
    else [Response(h, dir, m.tag, m.signal, m.kind == 2)]
  }

  // ---- The reference ----

  function EventsOf(h: nat, log: seq<Event>): seq<Event> {
    if log == [] then []
    else EventsOf(h, log[..|log| - 1]) + if log[|log| - 1].handle == h then [log[|log| - 1]] else []
  }

  /** What one signalling event adds to the history of a link whose open channels are os. */
  function ClosingOf(os: seq<Opened>, e: Signalled, h: nat): seq<Event> {
    if e.handle != h then []
    else if e.Down? then [LinkGone(h)]
    else if IsDisconnection(e) && HasLocal(os, LocalOf(e)) then [ChannelClosed(h, os[0].channel.local == LocalOf(e))]
    else []
  }

  predicate HasLocal(os: seq<Opened>, local: u16) {
    exists i :: 0 <= i < |os| && os[i].channel.local == local
  }

  ghost function Closings(sigs: seq<Signalled>, more: seq<Signalled>, h: nat): seq<Event> {
    if more == [] then []
    else
      var front, e := more[..|more| - 1], more[|more| - 1];
      Closings(sigs, front, h) + ClosingOf(OpenNow(sigs + front, h), e, h)
  }

  /** The CID first names the first channel. */
  predicate NamesFirst(cs: seq<Channel>, dir: Dir, cid: u16) { cs != [] && CidOf(cs[0], dir) == cid }

  /** What one input adds to a link's history, given the signalling before it. */
  ghost function Added(mediaDir: Dir, sigs: seq<Signalled>, input: Input, h: nat): seq<Event> {
    match input
    case Disconnected(h') => if h' == h then [LinkGone(h)] else []
    case L2capFrame(h', dir, cid, p) =>
      var cs := ChannelList(OpenNow(sigs, h));
      if h' != h then []
      else if cid == 1 then Closings(sigs, Commands(h, dir, p, 0), h)
      else if NamesFirst(cs, dir, cid) then (if |p| < 2 then [] else EventOf(h, dir, ReadMessage(p)))
      else if dir == mediaDir && NamesMedia(cs, dir, cid) then [Media(h, p)]
      else []
  }

  ghost function History(mediaDir: Dir, inputs: seq<Input>, h: nat): seq<Event> {
    if inputs == [] then []
    else
      var front, input := inputs[..|inputs| - 1], inputs[|inputs| - 1];
      History(mediaDir, front, h) + Added(mediaDir, Signalling(front), input, h)
  }

  // ---- One input ----

  lemma EventsOne(h: nat, log: seq<Event>, e: Event)
    ensures EventsOf(h, log + [e]) == EventsOf(h, log) + if e.handle == h then [e] else []
  {
    assert (log + [e])[..|log|] == log;
  }

  lemma NoMore(h: nat, log: seq<Event>)
    ensures EventsOf(h, log) + [] == EventsOf(h, log)
  {
  }

  lemma MessageLog(a: Analysis, h': nat, dir: Dir, p: seq<byte>, h: nat)
    requires WellFormed(a.tracker)
    ensures EventsOf(h, AvdtpSignal(a, h', dir, p).log) ==
            EventsOf(h, a.log) + if h' == h && |p| >= 2 then EventOf(h, dir, ReadMessage(p)) else []
  {
    hide EventsOf, Apply, Capabilities, CodecOf;
    NoMore(h, a.log);
    if |p| >= 2 {
      CodecIs(ReadMessage(p));
      forall e: Event
        ensures EventsOf(h, a.log + [e]) == EventsOf(h, a.log) + if e.handle == h then [e] else []
      {
        EventsOne(h, a.log, e);
      }
    }
  }

  lemma FindHas(os: seq<Opened>, local: u16)
    ensures HasLocal(os, local) <==> FindLocal(ChannelList(os), local, 0) < |os|
    ensures os != [] ==> (os[0].channel.local == local <==> FindLocal(ChannelList(os), local, 0) == 0)
  {
    var cs := ChannelList(os);
    var i := FindLocal(cs, local, 0);
    assert i < |os| ==> os[i].channel.local == local;
    forall j | 0 <= j < |os| && os[j].channel.local == local
      ensures i <= j
    {
      assert cs[j].local == local;
    }
  }

  lemma SigStepLog(a: Analysis, e: Signalled, os: seq<Opened>, h: nat)
    requires WellFormed(a.tracker) && ChannelsOf(a, h) == ChannelList(os)
    ensures EventsOf(h, SigStep(a, e).log) == EventsOf(h, a.log) + ClosingOf(os, e, h)
  {
    hide EventsOf, Apply, Le16, FindLocal, ChannelList, HasLocal;
    NoMore(h, a.log);
    forall x: Event
      ensures EventsOf(h, a.log + [x]) == EventsOf(h, a.log) + if x.handle == h then [x] else []
    {
      EventsOne(h, a.log, x);
    }
    if IsDisconnection(e) {
      FindHas(os, LocalOf(e));
      ListLength(os);
      HasSome(os, LocalOf(e));
    }
  }

  lemma ListLength(os: seq<Opened>)
    ensures |ChannelList(os)| == |os|
  {
  }

  lemma HasSome(os: seq<Opened>, local: u16)
    ensures HasLocal(os, local) ==> os != []
  {
  }

  lemma {:induction false} CommandsLog(a: Analysis, sigs: seq<Signalled>, more: seq<Signalled>, h: nat)
    requires WellFormed(a.tracker) && SameTables(a, SigAll(START, sigs))
    ensures EventsOf(h, SigAll(a, more).log) == EventsOf(h, a.log) + Closings(sigs, more, h)
    decreases |more|
  {
    hide EventsOf, SigStep, OpenNow, ChannelList, ClosingOf, ConnsSound, ConnsComplete;
    if more == [] {
      NoMore(h, a.log);
    } else {
      var front, e := more[..|more| - 1], more[|more| - 1];
      CommandsLog(a, sigs, front, h);
      SigAllSame(a, SigAll(START, sigs), front);
      SigAllAppend(START, sigs, front);
      TableInvHolds(sigs + front);
      var os := OpenNow(sigs + front, h);
      SigStepLog(SigAll(a, front), e, os, h);
      assert EventsOf(h, a.log) + Closings(sigs, front, h) + ClosingOf(os, e, h)
          == EventsOf(h, a.log) + (Closings(sigs, front, h) + ClosingOf(os, e, h));
    }
  }

  lemma {:induction false} CommandsAreOf(h: nat, dir: Dir, p: seq<byte>, off: nat)
    ensures forall i :: 0 <= i < |Commands(h, dir, p, off)| ==> Commands(h, dir, p, off)[i].handle == h
    decreases |p| - off
  {
    if off + 4 <= |p| && off + 4 + Le16(p, off + 2) as nat <= |p| {
      CommandsAreOf(h, dir, p, off + 4 + Le16(p, off + 2) as nat);
    }
  }

  lemma {:induction false} ClosingsOther(sigs: seq<Signalled>, more: seq<Signalled>, h: nat)
    requires forall i :: 0 <= i < |more| ==> more[i].handle != h
    ensures Closings(sigs, more, h) == []
  {
    hide OpenNow;
    if more == [] {
    } else {
      ClosingsOther(sigs, more[..|more| - 1], h);
    }
  }

  lemma SignallingLog(a: Analysis, sigs: seq<Signalled>, h': nat, dir: Dir, p: seq<byte>, h: nat)
    requires WellFormed(a.tracker) && SameTables(a, SigAll(START, sigs))
    ensures EventsOf(h, Signals(a, h', dir, p, 0).log) ==
            EventsOf(h, a.log) + if h' == h then Closings(sigs, Commands(h, dir, p, 0), h) else []
  {
    hide EventsOf, Signals, SigAll, Commands, Closings, SameTables;
    SignalsAreCommands(a, h', dir, p, 0);
    CommandsLog(a, sigs, Commands(h', dir, p, 0), h);
    if h' != h {
      CommandsAreOf(h', dir, p, 0);
      ClosingsOther(sigs, Commands(h', dir, p, 0), h);
    }
  }

  lemma FindFirst(cs: seq<Channel>, dir: Dir, cid: u16)
    ensures NamesFirst(cs, dir, cid) <==> cs != [] && FindCid(cs, dir, cid, 0) == 0
  {
  }

  lemma InputLog(a: Analysis, mediaDir: Dir, sigs: seq<Signalled>, input: Input, h: nat)
    requires WellFormed(a.tracker) && SameTables(a, SigAll(START, sigs))
    ensures EventsOf(h, Step(a, mediaDir, input).log) == EventsOf(h, a.log) + Added(mediaDir, sigs, input, h)
  {
    hide EventsOf, Apply, Signals, AvdtpSignal, Closings, Commands, SigAll, OpenNow, ChannelList, EventOf;
    hide NamesFirst, NamesMedia, FindCid, ConnsSound, ConnsComplete;
    NoMore(h, a.log);
    forall x: Event
      ensures EventsOf(h, a.log + [x]) == EventsOf(h, a.log) + if x.handle == h then [x] else []
    {
      EventsOne(h, a.log, x);
    }
    match input
    case Disconnected(_) =>
    case L2capFrame(h', dir, cid, p) =>
      if cid == 1 {
        SignallingLog(a, sigs, h', dir, p, h);
      } else {
        TableInvHolds(sigs);
        var cs := ChannelsOf(a, h');
        FindFirst(cs, dir, cid);
        NamesMediaIs(cs, dir, cid);
        MessageLog(a, h', dir, p, h);
      }
  }

  // ---- Over captures ----

  /** In every capture, a link's part of the history is exactly what its frames say. */
  lemma {:induction false} HistoryExactly(mediaDir: Dir, inputs: seq<Input>, h: nat)
    ensures EventsOf(h, After(mediaDir, inputs).log) == History(mediaDir, inputs, h)
  {
    hide EventsOf, Step, Added, Signalling, SameTables;
    if inputs == [] {
      NothingHappened(h);
    } else {
      var front, input := inputs[..|inputs| - 1], inputs[|inputs| - 1];
      HistoryExactly(mediaDir, front, h);
      TablesFromSignalling(mediaDir, front);
      InputLog(After(mediaDir, front), mediaDir, Signalling(front), input, h);
    }
  }

  lemma NothingHappened(h: nat)
    ensures EventsOf(h, []) == []
  {
  }

  /** A frame on the first channel that is no whole configuration message leaves sessions, pending commands
      and history alone; it is counted if it is a fragment. */
  lemma OtherMessagesAreQuiet(a: Analysis, mediaDir: Dir, h: nat, dir: Dir, cid: u16, p: seq<byte>)
    requires WellFormed(a.tracker) && cid != 1 && NamesFirst(ChannelsOf(a, h), dir, cid)
    requires |p| >= 2 ==> EventOf(h, dir, ReadMessage(p)) == []
    ensures var a' := Step(a, mediaDir, L2capFrame(h, dir, cid, p));
            a' == a.(fragmented := a.fragmented + if |p| >= 2 && ReadMessage(p).packetType != 0 then 1 else 0)
  {
    FindFirst(ChannelsOf(a, h), dir, cid);
  }

  // ---- Counters ----

  /** The input is a fragment of a signalling message. */
  ghost predicate IsFragment(sigs: seq<Signalled>, input: Input) {
    && input.L2capFrame? && input.cid != 1 && |input.payload| >= 2
    && NamesFirst(ChannelList(OpenNow(sigs, input.handle)), input.dir, input.cid)
    && ReadMessage(input.payload).packetType != 0
  }

  /** The input is a media packet of the other direction. */
  ghost predicate IsOtherWay(mediaDir: Dir, sigs: seq<Signalled>, input: Input) {
    && input.L2capFrame? && input.cid != 1 && input.dir != mediaDir
    && NamesMedia(ChannelList(OpenNow(sigs, input.handle)), input.dir, input.cid)
  }

  ghost function Fragments(inputs: seq<Input>): nat {
    if inputs == [] then 0
    else
      var front := inputs[..|inputs| - 1];
      Fragments(front) + if IsFragment(Signalling(front), inputs[|inputs| - 1]) then 1 else 0
  }

  ghost function OtherWay(mediaDir: Dir, inputs: seq<Input>): nat {
    if inputs == [] then 0
    else
      var front := inputs[..|inputs| - 1];
      OtherWay(mediaDir, front) + if IsOtherWay(mediaDir, Signalling(front), inputs[|inputs| - 1]) then 1 else 0
  }

  lemma {:induction false} SignalsCountNothing(a: Analysis, h: nat, dir: Dir, p: seq<byte>, off: nat)
    requires WellFormed(a.tracker)
    ensures var a' := Signals(a, h, dir, p, off); a'.fragmented == a.fragmented && a'.mediaIn == a.mediaIn
    decreases |p| - off
  {
    hide Signal, Le16;
    if off + 4 <= |p| && off + 4 + Le16(p, off + 2) as nat <= |p| {
      var len: nat := Le16(p, off + 2);
      var d := p[off + 4..off + 4 + len];
      SignalCountsNothing(a, h, dir, p[off], p[off + 1], d);
      SignalsCountNothing(Signal(a, h, dir, p[off], p[off + 1], d), h, dir, p, off + 4 + len);
    }
  }

  lemma SignalCountsNothing(a: Analysis, h: nat, dir: Dir, code: byte, id: byte, d: seq<byte>)
    requires WellFormed(a.tracker)
    ensures var a' := Signal(a, h, dir, code, id, d); a'.fragmented == a.fragmented && a'.mediaIn == a.mediaIn
  {
    hide Apply, Le16, FindLocal;
  }

  lemma InputCounts(a: Analysis, mediaDir: Dir, sigs: seq<Signalled>, input: Input)
    requires WellFormed(a.tracker) && SameTables(a, SigAll(START, sigs))
    ensures var a' := Step(a, mediaDir, input);
            && a'.fragmented == a.fragmented + (if IsFragment(sigs, input) then 1 else 0)
            && a'.mediaIn == a.mediaIn + if IsOtherWay(mediaDir, sigs, input) then 1 else 0
  {
    hide Apply, Signals, SigAll, OpenNow, ChannelList, NamesFirst, NamesMedia, FindCid, ConnsSound, ConnsComplete;
    hide Capabilities;
    match input
    case Disconnected(_) =>
    case L2capFrame(h, dir, cid, p) =>
      SignalsCountNothing(a, h, dir, p, 0);
      TableInvHolds(sigs);
      var cs := ChannelsOf(a, h);
      FindFirst(cs, dir, cid);
      NamesMediaIs(cs, dir, cid);
  }

  /** In every capture, fragments and media packets of the other direction are counted exactly. */
  lemma {:induction false} CountsExactly(mediaDir: Dir, inputs: seq<Input>)
    ensures var a := After(mediaDir, inputs);
            a.fragmented == Fragments(inputs) && a.mediaIn == OtherWay(mediaDir, inputs)
  {
    hide Step, IsFragment, IsOtherWay, Signalling, SameTables;
    if inputs == [] {
    } else {
      var front := inputs[..|inputs| - 1];
      CountsExactly(mediaDir, front);
      TablesFromSignalling(mediaDir, front);
      InputCounts(After(mediaDir, front), mediaDir, Signalling(front), inputs[|inputs| - 1]);
    }
  }
}
