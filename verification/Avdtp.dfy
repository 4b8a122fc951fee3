/** The AVDTP tracker of the A2DP capture analyser (tools/a2dp_decode/a2dp_decode.cpp, `Analyzer`): L2CAP
    channels, accepted configurations and the session media packets go to. */
module Avdtp {
  import opened Bytes

  datatype Dir = Out | In

  function Opposite(d: Dir): Dir { if d.Out? then In else Out }

  /** A request by link, direction and L2CAP identifier or AVDTP transaction label. */
  datatype Key = Key(handle: nat, dir: Dir, id: nat)

  /** The Media Codec capability a configuration command carried last, if any. */
  datatype Config = NoCodec | Codec(capability: seq<byte>)

  // ---- Sessions, driven by what happens on the links ----

  datatype Event =
    | Command(handle: nat, dir: Dir, tag: nat, signal: nat, cfg: Config)
    | Response(handle: nat, dir: Dir, tag: nat, signal: nat, accepted: bool)
    | ChannelClosed(handle: nat, first: bool)
    | LinkGone(handle: nat)
    | Media(handle: nat, data: seq<byte>)

  /** `at`: where in the history the command stands. */
  datatype Pending = Pending(at: nat, cfg: Config, signal: nat)

  /** `command`, `at`: where in the history its configuration was asked for and accepted. */
  datatype Session = Session(
    command: nat, at: nat, handle: nat, cfg: Config, packets: seq<seq<byte>>, finished: nat)

  datatype Tracker = Tracker(pending: map<Key, Pending>, sessions: seq<Session>, active: map<nat, nat>)

  const NO_SESSIONS := Tracker(map[], [], map[])

  predicate WellFormed(t: Tracker) { forall h :: h in t.active ==> t.active[h] < |t.sessions| }

  function FinishSession(t: Tracker, h: nat): (t': Tracker)
    requires WellFormed(t)
    ensures WellFormed(t') && h !in t'.active && |t'.sessions| == |t.sessions|
  {
    if h !in t.active then t
    else
      var n := t.active[h];
      var s := t.sessions[n];
      t.(sessions := t.sessions[n := s.(finished := s.finished + 1)], active := t.active - {h})
  }

  function StartSession(t: Tracker, s: Session): (t': Tracker)
    requires WellFormed(t)
    ensures WellFormed(t')
  {
    var t1 := FinishSession(t, s.handle);
    t1.(sessions := t1.sessions + [s], active := t1.active[s.handle := |t1.sessions|])
  }

  function GiveMedia(t: Tracker, h: nat, data: seq<byte>): (t': Tracker)
    requires WellFormed(t)
    ensures WellFormed(t')
  {
    if h !in t.active then t
    else
      var s := t.sessions[t.active[h]];
      t.(sessions := t.sessions[t.active[h] := s.(packets := s.packets + [data])])
  }

  function Answer(t: Tracker, e: Event, at: nat): (t': Tracker)
    requires WellFormed(t) && e.Response?
    ensures WellFormed(t')
  {
    var key := Key(e.handle, Opposite(e.dir), e.tag);
    if key !in t.pending || t.pending[key].signal != e.signal then t
    else
      var p := t.pending[key];
      var t1 := if e.accepted then StartSession(t, Session(p.at, at, e.handle, p.cfg, [], 0)) else t;
      t1.(pending := t1.pending - {key})
  }

  /** `at`: the event's place in the history. */
  function Apply(t: Tracker, e: Event, at: nat): (t': Tracker)
    requires WellFormed(t)
    ensures WellFormed(t')
  {
    match e
    case Command(h, dir, tag, signal, cfg) => t.(pending := t.pending[Key(h, dir, tag) := Pending(at, cfg, signal)])
    case Response(_, _, _, _, _) => Answer(t, e, at)
    case ChannelClosed(h, first) => if first then t else FinishSession(t, h)
    case LinkGone(h) => FinishSession(t, h)
    case Media(h, data) => GiveMedia(t, h, data)
  }

  function Track(log: seq<Event>): (t: Tracker)
    ensures WellFormed(t)
  {
    if log == [] then NO_SESSIONS else Apply(Track(log[..|log| - 1]), log[|log| - 1], |log| - 1)
  }

  // ---- The analyser ----

  const PSM_AVDTP := 0x0019

  datatype Channel = Channel(local: u16, remote: u16)

  datatype Analysis = Analysis(
    channels: map<nat, seq<Channel>>,    // AVDTP channels in order of establishment
    conns: map<Key, u16>,                // connection requests: their PSM
    tracker: Tracker,
    fragmented: nat,                     // fragmented signalling packets skipped
    mediaIn: nat,                        // media packets of the other direction
    log: seq<Event>)                     // history

  const START := Analysis(map[], map[], NO_SESSIONS, 0, 0, [])

  function ChannelsOf(a: Analysis, h: nat): seq<Channel> { if h in a.channels then a.channels[h] else [] }

  function Emit(a: Analysis, e: Event): (a': Analysis)
    requires WellFormed(a.tracker)
    ensures WellFormed(a'.tracker)
  {
    a.(tracker := Apply(a.tracker, e, |a.log|), log := a.log + [e])
  }

  /** The first channel at or after i with this local CID, or the number of channels. */
  function FindLocal(cs: seq<Channel>, local: u16, i: nat): (r: nat)
    requires i <= |cs|
    ensures i <= r <= |cs| && (r < |cs| ==> cs[r].local == local)
    ensures forall j :: i <= j < r ==> cs[j].local != local
    decreases |cs| - i
  {
    if i == |cs| || cs[i].local == local then i else FindLocal(cs, local, i + 1)
  }

  function CidOf(c: Channel, dir: Dir): u16 { if dir.Out? then c.remote else c.local }

  /** The first channel a frame can belong to, or the number of channels. */
  function FindCid(cs: seq<Channel>, dir: Dir, cid: u16, i: nat): (r: nat)
    requires i <= |cs|
    ensures i <= r <= |cs| && (r < |cs| ==> CidOf(cs[r], dir) == cid)
    ensures forall j :: i <= j < r ==> CidOf(cs[j], dir) != cid
    decreases |cs| - i
  {
    if i == |cs| || CidOf(cs[i], dir) == cid then i else FindCid(cs, dir, cid, i + 1)
  }

  function ConnectionResponse(a: Analysis, h: nat, dir: Dir, id: byte, dcid: u16, scid: u16, result: u16)
      : (a': Analysis)
    ensures a'.tracker == a.tracker
  {
    var key := Key(h, Opposite(dir), id);
    if key !in a.conns || result == 1 then a
    else
      var ch := if key.dir.Out? then Channel(scid, dcid) else Channel(dcid, scid);
      var isOpen := result == 0 && a.conns[key] == PSM_AVDTP;
      a.(channels := if isOpen then a.channels[h := ChannelsOf(a, h) + [ch]] else a.channels,
         conns := a.conns - {key})
  }

  function Disconnection(a: Analysis, h: nat, local: u16): (a': Analysis)
    requires WellFormed(a.tracker)
    ensures WellFormed(a'.tracker)
  {
    var cs := ChannelsOf(a, h);
    var i := FindLocal(cs, local, 0);
    if i == |cs| then a
    else Emit(a, ChannelClosed(h, i == 0)).(channels := a.channels[h := cs[..i] + cs[i + 1..]])
  }

  /** One L2CAP signalling command. */
  function Signal(a: Analysis, h: nat, dir: Dir, code: byte, id: byte, d: seq<byte>): (a': Analysis)
    requires WellFormed(a.tracker)
    ensures WellFormed(a'.tracker)
  {
    if code == 2 && |d| >= 4 then a.(conns := a.conns[Key(h, dir, id) := Le16(d, 0)])
    else if code == 3 && |d| >= 8 then ConnectionResponse(a, h, dir, id, Le16(d, 0), Le16(d, 2), Le16(d, 4))
    else if code == 6 && |d| >= 4 then Disconnection(a, h, if dir.Out? then Le16(d, 2) else Le16(d, 0))
    else a
  }

  function Signals(a: Analysis, h: nat, dir: Dir, p: seq<byte>, off: nat): (a': Analysis)
    requires WellFormed(a.tracker)
    ensures WellFormed(a'.tracker)
    decreases |p| - off
  {
    if off + 4 > |p| then a
    else
      var len: nat := Le16(p, off + 2);
      if off + 4 + len > |p| then a
      else Signals(Signal(a, h, dir, p[off], p[off + 1], p[off + 4..off + 4 + len]), h, dir, p, off + 4 + len)
  }

  function Capabilities(cfg: Config, d: seq<byte>, off: nat): Config
    decreases |d| - off
  {
    if off + 2 > |d| then cfg
    else
      var losc: nat := d[off + 1];
      if off + 2 + losc > |d| then cfg
      else Capabilities(if d[off] == 7 then Codec(d[off + 2..off + 2 + losc]) else cfg, d, off + 2 + losc)
  }

  function AvdtpSignal(a: Analysis, h: nat, dir: Dir, p: seq<byte>): (a': Analysis)
    requires WellFormed(a.tracker)
    ensures WellFormed(a'.tracker)
  {
    if |p| < 2 then a
    else
      var tag := p[0] / 16;
      var signal := p[1] % 64;
      if p[0] / 4 % 4 != 0 then a.(fragmented := a.fragmented + 1)
      else if signal != 3 && signal != 5 then a
      else if p[0] % 4 == 0
      then Emit(a, Command(h, dir, tag, signal, Capabilities(NoCodec, p[2..], if signal == 3 then 2 else 1)))
      else Emit(a, Response(h, dir, tag, signal, p[0] % 4 == 2))
  }

  function OnL2cap(a: Analysis, mediaDir: Dir, h: nat, dir: Dir, cid: u16, p: seq<byte>): (a': Analysis)
    requires WellFormed(a.tracker)
    ensures WellFormed(a'.tracker)
  {
    if cid == 1 then Signals(a, h, dir, p, 0)
    else
      var cs := ChannelsOf(a, h);
      var i := FindCid(cs, dir, cid, 0);
      if i == |cs| then a
      else if i == 0 then AvdtpSignal(a, h, dir, p)
      else if dir == mediaDir then Emit(a, Media(h, p))
      else a.(mediaIn := a.mediaIn + 1)
  }

  function OnDisconnect(a: Analysis, h: nat): (a': Analysis)
    requires WellFormed(a.tracker)
    ensures WellFormed(a'.tracker)
  {
    Emit(a, LinkGone(h)).(channels := a.channels[h := []])
  }

  /** What the capture holds, after reassembly. */
  datatype Input =
    | L2capFrame(handle: nat, dir: Dir, cid: u16, payload: seq<byte>)
    | Disconnected(handle: nat)

  function Step(a: Analysis, mediaDir: Dir, input: Input): (a': Analysis)
    requires WellFormed(a.tracker)
    ensures WellFormed(a'.tracker)
  {
    match input
    case L2capFrame(h, dir, cid, p) => OnL2cap(a, mediaDir, h, dir, cid, p)
    case Disconnected(h) => OnDisconnect(a, h)
  }

  function After(mediaDir: Dir, inputs: seq<Input>): (a: Analysis)
    ensures WellFormed(a.tracker)
  {
    if inputs == [] then START
    else Step(After(mediaDir, inputs[..|inputs| - 1]), mediaDir, inputs[|inputs| - 1])
  }
}
