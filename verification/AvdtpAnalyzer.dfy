/** The analyser's object (tools/a2dp_decode/a2dp_decode.cpp, `Analyzer`), each method proved to do what the
    step function of its input does. */
module AvdtpAnalyzer {
  import opened Bytes
  import opened Avdtp
  import opened AvdtpProofs

  class Analyzer {
    const mediaDir: Dir
    var channels: map<nat, seq<Channel>>
    var conns: map<Key, u16>
    var pending: map<Key, Pending>
    var sessions: seq<Session>
    var active: map<nat, nat>
    var fragmented: nat
    var mediaIn: nat
    var log: seq<Event>

    function View(): Analysis
      reads this
    {
      Analysis(channels, conns, Tracker(pending, sessions, active), fragmented, mediaIn, log)
    }

    constructor (mediaDir: Dir)
      ensures this.mediaDir == mediaDir && View() == START
    {
      this.mediaDir := mediaDir;
      channels, conns, pending, sessions, active, log := map[], map[], map[], [], map[], [];
      fragmented, mediaIn := 0, 0;
    }

    method EndSession(h: nat)
      requires WellFormed(View().tracker)
      modifies this
      ensures View() == old(View()).(tracker := FinishSession(old(View().tracker), h))
    {
      if h in active {
        var n := active[h];
        sessions := sessions[n := sessions[n].(finished := sessions[n].finished + 1)];
        active := active - {h};
      }
    }

    method BeginSession(s: Session)
      requires WellFormed(View().tracker)
      modifies this
      ensures View() == old(View()).(tracker := StartSession(old(View().tracker), s))
    {
      EndSession(s.handle);
      sessions := sessions + [s];
      active := active[s.handle := |sessions| - 1];
    }

    method OnResponse(h: nat, dir: Dir, tag: nat, signal: nat, accepted: bool)
      requires WellFormed(View().tracker)
      modifies this
      ensures View() == Emit(old(View()), Response(h, dir, tag, signal, accepted))
    {
      hide StartSession;
      var key := Key(h, Opposite(dir), tag);
      if key in pending && pending[key].signal == signal {
        if accepted {
          BeginSession(Session(pending[key].at, |log|, h, pending[key].cfg, [], 0));
        }
        pending := pending - {key};
      }
      log := log + [Response(h, dir, tag, signal, accepted)];
    }

    method OnAvdtpSignaling(h: nat, dir: Dir, p: seq<byte>)
      requires WellFormed(View().tracker)
      modifies this
      ensures View() == AvdtpSignal(old(View()), h, dir, p)
    {
      hide Answer, Capabilities;
      if |p| < 2 {
        return;
      }
      var tag := p[0] / 16;
      if p[0] / 4 % 4 != 0 {
        fragmented := fragmented + 1;
        return;
      }
      var signal := p[1] % 64;
      if signal != 3 && signal != 5 {
        return;
      }
      if p[0] % 4 != 0 {
        OnResponse(h, dir, tag, signal, p[0] % 4 == 2);
        return;
      }
      var cfg := ReadCapabilities(p[2..], if signal == 3 then 2 else 1);
      pending := pending[Key(h, dir, tag) := Pending(|log|, cfg, signal)];
      log := log + [Command(h, dir, tag, signal, cfg)];
    }

    method ReadCapabilities(d: seq<byte>, caps: nat) returns (cfg: Config)
      ensures cfg == Capabilities(NoCodec, d, caps)
    {
      cfg := NoCodec;
      var off := caps;
      while off + 2 <= |d|
        invariant Capabilities(cfg, d, off) == Capabilities(NoCodec, d, caps)
      {
        var losc: nat := d[off + 1];
        if off + 2 + losc > |d| {
          return;
        }
        if d[off] == 7 {
          cfg := Codec(d[off + 2..off + 2 + losc]);
        }
        off := off + 2 + losc;
      }
    }

    method OnConnectionResponse(h: nat, dir: Dir, id: byte, dcid: u16, scid: u16, result: u16)
      modifies this
      ensures View() == ConnectionResponse(old(View()), h, dir, id, dcid, scid, result)
    {
      var key := Key(h, Opposite(dir), id);
      if key in conns && result != 1 {
        if result == 0 && conns[key] == PSM_AVDTP {
          var ch := if key.dir.Out? then Channel(scid, dcid) else Channel(dcid, scid);
          channels := channels[h := ChannelsOf(View(), h) + [ch]];
        }
        conns := conns - {key};
      }
    }

    method OnDisconnectionRequest(h: nat, local: u16)
      requires WellFormed(View().tracker)
      modifies this
      ensures View() == Disconnection(old(View()), h, local)
    {
      var cs := ChannelsOf(View(), h);
      var i := 0;
      while i < |cs| && cs[i].local != local
        invariant 0 <= i <= |cs|
        invariant FindLocal(cs, local, i) == FindLocal(cs, local, 0)
      {
        i := i + 1;
      }
      if i < |cs| {
        if i != 0 {
          EndSession(h);
        }
        channels := channels[h := cs[..i] + cs[i + 1..]];
        log := log + [ChannelClosed(h, i == 0)];
      }
    }

    method OnSignal(h: nat, dir: Dir, code: byte, id: byte, d: seq<byte>)
      requires WellFormed(View().tracker)
      modifies this
      ensures View() == Signal(old(View()), h, dir, code, id, d)
    {
      hide ConnectionResponse, Disconnection, Le16;
      if code == 2 && |d| >= 4 {
        conns := conns[Key(h, dir, id) := Le16(d, 0)];
      } else if code == 3 && |d| >= 8 {
        OnConnectionResponse(h, dir, id, Le16(d, 0), Le16(d, 2), Le16(d, 4));
      } else if code == 6 && |d| >= 4 {
        OnDisconnectionRequest(h, if dir.Out? then Le16(d, 2) else Le16(d, 0));
      }
    }

    method OnL2capSignaling(h: nat, dir: Dir, p: seq<byte>)
      requires WellFormed(View().tracker)
      modifies this
      ensures View() == Signals(old(View()), h, dir, p, 0)
    {
      hide Signal, Le16;
      var off := 0;
      while off + 4 <= |p|
        invariant WellFormed(View().tracker)
        invariant Signals(View(), h, dir, p, off) == Signals(old(View()), h, dir, p, 0)
      {
        var len: nat := Le16(p, off + 2);
        if off + 4 + len > |p| {
          break;
        }
        OnSignal(h, dir, p[off], p[off + 1], p[off + 4..off + 4 + len]);
        off := off + 4 + len;
      }
    }

    method OnFrame(h: nat, dir: Dir, cid: u16, p: seq<byte>)
      requires WellFormed(View().tracker)
      modifies this
      ensures View() == OnL2cap(old(View()), mediaDir, h, dir, cid, p)
    {
      hide Signals, AvdtpSignal;
      if cid == 1 {
        OnL2capSignaling(h, dir, p);
        return;
      }
      var cs := ChannelsOf(View(), h);
      var i := 0;
      while i < |cs| && CidOf(cs[i], dir) != cid
        invariant 0 <= i <= |cs|
        invariant FindCid(cs, dir, cid, i) == FindCid(cs, dir, cid, 0)
      {
        i := i + 1;
      }
      if i == |cs| {
        return;
      }
      if i == 0 {
        OnAvdtpSignaling(h, dir, p);
      } else if dir == mediaDir {
        OnMedia(h, p);
      } else {
        mediaIn := mediaIn + 1;
      }
    }

    method OnMedia(h: nat, p: seq<byte>)
      requires WellFormed(View().tracker)
      modifies this
      ensures View() == Emit(old(View()), Media(h, p))
    {
      if h in active {
        var n := active[h];
        sessions := sessions[n := sessions[n].(packets := sessions[n].packets + [p])];
      }
      log := log + [Media(h, p)];
    }

    method OnDisconnected(h: nat)
      requires WellFormed(View().tracker)
      modifies this
      ensures View() == OnDisconnect(old(View()), h)
    {
      EndSession(h);
      channels := channels[h := []];
      log := log + [LinkGone(h)];
    }

    /** The end of the capture: whatever it held, every session has then been finished exactly once. */
    method Finish(ghost inputs: seq<Input>)
      requires View() == After(mediaDir, inputs)
      modifies this
      ensures |sessions| == |old(sessions)| && forall h :: h !in active
      ensures forall n :: 0 <= n < |sessions| ==> sessions[n] == old(sessions)[n].(finished := 1)
    {
      hide After, Track, Exact, FinishSession, ActiveInv, Progress;
      CaptureConsistent(mediaDir, inputs);
      SessionsExactly(mediaDir, inputs);
      TrackerInv(log);
      FinishedAtMostOnce(View());
      ghost var start := sessions;
      ProgressStarts(start);
      while exists h :: h in active
        invariant WellFormed(View().tracker) && ActiveInv(View().tracker) && Progress(start, sessions)
        decreases |active|
      {
        var h :| h in active;
        FinishProgress(start, View().tracker, h);
        EndSession(h);
      }
      ProgressEnds(start, View().tracker);
    }
  }

  /** Sessions on the way to their end: each is as it was, or finished once. */
  predicate Progress(start: seq<Session>, now: seq<Session>) {
    && |now| == |start|
    && forall n :: 0 <= n < |now| ==>
                     now[n] == start[n] || (start[n].finished == 0 && now[n] == start[n].(finished := 1))
  }

  lemma ProgressStarts(start: seq<Session>)
    ensures Progress(start, start)
  {
  }

  lemma FinishProgress(start: seq<Session>, t: Tracker, h: nat)
    requires WellFormed(t) && ActiveInv(t) && h in t.active && Progress(start, t.sessions)
    ensures var t' := FinishSession(t, h);
            Progress(start, t'.sessions) && ActiveInv(t') && |t'.active| < |t.active|
  {
    hide FinishSession, ActiveInv;
    FinishKeepsActive(t, h);
    FinishShrinks(t, h);
    forall n | 0 <= n < |t.sessions|
      ensures var s, s' := t.sessions[n], FinishSession(t, h).sessions[n];
              s' == if s.finished == 0 && s.handle == h then s.(finished := 1) else s
    {
      FinishEffect(t, h, n);
    }
  }

  lemma ProgressEnds(start: seq<Session>, t: Tracker)
    requires WellFormed(t) && ActiveInv(t) && Progress(start, t.sessions) && forall h :: h !in t.active
    requires forall n :: 0 <= n < |start| ==> start[n].finished <= 1
    ensures |t.sessions| == |start|
    ensures forall n :: 0 <= n < |t.sessions| ==> t.sessions[n] == start[n].(finished := 1)
  {
  }

  lemma FinishedAtMostOnce(a: Analysis)
    requires AllExact(a.log, a.tracker)
    ensures forall n :: 0 <= n < |a.tracker.sessions| ==> a.tracker.sessions[n].finished <= 1
  {
    hide EndedSince, MediaSince, Accepts;
    forall n | 0 <= n < |a.tracker.sessions|
      ensures a.tracker.sessions[n].finished <= 1
    {
      assert Exact(a.log, a.tracker.sessions[n]);
    }
  }

  lemma FinishShrinks(t: Tracker, h: nat)
    requires WellFormed(t) && h in t.active
    ensures |FinishSession(t, h).active| < |t.active|
  {
    var m := t.active - {h};
    assert t.active == m[h := t.active[h]];
  }
}
