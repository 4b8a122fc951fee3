/** A whole A2DP capture (tools/a2dp_decode/a2dp_decode.cpp, `Analyzer::on_record`): ACL records are reassembled
    and the frames tracked by the same object, so what a session gets is told from the records alone. */
module A2dpCapture {
  import opened Bytes
  import L2cap
  import Avdtp
  import AvdtpProofs
  import AvdtpChannels
  import AvdtpLog

  type Records = seq<L2cap.Record>

  /** An analyser of one capture file looks at no other. */
  predicate OneFile(records: Records) { forall i :: 0 <= i < |records| ==> records[i].file == 0 }

  function DirOf(inbound: bool): Avdtp.Dir { if inbound then Avdtp.In else Avdtp.Out }

  function KeyOf(h: nat, dir: Avdtp.Dir): L2cap.Key { L2cap.Key(0, h, dir.In?) }

  datatype State = State(rx: map<L2cap.Key, seq<byte>>, analysis: Avdtp.Analysis)

  const START := State(map[], Avdtp.START)

  function TrackAll(a: Avdtp.Analysis, mediaDir: Avdtp.Dir, h: nat, dir: Avdtp.Dir, fs: seq<L2cap.Frame>)
      : (a': Avdtp.Analysis)
    requires Avdtp.WellFormed(a.tracker)
    ensures Avdtp.WellFormed(a'.tracker)
  {
    if fs == [] then a
    else
      var f := fs[|fs| - 1];
      Avdtp.OnL2cap(TrackAll(a, mediaDir, h, dir, fs[..|fs| - 1]), mediaDir, h, dir, f.cid, f.payload)
  }

  function Step(s: State, mediaDir: Avdtp.Dir, rec: L2cap.Record): (s': State)
    requires Avdtp.WellFormed(s.analysis.tracker)
    ensures Avdtp.WellFormed(s'.analysis.tracker)
  {
    match rec
    case AclRecord(file, inbound, p) =>
      var a := L2cap.ParseAcl(p);
      if a.NoAcl? then s
      else
        var k := L2cap.Key(file, a.handle, inbound);
        var r := L2cap.Receive(L2cap.Get(s.rx, k), a.pb == 1, a.data);
        State(s.rx[k := r.buf], TrackAll(s.analysis, mediaDir, a.handle, DirOf(inbound), r.out))
    case Disconnected(file, handle) =>
      State(s.rx - {L2cap.Key(file, handle, true), L2cap.Key(file, handle, false)},
            Avdtp.OnDisconnect(s.analysis, handle))
  }

  function After(mediaDir: Avdtp.Dir, records: Records): (s: State)
    ensures Avdtp.WellFormed(s.analysis.tracker)
  {
    if records == [] then START
    else Step(After(mediaDir, records[..|records| - 1]), mediaDir, records[|records| - 1])
  }

  // ---- The tracker's inputs ----

  function FrameInputs(h: nat, dir: Avdtp.Dir, fs: seq<L2cap.Frame>): seq<Avdtp.Input> {
    seq(|fs|, i requires 0 <= i < |fs| => Avdtp.L2capFrame(h, dir, fs[i].cid, fs[i].payload))
  }

  /** What one record makes the tracker see, given the reassembly before it. */
  function InputsOf(s: L2cap.State, rec: L2cap.Record): seq<Avdtp.Input> {
    match rec
    case AclRecord(file, inbound, p) =>
      var a := L2cap.ParseAcl(p);
      if a.NoAcl? then []
      else
        var r := L2cap.Receive(L2cap.Get(s.rx, L2cap.Key(file, a.handle, inbound)), a.pb == 1, a.data);
        FrameInputs(a.handle, DirOf(inbound), r.out)
    case Disconnected(_, handle) => [Avdtp.Disconnected(handle)]
  }

  function Inputs(records: Records): seq<Avdtp.Input> {
    if records == [] then []
    else
      var front := records[..|records| - 1];
      Inputs(front) + InputsOf(L2cap.After(front), records[|records| - 1])
  }

  lemma {:induction false} AfterFrames(mediaDir: Avdtp.Dir, inputs: seq<Avdtp.Input>, h: nat, dir: Avdtp.Dir,
                                       fs: seq<L2cap.Frame>)
    ensures Avdtp.After(mediaDir, inputs + FrameInputs(h, dir, fs)) ==
            TrackAll(Avdtp.After(mediaDir, inputs), mediaDir, h, dir, fs)
    decreases |fs|
  {
    hide Avdtp.OnL2cap;
    var more := FrameInputs(h, dir, fs);
    if fs == [] {
      assert inputs + more == inputs;
    } else {
      var n := |fs| - 1;
      assert (inputs + more)[..|inputs| + n] == inputs + FrameInputs(h, dir, fs[..n]);
      AfterFrames(mediaDir, inputs, h, dir, fs[..n]);
    }
  }

  /** The analysis of a capture is reassembly and then tracking. */
  lemma {:induction false} TwoStages(mediaDir: Avdtp.Dir, records: Records)
    ensures After(mediaDir, records) ==
            State(L2cap.After(records).rx, Avdtp.After(mediaDir, Inputs(records)))
    decreases |records|
  {
    hide L2cap.ParseAcl, L2cap.Receive, Avdtp.OnDisconnect, Avdtp.OnL2cap, FrameInputs, TrackAll;
    if records == [] {
    } else {
      var front, rec := records[..|records| - 1], records[|records| - 1];
      TwoStages(mediaDir, front);
      OneStage(mediaDir, Inputs(front), L2cap.After(front), rec);
    }
  }

  lemma OneStage(mediaDir: Avdtp.Dir, inputs: seq<Avdtp.Input>, s: L2cap.State, rec: L2cap.Record)
    ensures var s0 := State(s.rx, Avdtp.After(mediaDir, inputs));
            Step(s0, mediaDir, rec) ==
            State(L2cap.Step(s, rec).rx, Avdtp.After(mediaDir, inputs + InputsOf(s, rec)))
  {
    hide L2cap.ParseAcl, L2cap.Receive, Avdtp.OnDisconnect, FrameInputs, TrackAll;
    match rec
    case AclRecord(file, inbound, p) =>
      var a := L2cap.ParseAcl(p);
      if a.NoAcl? {
        assert inputs + [] == inputs;
      } else {
        var r := L2cap.Receive(L2cap.Get(s.rx, L2cap.Key(file, a.handle, inbound)), a.pb == 1, a.data);
        AfterFrames(mediaDir, inputs, a.handle, DirOf(inbound), r.out);
      }
    case Disconnected(_, handle) =>
      assert (inputs + [Avdtp.Disconnected(handle)])[..|inputs|] == inputs;
  }

  // ---- Streams ----

  /** The frames of one stream among the tracker's inputs. */
  function StreamFrames(h: nat, dir: Avdtp.Dir, inputs: seq<Avdtp.Input>): seq<L2cap.Frame> {
    if inputs == [] then []
    else
      var i := inputs[|inputs| - 1];
      StreamFrames(h, dir, inputs[..|inputs| - 1])
      + if i.L2capFrame? && i.handle == h && i.dir == dir then [L2cap.Frame(i.cid, i.payload)] else []
  }

  lemma StreamFramesMore(h: nat, dir: Avdtp.Dir, inputs: seq<Avdtp.Input>, h': nat, dir': Avdtp.Dir,
                         fs: seq<L2cap.Frame>)
    requires |fs| <= 1
    ensures StreamFrames(h, dir, inputs + FrameInputs(h', dir', fs)) ==
            StreamFrames(h, dir, inputs) + if h == h' && dir == dir' then fs else []
  {
    var more := FrameInputs(h', dir', fs);
    if fs == [] {
      assert inputs + more == inputs && StreamFrames(h, dir, inputs) + [] == StreamFrames(h, dir, inputs);
    } else {
      assert fs == [fs[0]] && (inputs + more)[..|inputs|] == inputs;
    }
  }

  lemma {:induction false} StreamIs(records: Records, h: nat, dir: Avdtp.Dir)
    requires OneFile(records)
    ensures StreamFrames(h, dir, Inputs(records)) == L2cap.FramesOf(KeyOf(h, dir), L2cap.After(records).delivered)
    decreases |records|
  {
    hide L2cap.ParseAcl, L2cap.Receive, FrameInputs;
    if records == [] {
    } else {
      var front, rec := records[..|records| - 1], records[|records| - 1];
      StreamIs(front, h, dir);
      StreamStep(Inputs(front), L2cap.After(front), rec, h, dir);
    }
  }

  lemma StreamStep(inputs: seq<Avdtp.Input>, s: L2cap.State, rec: L2cap.Record, h: nat, dir: Avdtp.Dir)
    requires rec.file == 0 && StreamFrames(h, dir, inputs) == L2cap.FramesOf(KeyOf(h, dir), s.delivered)
    ensures StreamFrames(h, dir, inputs + InputsOf(s, rec)) ==
            L2cap.FramesOf(KeyOf(h, dir), L2cap.Step(s, rec).delivered)
  {
    hide L2cap.ParseAcl, L2cap.Receive, FrameInputs, L2cap.FramesOf, L2cap.Tagged;
    match rec
    case AclRecord(file, inbound, p) =>
      var a := L2cap.ParseAcl(p);
      if a.NoAcl? {
        assert inputs + [] == inputs;
      } else {
        hide StreamFrames;
        var k := L2cap.Key(file, a.handle, inbound);
        var r := L2cap.Receive(L2cap.Get(s.rx, k), a.pb == 1, a.data);
        L2cap.AtMostOne(L2cap.Get(s.rx, k), a.pb == 1, a.data);
        StreamFramesMore(h, dir, inputs, a.handle, DirOf(inbound), r.out);
        L2cap.FramesOfMore(KeyOf(h, dir), s.delivered, k, r.out);
      }
    case Disconnected(_, handle) =>
      assert (inputs + [Avdtp.Disconnected(handle)])[..|inputs|] == inputs;
      assert StreamFrames(h, dir, inputs) + [] == StreamFrames(h, dir, inputs);
  }

  // ---- What reaches sessions ----

  /** a is what is left of b when some of it is taken out. */
  predicate IsPart<T(==)>(a: seq<T>, b: seq<T>) {
    a == [] ||
    (b != []
     && (IsPart(a, b[..|b| - 1]) || (a[|a| - 1] == b[|b| - 1] && IsPart(a[..|a| - 1], b[..|b| - 1]))))
  }

  lemma {:induction false} PartGrows<T>(a: seq<T>, b: seq<T>, x: T)
    requires IsPart(a, b)
    ensures IsPart(a, b + [x]) && IsPart(a + [x], b + [x])
  {
    var b', a' := b + [x], a + [x];
    assert b'[..|b|] == b && a'[..|a|] == a;
  }

  lemma {:induction false} PartTrans<T>(a: seq<T>, b: seq<T>, c: seq<T>)
    requires IsPart(a, b) && IsPart(b, c)
    ensures IsPart(a, c)
    decreases |b| + |c|
  {
    if a == [] {
    } else {
      var b', c' := b[..|b| - 1], c[..|c| - 1];
      if IsPart(b, c') {
        PartTrans(a, b, c');
      } else if IsPart(a, b') {
        PartTrans(a, b', c');
      } else {
        PartTrans(a[..|a| - 1], b', c');
      }
    }
  }

  function Payloads(fs: seq<L2cap.Frame>): seq<seq<byte>> {
    if fs == [] then [] else Payloads(fs[..|fs| - 1]) + [fs[|fs| - 1].payload]
  }

  /** All media packets of a link in the history. */
  function MediaOf(h: nat, log: seq<Avdtp.Event>): seq<seq<byte>> {
    if log == [] then []
    else
      var e := log[|log| - 1];
      MediaOf(h, log[..|log| - 1]) + if e.Media? && e.handle == h then [e.data] else []
  }

  lemma {:induction false} SessionIsPart(h: nat, log: seq<Avdtp.Event>, i: nat)
    ensures IsPart(AvdtpProofs.MediaSince(log, i, h), MediaOf(h, log))
    decreases |log|
  {
    hide AvdtpProofs.EndedSince, IsPart;
    if |log| <= i {
      NonePart(MediaOf(h, log));
    } else {
      var front, e := log[..|log| - 1], log[|log| - 1];
      SessionIsPart(h, front, i);
      var a, b := AvdtpProofs.MediaSince(front, i, h), MediaOf(h, front);
      assert a + [] == a && b + [] == b;
      if e.Media? && e.handle == h {
        PartGrows(a, b, e.data);
      }
    }
  }

  lemma NonePart<T>(b: seq<T>)
    ensures IsPart([], b)
  {
  }

  lemma MediaOne(h: nat, log: seq<Avdtp.Event>, e: Avdtp.Event)
    ensures MediaOf(h, log + [e]) == MediaOf(h, log) + if e.Media? && e.handle == h then [e.data] else []
  {
    assert (log + [e])[..|log|] == log;
  }

  /** L2CAP signalling puts no media packet into the history. */
  lemma {:induction false} SignalsNoMedia(a: Avdtp.Analysis, h': nat, dir: Avdtp.Dir, p: seq<byte>, off: nat, h: nat)
    requires Avdtp.WellFormed(a.tracker)
    ensures MediaOf(h, Avdtp.Signals(a, h', dir, p, off).log) == MediaOf(h, a.log)
    decreases |p| - off
  {
    hide Avdtp.Signal, Le16, MediaOf;
    if off + 4 <= |p| {
      var len: nat := Le16(p, off + 2);
      if off + 4 + len <= |p| {
        var d := p[off + 4..off + 4 + len];
        SignalNoMedia(a, h', dir, p[off], p[off + 1], d, h);
        SignalsNoMedia(Avdtp.Signal(a, h', dir, p[off], p[off + 1], d), h', dir, p, off + 4 + len, h);
      }
    }
  }

  lemma SignalNoMedia(a: Avdtp.Analysis, h': nat, dir: Avdtp.Dir, code: byte, id: byte, d: seq<byte>, h: nat)
    requires Avdtp.WellFormed(a.tracker)
    ensures MediaOf(h, Avdtp.Signal(a, h', dir, code, id, d).log) == MediaOf(h, a.log)
  {
    hide MediaOf, Avdtp.Apply, Le16;
    forall e: Avdtp.Event | e.ChannelClosed?
      ensures MediaOf(h, a.log + [e]) == MediaOf(h, a.log)
    {
      MediaOne(h, a.log, e);
      assert MediaOf(h, a.log) + [] == MediaOf(h, a.log);
    }
  }

  predicate IsMedia(a: Avdtp.Analysis, mediaDir: Avdtp.Dir, input: Avdtp.Input, h: nat) {
    && input.L2capFrame? && input.handle == h && input.dir == mediaDir && input.cid != 1
    && AvdtpChannels.NamesMedia(Avdtp.ChannelsOf(a, h), mediaDir, input.cid)
  }

  /** An input adds its payload to a link's media packets exactly if it is a media packet of the link. */
  lemma MediaStep(a: Avdtp.Analysis, mediaDir: Avdtp.Dir, input: Avdtp.Input, h: nat)
    requires Avdtp.WellFormed(a.tracker)
    ensures MediaOf(h, Avdtp.Step(a, mediaDir, input).log) ==
            MediaOf(h, a.log) + if IsMedia(a, mediaDir, input, h) then [input.payload] else []
  {
    hide MediaOf, Avdtp.Apply, Avdtp.Signals, Avdtp.Capabilities, AvdtpChannels.NamesMedia;
    var m := MediaOf(h, a.log);
    assert m + [] == m;
    forall e: Avdtp.Event
      ensures MediaOf(h, a.log + [e]) == m + if e.Media? && e.handle == h then [e.data] else []
    {
      MediaOne(h, a.log, e);
    }
    if input.L2capFrame? {
      SignalsNoMedia(a, input.handle, input.dir, input.payload, 0, h);
      AvdtpChannels.NamesMediaIs(Avdtp.ChannelsOf(a, input.handle), input.dir, input.cid);
    }
  }

  /** The media packets in a link's history are exactly the frames the signalling makes media packets. */
  lemma {:induction false} MediaIsFrames(mediaDir: Avdtp.Dir, inputs: seq<Avdtp.Input>, h: nat)
    ensures MediaOf(h, Avdtp.After(mediaDir, inputs).log) == AvdtpChannels.MediaFrames(mediaDir, inputs, h)
    decreases |inputs|
  {
    hide MediaOf, Avdtp.Step, AvdtpChannels.NamesMedia, AvdtpChannels.OpenNow, AvdtpChannels.ChannelList;
    hide AvdtpChannels.Signalling;
    if inputs == [] {
      NoMediaYet(h);
    } else {
      var front, input := inputs[..|inputs| - 1], inputs[|inputs| - 1];
      MediaIsFrames(mediaDir, front, h);
      MediaStep(Avdtp.After(mediaDir, front), mediaDir, input, h);
      AvdtpChannels.ChannelsExactly(mediaDir, front, h);
    }
  }

  lemma {:induction false} MediaIsPart(mediaDir: Avdtp.Dir, inputs: seq<Avdtp.Input>, h: nat)
    ensures IsPart(MediaOf(h, Avdtp.After(mediaDir, inputs).log), Payloads(StreamFrames(h, mediaDir, inputs)))
    decreases |inputs|
  {
    hide MediaOf, IsPart, Avdtp.Step;
    if inputs == [] {
      NoMediaYet(h);
      NonePart(Payloads([]));
    } else {
      var front, input := inputs[..|inputs| - 1], inputs[|inputs| - 1];
      MediaIsPart(mediaDir, front, h);
      var a, fs := Avdtp.After(mediaDir, front), StreamFrames(h, mediaDir, front);
      MediaStep(a, mediaDir, input, h);
      assert fs + [] == fs && MediaOf(h, a.log) + [] == MediaOf(h, a.log);
      if input.L2capFrame? && input.handle == h && input.dir == mediaDir {
        var f := L2cap.Frame(input.cid, input.payload);
        assert (fs + [f])[..|fs|] == fs;
        PartGrows(MediaOf(h, a.log), Payloads(fs), input.payload);
      }
    }
  }

  lemma NoMediaYet(h: nat)
    ensures MediaOf(h, []) == []
  {
  }

  // ---- The result ----

  /** Over every capture of ACL records, however the streams are cut and interleaved: a link's part of the
      history is exactly what its frames say; each session is exact against the history, and every accepted
      configuration has its session; the media packets of a link are exactly the frames its signalling makes
      media packets; and what a session of a link got is made of the payloads of frames that were sent whole on
      the link in the media direction, in their order, byte for byte. */
  lemma CaptureExactly(mediaDir: Avdtp.Dir, records: Records, h: nat, strays: seq<seq<byte>>, sents: seq<L2cap.Sent>)
    requires OneFile(records)
    requires L2cap.Project(KeyOf(h, mediaDir), records) == L2cap.Continuing(strays) + L2cap.Items(sents)
    requires forall i :: 0 <= i < |sents| ==> L2cap.Valid(sents[i])
    ensures var a := After(mediaDir, records).analysis;
            && AvdtpLog.EventsOf(h, a.log) == AvdtpLog.History(mediaDir, Inputs(records), h)
            && MediaOf(h, a.log) == AvdtpChannels.MediaFrames(mediaDir, Inputs(records), h)
            && (forall n :: 0 <= n < |a.tracker.sessions| ==> AvdtpProofs.Exact(a.log, a.tracker.sessions[n]))
            && (forall i :: AvdtpProofs.Starts(a.log, i) ==>
                              exists n :: 0 <= n < |a.tracker.sessions| && a.tracker.sessions[n].at == i)
            && (forall n :: 0 <= n < |a.tracker.sessions| && a.tracker.sessions[n].handle == h ==>
                              IsPart(a.tracker.sessions[n].packets, Payloads(L2cap.Kept(sents))))
  {
    hide L2cap.Project, L2cap.Items, L2cap.Kept, L2cap.Valid, L2cap.Continuing, L2cap.FramesOf, L2cap.After;
    hide After, Avdtp.After, Inputs, StreamFrames, MediaOf, IsPart, Payloads;
    hide AvdtpChannels.MediaFrames, AvdtpProofs.Starts, AvdtpProofs.Accepts, AvdtpProofs.MediaSince;
    hide AvdtpProofs.EndedSince, AvdtpLog.EventsOf, AvdtpLog.History;
    TwoStages(mediaDir, records);
    var inputs := Inputs(records);
    var a := Avdtp.After(mediaDir, inputs);
    AvdtpProofs.SessionsExactly(mediaDir, inputs);
    StreamIs(records, h, mediaDir);
    L2cap.ReassemblyExactly(KeyOf(h, mediaDir), records, strays, sents);
    AvdtpLog.HistoryExactly(mediaDir, inputs, h);
    MediaIsFrames(mediaDir, inputs, h);
    MediaIsPart(mediaDir, inputs, h);
    forall n | 0 <= n < |a.tracker.sessions| && a.tracker.sessions[n].handle == h
      ensures IsPart(a.tracker.sessions[n].packets, Payloads(L2cap.Kept(sents)))
    {
      var s := a.tracker.sessions[n];
      assert AvdtpProofs.Exact(a.log, s);
      SessionIsPart(h, a.log, s.at + 1);
      PartTrans(s.packets, MediaOf(h, a.log), Payloads(L2cap.Kept(sents)));
    }
  }
}
