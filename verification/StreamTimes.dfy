/** The measuring sink's clock and buffer against references made from the packets alone
    (tools/linux_sink/bluecaster_sink.py, `StreamStats._on_packet` and `_timing`): when the source paused, what
    rate each packet was played at, and when the buffer ran out. */
module StreamTimes {
  import opened Bytes
  import opened Options
  import opened StreamStats
  import Rtp

  // ---- Arrivals: a reading of the steps ----

  /** When the last packet since the last START came, valid or not. */
  function LastT(steps: seq<Step>): Option<real> {
    if steps == [] || steps[|steps| - 1].Start? then None else Some(steps[|steps| - 1].t)
  }

  /** The last step is a packet more than 3 s after the one before it. */
  predicate IsPause(steps: seq<Step>) {
    && steps != [] && steps[|steps| - 1].Packet?
    && var before := LastT(steps[..|steps| - 1]);
    before.Some? && steps[|steps| - 1].t - before.value > 3.0
  }

  function Pauses(steps: seq<Step>): nat {
    if steps == [] then 0 else Pauses(steps[..|steps| - 1]) + if IsPause(steps) then 1 else 0
  }

  /** When the first packet since the last START or pause came. */
  function FirstT(steps: seq<Step>): Option<real> {
    if LastT(steps).None? then None
    else if LastT(steps[..|steps| - 1]).None? || IsPause(steps) then Some(steps[|steps| - 1].t)
    else FirstT(steps[..|steps| - 1])
  }

  /** A packet's payload, if it is valid. */
  function PayloadOf(cfg: Config, data: seq<byte>): Option<seq<byte>> {
    if !cfg.HasRtp() then Some(data)
    else match Rtp.Strip(data) case Invalid => None case Packet(_, _, payload) => Some(payload)
  }

  datatype Audio = Audio(t: real, length: real)

  /** The valid packets since the last START or pause, with their audio in seconds. */
  function Heard(cfg: Config, steps: seq<Step>): seq<Audio>
    requires cfg.sampleRate > 0
  {
    if LastT(steps).None? then []
    else
      var step := steps[|steps| - 1];
      var before := if IsPause(steps) then [] else Heard(cfg, steps[..|steps| - 1]);
      var payload := PayloadOf(cfg, step.data);
      if payload.None? then before
      else
        before + [Audio(step.t, AudioOf(cfg.codec, payload.value, step.other) as real / cfg.sampleRate as real)]
  }

  function Packets(steps: seq<Step>): nat {
    if steps == [] then 0 else Packets(steps[..|steps| - 1]) + if steps[|steps| - 1].Packet? then 1 else 0
  }

  /** The samples of all valid packets. */
  function Samples(cfg: Config, steps: seq<Step>): nat {
    if steps == [] then 0
    else
      var step := steps[|steps| - 1];
      var payload := if step.Packet? then PayloadOf(cfg, step.data) else None;
      Samples(cfg, steps[..|steps| - 1])
      + if payload.None? then 0 else AudioOf(cfg.codec, payload.value, step.other)
  }

  /** Over every run, all packets are counted, and the samples of the valid ones; a START keeps both. */
  lemma {:induction false} TotalsExactly(cfg: Config, steps: seq<Step>)
    ensures var s := After(cfg, NEW, steps); s.packets == Packets(steps) && s.samples == Samples(cfg, steps)
  {
    hide Apply, AudioOf;
    if steps == [] {
    } else {
      TotalsExactly(cfg, steps[..|steps| - 1]);
      StepTotals(cfg, After(cfg, NEW, steps[..|steps| - 1]), steps[|steps| - 1]);
    }
  }

  lemma StepTotals(cfg: Config, s: Stats, step: Step)
    requires s.play.rate > 0.0
    ensures var s' := Apply(cfg, s, step);
            var payload := if step.Packet? then PayloadOf(cfg, step.data) else None;
            && s'.packets == s.packets + (if step.Packet? then 1 else 0)
            && s'.samples == s.samples
                             + if payload.None? then 0 else AudioOf(cfg.codec, payload.value, step.other)
  {
    hide Rtp.Strip, Rtp.Count, AudioOf, Timing;
  }

  // ---- Rates: a reading of the packets ----

  /** The reference packet: the first one at least 2 s after the epoch's first arrival. */
  function Reference(first: real, xs: seq<Audio>): Option<nat> {
    if xs == [] then None
    else
      var before := Reference(first, xs[..|xs| - 1]);
      if before.Some? then before else if xs[|xs| - 1].t - first >= 2.0 then Some(|xs| - 1) else None
  }

  /** The audio of the packets from i on. */
  function AudioFrom(xs: seq<Audio>, i: nat): real {
    if |xs| <= i then 0.0 else AudioFrom(xs[..|xs| - 1], i) + xs[|xs| - 1].length
  }

  function Ratio(a: real, b: real): real
    requires b > 0.0
  {
    a / b
  }

  function Limited(r: real): real { if r < 0.9995 then 0.9995 else if r > 1.0005 then 1.0005 else r }

  /** The rate the last packet is played at: 1 until a packet 10 s after the reference, then the audio of the
      packets after the reference by the time since it, within 500 ppm of 1. */
  function RateAt(first: real, xs: seq<Audio>): real {
    if xs == [] then 1.0
    else
      var front, x := xs[..|xs| - 1], xs[|xs| - 1];
      var r := Reference(first, front);
      if r.Some? && r.value < |xs| && x.t - xs[r.value].t >= 10.0
      then Limited(Ratio(AudioFrom(xs, r.value + 1), x.t - xs[r.value].t))
      else RateAt(first, front)
  }

  // ---- The buffer: a reading of the packets ----

  function Min(a: real, b: real): real { if a < b then a else b }

  lemma {:induction false} RateAtOk(first: real, xs: seq<Audio>)
    ensures RateOk(RateAt(first, xs))
  {
    if xs == [] {
    } else {
      RateAtOk(first, xs[..|xs| - 1]);
    }
  }

  /** How long the last packet's audio plays. */
  function Length(first: real, xs: seq<Audio>): real
    requires xs != []
  {
    RateAtOk(first, xs);
    xs[|xs| - 1].length / RateAt(first, xs)
  }

  /** When the buffered audio runs out: a buffer after the packet if it was dry before; else later by the
      packet's audio, but not by more than twice the buffer after the packet. */
  function EndAt(first: real, buffer: real, xs: seq<Audio>): real
    requires xs != []
  {
    var t := xs[|xs| - 1].t;
    var length := Length(first, xs);
    if |xs| == 1 then t + buffer + length
    else
      var before := EndAt(first, buffer, xs[..|xs| - 1]);
      if before < t then t + buffer + length else Min(before + length, t + 2.0 * buffer)
  }

  function KindAt(first: real, buffer: real, xs: seq<Audio>): Kind
    requires xs != []
  {
    if |xs| == 1 then First
    else
      var t, before := xs[|xs| - 1].t, EndAt(first, buffer, xs[..|xs| - 1]);
      if before < t then Dry
      else if before + Length(first, xs) > t + 2.0 * buffer then Over
      else Fits
  }

  /** Silence: at each dry buffer, the time since it ran out and the refilling. */
  function Silence(first: real, buffer: real, xs: seq<Audio>): real {
    if xs == [] then 0.0
    else
      var front := xs[..|xs| - 1];
      Silence(first, buffer, front)
      + if KindAt(first, buffer, xs).Dry?
        then (xs[|xs| - 1].t - (if front == [] then 0.0 else EndAt(first, buffer, front))) + buffer else 0.0
  }

  /** Audio skipped: at each overflow, what is beyond twice the buffer. */
  function Skipped(first: real, buffer: real, xs: seq<Audio>): real {
    if xs == [] then 0.0
    else
      var front := xs[..|xs| - 1];
      Skipped(first, buffer, front)
      + if KindAt(first, buffer, xs).Over? && front != []
        then EndAt(first, buffer, front) + Length(first, xs) - (xs[|xs| - 1].t + 2.0 * buffer) else 0.0
  }

  // ---- The invariant ----

  function AudioOfPlayed(epoch: seq<Played>): seq<Audio> {
    seq(|epoch|, i requires 0 <= i < |epoch| => Audio(epoch[i].t, epoch[i].audio))
  }

  /** The measured rate and its reference are those of the packets xs. */
  ghost predicate Measured(p: Play, first: real, xs: seq<Audio>) {
    var r := Reference(first, xs);
    && p.rate == RateAt(first, xs) && p.audioRx == AudioFrom(xs, 0)
    && (p.rateRef.Some? <==> r.Some?)
    && (r.Some? ==> r.value < |xs| && p.rateRef.value == (xs[r.value].t, AudioFrom(xs[..r.value + 1], 0)))
  }

  ghost predicate Buffered(p: Play, first: real, buffer: real, xs: seq<Audio>) {
    && (xs == [] <==> p.playEnd.None?)
    && (xs != [] ==> p.playEnd == Some(EndAt(first, buffer, xs)))
    && p.underrunS == p.underrunS0 + Silence(first, buffer, xs)
    && p.overflowS == p.overflowS0 + Skipped(first, buffer, xs)
  }

  /** A packet of the epoch has the rate and kind of its moment. */
  ghost predicate Labelled(e: Played, first: real, buffer: real, xs: seq<Audio>) {
    xs != [] && e.rate == RateAt(first, xs) && e.kind == KindAt(first, buffer, xs)
  }

  ghost predicate AllLabelled(epoch: seq<Played>, first: real, buffer: real) {
    forall i :: 0 <= i < |epoch| ==> Labelled(epoch[i], first, buffer, AudioOfPlayed(epoch)[..i + 1])
  }

  ghost predicate PlayTimes(p: Play, first: real, buffer: real) {
    var xs := AudioOfPlayed(p.epoch);
    Measured(p, first, xs) && Buffered(p, first, buffer, xs) && AllLabelled(p.epoch, first, buffer)
  }

  // ---- One packet ----

  lemma {:induction false} AudioSplit(xs: seq<Audio>, i: nat)
    requires i <= |xs|
    ensures AudioFrom(xs, i) == AudioFrom(xs, 0) - AudioFrom(xs[..i], 0)
  {
    if i == |xs| {
      assert xs[..i] == xs;
    } else {
      var front := xs[..|xs| - 1];
      assert front[..i] == xs[..i];
      AudioSplit(front, i);
    }
  }

  lemma AudioOne(xs: seq<Audio>, x: Audio)
    ensures AudioFrom(xs + [x], 0) == AudioFrom(xs, 0) + x.length
  {
    assert (xs + [x])[..|xs|] == xs;
  }

  lemma ReferenceOne(first: real, xs: seq<Audio>, x: Audio)
    ensures var before := Reference(first, xs);
            Reference(first, xs + [x]) ==
            if before.Some? then before else if x.t - first >= 2.0 then Some(|xs|) else None
  {
    assert (xs + [x])[..|xs|] == xs;
  }

  lemma RateOne(first: real, xs: seq<Audio>, x: Audio)
    ensures var r := Reference(first, xs);
            RateAt(first, xs + [x]) ==
            if r.Some? && r.value < |xs| + 1 && x.t - (xs + [x])[r.value].t >= 10.0
            then Limited(Ratio(AudioFrom(xs + [x], r.value + 1), x.t - (xs + [x])[r.value].t))
            else RateAt(first, xs)
  {
    hide Ratio, Limited, AudioFrom, Reference;
    assert (xs + [x])[..|xs|] == xs;
  }

  lemma ClampIsLimited(r: real)
    ensures Clamp(r) == Limited(r)
  {
  }

  lemma MeasureIs(p: Play, first: real, xs: seq<Audio>, t: real, audio: real)
    requires Measured(p, first, xs)
    ensures Measured(Measure(p, Some(first), t, audio), first, xs + [Audio(t, audio)])
  {
    hide Reference, RateAt, AudioFrom, Clamp, Limited;
    var x := Audio(t, audio);
    var xs', r := xs + [x], Reference(first, xs);
    AudioOne(xs, x);
    ReferenceOne(first, xs, x);
    RateOne(first, xs, x);
    if r.Some? {
      assert xs'[..r.value + 1] == xs[..r.value + 1] && xs'[r.value] == xs[r.value];
      AudioSplit(xs', r.value + 1);
      if t - xs[r.value].t >= 10.0 {
        ClampIsLimited((AudioFrom(xs', 0) - AudioFrom(xs[..r.value + 1], 0)) / (t - xs[r.value].t));
      }
    } else {
      assert xs'[..|xs| + 1] == xs';
    }
  }

  lemma EndOne(first: real, buffer: real, xs: seq<Audio>, x: Audio)
    ensures var xs' := xs + [x];
            var length := Length(first, xs');
            && EndAt(first, buffer, xs') ==
               (if xs == [] then x.t + buffer + length
                else
                  var before := EndAt(first, buffer, xs);
                  if before < x.t then x.t + buffer + length else Min(before + length, x.t + 2.0 * buffer))
            && KindAt(first, buffer, xs') ==
               (if xs == [] then First
                else
                  var before := EndAt(first, buffer, xs);
                  if before < x.t then Dry else if before + length > x.t + 2.0 * buffer then Over else Fits)
  {
    hide Length;
    assert (xs + [x])[..|xs|] == xs;
  }

  lemma TotalsOne(first: real, buffer: real, xs: seq<Audio>, x: Audio)
    ensures var xs' := xs + [x];
            var kind := KindAt(first, buffer, xs');
            && Silence(first, buffer, xs') ==
               Silence(first, buffer, xs)
               + (if kind.Dry? then (x.t - (if xs == [] then 0.0 else EndAt(first, buffer, xs))) + buffer else 0.0)
            && Skipped(first, buffer, xs') ==
               Skipped(first, buffer, xs)
               + if kind.Over? && xs != []
                 then EndAt(first, buffer, xs) + Length(first, xs') - (x.t + 2.0 * buffer) else 0.0
  {
    hide Length, EndAt, KindAt;
    assert (xs + [x])[..|xs|] == xs;
  }

  lemma LengthIs(first: real, xs: seq<Audio>, x: Audio, rate: real)
    requires rate == RateAt(first, xs + [x])
    ensures rate > 0.0 && Length(first, xs + [x]) == x.length / rate
  {
    RateAtOk(first, xs + [x]);
  }

  /** The packet goes into the buffer as the reference says. */
  lemma BufferIs(p: Play, first: real, buffer: real, xs: seq<Audio>, t: real, audio: real)
    requires p.rate == RateAt(first, xs + [Audio(t, audio)]) && Buffered(p, first, buffer, xs)
    ensures p.rate > 0.0
    ensures var p', xs' := Buffer(p, buffer, t, audio), xs + [Audio(t, audio)];
            && Buffered(p', first, buffer, xs')
            && p'.epoch == p.epoch + [Played(t, audio, p.rate, KindAt(first, buffer, xs'))]
            && p'.rate == p.rate && p'.rateRef == p.rateRef && p'.audioRx == p.audioRx
  {
    hide RateAt, Length, EndAt, KindAt, Silence, Skipped;
    var x := Audio(t, audio);
    LengthIs(first, xs, x, p.rate);
    EndOne(first, buffer, xs, x);
    TotalsOne(first, buffer, xs, x);
    if xs == [] {
      NoTotals(first, buffer, xs);
    }
  }

  lemma NoTotals(first: real, buffer: real, xs: seq<Audio>)
    requires xs == []
    ensures Silence(first, buffer, xs) == 0.0 && Skipped(first, buffer, xs) == 0.0
  {
  }

  lemma PlayedOne(epoch: seq<Played>, e: Played)
    ensures AudioOfPlayed(epoch + [e]) == AudioOfPlayed(epoch) + [Audio(e.t, e.audio)]
  {
  }

  lemma LabelledOne(epoch: seq<Played>, e: Played, first: real, buffer: real)
    requires AllLabelled(epoch, first, buffer)
    requires Labelled(e, first, buffer, AudioOfPlayed(epoch) + [Audio(e.t, e.audio)])
    ensures AllLabelled(epoch + [e], first, buffer)
  {
    hide Labelled, AudioOfPlayed;
    PlayedOne(epoch, e);
    var xs, xs' := AudioOfPlayed(epoch), AudioOfPlayed(epoch + [e]);
    PlayedLength(epoch);
    forall i | 0 <= i < |epoch| + 1
      ensures Labelled((epoch + [e])[i], first, buffer, xs'[..i + 1])
    {
      if i < |epoch| {
        assert xs'[..i + 1] == xs[..i + 1];
      } else {
        assert xs'[..i + 1] == xs';
      }
    }
  }

  lemma PlayedLength(epoch: seq<Played>)
    ensures |AudioOfPlayed(epoch)| == |epoch|
  {
  }

  lemma TimingIs(p: Play, first: real, buffer: real, t: real, audio: real)
    requires PlayTimes(p, first, buffer)
    ensures p.rate > 0.0
    ensures var p' := Timing(p, Some(first), buffer, t, audio);
            PlayTimes(p', first, buffer) && AudioOfPlayed(p'.epoch) == AudioOfPlayed(p.epoch) + [Audio(t, audio)]
  {
    hide Measured, Buffered, AllLabelled, AudioOfPlayed, Measure, Buffer;
    var xs := AudioOfPlayed(p.epoch);
    var xs' := xs + [Audio(t, audio)];
    MeasuredRate(p, first, xs);
    MeasureIs(p, first, xs, t, audio);
    var p1 := Measure(p, Some(first), t, audio);
    MeasuredRate(p1, first, xs');
    MeasureKeeps(p, Some(first), t, audio);
    BufferedSame(p, p1, first, buffer, xs);
    BufferIs(p1, first, buffer, xs, t, audio);
    var p2 := Buffer(p1, buffer, t, audio);
    var e := Played(t, audio, p1.rate, KindAt(first, buffer, xs'));
    PlayedOne(p.epoch, e);
    LabelledOne(p.epoch, e, first, buffer);
    MeasuredSame(p1, p2, first, xs');
  }

  lemma MeasuredRate(p: Play, first: real, xs: seq<Audio>)
    requires Measured(p, first, xs)
    ensures p.rate == RateAt(first, xs) && p.rate > 0.0
  {
    RateAtOk(first, xs);
  }

  lemma MeasureKeeps(p: Play, firstT: Option<real>, t: real, audio: real)
    ensures var p' := Measure(p, firstT, t, audio);
            && p'.epoch == p.epoch && p'.playEnd == p.playEnd && p'.underrunS == p.underrunS
            && p'.underrunS0 == p.underrunS0 && p'.overflowS == p.overflowS && p'.overflowS0 == p.overflowS0
  {
    hide Clamp;
  }

  lemma BufferedSame(p: Play, p': Play, first: real, buffer: real, xs: seq<Audio>)
    requires Buffered(p, first, buffer, xs)
    requires && p'.playEnd == p.playEnd && p'.underrunS == p.underrunS && p'.underrunS0 == p.underrunS0
             && p'.overflowS == p.overflowS && p'.overflowS0 == p.overflowS0
    ensures Buffered(p', first, buffer, xs)
  {
  }

  lemma MeasuredSame(p: Play, p': Play, first: real, xs: seq<Audio>)
    requires Measured(p, first, xs) && p'.rate == p.rate && p'.rateRef == p.rateRef && p'.audioRx == p.audioRx
    ensures Measured(p', first, xs)
  {
  }

  /** A new epoch, whatever its first arrival. */
  lemma RestartIs(p: Play, first: real, buffer: real)
    ensures PlayTimes(Restart(p), first, buffer)
  {
  }

  lemma EmptyIs(p: Play, first: real, first': real, buffer: real)
    requires PlayTimes(p, first, buffer) && p.epoch == []
    ensures PlayTimes(p, first', buffer)
  {
  }

  // ---- Over runs ----

  /** The stream's state is what the steps say. */
  ghost predicate Told(cfg: Config, steps: seq<Step>, s: Stats)
    requires cfg.sampleRate > 0
  {
    && s.lastT == LastT(steps) && s.firstT == FirstT(steps) && s.pauses == Pauses(steps)
    && AudioOfPlayed(s.play.epoch) == Heard(cfg, steps)
    && PlayTimes(s.play, s.firstT.GetOr(0.0), cfg.buffer)
  }

  lemma FirstIsLast(steps: seq<Step>)
    ensures FirstT(steps).None? <==> LastT(steps).None?
  {
    if LastT(steps).Some? && LastT(steps[..|steps| - 1]).Some? && !IsPause(steps) {
      FirstIsLast(steps[..|steps| - 1]);
    }
  }

  lemma HeardNothing(cfg: Config, steps: seq<Step>)
    requires cfg.sampleRate > 0 && LastT(steps).None?
    ensures Heard(cfg, steps) == [] && FirstT(steps) == None
  {
  }

  lemma StartTold(cfg: Config, steps: seq<Step>, s: Stats)
    requires cfg.sampleRate > 0 && Told(cfg, steps, s)
    ensures Told(cfg, steps + [Start], OnStart(s))
  {
    hide PlayTimes, Heard, FirstT;
    var steps' := steps + [Start];
    assert steps'[..|steps|] == steps && steps'[|steps|] == Start;
    HeardNothing(cfg, steps');
    RestartIs(s.play, 0.0, cfg.buffer);
  }

  /** A packet's arrival, before it is looked at. */
  lemma ArriveTold(cfg: Config, steps: seq<Step>, s: Stats, step: Step)
    requires cfg.sampleRate > 0 && Told(cfg, steps, s) && step.Packet?
    ensures var s1, steps' := Arrive(s, step.t), steps + [step];
            && s1.lastT == LastT(steps') && s1.firstT == FirstT(steps') && s1.firstT.Some?
            && s1.pauses == Pauses(steps')
            && PlayTimes(s1.play, s1.firstT.value, cfg.buffer)
            && AudioOfPlayed(s1.play.epoch) == if IsPause(steps') then [] else Heard(cfg, steps)
  {
    hide PlayTimes, Heard;
    var steps' := steps + [step];
    assert steps'[..|steps|] == steps && steps'[|steps|] == step;
    FirstIsLast(steps);
    RestartIs(s.play, step.t, cfg.buffer);
    NoEpoch(s.play);
    if s.lastT.None? {
      HeardNothing(cfg, steps);
      EmptyIs(s.play, 0.0, step.t, cfg.buffer);
    }
  }

  lemma NoEpoch(p: Play)
    ensures AudioOfPlayed(Restart(p).epoch) == [] && (AudioOfPlayed(p.epoch) == [] ==> p.epoch == [])
  {
  }

  lemma HeardOne(cfg: Config, steps: seq<Step>, step: Step)
    requires cfg.sampleRate > 0 && step.Packet?
    ensures var before := if IsPause(steps + [step]) then [] else Heard(cfg, steps);
            var payload := PayloadOf(cfg, step.data);
            Heard(cfg, steps + [step]) ==
            if payload.None? then before
            else
              before + [Audio(step.t, AudioOf(cfg.codec, payload.value, step.other) as real / cfg.sampleRate as real)]
  {
    hide AudioOf, PayloadOf, IsPause;
    assert (steps + [step])[..|steps|] == steps;
  }

  lemma PacketTold(cfg: Config, steps: seq<Step>, s: Stats, step: Step)
    requires cfg.sampleRate > 0 && Told(cfg, steps, s) && step.Packet? && s.play.rate > 0.0
    ensures Told(cfg, steps + [step], OnPacket(cfg, s, step.t, step.data, step.other))
  {
    hide PlayTimes, Heard, FirstT, IsPause, Arrive, AudioOf, Timing, Rtp.Strip, Rtp.Count, Pauses, LastT, AudioOfPlayed;
    var s1 := Arrive(s, step.t);
    ArriveTold(cfg, steps, s, step);
    HeardOne(cfg, steps, step);
    var payload := PayloadOf(cfg, step.data);
    if payload.Some? {
      var length := AudioOf(cfg.codec, payload.value, step.other) as real / cfg.sampleRate as real;
      TimingIs(s1.play, s1.firstT.value, cfg.buffer, step.t, length);
    }
  }

  /** Over every run: pauses, the epoch's packets, the rate and kind of each, the buffer's end, silence and
      audio skipped are what the steps say. */
  lemma {:induction false} RunsAreTold(cfg: Config, steps: seq<Step>)
    requires cfg.sampleRate > 0
    ensures Told(cfg, steps, After(cfg, NEW, steps))
  {
    hide Told, Apply;
    if steps == [] {
      NothingTold(cfg);
    } else {
      var front, step := steps[..|steps| - 1], steps[|steps| - 1];
      assert steps == front + [step];
      RunsAreTold(cfg, front);
      StepTold(cfg, front, After(cfg, NEW, front), step);
    }
  }

  lemma StepTold(cfg: Config, steps: seq<Step>, s: Stats, step: Step)
    requires cfg.sampleRate > 0 && Told(cfg, steps, s) && s.play.rate > 0.0
    ensures Told(cfg, steps + [step], Apply(cfg, s, step))
  {
    hide Told, OnStart, OnPacket;
    match step
    case Start => StartTold(cfg, steps, s);
    case Packet(_, _, _) => PacketTold(cfg, steps, s, step);
  }

  lemma NothingTold(cfg: Config)
    requires cfg.sampleRate > 0
    ensures Told(cfg, [], NEW)
  {
    RestartIs(QUIET, 0.0, cfg.buffer);
    hide PlayTimes;
  }

  // ---- Results ----

  /** Over every run, from the steps alone: the pauses; the packets of the epoch; for each of them the rate it
      was played at and how it met the buffer; when the buffer runs out; and the silence and the audio skipped
      since the epoch began. */
  lemma PlayoutExactly(cfg: Config, steps: seq<Step>)
    requires cfg.sampleRate > 0
    ensures var s, xs := After(cfg, NEW, steps), Heard(cfg, steps);
            var first := FirstT(steps).GetOr(0.0);
            && s.pauses == Pauses(steps) && |s.play.epoch| == |xs|
            && (forall i :: 0 <= i < |xs| ==>
                              && s.play.epoch[i].t == xs[i].t && s.play.epoch[i].audio == xs[i].length
                              && s.play.epoch[i].rate == RateAt(first, xs[..i + 1])
                              && s.play.epoch[i].kind == KindAt(first, cfg.buffer, xs[..i + 1]))
            && s.play.playEnd == (if xs == [] then None else Some(EndAt(first, cfg.buffer, xs)))
            && s.play.underrunS - s.play.underrunS0 == Silence(first, cfg.buffer, xs)
            && s.play.overflowS - s.play.overflowS0 == Skipped(first, cfg.buffer, xs)
  {
    hide After, Heard, FirstT, Pauses, RateAt, KindAt, EndAt, Silence, Skipped, Measured;
    RunsAreTold(cfg, steps);
    var s := After(cfg, NEW, steps);
    assert forall i :: 0 <= i < |s.play.epoch| ==>
             Labelled(s.play.epoch[i], s.firstT.GetOr(0.0), cfg.buffer, AudioOfPlayed(s.play.epoch)[..i + 1]);
  }

  /** A sender within 500 ppm of our clock, whose audio since the reference is `rate` times the time dt since
      it, is measured at its own rate. */
  lemma SteadySender(first: real, xs: seq<Audio>, r: nat, rate: real, dt: real)
    requires xs != [] && Reference(first, xs[..|xs| - 1]) == Some(r) && r < |xs|
    requires dt == xs[|xs| - 1].t - xs[r].t >= 10.0 && 0.9995 <= rate <= 1.0005
    requires AudioFrom(xs, r + 1) == rate * dt
    ensures RateAt(first, xs) == rate
  {
    hide Ratio, AudioFrom, Reference;
    RatioIs(AudioFrom(xs, r + 1), rate, dt);
  }

  lemma RatioIs(a: real, rate: real, dt: real)
    requires dt > 0.0 && a == rate * dt
    ensures Ratio(a, dt) == rate
  {
  }

  /** The reference is at least 2 s after the first arrival, and no packet before it is. */
  lemma {:induction false} ReferenceIs(first: real, xs: seq<Audio>)
    ensures var r := Reference(first, xs);
            && (r.Some? ==> r.value < |xs| && xs[r.value].t - first >= 2.0)
            && forall i :: 0 <= i < (if r.Some? then r.value else |xs|) ==> xs[i].t - first < 2.0
  {
    if xs == [] {
    } else {
      ReferenceIs(first, xs[..|xs| - 1]);
    }
  }
}
