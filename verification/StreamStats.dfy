/** The measuring sink (tools/linux_sink/bluecaster_sink.py, `StreamStats`): packets of one configured
    stream, its pauses, RTP losses and the playout buffer model. Times are real seconds. LDAC and
    aptX samples are counted in the payload; those the other codecs' walkers count come with the packet. */
module StreamStats {
  import opened Options
  import opened Bytes
  import Rtp
  import Ldac

  const MAX_RATE_DEVIATION: real := 0.0005
  const MAX_BUFFER_FACTOR: real := 2.0
  const PAUSE_S: real := 3.0

  /** `Other`: SBC, FastStream, Opus and AAC. */
  datatype Codec = LdacCodec(ids: Ldac.Config) | Aptx(hd: bool) | Other(rtp: bool)

  datatype Config = Config(codec: Codec, sampleRate: nat, buffer: real) {
    /** Classic aptX, aptX LL and FastStream are sent without an RTP header. */
    function HasRtp(): bool {
      match codec
      case LdacCodec(_) => true
      case Aptx(hd) => hd
      case Other(rtp) => rtp
    }
  }

  /** The samples a payload adds. `other`: what the walker of another codec counts. */
  function AudioOf(codec: Codec, payload: seq<byte>, other: nat): nat {
    match codec
    case LdacCodec(ids) => Ldac.Check(ids, payload).samples
    case Aptx(hd) => |payload| / (if hd then 6 else 4) * 4
    case Other(_) => other
  }

  /** aptX has 4 samples in each whole unit of 4 bytes, aptX HD in each of 6. */
  lemma AptxSamples(hd: bool, payload: seq<byte>, units: nat, rest: nat, other: nat)
    requires |payload| == units * (if hd then 6 else 4) + rest && rest < if hd then 6 else 4
    ensures AudioOf(Aptx(hd), payload, other) == 4 * units
  {
  }

  predicate Proper(cfg: Config) { cfg.buffer >= 0.0 }

  /** How a packet met the buffer: as the first, after it ran dry, within it, or beyond its limit. */
  datatype Kind = First | Dry | Fits | Over

  datatype Played = Played(t: real, audio: real, rate: real, kind: Kind)

  datatype Play = Play(
    playEnd: Option<real>,               // when the buffered audio runs out
    rate: real, rateRef: Option<(real, real)>, audioRx: real, overflowing: bool,
    underruns: nat, underrunS: real, overflows: nat, overflowS: real,
    // history of the playout epoch: its packets, and the totals it began with
    epoch: seq<Played>, underrunS0: real, overflowS0: real, overflows0: nat, underruns0: nat)

  const QUIET := Play(None, 1.0, None, 0.0, false, 0, 0.0, 0, 0.0, [], 0.0, 0.0, 0, 0)

  function Restart(p: Play): Play {
    Play(None, 1.0, None, 0.0, false, p.underruns, p.underrunS, p.overflows, p.overflowS,
         [], p.underrunS, p.overflowS, p.overflows, p.underruns)
  }

  function Clamp(r: real): real {
    var low, high := 1.0 - MAX_RATE_DEVIATION, 1.0 + MAX_RATE_DEVIATION;
    var m := if r < low then low else r;
    if m > high then high else m
  }

  predicate RateOk(r: real) { 1.0 - MAX_RATE_DEVIATION <= r <= 1.0 + MAX_RATE_DEVIATION }

  /** The sender's clock, measured from 2 s into the stream and used after 10 s more. */
  function Measure(p: Play, firstT: Option<real>, t: real, audio: real): Play {
    var rx := p.audioRx + audio;
    if p.rateRef.None? then
      p.(audioRx := rx,
         rateRef := if firstT.Some? && t - firstT.value >= 2.0 then Some((t, rx)) else None)
    else if t - p.rateRef.value.0 >= 10.0 then
      p.(audioRx := rx, rate := Clamp((rx - p.rateRef.value.1) / (t - p.rateRef.value.0)))
    else p.(audioRx := rx)
  }

  function Buffer(p: Play, buffer: real, t: real, audio: real): Play
    requires p.rate > 0.0
  {
    var length := audio / p.rate;
    if p.playEnd.None? then
      p.(playEnd := Some(t + buffer + length), epoch := p.epoch + [Played(t, audio, p.rate, First)])
    else if t > p.playEnd.value then
      p.(underruns := p.underruns + 1,
         underrunS := p.underrunS + ((t - p.playEnd.value) + buffer),
         playEnd := Some(t + buffer + length),
         epoch := p.epoch + [Played(t, audio, p.rate, Dry)])
    else
      var excess := (p.playEnd.value + length - t) - MAX_BUFFER_FACTOR * buffer;
      if excess > 0.0 then
        p.(overflows := if p.overflowing then p.overflows else p.overflows + 1,
           overflowS := p.overflowS + excess,
           playEnd := Some(p.playEnd.value + length - excess),
           overflowing := true,
           epoch := p.epoch + [Played(t, audio, p.rate, Over)])
      else
        p.(playEnd := Some(p.playEnd.value + length), overflowing := false,
           epoch := p.epoch + [Played(t, audio, p.rate, Fits)])
  }

  // ---- The stream ----

  datatype Stats = Stats(
    packets: nat, samples: nat, pauses: nat, firstT: Option<real>, lastT: Option<real>, rtp: Rtp.Counters, play: Play)

  const NEW := Stats(0, 0, 0, None, None, Rtp.NONE, QUIET)

  datatype Step = Start | Packet(t: real, data: seq<byte>, other: nat)

  function OnStart(s: Stats): Stats {
    s.(firstT := None, lastT := None,
       rtp := s.rtp.(haveSeq := false, lastSeq := 0, lastTs := 0, samplesAtLastTs := 0),
       play := Restart(s.play))
  }

  /** A gap of more than PAUSE_S is a pause of the source: the playout starts over. */
  function Arrive(s: Stats, t: real): Stats {
    var s1 := s.(packets := s.packets + 1, lastT := Some(t));
    if s.lastT.None? then s1.(firstT := Some(t))
    else if t - s.lastT.value > PAUSE_S
    then s1.(pauses := s.pauses + 1, play := Restart(s.play), firstT := Some(t))
    else s1
  }

  function Decode(cfg: Config, s: Stats, t: real, audio: nat): Stats
    requires s.play.rate > 0.0
  {
    var s1 := s.(samples := s.samples + audio);
    if cfg.sampleRate == 0 then s1
    else
      var length := audio as real / cfg.sampleRate as real;
      s1.(play := Timing(s.play, s.firstT, cfg.buffer, t, length))
  }

  function Timing(p: Play, firstT: Option<real>, buffer: real, t: real, audio: real): Play
    requires p.rate > 0.0
  {
    MeasureKeepsRate(p, firstT, t, audio);
    Buffer(Measure(p, firstT, t, audio), buffer, t, audio)
  }

  lemma MeasureKeepsRate(p: Play, firstT: Option<real>, t: real, audio: real)
    requires p.rate > 0.0
    ensures Measure(p, firstT, t, audio).rate > 0.0
    ensures RateOk(p.rate) ==> RateOk(Measure(p, firstT, t, audio).rate)
  {
  }

  function OnPacket(cfg: Config, s: Stats, t: real, data: seq<byte>, other: nat): Stats
    requires s.play.rate > 0.0
  {
    var s1 := Arrive(s, t);
    if !cfg.HasRtp() then Decode(cfg, s1, t, AudioOf(cfg.codec, data, other))
    else
      match Rtp.Strip(data)
      case Invalid => s1
      case Packet(sn, ts, payload) =>
        Decode(cfg, s1.(rtp := Rtp.Count(s1.rtp, sn, ts, s1.samples)), t, AudioOf(cfg.codec, payload, other))
  }

  function Apply(cfg: Config, s: Stats, step: Step): Stats
    requires s.play.rate > 0.0
  {
    match step
    case Start => OnStart(s)
    case Packet(t, data, other) => OnPacket(cfg, s, t, data, other)
  }

  function After(cfg: Config, s: Stats, steps: seq<Step>): (s': Stats)
    requires RateOk(s.play.rate)
    ensures RateOk(s'.play.rate)
  {
    if steps == [] then s
    else
      var s1 := After(cfg, s, steps[..|steps| - 1]);
      RateKept(cfg, s1, steps[|steps| - 1]);
      Apply(cfg, s1, steps[|steps| - 1])
  }

  lemma RateKept(cfg: Config, s: Stats, step: Step)
    requires RateOk(s.play.rate)
    ensures RateOk(Apply(cfg, s, step).play.rate)
  {
    hide Buffer, Rtp.Strip, Rtp.Count, AudioOf;
    match step
    case Start =>
    case Packet(t, data, _) =>
      forall p: Play, firstT, length | RateOk(p.rate)
        ensures RateOk(Timing(p, firstT, cfg.buffer, t, length).rate)
      {
        MeasureKeepsRate(p, firstT, t, length);
        BufferKeepsRate(Measure(p, firstT, t, length), cfg.buffer, t, length);
      }
  }

  lemma BufferKeepsRate(p: Play, buffer: real, t: real, audio: real)
    requires p.rate > 0.0
    ensures Buffer(p, buffer, t, audio).rate == p.rate
  {
  }

  // ---- Playout: conservation and bounds ----

  function Sum(epoch: seq<Played>): real
    requires forall i :: 0 <= i < |epoch| ==> RateOk(epoch[i].rate)
  {
    if epoch == [] then 0.0
    else
      var e := epoch[|epoch| - 1];
      assert RateOk(e.rate);
      Sum(epoch[..|epoch| - 1]) + e.audio / e.rate
  }

  function Max(a: real, b: real): real { if a < b then b else a }

  ghost predicate Rates(epoch: seq<Played>) {
    forall i :: 0 <= i < |epoch| ==> RateOk(epoch[i].rate) && epoch[i].audio >= 0.0
  }

  /** The buffer's end is the epoch's start, the target buffer and all audio at its rate, plus the silence
      inserted, less the audio skipped. */
  ghost predicate Conserved(p: Play, buffer: real) {
    && Rates(p.epoch)
    && (p.epoch == [] <==> p.playEnd.None?)
    && (p.epoch == [] ==> p.underrunS == p.underrunS0 && p.overflowS == p.overflowS0)
    && (p.epoch != [] ==>
         p.playEnd.value == p.epoch[0].t + buffer + Sum(p.epoch)
                            + (p.underrunS - p.underrunS0) - (p.overflowS - p.overflowS0))
  }

  /** The buffer is never in the past, and never beyond its limit. */
  predicate Bounded(p: Play, buffer: real) {
    p.epoch != [] && p.playEnd.Some? ==>
      var e := p.epoch[|p.epoch| - 1];
      e.rate > 0.0 && e.t <= p.playEnd.value <= e.t + Max(2.0 * buffer, buffer + e.audio / e.rate)
  }

  /** A burst is open after these packets: the last that met a full or filling buffer overflowed it. */
  predicate InBurst(epoch: seq<Played>) {
    epoch != [] &&
    var k := epoch[|epoch| - 1].kind;
    k.Over? || (!k.Fits? && InBurst(epoch[..|epoch| - 1]))
  }

  function Bursts(epoch: seq<Played>): nat {
    if epoch == [] then 0
    else
      var front := epoch[..|epoch| - 1];
      Bursts(front) + if epoch[|epoch| - 1].kind.Over? && !InBurst(front) then 1 else 0
  }

  function DryOnes(epoch: seq<Played>): nat {
    if epoch == [] then 0 else DryOnes(epoch[..|epoch| - 1]) + if epoch[|epoch| - 1].kind.Dry? then 1 else 0
  }

  ghost predicate Counted(p: Play) {
    && FirstOnce(p.epoch) && p.overflowing == InBurst(p.epoch)
    && p.overflows == p.overflows0 + Bursts(p.epoch)
    && p.underruns == p.underruns0 + DryOnes(p.epoch)
  }

  ghost predicate PlayInv(p: Play, buffer: real) { Conserved(p, buffer) && Bounded(p, buffer) && Counted(p) }

  lemma SumOne(epoch: seq<Played>, e: Played)
    requires Rates(epoch) && RateOk(e.rate) && e.audio >= 0.0
    ensures Rates(epoch + [e]) && Sum(epoch + [e]) == Sum(epoch) + e.audio / e.rate
  {
    assert (epoch + [e])[..|epoch|] == epoch;
  }

  lemma BufferConserves(p: Play, buffer: real, t: real, audio: real)
    requires RateOk(p.rate) && audio >= 0.0 && Conserved(p, buffer)
    ensures Conserved(Buffer(p, buffer, t, audio), buffer)
  {
    hide Sum;
    var p' := Buffer(p, buffer, t, audio);
    var e := p'.epoch[|p.epoch|];
    SumOne(p.epoch, e);
    assert p'.epoch == p.epoch + [e];
    if p.epoch == [] {
      NoSum(p.epoch);
    } else {
      assert p'.epoch[0] == p.epoch[0];
    }
  }

  lemma NoSum(epoch: seq<Played>)
    requires epoch == []
    ensures Sum(epoch) == 0.0
  {
  }

  lemma BufferBounds(p: Play, buffer: real, t: real, audio: real)
    requires RateOk(p.rate) && audio >= 0.0 && buffer >= 0.0
    ensures Bounded(Buffer(p, buffer, t, audio), buffer)
  {
    var length := audio / p.rate;
    assert length >= 0.0;
  }

  lemma BufferCounts(p: Play, buffer: real, t: real, audio: real)
    requires p.rate > 0.0 && Counted(p) && (p.epoch == [] <==> p.playEnd.None?)
    ensures Counted(Buffer(p, buffer, t, audio))
  {
    var p' := Buffer(p, buffer, t, audio);
    assert p'.epoch[..|p'.epoch| - 1] == p.epoch;
  }

  lemma TimingKeepsInv(p: Play, firstT: Option<real>, buffer: real, t: real, audio: real)
    requires RateOk(p.rate) && audio >= 0.0 && buffer >= 0.0 && PlayInv(p, buffer)
    ensures PlayInv(Timing(p, firstT, buffer, t, audio), buffer)
  {
    hide Sum, Bursts, InBurst, DryOnes, Buffer;
    var p1 := Measure(p, firstT, t, audio);
    MeasureKeepsRate(p, firstT, t, audio);
    BufferConserves(p1, buffer, t, audio);
    BufferBounds(p1, buffer, t, audio);
    BufferCounts(p1, buffer, t, audio);
  }

  lemma RestartKeepsInv(p: Play, buffer: real)
    ensures PlayInv(Restart(p), buffer)
  {
  }

  lemma StepKeepsInv(cfg: Config, s: Stats, step: Step)
    requires Proper(cfg) && RateOk(s.play.rate) && PlayInv(s.play, cfg.buffer)
    ensures PlayInv(Apply(cfg, s, step).play, cfg.buffer)
  {
    hide PlayInv, Timing, Rtp.Strip, Rtp.Count, AudioOf;
    RestartKeepsInv(s.play, cfg.buffer);
    if step.Packet? && cfg.sampleRate != 0 {
      var s1, stripped := Arrive(s, step.t), Rtp.Strip(step.data);
      var payload := if cfg.HasRtp() && stripped.Packet? then stripped.payload else step.data;
      var length := AudioOf(cfg.codec, payload, step.other) as real / cfg.sampleRate as real;
      assert length >= 0.0;
      TimingKeepsInv(s1.play, s1.firstT, cfg.buffer, step.t, length);
    }
  }

  /** Every reachable state: playout time is conserved within its epoch, the buffer stays within its bounds,
      and dry and overflow events are counted as their packets say. */
  lemma {:induction false} PlayoutConserved(cfg: Config, steps: seq<Step>)
    requires Proper(cfg)
    ensures PlayInv(After(cfg, NEW, steps).play, cfg.buffer)
  {
    hide PlayInv, Apply;
    if steps == [] {
      RestartKeepsInv(QUIET, cfg.buffer);
    } else {
      var front := steps[..|steps| - 1];
      PlayoutConserved(cfg, front);
      StepKeepsInv(cfg, After(cfg, NEW, front), steps[|steps| - 1]);
    }
  }

  // ---- Overflow events against bursts ----

  /** Bursts as runs of packets that each overflow the buffer. */
  function Runs(epoch: seq<Played>): nat {
    if epoch == [] then 0
    else
      var front := epoch[..|epoch| - 1];
      Runs(front) + if epoch[|epoch| - 1].kind.Over? && !(front != [] && front[|front| - 1].kind.Over?) then 1 else 0
  }

  /** Runs that begin right after the buffer ran dry while the burst before was never closed. */
  function Missed(epoch: seq<Played>): nat {
    if epoch == [] then 0
    else
      var front := epoch[..|epoch| - 1];
      Missed(front)
      + if epoch[|epoch| - 1].kind.Over? && InBurst(front) && front[|front| - 1].kind.Dry? then 1 else 0
  }

  predicate FirstOnce(epoch: seq<Played>) {
    forall i :: 0 <= i < |epoch| ==> (epoch[i].kind.First? <==> i == 0)
  }

  /** One event per burst fails exactly by the runs that follow a dry buffer: an underrun leaves the burst
      before it open. */
  lemma {:induction false} BurstsExactly(epoch: seq<Played>)
    requires FirstOnce(epoch)
    ensures Runs(epoch) == Bursts(epoch) + Missed(epoch)
  {
    if epoch == [] {
    } else {
      var front := epoch[..|epoch| - 1];
      BurstsExactly(front);
      assert |front| == 1 ==> !InBurst(front[..0]);
    }
  }

  /** Over every run: in the current epoch, overflow events are one per burst if and only if no burst began
      behind a dry buffer while the one before was open; each such burst is missed. */
  lemma OverflowsExactly(cfg: Config, steps: seq<Step>)
    requires Proper(cfg)
    ensures var p := After(cfg, NEW, steps).play;
            && Runs(p.epoch) == (p.overflows - p.overflows0) + Missed(p.epoch)
            && (p.overflows - p.overflows0 == Runs(p.epoch) <==> Missed(p.epoch) == 0)
  {
    hide After, Runs, Missed, Bursts, InBurst, DryOnes, Sum;
    PlayoutConserved(cfg, steps);
    BurstsExactly(After(cfg, NEW, steps).play.epoch);
  }

  /** Classic aptX at 48 kHz into a buffer of 10 ms. */
  const APTX := Config(Aptx(false), 48000, 0.01)

  /** 480 bytes of aptX: 10 ms. */
  function AptxPacket(t: real): Step { Packet(t, seq(480, _ => 0), 0) }

  /** An aptX stream of four packets, two at once and 30 ms later two at once: two bursts with a dry buffer
      between them, and one overflow event. */
  lemma DryBufferHidesBurst()
    ensures var steps := [AptxPacket(0.0), AptxPacket(0.0), AptxPacket(0.03), AptxPacket(0.03)];
            var p := After(APTX, NEW, steps).play;
            Runs(p.epoch) == 2 && p.overflows == 1 && p.overflows0 == 0
  {
    var a, c := AptxPacket(0.0), AptxPacket(0.03);
    var e1, e2 := Played(0.0, 0.01, 1.0, First), Played(0.0, 0.01, 1.0, Over);
    var e3, e4 := Played(0.03, 0.01, 1.0, Dry), Played(0.03, 0.01, 1.0, Over);
    hide After, Apply, Buffer, AptxPacket;
    AfterOne(APTX, [], a);
    AfterOne(APTX, [a], a);
    AfterOne(APTX, [a, a], c);
    AfterOne(APTX, [a, a, c], c);
    assert [] + [a] == [a] && [a] + [a] == [a, a] && [a, a] + [c] == [a, a, c] && [a, a, c] + [c] == [a, a, c, c];
    FirstOfFour(e1);
    SecondOfFour(After(APTX, NEW, [a]), e1, e2);
    ThirdOfFour(After(APTX, NEW, [a, a]), e1, e2, e3);
    FourthOfFour(After(APTX, NEW, [a, a, c]), e1, e2, e3, e4);
    TwoRuns(e1, e2, e3, e4);
  }

  lemma AfterOne(cfg: Config, steps: seq<Step>, step: Step)
    ensures After(cfg, NEW, steps + [step]) == Apply(cfg, After(cfg, NEW, steps), step)
    ensures steps == [] ==> After(cfg, NEW, steps) == NEW
  {
    hide Apply;
    assert (steps + [step])[..|steps|] == steps;
  }

  /** The example's state: all at rate 1, with the clock not measured. */
  predicate Example(s: Stats, t: real, end: real, epoch: seq<Played>, overflowing: bool, overflows: nat) {
    && s.firstT == Some(0.0) && s.lastT == Some(t) && s.play.rate == 1.0 && s.play.rateRef.None?
    && s.play.playEnd == Some(end) && s.play.epoch == epoch && s.play.overflowing == overflowing
    && s.play.overflows == overflows && s.play.overflows0 == 0
  }

  lemma FirstOfFour(e1: Played)
    requires e1 == Played(0.0, 0.01, 1.0, First)
    ensures Example(Apply(APTX, NEW, AptxPacket(0.0)), 0.0, 0.02, [e1], false, 0)
  {
  }

  lemma SecondOfFour(s: Stats, e1: Played, e2: Played)
    requires e2 == Played(0.0, 0.01, 1.0, Over) && Example(s, 0.0, 0.02, [e1], false, 0)
    ensures Example(Apply(APTX, s, AptxPacket(0.0)), 0.0, 0.02, [e1, e2], true, 1)
  {
  }

  lemma ThirdOfFour(s: Stats, e1: Played, e2: Played, e3: Played)
    requires e3 == Played(0.03, 0.01, 1.0, Dry) && Example(s, 0.0, 0.02, [e1, e2], true, 1)
    ensures Example(Apply(APTX, s, AptxPacket(0.03)), 0.03, 0.05, [e1, e2, e3], true, 1)
  {
  }

  lemma FourthOfFour(s: Stats, e1: Played, e2: Played, e3: Played, e4: Played)
    requires e4 == Played(0.03, 0.01, 1.0, Over) && Example(s, 0.03, 0.05, [e1, e2, e3], true, 1)
    ensures Example(Apply(APTX, s, AptxPacket(0.03)), 0.03, 0.05, [e1, e2, e3, e4], true, 1)
  {
  }

  lemma TwoRuns(e1: Played, e2: Played, e3: Played, e4: Played)
    requires e1.kind == First && e2.kind == Over && e3.kind == Dry && e4.kind == Over
    ensures Runs([e1, e2, e3, e4]) == 2
  {
    hide Runs;
    NoRuns();
    RunsOne([], e1);
    RunsOne([e1], e2);
    RunsOne([e1, e2], e3);
    RunsOne([e1, e2, e3], e4);
    assert [] + [e1] == [e1] && [e1] + [e2] == [e1, e2] && [e1, e2] + [e3] == [e1, e2, e3];
    assert [e1, e2, e3] + [e4] == [e1, e2, e3, e4];
  }

  lemma NoRuns()
    ensures Runs([]) == 0
  {
  }

  lemma RunsOne(front: seq<Played>, e: Played)
    ensures Runs(front + [e]) ==
            Runs(front) + if e.kind.Over? && !(front != [] && front[|front| - 1].kind.Over?) then 1 else 0
  {
    assert (front + [e])[..|front|] == front;
  }

  // ---- RTP over whole streams ----

  /** `xs` are the valid RTP packets of these steps, with true sequence numbers. */
  ghost predicate Describes(codec: Codec, xs: seq<Rtp.Arrival>, steps: seq<Step>) {
    if steps == [] then xs == []
    else
      var step, front := steps[|steps| - 1], steps[..|steps| - 1];
      && step.Packet?
      && match Rtp.Strip(step.data)
         case Invalid => Describes(codec, xs, front)
         case Packet(sn, ts, payload) =>
           && xs != [] && Describes(codec, xs[..|xs| - 1], front)
           && var x := xs[|xs| - 1];
           x.number % 0x1_0000 == sn && x.ts == ts && x.audio == AudioOf(codec, payload, step.other)
  }

  lemma {:induction false} CountersAre(cfg: Config, s: Stats, steps: seq<Step>, xs: seq<Rtp.Arrival>)
    requires cfg.HasRtp() && RateOk(s.play.rate) && Describes(cfg.codec, xs, steps)
    ensures var s' := After(cfg, s, steps);
            s'.rtp == Rtp.CountAll(s.rtp, s.samples, xs) && s'.samples == Rtp.Samples(s.samples, xs)
    decreases |steps|
  {
    hide Rtp.Strip, Rtp.Count, Timing, RateOk, AudioOf;
    if steps == [] {
    } else {
      var step, front := steps[|steps| - 1], steps[..|steps| - 1];
      var stripped := Rtp.Strip(step.data);
      CountersAre(cfg, s, front, if stripped.Invalid? then xs else xs[..|xs| - 1]);
    }
  }

  /** From a START on: packets in sequence and packets lost add up to the numbers covered, and the late ones
      are exactly those at or below the highest number before them, whatever invalid packets come between. */
  lemma StreamLossAccounting(cfg: Config, s: Stats, steps: seq<Step>, xs: seq<Rtp.Arrival>)
    requires cfg.HasRtp() && RateOk(s.play.rate) && Describes(cfg.codec, xs, steps) && xs != [] && Rtp.InWindow(xs)
    ensures var c, c' := s.rtp, After(cfg, OnStart(s), steps).rtp;
            && c'.late == c.late + Rtp.LateOnes(xs)
            && (|xs| - Rtp.LateOnes(xs)) + (c'.lost - c.lost) == Rtp.Highest(xs) - xs[0].number + 1
  {
    hide After, Describes, Rtp.CountAll, Rtp.Samples, Rtp.InWindow;
    CountersAre(cfg, OnStart(s), steps, xs);
    Rtp.LossAccounting(OnStart(s).rtp, s.samples, xs);
  }

  /** From a START on, a sender with right time stamps gets an error for exactly each packet in sequence that
      follows late packets with audio. */
  lemma StreamTsErrors(cfg: Config, s: Stats, steps: seq<Step>, xs: seq<Rtp.Arrival>)
    requires cfg.HasRtp() && RateOk(s.play.rate) && Describes(cfg.codec, xs, steps)
    requires xs != [] && Rtp.InWindow(xs) && Rtp.Honest(xs)
    ensures After(cfg, OnStart(s), steps).rtp.tsErrors == s.rtp.tsErrors + Rtp.Blamed(xs)
  {
    hide After, Describes, Rtp.CountAll, Rtp.Samples, Rtp.InWindow, Rtp.Honest, Rtp.TsState, Rtp.Blamed;
    CountersAre(cfg, OnStart(s), steps, xs);
    Rtp.TsErrorsExactly(OnStart(s).rtp, s.samples, xs);
  }

  /** LDAC at 44.1 kHz, mono. */
  const LDAC_IDS := Ldac.Config(0, 0)

  /** One LDAC frame of the least length: 128 samples. */
  const LDAC_FRAME: seq<byte> := [1, 0xAA, 0, 0, 0]

  function LdacPacket(t: real, sn: u16, ts: u32): Step {
    Packet(t, Rtp.MessageBytes(Rtp.Message(0, sn, ts, [0, 0, 0, 0], [], Rtp.NoExtension, LDAC_FRAME, false, [])), 0)
  }

  /** Packets 1, 0 and 2 of an LDAC stream, with right time stamps and payloads that raise no issue: one
      error. */
  lemma LatePacketBlamesTheSender(cfg: Config)
    requires cfg.codec == LdacCodec(LDAC_IDS)
    ensures Ldac.Check(LDAC_IDS, LDAC_FRAME) == Ldac.Walk(1, 128, [])
    ensures var steps := [LdacPacket(0.0, 1, 128), LdacPacket(0.1, 0, 0), LdacPacket(0.2, 2, 256)];
            After(cfg, OnStart(NEW), steps).rtp.tsErrors == 1
  {
    hide Rtp.MessageBytes, Rtp.Strip, Ldac.Check;
    var a, b, c := LdacPacket(0.0, 1, 128), LdacPacket(0.1, 0, 0), LdacPacket(0.2, 2, 256);
    var x, y, z := Rtp.Arrival(1, 128, 128), Rtp.Arrival(0, 0, 128), Rtp.Arrival(2, 256, 128);
    OneFrame();
    LdacPacketRead(0.0, 1, 128);
    LdacPacketRead(0.1, 0, 0);
    LdacPacketRead(0.2, 2, 256);
    var none: seq<Step>, empty: seq<Rtp.Arrival> := [], [];
    assert Describes(cfg.codec, empty, none);
    DescribesMore(cfg.codec, empty, none, x, a, LDAC_FRAME);
    DescribesMore(cfg.codec, [x], [a], y, b, LDAC_FRAME);
    DescribesMore(cfg.codec, [x, y], [a, b], z, c, LDAC_FRAME);
    assert empty + [x] == [x] && [x] + [y] == [x, y] && [x, y] + [z] == [x, y, z];
    assert none + [a] == [a] && [a] + [b] == [a, b] && [a, b] + [c] == [a, b, c];
    hide Describes, After;
    Rtp.LatePacketBlamesTheNext();
    CountersAre(cfg, OnStart(NEW), [a, b, c], [x, y, z]);
  }

  lemma OneFrame()
    ensures Ldac.Check(LDAC_IDS, LDAC_FRAME) == Ldac.Walk(1, 128, [])
  {
    assert Ldac.Total(LDAC_FRAME, 1) == 4;
    assert Ldac.From(LDAC_IDS, LDAC_FRAME, 5) == Ldac.Walk(0, 0, []);
  }

  lemma LdacPacketRead(t: real, sn: u16, ts: u32)
    ensures Rtp.Strip(LdacPacket(t, sn, ts).data) == Rtp.Packet(sn, ts, LDAC_FRAME)
  {
    hide Rtp.MessageBytes, Rtp.Strip;
    var m := Rtp.Message(0, sn, ts, [0, 0, 0, 0], [], Rtp.NoExtension, LDAC_FRAME, false, []);
    Rtp.StripRoundTrip(Rtp.MessageBytes(m), m);
  }

  lemma DescribesMore(codec: Codec, xs: seq<Rtp.Arrival>, steps: seq<Step>, x: Rtp.Arrival, step: Step,
                      payload: seq<byte>)
    requires Describes(codec, xs, steps) && step.Packet? && x.audio == AudioOf(codec, payload, step.other)
    requires Rtp.Strip(step.data) == Rtp.Packet(x.number % 0x1_0000, x.ts, payload)
    ensures Describes(codec, xs + [x], steps + [step])
  {
    hide Rtp.Strip, AudioOf;
    assert (steps + [step])[..|steps|] == steps && (xs + [x])[..|xs|] == xs;
  }
}
