/** The measuring sink's object (tools/linux_sink/bluecaster_sink.py, `StreamStats`), each method proved to do
    what the function of its step does. The fields of sequence tracking and of the playout model are kept
    together, as `rtp` and `play`. */
module StreamMeter {
  import opened Bytes
  import opened Options
  import Rtp
  import Ldac
  import opened StreamStats

  class Meter {
    const cfg: Config
    var packets: nat
    var samples: nat
    var pauses: nat
    var firstT: Option<real>
    var lastT: Option<real>
    var rtp: Rtp.Counters
    var play: Play

    function View(): Stats
      reads this
    {
      Stats(packets, samples, pauses, firstT, lastT, rtp, play)
    }

    constructor (cfg: Config)
      ensures this.cfg == cfg && View() == NEW
    {
      this.cfg := cfg;
      packets, samples, pauses, firstT, lastT, rtp, play := 0, 0, 0, None, None, Rtp.NONE, QUIET;
    }

    method Started()
      modifies this
      ensures View() == OnStart(old(View()))
    {
      rtp := rtp.(haveSeq := false, lastSeq := 0, lastTs := 0, samplesAtLastTs := 0);
      firstT, lastT := None, None;
      play := Restart(play);
    }

    method StripRtp(p: seq<byte>) returns (r: Rtp.Stripped)
      modifies this`rtp
      ensures r == Rtp.Strip(p)
      ensures rtp == if r.Invalid? then old(rtp) else Rtp.Count(old(rtp), r.sn, r.ts, samples)
    {
      hide Rtp.Diff, Rtp.TsStep, Rtp.Be16, Rtp.Be32;
      if |p| < 12 || p[0] / 64 != 2 {
        return Rtp.Invalid;
      }
      var h: nat := 12 + 4 * (p[0] % 16);
      if p[0] / 16 % 2 == 1 {
        if |p| < h + 4 {
          return Rtp.Invalid;
        }
        var words: nat := Rtp.Be16(p, h + 2);
        h := h + 4 + 4 * words;
      }
      var pad: nat := if p[0] / 32 % 2 == 1 then p[|p| - 1] else 0;
      if |p| < h + pad {
        return Rtp.Invalid;
      }
      var sn, ts := Rtp.Be16(p, 2), Rtp.Be32(p, 4);
      r := Rtp.Packet(sn, ts, p[h..|p| - pad]);
      if rtp.haveSeq {
        var diff := Rtp.Diff(sn, rtp.lastSeq);
        if diff == 0 {
          var previous := samples - rtp.samplesAtLastTs;
          if previous > 0 && Rtp.TsStep(ts, rtp.lastTs) != previous {
            rtp := rtp.(tsErrors := rtp.tsErrors + 1);
          }
        } else if diff < 0x8000 {
          rtp := rtp.(lost := rtp.lost + diff);
        } else {
          rtp := rtp.(late := rtp.late + 1);
          return;
        }
      }
      rtp := rtp.(haveSeq := true, lastSeq := sn, lastTs := ts, samplesAtLastTs := samples);
    }

    method MeasureRate(t: real, audio: real)
      modifies this`play
      ensures play == Measure(old(play), firstT, t, audio)
    {
      hide Clamp;
      play := play.(audioRx := play.audioRx + audio);
      if play.rateRef.None? {
        if firstT.Some? && t - firstT.value >= 2.0 {
          play := play.(rateRef := Some((t, play.audioRx)));
        }
      } else if t - play.rateRef.value.0 >= 10.0 {
        var r := (play.audioRx - play.rateRef.value.1) / (t - play.rateRef.value.0);
        play := play.(rate := Clamp(r));
      }
    }

    method BufferAudio(t: real, audio: real)
      requires play.rate > 0.0
      modifies this`play
      ensures play == Buffer(old(play), cfg.buffer, t, audio)
    {
      var length := audio / play.rate;
      if play.playEnd.None? {
        play := play.(playEnd := Some(t + cfg.buffer + length),
                      epoch := play.epoch + [Played(t, audio, play.rate, First)]);
      } else if t > play.playEnd.value {
        play := play.(underruns := play.underruns + 1,
                      underrunS := play.underrunS + ((t - play.playEnd.value) + cfg.buffer),
                      playEnd := Some(t + cfg.buffer + length),
                      epoch := play.epoch + [Played(t, audio, play.rate, Dry)]);
      } else {
        var end := play.playEnd.value + length;
        var excess := (end - t) - MAX_BUFFER_FACTOR * cfg.buffer;
        if excess > 0.0 {
          if !play.overflowing {
            play := play.(overflows := play.overflows + 1);
          }
          play := play.(overflowS := play.overflowS + excess);
          end := end - excess;
        }
        play := play.(playEnd := Some(end), overflowing := excess > 0.0,
                      epoch := play.epoch + [Played(t, audio, play.rate, if excess > 0.0 then Over else Fits)]);
      }
    }

    /** The samples of a payload; LDAC frames are walked. */
    method CountAudio(payload: seq<byte>, other: nat) returns (audio: nat)
      ensures audio == AudioOf(cfg.codec, payload, other)
    {
      hide Ldac.Check, Ldac.From;
      match cfg.codec
      case LdacCodec(ids) =>
        var frames, samples, errors, issues := Ldac.MeasureLdac(ids, payload);
        audio := samples;
      case Aptx(hd) =>
        var unit := if hd then 6 else 4;
        audio := |payload| / unit * 4;
      case Other(_) => audio := other;
    }

    method Received(t: real, data: seq<byte>, other: nat)
      requires play.rate > 0.0
      modifies this
      ensures View() == OnPacket(cfg, old(View()), t, data, other)
    {
      hide Rtp.Strip, Rtp.Count, Measure, Buffer, AudioOf;
      packets := packets + 1;
      if lastT.None? {
        firstT := Some(t);
      } else if t - lastT.value > PAUSE_S {
        pauses := pauses + 1;
        play := Restart(play);
        firstT := Some(t);
      }
      lastT := Some(t);
      var payload := data;
      if cfg.HasRtp() {
        var r := StripRtp(data);
        if r.Invalid? {
          return;
        }
        payload := r.payload;
      }
      var audio := CountAudio(payload, other);
      samples := samples + audio;
      if cfg.sampleRate != 0 {
        var length := audio as real / cfg.sampleRate as real;
        MeasureKeepsRate(play, firstT, t, length);
        MeasureRate(t, length);
        BufferAudio(t, length);
      }
    }
  }
}
