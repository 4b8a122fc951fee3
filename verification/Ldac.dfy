/** LDAC media payloads: the frame walkers of the capture decoder (tools/a2dp_decode/a2dp_decode.cpp,
    `check_ldac`) and of the measuring sink (tools/linux_sink/bluecaster_sink.py, `_ldac`), against the
    payloads they pass. */
module Ldac {
  import opened Bytes

  datatype Config = Config(srId: nat, chId: nat)

  datatype Issue = Empty | Trailing | NoSync | PastEnd | WrongRate | WrongChannels | HighNibble | WrongCount

  /** What a walk from some offset to the end finds. */
  datatype Walk = Walk(frames: nat, samples: nat, issues: seq<Issue>)

  function SrId(p: seq<byte>, off: nat): nat
    requires off + 1 < |p|
  {
    p[off + 1] / 32
  }

  function ChId(p: seq<byte>, off: nat): nat
    requires off + 1 < |p|
  {
    p[off + 1] / 8 % 4
  }

  /** A frame's length with its 3-byte header. */
  function Total(p: seq<byte>, off: nat): (n: nat)
    requires off + 3 <= |p|
    ensures n > 3
  {
    var high: nat, low: nat := p[off + 1], p[off + 2];
    3 + (high % 8 * 64 + low / 4) + 1
  }

  function SamplesOf(srId: nat): nat { if srId >= 2 then 256 else 128 }

  function Mismatches(cfg: Config, srId: nat, chId: nat): seq<Issue> {
    (if srId != cfg.srId then [WrongRate] else []) + (if chId != cfg.chId then [WrongChannels] else [])
  }

  /** Why no frame can be taken at off, if so. */
  function Broken(p: seq<byte>, off: nat): (r: seq<Issue>)
    requires off < |p|
    ensures r == [] ==> off + 3 <= |p| && off + Total(p, off) <= |p|
  {
    if |p| - off < 3 then [Trailing]
    else if p[off] != 0xAA then [NoSync]
    else if off + Total(p, off) > |p| then [PastEnd]
    else []
  }

  function From(cfg: Config, p: seq<byte>, off: nat): Walk
    decreases |p| - off
  {
    if off >= |p| then Walk(0, 0, [])
    else if Broken(p, off) != [] then Walk(0, 0, Broken(p, off))
    else
      var rest := From(cfg, p, off + Total(p, off));
      Walk(1 + rest.frames, SamplesOf(SrId(p, off)) + rest.samples,
           Mismatches(cfg, SrId(p, off), ChId(p, off)) + rest.issues)
  }

  function CheckCount(header: byte, frames: nat): seq<Issue> {
    if header % 16 == frames then []
    else if header / 16 == frames then [HighNibble]
    else [WrongCount]
  }

  function Check(cfg: Config, p: seq<byte>): Walk {
    if p == [] then Walk(0, 0, [Empty])
    else
      var w := From(cfg, p, 1);
      w.(issues := w.issues + CheckCount(p[0], w.frames))
  }

  // ---- Payloads ----

  /** `rest`: the two low bits of the third header byte. */
  datatype Frame = Frame(srId: nat, chId: nat, rest: nat, content: seq<byte>)

  predicate Proper(f: Frame) { f.srId < 8 && f.chId < 4 && f.rest < 4 && 1 <= |f.content| <= 512 }

  function FrameHeader(f: Frame): (s: seq<byte>)
    requires Proper(f)
    ensures |s| == 3
  {
    var n := |f.content| - 1;
    [0xAA, f.srId * 32 + f.chId * 8 + n / 64, n % 64 * 4 + f.rest]
  }

  predicate AllProper(fs: seq<Frame>) { forall i :: 0 <= i < |fs| ==> Proper(fs[i]) }

  function FramesBytes(fs: seq<Frame>): seq<byte>
    requires AllProper(fs)
  {
    if fs == [] then [] else FrameHeader(fs[0]) + fs[0].content + FramesBytes(fs[1..])
  }

  predicate Configured(cfg: Config, fs: seq<Frame>) {
    forall i :: 0 <= i < |fs| ==> fs[i].srId == cfg.srId && fs[i].chId == cfg.chId
  }

  /** A payload of k frames of the configured ids, with k in the header's low nibble. */
  ghost predicate IsPayload(cfg: Config, p: seq<byte>, fs: seq<Frame>) {
    && p != [] && AllProper(fs) && Configured(cfg, fs)
    && p[0] % 16 == |fs| && p[1..] == FramesBytes(fs)
  }

  // ---- Sound, complete, unique ----

  /** The frame at off. */
  function FrameAt(p: seq<byte>, off: nat): Frame
    requires off < |p| && Broken(p, off) == []
  {
    Frame(SrId(p, off), ChId(p, off), p[off + 2] % 4, p[off + 3..off + Total(p, off)])
  }

  function FramesFrom(p: seq<byte>, off: nat): seq<Frame>
    decreases |p| - off
  {
    if off >= |p| || Broken(p, off) != [] then [] else [FrameAt(p, off)] + FramesFrom(p, off + Total(p, off))
  }

  function SampleSum(fs: seq<Frame>): nat {
    if fs == [] then 0 else SamplesOf(fs[0].srId) + SampleSum(fs[1..])
  }

  lemma FrameAtHeader(p: seq<byte>, off: nat)
    requires off < |p| && Broken(p, off) == []
    ensures Proper(FrameAt(p, off)) && FrameHeader(FrameAt(p, off)) == p[off..off + 3]
  {
    var a: nat, b: nat := p[off + 1], p[off + 2];
    assert a == a / 32 * 32 + a / 8 % 4 * 8 + a % 8;
    assert (a % 8 * 64 + b / 4) / 64 == a % 8 && (a % 8 * 64 + b / 4) % 64 == b / 4;
    assert b == b / 4 * 4 + b % 4;
    assert p[off..off + 3] == [p[off], p[off + 1], p[off + 2]];
  }

  lemma HeaderRead(p: seq<byte>, off: nat, f: Frame, tail: seq<byte>)
    requires Proper(f) && off <= |p| && p[off..] == FrameHeader(f) + f.content + tail
    ensures off < |p| && Broken(p, off) == [] && FrameAt(p, off) == f
    ensures p[off + Total(p, off)..] == tail
  {
    var n := |f.content| - 1;
    var rest := FrameHeader(f) + f.content + tail;
    assert p[off] == rest[0] && p[off + 1] == rest[1] && p[off + 2] == rest[2];
    HeaderFields(f.srId, f.chId, n, f.rest);
    Inside(p, off, rest, 3, 4 + n);
  }

  lemma HeaderFields(srId: nat, chId: nat, n: nat, rest: nat)
    requires srId < 8 && chId < 4 && n < 512 && rest < 4
    ensures var a, b := srId * 32 + chId * 8 + n / 64, n % 64 * 4 + rest;
            && a / 32 == srId && a / 8 % 4 == chId && a % 8 * 64 + b / 4 == n && b % 4 == rest
  {
    var a, b := srId * 32 + chId * 8 + n / 64, n % 64 * 4 + rest;
    assert n / 64 < 8;
    assert a / 8 == srId * 4 + chId && a % 8 == n / 64;
    assert b / 4 == n % 64;
  }

  /** Whatever follows a header byte, frames of any ids are found back, one by one. */
  lemma {:induction false} FramesFound(p: seq<byte>, off: nat, fs: seq<Frame>)
    requires AllProper(fs) && off <= |p| && p[off..] == FramesBytes(fs)
    ensures FramesFrom(p, off) == fs
    decreases |fs|
  {
    hide FrameHeader, Broken, FrameAt, Total;
    if fs == [] {
    } else {
      HeaderRead(p, off, fs[0], FramesBytes(fs[1..]));
      FramesFound(p, off + Total(p, off), fs[1..]);
    }
  }

  /** The decomposition is unique. */
  lemma FramesUnique(a: seq<Frame>, b: seq<Frame>)
    requires AllProper(a) && AllProper(b) && FramesBytes(a) == FramesBytes(b)
    ensures a == b
  {
    var p := FramesBytes(a);
    assert p[0..] == p;
    FramesFound(p, 0, a);
    FramesFound(p, 0, b);
  }

  /** The walk counts the frames found, their samples, and an issue for each frame of other ids; it ends
      without being broken exactly if these frames are all there is. */
  lemma {:induction false} WalkFinds(cfg: Config, p: seq<byte>, off: nat)
    requires off <= |p|
    ensures var fs, w := FramesFrom(p, off), From(cfg, p, off);
            && AllProper(fs) && w.frames == |fs| && w.samples == SampleSum(fs)
            && (w.issues == [] <==> FramesBytes(fs) == p[off..] && Configured(cfg, fs))
    decreases |p| - off
  {
    hide FrameHeader, Broken, FrameAt, Total, Mismatches;
    var fs := FramesFrom(p, off);
    if off >= |p| {
    } else {
      if Broken(p, off) == [] {
        var next := off + Total(p, off);
        BrokenNot(p, off);
        var f, tail := FrameAt(p, off), FramesFrom(p, next);
        WalkFinds(cfg, p, next);
        FrameAtHeader(p, off);
        AboutFrame(cfg, p, off);
        assert fs == [f] + tail && fs[1..] == tail;
        Cut(p, off, next, |p|);
        Cut(p, off, off + 3, next);
        assert p[off..] == FrameHeader(f) + f.content + p[next..];
        var head := FrameHeader(f) + f.content;
        Cancel(head, FramesBytes(tail), p[next..]);
        ConfiguredHead(cfg, f, tail);
      } else {
        assert FramesBytes(fs) == [] && |p[off..]| > 0;
      }
    }
  }

  lemma ConfiguredHead(cfg: Config, f: Frame, tail: seq<Frame>)
    ensures Configured(cfg, [f] + tail) <==> f.srId == cfg.srId && f.chId == cfg.chId && Configured(cfg, tail)
  {
    var fs := [f] + tail;
    assert fs[0] == f && forall i :: 0 <= i < |tail| ==> fs[i + 1] == tail[i];
  }

  lemma BrokenNot(p: seq<byte>, off: nat)
    requires off < |p| && Broken(p, off) == []
    ensures off + 3 < off + Total(p, off) <= |p|
  {
  }

  lemma AboutFrame(cfg: Config, p: seq<byte>, off: nat)
    requires off < |p| && Broken(p, off) == []
    ensures var f := FrameAt(p, off);
            && f.content == p[off + 3..off + Total(p, off)] && f.srId == SrId(p, off) && f.chId == ChId(p, off)
            && (Mismatches(cfg, f.srId, f.chId) == [] <==> f.srId == cfg.srId && f.chId == cfg.chId)
  {
  }

  /** A non-empty payload raises no issue if and only if it is a header whose low nibble is k, followed by
      exactly k frames of the configured ids; and these frames are unique. */
  lemma LdacExactly(cfg: Config, p: seq<byte>)
    requires p != []
    ensures Check(cfg, p).issues == [] <==> exists fs :: IsPayload(cfg, p, fs)
    ensures forall a, b :: IsPayload(cfg, p, a) && IsPayload(cfg, p, b) ==> a == b
  {
    hide FramesBytes, FramesFrom, From, AllProper, Configured;
    WalkFinds(cfg, p, 1);
    var w, found := From(cfg, p, 1), FramesFrom(p, 1);
    assert Check(cfg, p).issues == [] <==> w.issues == [] && p[0] % 16 == w.frames;
    if Check(cfg, p).issues == [] {
      assert IsPayload(cfg, p, found);
    }
    forall fs | IsPayload(cfg, p, fs)
      ensures fs == found && Check(cfg, p).issues == []
    {
      FramesFound(p, 1, fs);
    }
  }

  /** A payload without issues has the samples of its frames. */
  lemma PayloadSamples(cfg: Config, p: seq<byte>, fs: seq<Frame>)
    requires IsPayload(cfg, p, fs)
    ensures Check(cfg, p).samples == SampleSum(fs)
  {
    hide FramesBytes, FramesFrom, From, AllProper, Configured, SampleSum;
    WalkFinds(cfg, p, 1);
    FramesFound(p, 1, fs);
  }

  /** The sampling rate an id names. */
  function RateOf(srId: nat): nat
    requires srId < 6
  {
    [44100, 48000, 88200, 96000, 176400, 192000][srId]
  }

  /** A frame has 128 samples up to 48 kHz and 256 above. */
  lemma SamplesByRate(srId: nat)
    requires srId < 6
    ensures SamplesOf(srId) == if RateOf(srId) <= 48000 then 128 else 256
  {
  }

  // ---- The two loops ----

  /** The capture decoder's walk. */
  method CheckLdac(cfg: Config, p: seq<byte>) returns (frames: nat, samples: nat, issues: seq<Issue>)
    ensures Walk(frames, samples, issues) == Check(cfg, p)
  {
    hide From, Joined, Mismatches, Total, SrId, ChId;
    frames, samples, issues := 0, 0, [];
    if |p| < 1 {
      issues := [Empty];
      return;
    }
    var header := p[0];
    var off := 1;
    ghost var all := From(cfg, p, 1);
    NothingJoined(all);
    while off < |p|
      invariant off <= |p|
      invariant Joined(frames, samples, issues, From(cfg, p, off)) == all
      decreases |p| - off
    {
      JoinedAt(cfg, p, off, frames, samples, issues);
      if |p| - off < 3 {
        issues := issues + [Trailing];
        break;
      }
      if p[off] != 0xAA {
        issues := issues + [NoSync];
        break;
      }
      var total := Total(p, off);
      if off + total > |p| {
        issues := issues + [PastEnd];
        break;
      }
      var srId, chId := SrId(p, off), ChId(p, off);
      issues := IssueIds(cfg, srId, chId, issues);
      frames := frames + 1;
      samples := samples + if srId >= 2 then 256 else 128;
      off := off + total;
    }
    if off == |p| {
      JoinedToEnd(cfg, p, frames, samples, issues);
    }
    assert Walk(frames, samples, issues) == all;
    if header % 16 != frames {
      if header / 16 == frames {
        issues := issues + [HighNibble];
      } else {
        issues := issues + [WrongCount];
      }
    }
  }

  method IssueIds(cfg: Config, srId: nat, chId: nat, before: seq<Issue>) returns (issues: seq<Issue>)
    ensures issues == before + Mismatches(cfg, srId, chId)
  {
    issues := before;
    if srId != cfg.srId {
      issues := issues + [WrongRate];
    }
    if chId != cfg.chId {
      issues := issues + [WrongChannels];
    }
  }

  /** The measuring sink's walk: on every payload the frames and samples of the other one, and its issues up
      to the wording for a count in the wrong nibble; a frame error exactly when the walk was broken off. */
  method MeasureLdac(cfg: Config, p: seq<byte>)
      returns (frames: nat, samples: nat, frameErrors: nat, issues: seq<Issue>)
    ensures frames == Check(cfg, p).frames && samples == Check(cfg, p).samples
    ensures p == [] ==> issues == [Empty] && frameErrors == 0
    ensures p != [] ==> issues == From(cfg, p, 1).issues + (if p[0] % 16 == frames then [] else [WrongCount])
    ensures p != [] ==> frameErrors == if IsBroken(p, 1) then 1 else 0
    ensures issues == [] <==> Check(cfg, p).issues == []
  {
    hide From, Joined, Mismatches;
    frames, samples, frameErrors, issues := 0, 0, 0, [];
    if |p| == 0 {
      issues := [Empty];
      return;
    }
    var header, off := p[0], 1;
    ghost var all := From(cfg, p, 1);
    NothingJoined(all);
    while off < |p|
      invariant off <= |p| && frameErrors == 0
      invariant Joined(frames, samples, issues, From(cfg, p, off)) == all && IsBroken(p, off) == IsBroken(p, 1)
      decreases |p| - off
    {
      JoinedAt(cfg, p, off, frames, samples, issues);
      if |p| - off < 3 {
        frameErrors, issues := frameErrors + 1, issues + [Trailing];
        break;
      }
      if p[off] != 0xAA {
        frameErrors, issues := frameErrors + 1, issues + [NoSync];
        break;
      }
      var srId, chId := p[off + 1] / 32, p[off + 1] / 8 % 4;
      var high: nat, low: nat := p[off + 1], p[off + 2];
      var total := 3 + (high % 8 * 64 + low / 4) + 1;
      if off + total > |p| {
        frameErrors, issues := frameErrors + 1, issues + [PastEnd];
        break;
      }
      issues := IssueIds(cfg, srId, chId, issues);
      frames := frames + 1;
      samples := samples + if srId >= 2 then 256 else 128;
      off := off + total;
    }
    if off == |p| {
      JoinedToEnd(cfg, p, frames, samples, issues);
    }
    assert Walk(frames, samples, issues) == all;
    if header % 16 != frames {
      issues := issues + [WrongCount];
    }
  }

  /** The walk from off does not reach the end of the payload. */
  predicate IsBroken(p: seq<byte>, off: nat)
    decreases |p| - off
  {
    off < |p| && (Broken(p, off) != [] || IsBroken(p, off + Total(p, off)))
  }

  function Joined(frames: nat, samples: nat, issues: seq<Issue>, rest: Walk): Walk {
    Walk(frames + rest.frames, samples + rest.samples, issues + rest.issues)
  }

  lemma NothingJoined(w: Walk)
    ensures Joined(0, 0, [], w) == w
  {
    assert [] + w.issues == w.issues;
  }

  lemma JoinedToEnd(cfg: Config, p: seq<byte>, frames: nat, samples: nat, issues: seq<Issue>)
    ensures Joined(frames, samples, issues, From(cfg, p, |p|)) == Walk(frames, samples, issues)
  {
    assert issues + [] == issues;
  }

  lemma JoinedAt(cfg: Config, p: seq<byte>, off: nat, frames: nat, samples: nat, issues: seq<Issue>)
    requires off < |p|
    ensures Joined(frames, samples, issues, From(cfg, p, off)) ==
            if Broken(p, off) != [] then Walk(frames, samples, issues + Broken(p, off))
            else Joined(frames + 1, samples + SamplesOf(SrId(p, off)),
                        issues + Mismatches(cfg, SrId(p, off), ChId(p, off)), From(cfg, p, off + Total(p, off)))
  {
    hide Broken, Mismatches;
    if Broken(p, off) == [] {
      Regroup(issues, Mismatches(cfg, SrId(p, off), ChId(p, off)), From(cfg, p, off + Total(p, off)).issues);
    }
  }

  lemma Regroup(a: seq<Issue>, b: seq<Issue>, c: seq<Issue>)
    ensures a + b + c == a + (b + c)
  {
  }
}
