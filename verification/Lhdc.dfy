/** LHDC V5 media payloads (tools/a2dp_decode/a2dp_decode.cpp, `check_lhdcv5`), against the payloads that
    raise no issue. */
module Lhdc {
  import opened Bytes

  datatype Issue = Short | Trailing | ZeroLength | PastEnd | WrongCount

  datatype Walk = Walk(frames: nat, issues: seq<Issue>)

  /** Encoded bytes per channel. */
  function PerChannel(p: seq<byte>, off: nat): nat
    requires off + 2 <= |p|
  {
    Le16(p, off) % 1024
  }

  function Total(p: seq<byte>, off: nat): nat
    requires off + 2 <= |p|
  {
    2 + 2 * PerChannel(p, off)
  }

  function Broken(p: seq<byte>, off: nat): (r: seq<Issue>)
    requires off < |p|
    ensures r == [] ==> off + 2 <= |p| && off + 2 < off + Total(p, off) <= |p|
  {
    if |p| - off < 2 then [Trailing]
    else if PerChannel(p, off) == 0 then [ZeroLength]
    else if off + Total(p, off) > |p| then [PastEnd]
    else []
  }

  function From(p: seq<byte>, off: nat): Walk
    decreases |p| - off
  {
    if off >= |p| then Walk(0, [])
    else if Broken(p, off) != [] then Walk(0, Broken(p, off))
    else
      var rest := From(p, off + Total(p, off));
      Walk(1 + rest.frames, rest.issues)
  }

  function Check(p: seq<byte>): Walk {
    if |p| < 2 then Walk(0, [Short])
    else
      var w := From(p, 2);
      w.(issues := w.issues + if p[0] / 4 == w.frames then [] else [WrongCount])
  }

  // ---- Payloads ----

  /** `flags`: the six high bits of the frame header. */
  datatype Frame = Frame(flags: nat, content: seq<byte>)

  predicate Proper(f: Frame) { f.flags < 64 && |f.content| % 2 == 0 && 2 <= |f.content| <= 2046 }

  predicate AllProper(fs: seq<Frame>) { forall i :: 0 <= i < |fs| ==> Proper(fs[i]) }

  function FrameBytes(f: Frame): seq<byte>
    requires Proper(f)
  {
    Put16(f.flags * 1024 + |f.content| / 2) + f.content
  }

  function FramesBytes(fs: seq<Frame>): seq<byte>
    requires AllProper(fs)
  {
    if fs == [] then [] else FrameBytes(fs[0]) + FramesBytes(fs[1..])
  }

  /** A header with k frames, latency bits and a sequence byte, and k frames. */
  ghost predicate IsPayload(p: seq<byte>, fs: seq<Frame>) {
    |p| >= 2 && AllProper(fs) && p[0] / 4 == |fs| && p[2..] == FramesBytes(fs)
  }

  // ---- Sound, complete, unique ----

  function FrameAt(p: seq<byte>, off: nat): Frame
    requires off < |p| && Broken(p, off) == []
  {
    Frame(Le16(p, off) / 1024, p[off + 2..off + Total(p, off)])
  }

  function FramesFrom(p: seq<byte>, off: nat): seq<Frame>
    decreases |p| - off
  {
    if off >= |p| || Broken(p, off) != [] then [] else [FrameAt(p, off)] + FramesFrom(p, off + Total(p, off))
  }

  lemma FrameAtBytes(p: seq<byte>, off: nat)
    requires off < |p| && Broken(p, off) == []
    ensures Proper(FrameAt(p, off)) && FrameBytes(FrameAt(p, off)) == p[off..off + Total(p, off)]
  {
    var v, n := Le16(p, off), PerChannel(p, off);
    var f := FrameAt(p, off);
    assert |f.content| == 2 * n && v == v / 1024 * 1024 + n;
    assert Put16(v) == p[off..off + 2];
    Cut(p, off, off + 2, off + Total(p, off));
  }

  lemma FrameRead(p: seq<byte>, off: nat, f: Frame, tail: seq<byte>)
    requires Proper(f) && off <= |p| && p[off..] == FrameBytes(f) + tail
    ensures off < |p| && Broken(p, off) == [] && FrameAt(p, off) == f && p[off + Total(p, off)..] == tail
  {
    hide Put16, Le16;
    var rest, n := FrameBytes(f) + tail, |f.content|;
    var v := f.flags * 1024 + n / 2;
    assert rest[0..2] == Put16(v) && rest[2..2 + n] == f.content && rest[2 + n..] == tail;
    Inside(p, off, rest, 0, 2);
    Inside(p, off, rest, 2, 2 + n);
    Read16(p, off, v);
    assert v % 1024 == n / 2 && v / 1024 == f.flags && 2 * (n / 2) == n;
  }

  lemma {:induction false} FramesFound(p: seq<byte>, off: nat, fs: seq<Frame>)
    requires AllProper(fs) && off <= |p| && p[off..] == FramesBytes(fs)
    ensures FramesFrom(p, off) == fs
    decreases |fs|
  {
    hide FrameBytes, Broken, FrameAt, Total;
    if fs == [] {
    } else {
      FrameRead(p, off, fs[0], FramesBytes(fs[1..]));
      FramesFound(p, off + Total(p, off), fs[1..]);
    }
  }

  lemma FramesCons(f: Frame, tail: seq<Frame>)
    requires Proper(f) && AllProper(tail)
    ensures AllProper([f] + tail) && FramesBytes([f] + tail) == FrameBytes(f) + FramesBytes(tail)
  {
    hide FrameBytes, Proper;
    var fs := [f] + tail;
    assert fs[0] == f && fs[1..] == tail && forall i :: 0 < i < |fs| ==> fs[i] == tail[i - 1];
  }

  lemma NoFrames()
    ensures AllProper([]) && FramesBytes([]) == []
  {
  }

  lemma {:induction false} WalkFinds(p: seq<byte>, off: nat)
    requires off <= |p|
    ensures var fs, w := FramesFrom(p, off), From(p, off);
            AllProper(fs) && w.frames == |fs| && (w.issues == [] <==> FramesBytes(fs) == p[off..])
    decreases |p| - off
  {
    hide FrameBytes, FramesBytes, Broken, FrameAt, Total, Proper, AllProper;
    NoFrames();
    if off == |p| {
      assert p[off..] == [];
    } else if Broken(p, off) != [] {
      assert |p[off..]| > 0;
    } else {
      var next := off + Total(p, off);
      BrokenNot(p, off);
      WalkFinds(p, next);
      FrameAtBytes(p, off);
      var f, tail := FrameAt(p, off), FramesFrom(p, next);
      FramesCons(f, tail);
      Cut(p, off, next, |p|);
      assert p[off..] == p[off..|p|] && p[next..] == p[next..|p|];
      Cancel(FrameBytes(f), FramesBytes(tail), p[next..]);
    }
  }

  lemma BrokenNot(p: seq<byte>, off: nat)
    requires off < |p| && Broken(p, off) == []
    ensures off + 2 < off + Total(p, off) <= |p|
  {
  }

  /** A payload raises no issue if and only if it is a header that announces k frames and exactly k
      well-formed frames; and these are unique. */
  lemma LhdcExactly(p: seq<byte>)
    ensures Check(p).issues == [] <==> exists fs :: IsPayload(p, fs)
    ensures forall a, b :: IsPayload(p, a) && IsPayload(p, b) ==> a == b
  {
    hide FramesBytes, FramesFrom, From, AllProper;
    if |p| >= 2 {
      WalkFinds(p, 2);
      var w, found := From(p, 2), FramesFrom(p, 2);
      assert Check(p).issues == [] <==> w.issues == [] && p[0] / 4 == w.frames;
      if Check(p).issues == [] {
        assert IsPayload(p, found);
      }
      forall fs | IsPayload(p, fs)
        ensures fs == found && Check(p).issues == []
      {
        FramesFound(p, 2, fs);
      }
    }
  }

  // ---- The object: a loop, and the sequence byte over packets ----

  class LhdcChecker {
    var frames: nat
    var haveSeq: bool
    var lastSeq: byte
    var seqGaps: nat
    var issues: seq<Issue>

    method Packet(p: seq<byte>)
      modifies this
      ensures var w := Check(p); frames == old(frames) + w.frames && issues == old(issues) + w.issues
      ensures |p| < 2 ==> haveSeq == old(haveSeq) && lastSeq == old(lastSeq) && seqGaps == old(seqGaps)
      ensures |p| >= 2 ==>
                && haveSeq && lastSeq == p[1]
                && seqGaps == old(seqGaps) + if old(haveSeq) && (old(lastSeq) as int + 1) % 256 != p[1] then 1 else 0
    {
      hide From;
      if |p| < 2 {
        issues := issues + [Short];
        return;
      }
      var next: byte := if lastSeq == 255 then 0 else lastSeq + 1;
      if haveSeq && next != p[1] {
        seqGaps := seqGaps + 1;
      }
      haveSeq, lastSeq := true, p[1];
      var got, found := WalkFrames(p);
      frames, issues := frames + got, issues + found;
      if p[0] / 4 != got {
        issues := issues + [WrongCount];
      }
      assert old(issues) + found + [WrongCount] == old(issues) + (found + [WrongCount]);
      assert found + [] == found;
    }

    method WalkFrames(p: seq<byte>) returns (got: nat, found: seq<Issue>)
      requires |p| >= 2
      ensures Walk(got, found) == From(p, 2)
    {
      got, found := 0, [];
      var off := 2;
      while off < |p|
        invariant off <= |p|
        invariant found == [] && got + From(p, off).frames == From(p, 2).frames
        invariant From(p, off).issues == From(p, 2).issues
        decreases |p| - off
      {
        if |p| - off < 2 {
          found := [Trailing];
          break;
        }
        var perChannel := Le16(p, off) % 1024;
        var total := 2 + 2 * perChannel;
        if perChannel == 0 {
          found := [ZeroLength];
          break;
        }
        if off + total > |p| {
          found := [PastEnd];
          break;
        }
        got, off := got + 1, off + total;
      }
    }
  }
}
