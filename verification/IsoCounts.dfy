/** Everything the LE Audio decoder counts of a capture, told from its packets
    (tools/a2dp_decode/le_audio_decode.cpp, `on_iso`): fragments, status errors, wrong lengths, timeline keys and
    time stamps that do not step with the sequence numbers. */
module IsoCounts {
  import opened Bytes
  import opened IsoDecoder

  function Fragments(ps: seq<seq<byte>>): nat {
    if ps == [] then 0 else Fragments(ps[..|ps| - 1]) + if Parse(ps[|ps| - 1]).Fragment? then 1 else 0
  }

  /** Packets with an SDU header whose status is not 0. */
  function BadStatus(ps: seq<seq<byte>>): nat {
    if ps == [] then 0
    else
      var p := Parse(ps[|ps| - 1]);
      BadStatus(ps[..|ps| - 1]) + if (p.BadLength? || p.Sdu?) && p.status != 0 then 1 else 0
  }

  /** Packets whose length field is wrong, and SDUs that are not of the configured size. */
  function WrongLength(expected: nat, ps: seq<seq<byte>>): nat {
    if ps == [] then 0
    else
      var p := Parse(ps[|ps| - 1]);
      WrongLength(expected, ps[..|ps| - 1]) + if p.BadLength? || (p.Sdu? && |p.data| != expected) then 1 else 0
  }

  lemma {:induction false} CountsExactly(cfg: Config, ps: seq<seq<byte>>)
    ensures var s := TakeAll(cfg, FRESH, ps);
            && s.fragments == Fragments(ps) && s.statusErr == BadStatus(ps)
            && s.badLen == WrongLength(cfg.expected, ps)
  {
    hide Parse, TsDiffers, Number;
    if ps == [] {
    } else {
      var front := ps[..|ps| - 1];
      CountsExactly(cfg, front);
      CountOne(cfg, TakeAll(cfg, FRESH, front), Parse(ps[|ps| - 1]));
    }
  }

  lemma CountOne(cfg: Config, s: Stream, p: Packet)
    ensures var s' := Take(cfg, s, p);
            && s'.fragments == s.fragments + (if p.Fragment? then 1 else 0)
            && s'.statusErr == s.statusErr + (if (p.BadLength? || p.Sdu?) && p.status != 0 then 1 else 0)
            && s'.badLen == s.badLen + if p.BadLength? || (p.Sdu? && |p.data| != cfg.expected) then 1 else 0
  {
    hide TsDiffers, Sub16, Wraps;
  }

  // ---- Keys and time stamps, with true numbers ----

  /** The timeline keys: the true numbers of the SDUs of the configured size, from the first one's 65536. */
  function Keys(expected: nat, sdus: seq<Packet>, trues: seq<int>): seq<int>
    requires |trues| == |sdus| && forall i :: 0 <= i < |sdus| ==> sdus[i].Sdu?
  {
    if sdus == [] then []
    else
      var n := |sdus| - 1;
      Keys(expected, sdus[..n], trues[..n])
      + if |sdus[n].data| == expected then [trues[n] - trues[0] / 0x1_0000 * 0x1_0000] else []
  }

  /** The time stamps of two SDUs in a row that do not differ by their numbers' difference in intervals. */
  predicate OutOfStep(interval: nat, a: Packet, b: Packet, steps: int)
    requires a.Sdu? && b.Sdu?
  {
    a.ts && b.ts && interval != 0 && (b.timestamp - a.timestamp - steps * interval) % 0x1_0000_0000 != 0
  }

  function OutOfSteps(interval: nat, sdus: seq<Packet>, trues: seq<int>): nat
    requires |trues| == |sdus| && forall i :: 0 <= i < |sdus| ==> sdus[i].Sdu?
  {
    if |sdus| < 2 then 0
    else
      var n := |sdus| - 1;
      OutOfSteps(interval, sdus[..n], trues[..n])
      + if OutOfStep(interval, sdus[n - 1], sdus[n], trues[n] - trues[n - 1]) then 1 else 0
  }

  ghost predicate Follows(cfg: Config, s: Stream, sdus: seq<Packet>, trues: seq<int>) {
    && |trues| == |sdus| && (forall i :: 0 <= i < |sdus| ==> sdus[i].Sdu?)
    && s.keys == Keys(cfg.expected, sdus, trues)
    && s.tsBad == OutOfSteps(cfg.sduInterval, sdus, trues)
    && (sdus == [] ==> !s.haveTs)
    && (sdus != [] ==> s.haveTs == sdus[|sdus| - 1].ts && s.lastTs == sdus[|sdus| - 1].timestamp)
  }

  lemma DifferenceIs(t: int, t': int)
    requires 1 <= t' - t <= 0x7FFF
    ensures Sub16(t' % 0x1_0000, t % 0x1_0000) == t' - t
  {
    var a, b := t % 0x1_0000, t' % 0x1_0000;
    assert t == 0x1_0000 * (t / 0x1_0000) + a && t' == 0x1_0000 * (t' / 0x1_0000) + b;
    var k := t' / 0x1_0000 - t / 0x1_0000;
    assert b - a == t' - t - 0x1_0000 * k;
    assert k == 0 || k == 1;
  }

  lemma SameMod(a: int, b: int)
    ensures a % 0x1_0000_0000 == b % 0x1_0000_0000 <==> (a - b) % 0x1_0000_0000 == 0
  {
    assert a == 0x1_0000_0000 * (a / 0x1_0000_0000) + a % 0x1_0000_0000;
    assert b == 0x1_0000_0000 * (b / 0x1_0000_0000) + b % 0x1_0000_0000;
  }

  lemma InStepIs(interval: nat, x: u32, y: u32, t: int, t': int)
    requires 1 <= t' - t <= 0x7FFF
    ensures InStep(interval, x, y, t' % 0x1_0000, t % 0x1_0000) <==>
            (x - y - (t' - t) * interval) % 0x1_0000_0000 == 0
  {
    hide Sub16;
    DifferenceIs(t, t');
    SameMod(x - y, (t' - t) * interval);
  }

  lemma KeysStep(expected: nat, sdus: seq<Packet>, p: Packet, trues: seq<int>)
    requires |sdus| + 1 == |trues| && p.Sdu? && forall i :: 0 <= i < |sdus| ==> sdus[i].Sdu?
    ensures Keys(expected, sdus + [p], trues) == Keys(expected, sdus, trues[..|sdus|])
            + if |p.data| == expected then [trues[|sdus|] - trues[0] / 0x1_0000 * 0x1_0000] else []
  {
    assert (sdus + [p])[..|sdus|] == sdus;
  }

  lemma StampsStep(interval: nat, sdus: seq<Packet>, p: Packet, trues: seq<int>)
    requires |sdus| + 1 == |trues| && p.Sdu? && forall i :: 0 <= i < |sdus| ==> sdus[i].Sdu?
    ensures var n := |sdus|;
            OutOfSteps(interval, sdus + [p], trues) == OutOfSteps(interval, sdus, trues[..n])
            + if n > 0 && OutOfStep(interval, sdus[n - 1], p, trues[n] - trues[n - 1]) then 1 else 0
  {
    hide OutOfStep;
    assert (sdus + [p])[..|sdus|] == sdus;
  }

  /** What one SDU does to the keys and time stamps. */
  lemma TakeSduIs(cfg: Config, s: Stream, p: Packet)
    requires p.Sdu?
    ensures var s' := Take(cfg, s, p);
            && s'.keys == s.keys + (if |p.data| == cfg.expected then [s'.seqBase + s'.lastSeq] else [])
            && s'.tsBad == s.tsBad + (if TsDiffers(cfg, s, p.ts, p.timestamp, p.sn) then 1 else 0)
            && s'.haveTs == p.ts && s'.lastTs == p.timestamp
  {
    hide InStep, Sub16, Wraps;
  }

  lemma DiffersIs(cfg: Config, s: Stream, q: Packet, p: Packet, t: int, t': int)
    requires p.Sdu? && q.Sdu? && p.sn == t' % 0x1_0000 && s.lastSeq == t % 0x1_0000
    requires 1 <= t' - t <= 0x7FFF && s.haveTs == q.ts && s.lastTs == q.timestamp
    ensures TsDiffers(cfg, s, p.ts, p.timestamp, p.sn) <==> OutOfStep(cfg.sduInterval, q, p, t' - t)
  {
    hide InStep;
    InStepIs(cfg.sduInterval, p.timestamp, s.lastTs, t, t');
  }

  lemma SduFollows(cfg: Config, s: Stream, p: Packet, sdus: seq<Packet>, trues: seq<int>)
    requires trues != [] && |sdus| + 1 == |trues| && p.Sdu? && Follows(cfg, s, sdus, trues[..|sdus|])
    requires p.sn == trues[|sdus|] % 0x1_0000
    requires sdus != [] ==> 1 <= trues[|sdus|] - trues[|sdus| - 1] <= 0x7FFF
    requires sdus != [] ==> s.lastSeq == trues[|sdus| - 1] % 0x1_0000
    requires var s' := Take(cfg, s, p); s'.seqBase + s'.lastSeq == trues[|sdus|] - trues[0] / 0x1_0000 * 0x1_0000
    ensures Follows(cfg, Take(cfg, s, p), sdus + [p], trues)
  {
    hide Take, TsDiffers, OutOfStep, Keys, OutOfSteps;
    var n := |sdus|;
    TakeSduIs(cfg, s, p);
    KeysStep(cfg.expected, sdus, p, trues);
    StampsStep(cfg.sduInterval, sdus, p, trues);
    if n > 0 {
      DiffersIs(cfg, s, sdus[n - 1], p, trues[n - 1], trues[n]);
    } else {
      NoneBefore(cfg, s, p);
    }
  }

  lemma NoneBefore(cfg: Config, s: Stream, p: Packet)
    requires p.Sdu? && !s.haveTs
    ensures !TsDiffers(cfg, s, p.ts, p.timestamp, p.sn)
  {
  }

  lemma OthersFollow(cfg: Config, s: Stream, p: Packet, sdus: seq<Packet>, trues: seq<int>)
    requires Follows(cfg, s, sdus, trues) && !p.Sdu?
    ensures Follows(cfg, Take(cfg, s, p), sdus, trues)
  {
  }

  /** For every capture whose SDUs carry true numbers that step by 1 to 0x7FFF: the timeline keys are the true
      numbers of the SDUs of the configured size up to one constant, and `ts_bad` counts exactly the SDUs whose
      time stamp does not step by as many intervals as their number, over any number of wraps of both. */
  lemma {:induction false} KeysAndStamps(cfg: Config, ps: seq<seq<byte>>, trues: seq<int>)
    requires TrueNumbers(trues, Sdus(ps))
    ensures Follows(cfg, TakeAll(cfg, FRESH, ps), Sdus(ps), trues)
    decreases |ps|
  {
    hide Parse, Take, Follows, Tallies, TrueNumbers;
    if ps == [] {
      NothingFollows(cfg, trues);
    } else {
      var front, p := ps[..|ps| - 1], Parse(ps[|ps| - 1]);
      var s := TakeAll(cfg, FRESH, front);
      if p.Sdu? {
        var n := |Sdus(front)|;
        TrueNumbersFront(trues, Sdus(front), p);
        KeysAndStamps(cfg, front, trues[..n]);
        Accounting(cfg, front, trues[..n]);
        Accounting(cfg, ps, trues);
        TalliesMean(s, trues[..n]);
        TalliesMean(TakeAll(cfg, FRESH, ps), trues);
        assert n > 0 ==> trues[..n][n - 1] == trues[n - 1];
        SduFollows(cfg, s, p, Sdus(front), trues);
      } else {
        assert Sdus(ps) == Sdus(front);
        KeysAndStamps(cfg, front, trues);
        OthersFollow(cfg, s, p, Sdus(front), trues);
      }
    }
  }

  lemma NothingFollows(cfg: Config, trues: seq<int>)
    requires TrueNumbers(trues, [])
    ensures Follows(cfg, FRESH, [], trues)
  {
  }

  lemma TalliesMean(s: Stream, trues: seq<int>)
    requires Tallies(s, trues)
    ensures trues != [] ==> s.lastSeq == trues[|trues| - 1] % 0x1_0000
    ensures trues != [] ==> s.seqBase + s.lastSeq == trues[|trues| - 1] - trues[0] / 0x1_0000 * 0x1_0000
  {
  }
}
