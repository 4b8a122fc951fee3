/** HCI ISO data in the LE Audio decoder (tools/a2dp_decode/le_audio_decode.cpp, `on_iso`): the packet's
    header, the 16-bit sequence numbers unwrapped, losses counted and time stamps checked. */
module IsoDecoder {
  import opened Bytes

  datatype Packet =
    | Unusable                                       // too short, or truncated
    | Fragment
    | NoSduHeader
    | BadLength(status: nat)
    | Sdu(ts: bool, timestamp: u32, sn: u16, status: nat, data: seq<byte>)

  /** The header of section 5.4.5 of Core Vol 4 Part E, as the decoder reads it. */
  function Parse(p: seq<byte>): Packet {
    if |p| < 4 then Unusable
    else
      var pb := p[1] / 16 % 4;
      var ts := p[1] / 64 % 2 == 1;
      var len := Le16(p, 2) % 0x4000;
      if 4 + len > |p| then Unusable
      else if pb != 2 then Fragment
      else if ts && len < 4 then Unusable
      else
        var at := if ts then 8 else 4;
        var timestamp := if ts then Le32(p, 4) else 0;
        var dl := 4 + len - at;
        if dl < 4 then NoSduHeader
        else
          var sduLen := Le16(p, at + 2) % 0x1000;
          var status := p[at + 3] / 64;
          if sduLen != dl - 4 then BadLength(status)
          else Sdu(ts, timestamp, Le16(p, at), status, p[at + 4..4 + len])
  }

  datatype Config = Config(sduInterval: nat, expected: nat)

  /** One CIS stream. `keys`: the timeline keys of the SDUs decoded, in order. */
  datatype Stream = Stream(
    sdus: nat, gaps: nat, missing: nat, badLen: nat, statusErr: nat, fragments: nat, tsBad: nat,
    firstSeq: int, lastSeq: int, lastTs: u32, haveTs: bool, seqBase: int, keys: seq<int>)

  const FRESH := Stream(0, 0, 0, 0, 0, 0, 0, -1, -1, 0, false, 0, [])

  function Sub16(a: int, b: int): u16 { (a - b) % 0x1_0000 }

  function Sub32(a: int, b: int): u32 { (a - b) % 0x1_0000_0000 }

  predicate Wraps(last: int, sn: int) { sn < last && last - sn > 0x8000 }

  function Number(s: Stream, sn: u16): Stream {
    if s.lastSeq < 0 then s.(firstSeq := sn)
    else
      var want := Sub16(s.lastSeq + 1, 0);
      s.(gaps := if sn != want then s.gaps + 1 else s.gaps,
         missing := if sn != want then s.missing + Sub16(sn, want) else s.missing,
         seqBase := if Wraps(s.lastSeq, sn) then s.seqBase + 0x1_0000 else s.seqBase)
  }

  /** The time stamps differ by the numbers' difference in SDU intervals. */
  predicate InStep(interval: nat, timestamp: u32, lastTs: u32, sn: int, lastSeq: int) {
    var d: nat := Sub16(sn, lastSeq);
    Sub32(timestamp, lastTs) == d * interval % 0x1_0000_0000
  }

  predicate TsDiffers(cfg: Config, s: Stream, ts: bool, timestamp: u32, sn: u16) {
    ts && s.haveTs && cfg.sduInterval != 0 && !InStep(cfg.sduInterval, timestamp, s.lastTs, sn, s.lastSeq)
  }

  function TakeSdu(cfg: Config, s: Stream, ts: bool, timestamp: u32, sn: u16, data: seq<byte>): Stream {
    var s1 := Number(s, sn);
    var s2 := s1.(tsBad := if TsDiffers(cfg, s, ts, timestamp, sn) then s1.tsBad + 1 else s1.tsBad,
                  lastTs := timestamp, haveTs := ts, lastSeq := sn, sdus := s1.sdus + 1);
    if |data| != cfg.expected then s2.(badLen := s2.badLen + 1) else s2.(keys := s2.keys + [s2.seqBase + sn])
  }

  function Take(cfg: Config, s: Stream, p: Packet): Stream {
    match p
    case Unusable => s
    case Fragment => s.(fragments := s.fragments + 1)
    case NoSduHeader => s
    case BadLength(status) =>
      s.(badLen := s.badLen + 1, statusErr := if status != 0 then s.statusErr + 1 else s.statusErr)
    case Sdu(ts, timestamp, sn, status, data) =>
      TakeSdu(cfg, s.(statusErr := if status != 0 then s.statusErr + 1 else s.statusErr), ts, timestamp, sn, data)
  }

  function TakeAll(cfg: Config, s: Stream, ps: seq<seq<byte>>): Stream {
    if ps == [] then s else Take(cfg, TakeAll(cfg, s, ps[..|ps| - 1]), Parse(ps[|ps| - 1]))
  }

  // ---- The decoder's object ----

  class CisStream {
    const cfg: Config
    var sdus: nat
    var gaps: nat
    var missing: nat
    var badLen: nat
    var statusErr: nat
    var fragments: nat
    var tsBad: nat
    var firstSeq: int
    var lastSeq: int
    var lastTs: u32
    var haveTs: bool
    var seqBase: int
    var keys: seq<int>

    function View(): Stream
      reads this
    {
      Stream(sdus, gaps, missing, badLen, statusErr, fragments, tsBad, firstSeq, lastSeq, lastTs, haveTs, seqBase, keys)
    }

    method OnIso(p: seq<byte>)
      modifies this
      ensures View() == Take(cfg, old(View()), Parse(p))
    {
      hide Le16, Le32, TakeSdu;
      if |p| < 4 {
        return;
      }
      var pb := p[1] / 16 % 4;
      var ts := p[1] / 64 % 2 == 1;
      var len := Le16(p, 2) % 0x4000;
      if 4 + len > |p| {
        return;
      }
      if pb != 2 {
        fragments := fragments + 1;
        return;
      }
      var at, dl, timestamp := 4, len, 0;
      if ts {
        if dl < 4 {
          return;
        }
        timestamp := Le32(p, 4);
        at, dl := at + 4, dl - 4;
      }
      if dl < 4 {
        return;
      }
      var sn := Le16(p, at);
      var sduLen := Le16(p, at + 2) % 0x1000;
      var status := p[at + 3] / 64;
      at, dl := at + 4, dl - 4;
      if status != 0 {
        statusErr := statusErr + 1;
      }
      if sduLen != dl {
        badLen := badLen + 1;
        return;
      }
      Count(ts, timestamp, sn, p[at..at + dl]);
    }

    method Count(ts: bool, timestamp: u32, sn: u16, data: seq<byte>)
      modifies this
      ensures View() == TakeSdu(cfg, old(View()), ts, timestamp, sn, data)
    {
      hide InStep, Number;
      var bad := ts && haveTs && cfg.sduInterval != 0 && !InStep(cfg.sduInterval, timestamp, lastTs, sn, lastSeq);
      CountNumber(sn);
      if bad {
        tsBad := tsBad + 1;
      }
      lastTs, haveTs, lastSeq, sdus := timestamp, ts, sn, sdus + 1;
      if |data| != cfg.expected {
        badLen := badLen + 1;
        return;
      }
      keys := keys + [seqBase + sn];
    }

    /** Sequence numbers: consecutive, 16-bit wrap. */
    method CountNumber(sn: u16)
      modifies this
      ensures View() == Number(old(View()), sn)
    {
      hide Sub16;
      if lastSeq >= 0 {
        var want := Sub16(lastSeq + 1, 0);
        if sn != want {
          gaps := gaps + 1;
          missing := missing + Sub16(sn, want);
        }
        if sn < lastSeq && lastSeq - sn > 0x8000 {
          seqBase := seqBase + 0x1_0000;
        }
      } else {
        firstSeq := sn;
      }
    }
  }

  // ---- Unwrapping ----

  /** Where the 16-bit number's true number lies, for a step from t to t'. */
  predicate Unwrappable(t: int, t': int) {
    || (t' / 0x1_0000 == t / 0x1_0000 && t' - t >= -0x8000)
    || (t' / 0x1_0000 == t / 0x1_0000 + 1 && t' - t <= 0x7FFF)
  }

  /** One step is unwrapped rightly if and only if it stays in the same 65536 numbers and does not go back
      by more than 0x8000, or crosses into the next ones by at most 0x7FFF. */
  lemma UnwrapExactly(cfg: Config, s: Stream, ts: bool, timestamp: u32, data: seq<byte>, t: int, t': int)
    requires s.lastSeq == t % 0x1_0000
    ensures var s' := TakeSdu(cfg, s, ts, timestamp, t' % 0x1_0000, data);
            (s'.seqBase + s'.lastSeq) - (s.seqBase + s.lastSeq) == t' - t <==> Unwrappable(t, t')
  {
    var e, e' := t / 0x1_0000, t' / 0x1_0000;
    assert t == 0x1_0000 * e + t % 0x1_0000 && t' == 0x1_0000 * e' + t' % 0x1_0000;
  }

  /** Losses are counted rightly by a step if and only if it goes forward by 1 to 65536. */
  lemma LossExactly(cfg: Config, s: Stream, ts: bool, timestamp: u32, data: seq<byte>, t: int, t': int)
    requires s.lastSeq == t % 0x1_0000
    ensures var s' := TakeSdu(cfg, s, ts, timestamp, t' % 0x1_0000, data);
            (s'.sdus + s'.missing) - (s.sdus + s.missing) == t' - t <==> 1 <= t' - t <= 0x1_0000
  {
    var sn := t' % 0x1_0000;
    var want := Sub16(t % 0x1_0000 + 1, 0);
    assert Sub16(sn, want) == (t' - t - 1) % 0x1_0000 by {
      ModShift(t, t');
    }
  }

  lemma ModShift(t: int, t': int)
    ensures Sub16(t' % 0x1_0000, Sub16(t % 0x1_0000 + 1, 0)) == (t' - t - 1) % 0x1_0000
  {
    var a, b := t % 0x1_0000, t' % 0x1_0000;
    var m := Sub16(a + 1, 0);
    assert t == 0x1_0000 * (t / 0x1_0000) + a && t' == 0x1_0000 * (t' / 0x1_0000) + b;
    assert m == a + 1 || m == a + 1 - 0x1_0000;
    var k := t' / 0x1_0000 - t / 0x1_0000 - (if m == a + 1 then 0 else 1);
    assert t' - t - 1 == b - m + 0x1_0000 * k;
    assert (b - m + 0x1_0000 * k) % 0x1_0000 == (b - m) % 0x1_0000;
  }

  // ---- Whole captures ----

  /** The SDUs of a capture that pass the length-field check. */
  function Sdus(ps: seq<seq<byte>>): seq<Packet> {
    if ps == [] then []
    else
      var p := Parse(ps[|ps| - 1]);
      Sdus(ps[..|ps| - 1]) + if p.Sdu? then [p] else []
  }

  function GapsOf(ts: seq<int>): nat {
    if |ts| < 2 then 0 else GapsOf(ts[..|ts| - 1]) + if ts[|ts| - 1] == ts[|ts| - 2] + 1 then 0 else 1
  }

  /** True numbers of SDUs: they agree with the 16-bit ones and step by 1 to 0x7FFF. */
  predicate TrueNumbers(trues: seq<int>, sdus: seq<Packet>) {
    && |trues| == |sdus|
    && (forall i :: 0 <= i < |trues| ==> sdus[i].Sdu? && sdus[i].sn == trues[i] % 0x1_0000)
    && forall i :: 0 < i < |trues| ==> 1 <= trues[i] - trues[i - 1] <= 0x7FFF
  }

  /** SDUs received and missing add up to the numbers covered, a gap is counted at each step above one, and
      the unwrapped number is the true one up to one constant. */
  predicate Tallies(s: Stream, trues: seq<int>) {
    && s.sdus == |trues| && s.gaps == GapsOf(trues)
    && (trues == [] ==> s.lastSeq == -1 && s.missing == 0 && s.seqBase == 0)
    && (trues != [] ==>
         var last := trues[|trues| - 1];
         && s.lastSeq == last % 0x1_0000
         && s.sdus + s.missing == last - trues[0] + 1
         && s.seqBase + s.lastSeq == last - trues[0] / 0x1_0000 * 0x1_0000)
  }

  lemma {:induction false} Accounting(cfg: Config, ps: seq<seq<byte>>, trues: seq<int>)
    requires TrueNumbers(trues, Sdus(ps))
    ensures Tallies(TakeAll(cfg, FRESH, ps), trues)
    decreases |ps|
  {
    hide Parse, Take, Tallies, TrueNumbers;
    if ps == [] {
      NoneTallied(trues);
    } else {
      var front, p := ps[..|ps| - 1], Parse(ps[|ps| - 1]);
      var s := TakeAll(cfg, FRESH, front);
      if p.Sdu? {
        TrueNumbersFront(trues, Sdus(front), p);
        Accounting(cfg, front, trues[..|trues| - 1]);
        SduAccounting(cfg, s, p, trues);
      } else {
        assert Sdus(ps) == Sdus(front);
        Accounting(cfg, front, trues);
        OthersUncounted(cfg, s, p, trues);
      }
    }
  }

  lemma NoneTallied(trues: seq<int>)
    requires TrueNumbers(trues, [])
    ensures Tallies(FRESH, trues)
  {
  }

  lemma TrueNumbersFront(trues: seq<int>, sdus: seq<Packet>, p: Packet)
    requires TrueNumbers(trues, sdus + [p])
    ensures |trues| == |sdus| + 1 && TrueNumbers(trues[..|trues| - 1], sdus)
    ensures p.Sdu? && p.sn == trues[|sdus|] % 0x1_0000
    ensures |sdus| > 0 ==> 1 <= trues[|sdus|] - trues[|sdus| - 1] <= 0x7FFF
  {
    var both := sdus + [p];
    assert both[|sdus|] == p && forall i :: 0 <= i < |sdus| ==> both[i] == sdus[i];
  }

  lemma OthersUncounted(cfg: Config, s: Stream, p: Packet, trues: seq<int>)
    requires Tallies(s, trues) && !p.Sdu?
    ensures Tallies(Take(cfg, s, p), trues)
  {
  }

  lemma SduAccounting(cfg: Config, s: Stream, p: Packet, trues: seq<int>)
    requires trues != [] && p.Sdu? && p.sn == trues[|trues| - 1] % 0x1_0000
    requires |trues| >= 2 ==> 1 <= trues[|trues| - 1] - trues[|trues| - 2] <= 0x7FFF
    requires Tallies(s, trues[..|trues| - 1])
    ensures Tallies(Take(cfg, s, p), trues)
  {
    hide TakeSdu;
    var s0 := s.(statusErr := if p.status != 0 then s.statusErr + 1 else s.statusErr);
    var last := trues[|trues| - 1];
    if |trues| >= 2 {
      StepEffect(cfg, s0, p.ts, p.timestamp, p.data, trues[|trues| - 2], last);
      assert trues[..|trues| - 1] != [];
    } else {
      FirstEffect(cfg, s0, p.ts, p.timestamp, p.data, last);
    }
  }

  lemma FirstEffect(cfg: Config, s: Stream, ts: bool, timestamp: u32, data: seq<byte>, t: int)
    requires s.lastSeq == -1
    ensures var s' := TakeSdu(cfg, s, ts, timestamp, t % 0x1_0000, data);
            && s'.sdus == s.sdus + 1 && s'.gaps == s.gaps && s'.missing == s.missing && s'.seqBase == s.seqBase
            && s'.lastSeq == t % 0x1_0000 == t - t / 0x1_0000 * 0x1_0000
  {
    hide InStep;
  }

  lemma StepEffect(cfg: Config, s: Stream, ts: bool, timestamp: u32, data: seq<byte>, t: int, t': int)
    requires s.lastSeq == t % 0x1_0000 && 1 <= t' - t <= 0x7FFF
    ensures var s' := TakeSdu(cfg, s, ts, timestamp, t' % 0x1_0000, data);
            && s'.sdus == s.sdus + 1 && s'.lastSeq == t' % 0x1_0000
            && s'.gaps == s.gaps + (if t' == t + 1 then 0 else 1)
            && (s'.sdus + s'.missing) - (s.sdus + s.missing) == t' - t
            && (s'.seqBase + s'.lastSeq) - (s.seqBase + s.lastSeq) == t' - t
  {
    hide InStep, Sub16;
    UnwrapExactly(cfg, s, ts, timestamp, data, t, t');
    LossExactly(cfg, s, ts, timestamp, data, t, t');
    StepIsUnwrappable(t, t');
    GapExactly(t, t');
  }

  lemma StepIsUnwrappable(t: int, t': int)
    requires 1 <= t' - t <= 0x7FFF
    ensures Unwrappable(t, t')
  {
  }

  lemma GapExactly(t: int, t': int)
    requires 1 <= t' - t <= 0x7FFF
    ensures t' % 0x1_0000 == Sub16(t % 0x1_0000 + 1, 0) <==> t' == t + 1
  {
    ModShift(t, t');
  }
}
