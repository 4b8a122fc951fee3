/** RTP in the measuring sink (tools/linux_sink/bluecaster_sink.py, `StreamStats._strip_rtp`): the header,
    and losses counted over 16-bit sequence numbers. */
module Rtp {
  import opened Bytes

  function Be16(s: seq<byte>, i: nat): (v: u16)
    requires i + 2 <= |s|
  {
    var a: int, b: int := s[i], s[i + 1];
    256 * a + b
  }

  function Be32(s: seq<byte>, i: nat): (v: u32)
    requires i + 4 <= |s|
  {
    var a: int, b: int := Be16(s, i), Be16(s, i + 2);
    0x1_0000 * a + b
  }

  datatype Stripped = Invalid | Packet(sn: u16, ts: u32, payload: seq<byte>)

  function Strip(p: seq<byte>): Stripped {
    if |p| < 12 || p[0] / 64 != 2 then Invalid
    else
      var h0 := 12 + 4 * (p[0] % 16);
      if p[0] / 16 % 2 == 1 && |p| < h0 + 4 then Invalid
      else
        var words: nat := if p[0] / 16 % 2 == 1 then Be16(p, h0 + 2) else 0;
        var h: nat := if p[0] / 16 % 2 == 1 then h0 + 4 + 4 * words else h0;
        var pad: nat := if p[0] / 32 % 2 == 1 then p[|p| - 1] else 0;
        if |p| < h + pad then Invalid else Packet(Be16(p, 2), Be32(p, 4), p[h..|p| - pad])
  }

  // ---- A packet as section 5.1 of RFC 3550 lays it out ----

  /** A header extension: profile bytes and 32-bit words. */
  datatype Extension = NoExtension | Extension(profile: seq<byte>, words: seq<byte>)

  /** `padded`: the padding bit, which says that the last byte tells how many bytes of padding there are. */
  datatype Message = Message(
    marker: byte, sn: u16, ts: u32, ssrc: seq<byte>, csrcs: seq<byte>, ext: Extension, payload: seq<byte>,
    padded: bool, padding: seq<byte>)

  predicate Proper(m: Message) {
    && |m.ssrc| == 4 && |m.csrcs| % 4 == 0 && |m.csrcs| <= 60
    && (m.ext.Extension? ==> |m.ext.profile| == 2 && |m.ext.words| % 4 == 0 && |m.ext.words| < 0x4_0000)
    && (!m.padded ==> m.padding == []) && |m.padding| < 256
  }

  function PutBe16(v: u16): (s: seq<byte>)
    ensures |s| == 2
  {
    [v / 256, v % 256]
  }

  function First(m: Message): byte
    requires Proper(m)
  {
    128 + (if m.padded then 32 else 0) + (if m.ext.Extension? then 16 else 0) + |m.csrcs| / 4
  }

  function Head(m: Message): (s: seq<byte>)
    requires Proper(m)
    ensures |s| == 8 && s[0] == First(m)
  {
    [First(m), m.marker] + PutBe16(m.sn) + PutBe16(m.ts / 0x1_0000) + PutBe16(m.ts % 0x1_0000)
  }

  function ExtensionBytes(e: Extension): seq<byte>
    requires e.Extension? ==> |e.words| < 0x4_0000
  {
    if e.NoExtension? then [] else e.profile + PutBe16(|e.words| / 4) + e.words
  }

  function MessageBytes(m: Message): seq<byte>
    requires Proper(m)
  {
    Head(m) + m.ssrc + m.csrcs + ExtensionBytes(m.ext) + m.payload + m.padding
  }

  /** The bytes of a packet whose last byte, if the padding bit is set, is the number of padding bytes. RFC 3550
      counts that byte among the padding; the code also takes a count of 0, which removes nothing. */
  ghost predicate IsMessage(p: seq<byte>, m: Message) {
    Proper(m) && p == MessageBytes(m) && (m.padded ==> p[|p| - 1] as nat == |m.padding|)
  }

  lemma ReadBe16(s: seq<byte>, i: nat, v: u16)
    requires i + 2 <= |s| && s[i..i + 2] == PutBe16(v)
    ensures Be16(s, i) == v
  {
    assert s[i] == s[i..i + 2][0] && s[i + 1] == s[i..i + 2][1];
  }

  lemma HeadRead(m: Message, rest: seq<byte>)
    requires Proper(m)
    ensures var p := Head(m) + rest;
            p[0] == First(m) && Be16(p, 2) == m.sn && Be32(p, 4) == m.ts
  {
    hide PutBe16, Be16, First;
    var p := Head(m) + rest;
    assert p[2..4] == PutBe16(m.sn) && p[4..6] == PutBe16(m.ts / 0x1_0000) && p[6..8] == PutBe16(m.ts % 0x1_0000);
    ReadBe16(p, 2, m.sn);
    ReadBe16(p, 4, m.ts / 0x1_0000);
    ReadBe16(p, 6, m.ts % 0x1_0000);
  }

  lemma FirstRead(m: Message)
    requires Proper(m)
    ensures var b := First(m);
            && b / 64 == 2 && b % 16 == |m.csrcs| / 4
            && (b / 16 % 2 == 1 <==> m.ext.Extension?) && (b / 32 % 2 == 1 <==> m.padded)
  {
    var k := |m.csrcs| / 4;
    assert 0 <= k <= 15;
  }

  lemma ExtensionRead(e: Extension, pre: seq<byte>, post: seq<byte>)
    requires e.Extension? && |e.profile| == 2 && |e.words| % 4 == 0 && |e.words| < 0x4_0000
    ensures var p := pre + ExtensionBytes(e) + post;
            |ExtensionBytes(e)| == 4 + |e.words| && Be16(p, |pre| + 2) == |e.words| / 4
  {
    hide PutBe16, Be16;
    var p := pre + ExtensionBytes(e) + post;
    assert p[|pre| + 2..|pre| + 4] == PutBe16(|e.words| / 4);
    ReadBe16(p, |pre| + 2, |e.words| / 4);
  }

  /** The header bytes, the payload's place and the padding decide what is read. */
  lemma StripFields(p: seq<byte>, m: Message, extension: nat, words: nat)
    requires Proper(m) && |p| == 12 + |m.csrcs| + extension + |m.payload| + |m.padding|
    requires p[0] == First(m) && Be16(p, 2) == m.sn && Be32(p, 4) == m.ts
    requires extension == if m.ext.Extension? then 4 + 4 * words else 0
    requires m.ext.Extension? ==> Be16(p, 12 + |m.csrcs| + 2) == words
    requires m.padded ==> p[|p| - 1] as nat == |m.padding|
    requires p[12 + |m.csrcs| + extension..|p| - |m.padding|] == m.payload
    ensures Strip(p) == Packet(m.sn, m.ts, m.payload)
  {
    hide First, Be16, Be32;
    FirstRead(m);
    assert 4 * (|m.csrcs| / 4) == |m.csrcs|;
  }

  lemma PayloadPlace(body: seq<byte>, payload: seq<byte>, padding: seq<byte>)
    requires |payload| <= |body| && body[|body| - |payload|..] == payload
    ensures (body + padding)[|body| - |payload|..|body + padding| - |padding|] == payload
  {
  }

  lemma Regrouped(a: seq<byte>, b: seq<byte>, c: seq<byte>, d: seq<byte>, e: seq<byte>, f: seq<byte>)
    ensures a + b + c + d + e + f == a + (b + c + d + e + f)
    ensures a + b + c + d + e + f == (a + b + c) + d + (e + f)
  {
  }

  /** Whatever CSRCs, extension and padding a packet carries, its number, time stamp and payload are read. */
  lemma StripRoundTrip(p: seq<byte>, m: Message)
    requires IsMessage(p, m)
    ensures Strip(p) == Packet(m.sn, m.ts, m.payload)
  {
    hide Strip, Head, First, ExtensionBytes, Be16, Be32;
    var ext := ExtensionBytes(m.ext);
    var fixed := Head(m) + m.ssrc + m.csrcs;
    var body := fixed + ext + m.payload;
    Regrouped(Head(m), m.ssrc, m.csrcs, ext, m.payload, m.padding);
    HeadRead(m, m.ssrc + m.csrcs + ext + m.payload + m.padding);
    if m.ext.Extension? {
      ExtensionRead(m.ext, fixed, m.payload + m.padding);
    } else {
      NoExtensionBytes();
    }
    PayloadPlace(body, m.payload, m.padding);
    StripFields(p, m, |ext|, if m.ext.Extension? then |m.ext.words| / 4 else 0);
  }

  /** Where the CSRCs end, where the payload begins, and the padding, of a packet that is not invalid. */
  ghost predicate Laid(p: seq<byte>, h0: nat, h: nat, pad: nat) {
    && |p| >= 12 && p[0] / 64 == 2 && h0 == 12 + 4 * (p[0] % 16)
    && (if p[0] / 16 % 2 == 1 then |p| >= h0 + 4 && h == h0 + 4 + 4 * Be16(p, h0 + 2) as nat else h == h0)
    && pad == (if p[0] / 32 % 2 == 1 then p[|p| - 1] else 0)
    && h + pad <= |p|
  }

  lemma StripLaid(p: seq<byte>) returns (h0: nat, h: nat, pad: nat)
    requires Strip(p).Packet?
    ensures Laid(p, h0, h, pad)
  {
    hide Be16, Be32;
    h0 := 12 + 4 * (p[0] % 16);
    h := if p[0] / 16 % 2 == 1 then h0 + 4 + 4 * Be16(p, h0 + 2) as nat else h0;
    pad := if p[0] / 32 % 2 == 1 then p[|p| - 1] else 0;
  }

  function ExtensionAt(p: seq<byte>, h0: nat, h: nat): Extension
    requires h0 <= h <= |p|
  {
    if h < h0 + 4 then NoExtension else Extension(p[h0..h0 + 2], p[h0 + 4..h])
  }

  lemma ExtensionRebuilt(p: seq<byte>, h0: nat, h: nat, pad: nat)
    requires Laid(p, h0, h, pad)
    ensures var e := ExtensionAt(p, h0, h);
            && (e.Extension? <==> p[0] / 16 % 2 == 1)
            && (e.Extension? ==> |e.profile| == 2 && |e.words| % 4 == 0 && |e.words| < 0x4_0000)
            && ExtensionBytes(e) == p[h0..h]
  {
    if p[0] / 16 % 2 == 1 {
      var words := Be16(p, h0 + 2);
      PutBe16At(p, h0 + 2);
      assert p[h0..h] == p[h0..h0 + 2] + p[h0 + 2..h0 + 4] + p[h0 + 4..h];
    }
  }

  lemma PutBe16At(p: seq<byte>, i: nat)
    requires i + 2 <= |p|
    ensures PutBe16(Be16(p, i)) == p[i..i + 2]
  {
  }

  lemma HeadRebuilt(p: seq<byte>, m: Message)
    requires Proper(m) && |p| >= 8 && p[0] == First(m) && p[1] == m.marker && Be16(p, 2) == m.sn && Be32(p, 4) == m.ts
    ensures Head(m) == p[..8]
  {
    hide PutBe16, Be16, First;
    PutBe16At(p, 2);
    PutBe16At(p, 4);
    PutBe16At(p, 6);
    assert p[..8] == [p[0], p[1]] + p[2..4] + p[4..6] + p[6..8];
  }

  lemma FirstRebuilt(b: byte, m: Message)
    requires Proper(m) && b / 64 == 2 && |m.csrcs| == 4 * (b % 16)
    requires (m.padded <==> b / 32 % 2 == 1) && (m.ext.Extension? <==> b / 16 % 2 == 1)
    ensures First(m) == b
  {
  }

  lemma StripIsMessage(p: seq<byte>) returns (m: Message)
    requires Strip(p).Packet?
    ensures IsMessage(p, m)
  {
    hide Strip, Head, First, ExtensionBytes, ExtensionAt, Be16, Be32;
    var h0, h, pad := StripLaid(p);
    m := Message(p[1], Be16(p, 2), Be32(p, 4), p[8..12], p[12..h0], ExtensionAt(p, h0, h),
                 p[h..|p| - pad], p[0] / 32 % 2 == 1, p[|p| - pad..]);
    ExtensionRebuilt(p, h0, h, pad);
    FirstRebuilt(p[0], m);
    HeadRebuilt(p, m);
    Parts(p, 8, 12, h0, h, |p| - pad);
  }

  lemma Parts(p: seq<byte>, a: nat, b: nat, c: nat, d: nat, e: nat)
    requires a <= b <= c <= d <= e <= |p|
    ensures p == p[..a] + p[a..b] + p[b..c] + p[c..d] + p[d..e] + p[e..]
  {
    assert p == p[..e] + p[e..] && p[..e] == p[..d] + p[d..e] && p[..d] == p[..c] + p[c..d];
    assert p[..c] == p[..b] + p[b..c] && p[..b] == p[..a] + p[a..b];
  }

  /** A byte string is taken as a packet if and only if it is one, and then its number, time stamp and payload
      are those of any message it is the bytes of. */
  lemma StripExactly(p: seq<byte>)
    ensures Strip(p).Packet? <==> exists m :: IsMessage(p, m)
    ensures forall m :: IsMessage(p, m) ==> Strip(p) == Packet(m.sn, m.ts, m.payload)
  {
    hide Strip, IsMessage;
    if Strip(p).Packet? {
      var m := StripIsMessage(p);
    }
    forall m | IsMessage(p, m)
      ensures Strip(p) == Packet(m.sn, m.ts, m.payload)
    {
      StripRoundTrip(p, m);
    }
  }

  lemma NoExtensionBytes()
    ensures ExtensionBytes(NoExtension) == []
  {
  }

  // ---- Counting ----

  datatype Counters = Counters(
    haveSeq: bool, lastSeq: int, lastTs: int, samplesAtLastTs: int, lost: nat, late: nat, tsErrors: nat)

  const NONE := Counters(false, 0, 0, 0, 0, 0, 0)

  function Diff(sn: int, last: int): u16 { (sn - last - 1) % 0x1_0000 }

  function TsStep(ts: int, last: int): u32 { (ts - last) % 0x1_0000_0000 }

  predicate TsDiffers(c: Counters, ts: u32, samples: int) {
    samples - c.samplesAtLastTs > 0 && TsStep(ts, c.lastTs) != samples - c.samplesAtLastTs
  }

  /** `samples`: the audio counted in all packets before this one. */
  function Count(c: Counters, sn: u16, ts: u32, samples: int): Counters {
    var diff := Diff(sn, c.lastSeq);
    if c.haveSeq && diff >= 0x8000 then c.(late := c.late + 1)
    else
      Counters(true, sn, ts, samples,
               if c.haveSeq then c.lost + diff else c.lost,
               c.late,
               if c.haveSeq && diff == 0 && TsDiffers(c, ts, samples) then c.tsErrors + 1 else c.tsErrors)
  }

  /** One packet: its true sequence number, time stamp and audio. */
  datatype Arrival = Arrival(number: int, ts: u32, audio: nat)

  function Samples(from: int, xs: seq<Arrival>): int {
    if xs == [] then from else Samples(from, xs[..|xs| - 1]) + xs[|xs| - 1].audio
  }

  function CountAll(c: Counters, from: int, xs: seq<Arrival>): Counters {
    if xs == [] then c
    else
      var front, x := xs[..|xs| - 1], xs[|xs| - 1];
      Count(CountAll(c, from, front), x.number % 0x1_0000, x.ts, Samples(from, front))
  }

  // ---- The reference: true numbers ----

  function Highest(xs: seq<Arrival>): int
    requires xs != []
  {
    var x := xs[|xs| - 1].number;
    if |xs| == 1 then x else (var m := Highest(xs[..|xs| - 1]); if x > m then x else m)
  }

  /** Arrivals at or below the highest before them. */
  function LateOnes(xs: seq<Arrival>): nat {
    if |xs| < 2 then 0
    else LateOnes(xs[..|xs| - 1]) + if xs[|xs| - 1].number <= Highest(xs[..|xs| - 1]) then 1 else 0
  }

  predicate InWindow(xs: seq<Arrival>) {
    forall i :: 0 < i < |xs| ==> -0x8000 <= xs[i].number - Highest(xs[..i]) - 1 <= 0x7FFF
  }

  lemma DiffIs(t: int, last: int)
    ensures Diff(t % 0x1_0000, last % 0x1_0000) == (t - last - 1) % 0x1_0000
  {
    var a, b := t % 0x1_0000, last % 0x1_0000;
    assert t == 0x1_0000 * (t / 0x1_0000) + a && last == 0x1_0000 * (last / 0x1_0000) + b;
    var k := t / 0x1_0000 - last / 0x1_0000;
    assert t - last - 1 == a - b - 1 + 0x1_0000 * k;
    assert (a - b - 1 + 0x1_0000 * k) % 0x1_0000 == (a - b - 1) % 0x1_0000;
  }

  /** One arrival is counted rightly if and only if it is at most 0x7FFF packets ahead of the next expected,
      or behind by a distance that does not look ahead modulo 2^16. */
  lemma CountedExactly(c: Counters, last: int, t: int, ts: u32, samples: int)
    requires c.haveSeq && c.lastSeq == last % 0x1_0000
    ensures var c' := Count(c, t % 0x1_0000, ts, samples);
            var d := t - last - 1;
            (&& c'.late == c.late + (if t <= last then 1 else 0)
             && c'.lost == c.lost + (if t <= last then 0 else d)
             && c'.lastSeq == (if t <= last then last else t) % 0x1_0000)
            <==> (0 <= d <= 0x7FFF || (d < 0 && d % 0x1_0000 >= 0x8000))
  {
    hide TsDiffers, Diff;
    DiffIs(t, last);
    ModSmall(t - last - 1);
  }

  lemma ModSmall(d: int)
    ensures 0 <= d <= 0x7FFF ==> d % 0x1_0000 == d
    ensures d > 0x7FFF ==> d % 0x1_0000 >= 0x8000 || d % 0x1_0000 < d
    ensures -0x8000 <= d < 0 ==> d % 0x1_0000 >= 0x8000
  {
  }

  /** Within one START, over any number of wraps: packets in sequence and lost ones add up to the numbers
      covered, and the late ones are exactly those at or below the highest number before them. */
  lemma {:induction false} LossAccounting(c: Counters, from: int, xs: seq<Arrival>)
    requires !c.haveSeq && InWindow(xs) && xs != []
    ensures var c' := CountAll(c, from, xs);
            && c'.haveSeq && c'.lastSeq == Highest(xs) % 0x1_0000
            && c'.late == c.late + LateOnes(xs)
            && (|xs| - LateOnes(xs)) + (c'.lost - c.lost) == Highest(xs) - xs[0].number + 1
    decreases |xs|
  {
    hide Count;
    var n := |xs| - 1;
    var front, x := xs[..n], xs[n];
    var samples := Samples(from, front);
    if n == 0 {
      FirstCounted(c, x.number % 0x1_0000, x.ts, samples);
    } else {
      assert forall i :: 0 <= i < n ==> front[..i] == xs[..i];
      LossAccounting(c, from, front);
      assert xs[..n] == front;
      var c1 := CountAll(c, from, front);
      CountedExactly(c1, Highest(front), x.number, x.ts, samples);
      ModSmall(x.number - Highest(front) - 1);
      KeepsSeq(c1, x.number % 0x1_0000, x.ts, samples);
    }
  }

  lemma FirstCounted(c: Counters, sn: u16, ts: u32, samples: int)
    requires !c.haveSeq
    ensures Count(c, sn, ts, samples) == Counters(true, sn, ts, samples, c.lost, c.late, c.tsErrors)
  {
  }

  lemma KeepsSeq(c: Counters, sn: u16, ts: u32, samples: int)
    requires c.haveSeq
    ensures Count(c, sn, ts, samples).haveSeq
  {
  }

  // ---- Time stamps ----

  /** The arrival the counters stand at. */
  function Top(xs: seq<Arrival>): (x: Arrival)
    requires xs != []
    ensures x in xs && x.number == Highest(xs)
  {
    var x := xs[|xs| - 1];
    if |xs| == 1 || x.number > Highest(xs[..|xs| - 1]) then x else Top(xs[..|xs| - 1])
  }

  predicate IsLate(xs: seq<Arrival>)
    requires xs != []
  {
    |xs| > 1 && xs[|xs| - 1].number <= Highest(xs[..|xs| - 1])
  }

  /** Audio of the late packets since the highest one came. */
  function LateAudio(xs: seq<Arrival>): nat
    requires xs != []
  {
    if IsLate(xs) then LateAudio(xs[..|xs| - 1]) + xs[|xs| - 1].audio else 0
  }

  /** A sender whose time stamps advance by the audio of each packet. */
  predicate Honest(xs: seq<Arrival>) {
    && (forall i :: 0 <= i < |xs| ==> xs[i].audio < 0x1_0000_0000)
    && forall i, j :: 0 <= i < |xs| && 0 <= j < |xs| && xs[j].number == xs[i].number + 1 ==>
                        xs[j].ts == (xs[i].ts + xs[i].audio) % 0x1_0000_0000
  }

  /** Packets in sequence that follow late packets with audio. */
  function Blamed(xs: seq<Arrival>): nat {
    if |xs| < 2 then 0
    else
      var front := xs[..|xs| - 1];
      Blamed(front) + if xs[|xs| - 1].number == Highest(front) + 1 && LateAudio(front) > 0 then 1 else 0
  }

  ghost predicate TsState(c: Counters, from: int, xs: seq<Arrival>)
    requires xs != []
  {
    && c.haveSeq && c.lastTs == Top(xs).ts && c.lastSeq == Highest(xs) % 0x1_0000
    && Samples(from, xs) - c.samplesAtLastTs == Top(xs).audio + LateAudio(xs)
  }

  lemma TsStepIs(a: u32, audio: nat)
    requires audio < 0x1_0000_0000
    ensures TsStep((a + audio) % 0x1_0000_0000, a) == audio
  {
  }

  lemma HonestStep(c: Counters, from: int, front: seq<Arrival>, x: Arrival)
    requires front != [] && TsState(c, from, front)
    requires -0x8000 <= x.number - Highest(front) - 1 <= 0x7FFF
    requires Top(front).audio < 0x1_0000_0000
    requires x.number == Top(front).number + 1 ==> x.ts == (Top(front).ts + Top(front).audio) % 0x1_0000_0000
    ensures var c' := Count(c, x.number % 0x1_0000, x.ts, Samples(from, front));
            && TsState(c', from, front + [x])
            && c'.tsErrors == c.tsErrors + if x.number == Highest(front) + 1 && LateAudio(front) > 0 then 1 else 0
  {
    hide Diff, TsStep, Samples;
    var xs := front + [x];
    assert xs[..|front|] == front && xs[|front|] == x;
    SamplesOne(from, front, x);
    DiffIs(x.number, Highest(front));
    ModSmall(x.number - Highest(front) - 1);
    if x.number == Top(front).number + 1 {
      TsStepIs(Top(front).ts, Top(front).audio);
    }
  }

  lemma WindowFront(xs: seq<Arrival>)
    requires |xs| > 1 && InWindow(xs)
    ensures var front, x := xs[..|xs| - 1], xs[|xs| - 1];
            InWindow(front) && -0x8000 <= x.number - Highest(front) - 1 <= 0x7FFF
  {
    hide Highest;
    assert forall i :: 0 <= i < |xs| - 1 ==> xs[..|xs| - 1][..i] == xs[..i];
  }

  lemma HonestFront(xs: seq<Arrival>)
    requires |xs| > 1 && Honest(xs)
    ensures Honest(xs[..|xs| - 1])
  {
  }

  lemma FrontOf(xs: seq<Arrival>)
    requires |xs| > 1 && InWindow(xs) && Honest(xs)
    ensures var front, x := xs[..|xs| - 1], xs[|xs| - 1];
            && InWindow(front) && Honest(front) && front != [] && xs == front + [x]
            && -0x8000 <= x.number - Highest(front) - 1 <= 0x7FFF
            && Top(front).audio < 0x1_0000_0000
            && (x.number == Top(front).number + 1 ==> x.ts == (Top(front).ts + Top(front).audio) % 0x1_0000_0000)
  {
    hide Top, Highest, InWindow;
    WindowFront(xs);
    HonestFront(xs);
    TopFollowed(xs);
  }

  lemma TopFollowed(xs: seq<Arrival>)
    requires |xs| > 1 && Honest(xs)
    ensures var front, x := xs[..|xs| - 1], xs[|xs| - 1];
            && Top(front).audio < 0x1_0000_0000
            && (x.number == Top(front).number + 1 ==> x.ts == (Top(front).ts + Top(front).audio) % 0x1_0000_0000)
  {
    hide Top, Highest, InWindow;
    var n := |xs| - 1;
    var i :| 0 <= i < n && xs[..n][i] == Top(xs[..n]);
    assert xs[i] == Top(xs[..n]);
  }

  lemma SamplesOne(from: int, front: seq<Arrival>, x: Arrival)
    ensures Samples(from, front + [x]) == Samples(from, front) + x.audio
  {
    assert (front + [x])[..|front|] == front;
  }

  /** A sender whose time stamps are right is still blamed: exactly for each packet in sequence that follows
      late packets with audio, since their samples are taken for the previous packet's. */
  lemma {:induction false} TsErrorsExactly(c: Counters, from: int, xs: seq<Arrival>)
    requires !c.haveSeq && xs != [] && InWindow(xs) && Honest(xs)
    ensures CountAll(c, from, xs).tsErrors == c.tsErrors + Blamed(xs)
    ensures TsState(CountAll(c, from, xs), from, xs)
    decreases |xs|
  {
    hide Count, TsState, Honest, InWindow;
    var n := |xs| - 1;
    var front, x := xs[..n], xs[n];
    if n == 0 {
      OneArrival(c, from, x);
      assert xs == [x];
    } else {
      FrontOf(xs);
      TsErrorsExactly(c, from, front);
      HonestStep(CountAll(c, from, front), from, front, x);
    }
  }

  lemma OneArrival(c: Counters, from: int, x: Arrival)
    requires !c.haveSeq
    ensures CountAll(c, from, [x]).tsErrors == c.tsErrors && TsState(CountAll(c, from, [x]), from, [x])
  {
    var one := [x];
    assert one[..0] == [];
  }

  /** Packets 1, 0 and 2 of 128 samples each, with right time stamps: one error. */
  lemma LatePacketBlamesTheNext()
    ensures var xs := [Arrival(1, 128, 128), Arrival(0, 0, 128), Arrival(2, 256, 128)];
            Honest(xs) && InWindow(xs) && CountAll(NONE, 0, xs).tsErrors == 1
  {
    var x, y, z := Arrival(1, 128, 128), Arrival(0, 0, 128), Arrival(2, 256, 128);
    var one, two, xs := [x], [x, y], [x, y, z];
    assert xs[..2] == two && two[..1] == one && xs[..1] == one;
    assert Highest(one) == 1 && Highest(two) == 1 && IsLate(two) && LateAudio(two) == 128;
    assert Blamed(two) == 0 && Blamed(xs) == 1;
    assert InWindow(xs) by {
      hide Highest;
    }
    assert Honest(xs);
    hide *;
    TsErrorsExactly(NONE, 0, xs);
  }
}
