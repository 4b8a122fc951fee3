/** HCI ISO packets byte for byte, and what the decoder counts of them over a capture
    (tools/a2dp_decode/le_audio_decode.cpp, `on_iso`; section 5.4.5 of Core Vol 4 Part E). */
module IsoWire {
  import opened Bytes
  import opened IsoDecoder

  /** A packet's header fields; `rfu`, `rfu2`: bits the decoder does not look at. */
  datatype Header = Header(handle: nat, pb: nat, ts: bool, rfu: nat, rfu2: nat)

  predicate Proper(h: Header) { h.handle < 0x1000 && h.pb < 4 && h.rfu < 2 && h.rfu2 < 4 }

  /** Header, load and whatever follows in the record. */
  function Wire(h: Header, load: seq<byte>, tail: seq<byte>): seq<byte>
    requires Proper(h) && |load| < 0x4000
  {
    Put16(h.handle + h.pb * 0x1000 + (if h.ts then 0x4000 else 0) + h.rfu * 0x8000)
    + Put16(|load| + h.rfu2 * 0x4000) + load + tail
  }

  /** The load of a complete SDU: a time stamp if flagged, sequence number, length and status, data. */
  function Load(ts: bool, timestamp: u32, sn: u16, sduLen: nat, rfu: nat, status: nat, data: seq<byte>): seq<byte>
    requires sduLen < 0x1000 && rfu < 4 && status < 4
  {
    (if ts then Put32(timestamp) else []) + Put16(sn) + Put16(sduLen + rfu * 0x1000 + status * 0x4000) + data
  }

  lemma HeaderBits(h: Header)
    requires Proper(h)
    ensures var v := h.handle + h.pb * 0x1000 + (if h.ts then 0x4000 else 0) + h.rfu * 0x8000;
            && 0 <= v < 0x1_0000 && v / 256 / 16 % 4 == h.pb && (v / 256 / 64 % 2 == 1 <==> h.ts)
  {
    var t := if h.ts then 1 else 0;
    var v := h.handle + h.pb * 0x1000 + t * 0x4000 + h.rfu * 0x8000;
    assert v / 0x1000 == h.pb + 4 * t + 8 * h.rfu;
    assert v / 256 / 16 == v / 0x1000 && v / 256 / 64 == v / 0x4000;
    assert v / 0x4000 == t + 2 * h.rfu;
  }

  lemma LengthBits(n: nat, high: nat)
    requires n < 0x4000 && high < 4
    ensures (n + high * 0x4000) % 0x4000 == n
  {
  }

  /** Where the load stands, and what the header says. */
  lemma WireRead(h: Header, load: seq<byte>, tail: seq<byte>)
    requires Proper(h) && |load| < 0x4000
    ensures var p := Wire(h, load, tail);
            && |p| == 4 + |load| + |tail| && p[1] / 16 % 4 == h.pb && (p[1] / 64 % 2 == 1 <==> h.ts)
            && Le16(p, 2) % 0x4000 == |load| && p[4..4 + |load|] == load
  {
    hide Le16;
    var v := h.handle + h.pb * 0x1000 + (if h.ts then 0x4000 else 0) + h.rfu * 0x8000;
    var p := Wire(h, load, tail);
    HeaderBits(h);
    assert p[2..4] == Put16(|load| + h.rfu2 * 0x4000);
    Read16(p, 2, |load| + h.rfu2 * 0x4000);
    LengthBits(|load|, h.rfu2);
    assert p[1] == v / 256;
  }

  lemma StatusBits(sduLen: nat, rfu: nat, status: nat)
    requires sduLen < 0x1000 && rfu < 4 && status < 4
    ensures var v := sduLen + rfu * 0x1000 + status * 0x4000;
            0 <= v < 0x1_0000 && v % 0x1000 == sduLen && v / 256 / 64 == status
  {
    var v := sduLen + rfu * 0x1000 + status * 0x4000;
    assert v / 256 / 64 == v / 0x4000;
  }

  lemma LoadRead(ts: bool, timestamp: u32, sn: u16, sduLen: nat, rfu: nat, status: nat, data: seq<byte>)
    requires sduLen < 0x1000 && rfu < 4 && status < 4
    ensures var l := Load(ts, timestamp, sn, sduLen, rfu, status, data);
            var at := if ts then 4 else 0;
            && |l| == at + 4 + |data| && (ts ==> Le32(l, 0) == timestamp) && Le16(l, at) == sn
            && Le16(l, at + 2) % 0x1000 == sduLen && l[at + 3] / 64 == status && l[at + 4..] == data
  {
    hide Le16, Le32, Put32;
    var l := Load(ts, timestamp, sn, sduLen, rfu, status, data);
    var at := if ts then 4 else 0;
    var v := sduLen + rfu * 0x1000 + status * 0x4000;
    StatusBits(sduLen, rfu, status);
    if ts {
      assert l[0..4] == Put32(timestamp);
      Read32(l, 0, timestamp);
    }
    assert l[at..at + 2] == Put16(sn) && l[at + 2..at + 4] == Put16(v);
    Read16(l, at, sn);
    Read16(l, at + 2, v);
    assert l[at + 3] == v / 256;
  }

  /** A load is read where it stands. */
  lemma Inner(p: seq<byte>, load: seq<byte>)
    requires 4 + |load| <= |p| && p[4..4 + |load|] == load
    ensures forall i :: 0 <= i <= |load| - 2 ==> Le16(p, 4 + i) == Le16(load, i)
    ensures |load| >= 4 ==> Le32(p, 4) == Le32(load, 0)
    ensures forall i :: 0 <= i < |load| ==> p[4 + i] == load[i]
    ensures forall i :: 0 <= i <= |load| ==> p[4 + i..4 + |load|] == load[i..]
  {
    forall i | 0 <= i < |load|
      ensures p[4 + i] == load[i]
    {
      assert p[4..4 + |load|][i] == load[i];
    }
    forall i | 0 <= i <= |load|
      ensures p[4 + i..4 + |load|] == load[i..]
    {
      Slice(p, 4, load, i, |load|);
    }
  }

  // ---- Every kind of packet ----

  /** A packet whose boundary flag is not that of a complete SDU is a fragment. */
  lemma FragmentsRead(h: Header, load: seq<byte>, tail: seq<byte>)
    requires Proper(h) && |load| < 0x4000 && h.pb != 2
    ensures Parse(Wire(h, load, tail)) == Fragment
  {
    hide Le16, Le32, Wire;
    WireRead(h, load, tail);
  }

  /** A complete SDU's packet too short for its time stamp is unusable, and one too short for the rest of the
      SDU header has none. */
  lemma ShortLoadsRead(h: Header, load: seq<byte>, tail: seq<byte>)
    requires Proper(h) && h.pb == 2 && |load| < if h.ts then 8 else 4
    ensures Parse(Wire(h, load, tail)) == if h.ts && |load| < 4 then Unusable else NoSduHeader
  {
    hide Le16, Le32, Wire;
    WireRead(h, load, tail);
  }

  /** A complete SDU is read with or without a time stamp; one whose length field differs from its data is
      counted with its status. */
  lemma SdusRead(h: Header, timestamp: u32, sn: u16, sduLen: nat, rfu: nat, status: nat, data: seq<byte>,
                 tail: seq<byte>)
    requires Proper(h) && h.pb == 2 && sduLen < 0x1000 && rfu < 4 && status < 4
    requires |data| < 0x3FF8
    ensures var load := Load(h.ts, timestamp, sn, sduLen, rfu, status, data);
            && |load| < 0x4000
            && Parse(Wire(h, load, tail)) ==
               if sduLen != |data| then BadLength(status)
               else Sdu(h.ts, if h.ts then timestamp else 0, sn, status, data)
  {
    hide Le16, Le32, Wire, Load;
    var load := Load(h.ts, timestamp, sn, sduLen, rfu, status, data);
    LoadRead(h.ts, timestamp, sn, sduLen, rfu, status, data);
    WireRead(h, load, tail);
    var p := Wire(h, load, tail);
    Inner(p, load);
    var at := if h.ts then 4 else 0;
    assert Le16(p, 4 + at) == Le16(load, at) && Le16(p, 4 + (at + 2)) == Le16(load, at + 2);
    assert p[4 + (at + 3)] == load[at + 3] && p[4 + (at + 4)..4 + |load|] == load[at + 4..];
  }

  /** A record cut short, before the header's end or the load's, is unusable. */
  lemma CutShortIsUnusable(p: seq<byte>)
    requires |p| < 4 || |p| < 4 + Le16(p, 2) % 0x4000
    ensures Parse(p) == Unusable
  {
  }
}
