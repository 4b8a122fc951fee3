/** Packets of the emulated Huawei earbuds (tools/emu/emu_sink.py, `huawei_packet`, `HuaweiEarbuds.on_data`). */
module HuaweiPacket {
  import opened Options
  import opened Crc

  datatype Param = Param(kind: bv8, value: Octets)

  /** Lengths fit their bytes; a longer value or body is an error in the code. */
  predicate Fits(params: seq<Param>) {
    (forall i :: 0 <= i < |params| ==> |params[i].value| < 256) && 3 + Length(params) < 0x1_0000
  }

  function Length(params: seq<Param>): nat {
    if params == [] then 0 else Length(params[..|params| - 1]) + 2 + |params[|params| - 1].value|
  }

  function Len8(n: nat): bv8
    requires n < 256
  {
    n as bv8
  }

  function Len16(n: nat): bv16
    requires n < 0x1_0000
  {
    n as bv16
  }

  function ParamBytes(params: seq<Param>): (s: Octets)
    requires forall i :: 0 <= i < |params| ==> |params[i].value| < 256
    ensures |s| == Length(params)
  {
    if params == [] then []
    else
      var p := params[|params| - 1];
      ParamBytes(params[..|params| - 1]) + [p.kind, Len8(|p.value|)] + p.value
  }

  /** What the CRC covers. */
  function Covered(command: bv16, params: seq<Param>): Octets
    requires Fits(params)
  {
    var body := Pack(command) + ParamBytes(params);
    [0x5A] + Pack(Len16(|body| + 1)) + [0] + body
  }

  function Packet(command: bv16, params: seq<Param>): Octets
    requires Fits(params)
  {
    Covered(command, params) + Pack(Crc16(Covered(command, params)))
  }

  datatype Message = Message(command: bv16, params: Octets)

  /** The reading side: bytes 4 and 5, and all from 6 up to the CRC. */
  function Read(data: Octets): Option<Message> {
    if |data| < 6 then None
    else Some(Message(Unpack(data[4], data[5]), if |data| < 8 then [] else data[6..|data| - 2]))
  }

  /** A packet's CRC checks to 0, and the reader's slices give back its command and parameter bytes. */
  lemma PacketRoundTrip(command: bv16, params: seq<Param>)
    requires Fits(params)
    ensures Crc16(Packet(command, params)) == 0
    ensures Read(Packet(command, params)) == Some(Message(command, ParamBytes(params)))
  {
    hide Crc16, Pack, Unpack, ParamBytes;
    var c, bytes := Covered(command, params), ParamBytes(params);
    var d := Packet(command, params);
    CrcOfProtected(c);
    PackParts(command);
    assert c[4..6] == Pack(command) && c[6..] == bytes;
    assert d[4] == c[4..6][0] && d[5] == c[4..6][1];
    assert d[6..|d| - 2] == c[6..];
  }

  /** A packet begins with 0x5A, then the length of what follows up to the CRC, then 0. */
  lemma PacketHeader(command: bv16, params: seq<Param>)
    requires Fits(params)
    ensures var d := Packet(command, params);
            && |d| == 8 + Length(params) && d[0] == 0x5A && d[3] == 0
            && Unpack(d[1], d[2]) == Len16(|d| - 5)
  {
    hide Crc16, Pack, Unpack, ParamBytes, Len16, Fits;
    FitsLength(params);
    var n := 3 + Length(params);
    var c := Covered(command, params);
    var d := Packet(command, params);
    assert c == [0x5A] + Pack(Len16(n)) + [0] + (Pack(command) + ParamBytes(params));
    PackParts(Len16(n));
    FourBytes(Pack(Len16(n)), Pack(command) + ParamBytes(params), Pack(Crc16(c)));
  }

  lemma FitsLength(params: seq<Param>)
    requires Fits(params)
    ensures 3 + Length(params) < 0x1_0000 && forall i :: 0 <= i < |params| ==> |params[i].value| < 256
  {
  }

  lemma FourBytes(length: Octets, body: Octets, crc: Octets)
    requires |length| == 2
    ensures var d := [0x5A] + length + [0] + body + crc;
            d[0] == 0x5A && d[1] == length[0] && d[2] == length[1] && d[3] == 0
  {
  }

  // ---- Changed packets ----

  lemma {:induction false} BitsOfAppend(a: Octets, b: Octets)
    ensures BitsOf(a + b) == BitsOf(a) + BitsOf(b)
    decreases |b|
  {
    hide Bits;
    if b == [] {
      assert a + b == a;
    } else {
      assert (a + b)[..|a + b| - 1] == a + b[..|b| - 1];
      BitsOfAppend(a, b[..|b| - 1]);
    }
  }

  lemma BitsInjective8(a: bv8, b: bv8)
    requires Bits(a) == Bits(b)
    ensures a == b
  {
    var x, y := Bits(a), Bits(b);
    assert x[0] == y[0] && x[1] == y[1] && x[2] == y[2] && x[3] == y[3];
    assert x[4] == y[4] && x[5] == y[5] && x[6] == y[6] && x[7] == y[7];
  }

  lemma SameParts(a: seq<bool>, x: seq<bool>, b: seq<bool>, y: seq<bool>)
    requires |a| == |b| && a + x == b + y
    ensures a == b && x == y
  {
    assert (a + x)[..|a|] == a && (b + y)[..|b|] == b && (a + x)[|a|..] == x && (b + y)[|b|..] == y;
  }

  lemma {:induction false} BitsOfInjective(s: Octets, t: Octets)
    requires |s| == |t|
    ensures |BitsOf(s)| == |BitsOf(t)| == 8 * |s|
    ensures BitsOf(s) == BitsOf(t) ==> s == t
    decreases |s|
  {
    hide Bits;
    if s == [] {
    } else {
      var n := |s| - 1;
      BitsOfInjective(s[..n], t[..n]);
      if BitsOf(s) == BitsOf(t) {
        SameParts(BitsOf(s[..n]), Bits(s[n]), BitsOf(t[..n]), Bits(t[n]));
        BitsInjective8(s[n], t[n]);
        assert s == s[..n] + [s[n]] && t == t[..n] + [t[n]];
      }
    }
  }

  /** Two strings of one length that differ, and only within two adjacent bytes, have different CRCs. */
  lemma AdjacentDetected(p: Octets, q: Octets, i: nat)
    requires |p| == |q| && p != q && i < |p|
    requires forall k :: 0 <= k < |p| && k != i && k != i + 1 ==> p[k] == q[k]
    ensures Crc16(p) != Crc16(q)
  {
    hide Crc16, BitsOf;
    var j := if i + 2 <= |p| then i + 2 else i + 1;
    var a, b := p[i..j], q[i..j];
    CutInThree(p, i, j);
    CutInThree(q, i, j);
    assert q[..i] == p[..i] && q[j..] == p[j..];
    BitsOfThree(p[..i], a, p[j..]);
    BitsOfThree(p[..i], b, p[j..]);
    BitsOfInjective(a, b);
    BurstsDetected(p, q, BitsOf(p[..i]), BitsOf(a), BitsOf(b), BitsOf(p[j..]));
  }

  lemma CutInThree(p: Octets, i: nat, j: nat)
    requires i <= j <= |p|
    ensures p == p[..i] + p[i..j] + p[j..]
  {
  }

  lemma BitsOfThree(a: Octets, b: Octets, c: Octets)
    ensures BitsOf(a + b + c) == BitsOf(a) + BitsOf(b) + BitsOf(c)
  {
    hide BitsOf;
    BitsOfAppend(a, b);
    BitsOfAppend(a + b, c);
  }

  // ---- The loops ----

  method HuaweiBytes(command: bv16, params: seq<Param>) returns (r: Option<Octets>)
    ensures r == if Fits(params) then Some(Packet(command, params)) else None
  {
    hide Crc16, Pack, Len16, ParamBytes;
    var tail := JoinParams(params);
    if tail.None? {
      return None;
    }
    var body := Pack(command) + tail.value;
    if |body| + 1 >= 0x1_0000 {
      return None;
    }
    var packet := [0x5A] + Pack(Len16(|body| + 1)) + [0] + body;
    var crc := CrcOf(packet);
    return Some(packet + Pack(crc));
  }

  method JoinParams(params: seq<Param>) returns (r: Option<Octets>)
    ensures r == if forall i :: 0 <= i < |params| ==> |params[i].value| < 256 then Some(ParamBytes(params)) else None
  {
    hide Len8;
    var out, i := [], 0;
    while i < |params|
      invariant 0 <= i <= |params|
      invariant forall k :: 0 <= k < i ==> |params[k].value| < 256
      invariant out == ParamBytes(params[..i])
    {
      var p := params[i];
      if |p.value| >= 256 {
        return None;
      }
      assert params[..i + 1][..i] == params[..i];
      out := out + [p.kind, Len8(|p.value|)] + p.value;
      i := i + 1;
    }
    assert params[..i] == params;
    return Some(out);
  }

  method CrcOf(packet: Octets) returns (crc: bv16)
    ensures crc == Crc16(packet)
  {
    hide Shift, Xor, High;
    crc := 0;
    var k := 0;
    assert packet[..0] == [];
    while k < |packet|
      invariant 0 <= k <= |packet|
      invariant crc == Crc16(packet[..k])
    {
      crc := Xor(crc, High(packet[k]));
      ghost var start := crc;
      var n := 0;
      while n < 8
        invariant 0 <= n <= 8
        invariant crc == Shifts(start, n)
      {
        crc := Shift(crc);
        n := n + 1;
      }
      assert packet[..k + 1][..k] == packet[..k];
      k := k + 1;
    }
    assert packet[..k] == packet;
  }
}
