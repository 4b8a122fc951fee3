/** L2CAP frames out of captured ACL data, per link and direction (tools/a2dp_decode/a2dp_decode.cpp and
    le_audio_decode.cpp, `on_acl`). */
module L2cap {
  import opened Bytes

  /** A stream: capture file, ACL handle and direction. */
  datatype Key = Key(file: nat, handle: nat, inbound: bool)

  datatype Frame = Frame(cid: u16, payload: seq<byte>)

  predicate Fits(f: Frame) { |f.payload| < 0x1_0000 }

  function FrameBytes(f: Frame): seq<byte>
    requires Fits(f)
  {
    Put16(|f.payload|) + Put16(f.cid) + f.payload
  }

  // ---- ACL packets ----

  datatype Acl = NoAcl | Acl(handle: nat, pb: nat, data: seq<byte>)

  function ParseAcl(p: seq<byte>): Acl {
    if |p| < 4 then NoAcl
    else
      var len := Le16(p, 2);
      if 4 + len > |p| then NoAcl else Acl(Le16(p, 0) % 0x1000, p[1] / 16 % 4, p[4..4 + len])
  }

  function AclBytes(handle: nat, pb: nat, bc: nat, data: seq<byte>): seq<byte>
    requires handle < 0x1000 && pb < 4 && bc < 4 && |data| < 0x1_0000
  {
    Put16(handle + 0x1000 * pb + 0x4000 * bc) + Put16(|data|) + data
  }

  /** An ACL packet is read back whatever its broadcast flag, and whatever follows it in the record. */
  lemma AclRoundTrip(handle: nat, pb: nat, bc: nat, data: seq<byte>, rest: seq<byte>)
    requires handle < 0x1000 && pb < 4 && bc < 4 && |data| < 0x1_0000
    ensures ParseAcl(AclBytes(handle, pb, bc, data) + rest) == Acl(handle, pb, data)
  {
    var v := handle + 0x1000 * pb + 0x4000 * bc;
    var p := AclBytes(handle, pb, bc, data) + rest;
    assert p[0..2] == Put16(v) && p[2..4] == Put16(|data|);
    Read16(p, 0, v);
    Read16(p, 2, |data|);
    assert p[1] == v / 256;
    HandleAndFlag(handle, pb, bc);
    assert p[4..4 + |data|] == data;
  }

  lemma HandleAndFlag(handle: nat, pb: nat, bc: nat)
    requires handle < 0x1000 && pb < 4 && bc < 4
    ensures var v := handle + 0x1000 * pb + 0x4000 * bc;
            v % 0x1000 == handle && v / 256 / 16 % 4 == pb
  {
    var v := handle + 0x1000 * pb + 0x4000 * bc;
    assert v == 0x1000 * (pb + 4 * bc) + handle;
    assert v / 0x1000 == pb + 4 * bc;
  }

  /** The bytes of an ACL packet and whatever follows. */
  ghost predicate IsAcl(p: seq<byte>, handle: nat, pb: nat, bc: nat, data: seq<byte>, rest: seq<byte>) {
    && handle < 0x1000 && pb < 4 && bc < 4 && |data| < 0x1_0000
    && p == AclBytes(handle, pb, bc, data) + rest
  }

  lemma AclFields(v: u16)
    ensures v == v % 0x1000 + 0x1000 * (v / 256 / 16 % 4) + 0x4000 * (v / 0x4000)
  {
    var q := v / 0x1000;
    assert v == 0x1000 * q + v % 0x1000;
    assert v / 256 / 16 == q && v / 0x4000 == q / 4;
  }

  lemma AclRebuilt(p: seq<byte>) returns (bc: nat, rest: seq<byte>)
    requires ParseAcl(p).Acl?
    ensures var a := ParseAcl(p); IsAcl(p, a.handle, a.pb, bc, a.data, rest)
  {
    var v, len := Le16(p, 0), Le16(p, 2);
    bc, rest := v / 0x4000, p[4 + len..];
    AclFields(v);
    assert p[1] == v / 256;
    assert Put16(v) == p[0..2] && Put16(len) == p[2..4];
    assert p == p[0..2] + p[2..4] + p[4..4 + len] + rest;
  }

  /** A record is taken if and only if it begins with a whole ACL packet, and then it is read as that packet;
      one that is cut short is passed over. */
  lemma AclExactly(p: seq<byte>)
    ensures ParseAcl(p).Acl? <==> exists handle, pb, bc, data, rest :: IsAcl(p, handle, pb, bc, data, rest)
    ensures forall handle, pb, bc, data, rest :: IsAcl(p, handle, pb, bc, data, rest) ==>
              ParseAcl(p) == Acl(handle, pb, data)
  {
    hide ParseAcl, AclBytes;
    if ParseAcl(p).Acl? {
      var bc, rest := AclRebuilt(p);
    }
    forall handle, pb, bc, data, rest | IsAcl(p, handle, pb, bc, data, rest)
      ensures ParseAcl(p) == Acl(handle, pb, data)
    {
      AclRoundTrip(handle, pb, bc, data, rest);
    }
  }

  // ---- One stream ----

  /** What one stream sees. */
  datatype Local = Frag(cont: bool, data: seq<byte>) | Reset

  datatype Rx = Rx(buf: seq<byte>, out: seq<Frame>)

  function Receive(buf: seq<byte>, cont: bool, data: seq<byte>): Rx {
    if cont && buf == [] then Rx(buf, [])
    else
      var r := if cont then buf + data else data;
      if |r| < 4 || |r| < 4 + Le16(r, 0) then Rx(r, [])
      else Rx([], [Frame(Le16(r, 2), r[4..4 + Le16(r, 0)])])
  }

  function LocalStep(buf: seq<byte>, item: Local): Rx {
    match item
    case Frag(cont, data) => Receive(buf, cont, data)
    case Reset => Rx([], [])
  }

  function Run(buf: seq<byte>, items: seq<Local>): Rx {
    if items == [] then Rx(buf, [])
    else
      var r := Run(buf, items[..|items| - 1]);
      var r' := LocalStep(r.buf, items[|items| - 1]);
      Rx(r'.buf, r.out + r'.out)
  }

  // ---- What a sender does with a stream ----

  /** A frame sent whole in these fragments, a frame whose rest never came, or a link gone. */
  datatype Sent =
    | Whole(frame: Frame, chunks: seq<seq<byte>>)
    | Partial(frame: Frame, chunks: seq<seq<byte>>)
    | Gone

  function Concat(chunks: seq<seq<byte>>): seq<byte> {
    if chunks == [] then [] else Concat(chunks[..|chunks| - 1]) + chunks[|chunks| - 1]
  }

  predicate Valid(s: Sent) {
    match s
    case Whole(f, chunks) => Fits(f) && chunks != [] && Concat(chunks) == FrameBytes(f)
    case Partial(f, chunks) => Fits(f) && chunks != [] && Concat(chunks) < FrameBytes(f)
    case Gone => true
  }

  function Fragments(chunks: seq<seq<byte>>): seq<Local> {
    seq(|chunks|, i requires 0 <= i < |chunks| => Frag(i > 0, chunks[i]))
  }

  function Continuing(chunks: seq<seq<byte>>): seq<Local> {
    seq(|chunks|, i requires 0 <= i < |chunks| => Frag(true, chunks[i]))
  }

  function Items(sents: seq<Sent>): seq<Local> {
    if sents == [] then []
    else
      Items(sents[..|sents| - 1])
      + match sents[|sents| - 1]
        case Whole(_, chunks) => Fragments(chunks)
        case Partial(_, chunks) => Fragments(chunks)
        case Gone => [Reset]
  }

  /** The frames that get through: those sent whole with a non-empty start fragment. */
  function Kept(sents: seq<Sent>): seq<Frame> {
    if sents == [] then []
    else
      var s := sents[|sents| - 1];
      Kept(sents[..|sents| - 1]) + if s.Whole? && s.chunks != [] && s.chunks[0] != [] then [s.frame] else []
  }

  function Frames(sents: seq<Sent>): seq<Frame> {
    if sents == [] then []
    else
      var s := sents[|sents| - 1];
      Frames(sents[..|sents| - 1]) + if s.Whole? then [s.frame] else []
  }

  // ---- Reassembly of one frame ----

  lemma FrameHeader(f: Frame)
    requires Fits(f)
    ensures var b := FrameBytes(f);
            |b| == 4 + |f.payload| && Le16(b, 0) == |f.payload| && Le16(b, 2) == f.cid && b[4..] == f.payload
  {
    var b := FrameBytes(f);
    assert b[0..2] == Put16(|f.payload|) && b[2..4] == Put16(f.cid);
    Read16(b, 0, |f.payload|);
    Read16(b, 2, f.cid);
  }

  /** A frame's start is complete if and only if it is the whole frame. */
  lemma CompleteExactly(f: Frame, r: seq<byte>, buf: seq<byte>, cont: bool, data: seq<byte>)
    requires Fits(f) && r <= FrameBytes(f) && r == (if cont then buf + data else data) && (cont ==> buf != [])
    ensures Receive(buf, cont, data) == if r == FrameBytes(f) then Rx([], [f]) else Rx(r, [])
  {
    hide FrameBytes;
    FrameHeader(f);
    var b := FrameBytes(f);
    assert r == b[..|r|];
    if |r| >= 4 {
      assert r[0] == b[0] && r[1] == b[1] && r[2] == b[2] && r[3] == b[3];
      assert |r| == |b| ==> r[4..4 + Le16(r, 0)] == b[4..];
    }
  }

  lemma ConcatFront(chunks: seq<seq<byte>>, b: seq<byte>)
    requires chunks != [] && Concat(chunks) <= b
    ensures Concat(chunks[..|chunks| - 1]) <= b
    ensures Concat(chunks[..|chunks| - 1]) == b ==> chunks[|chunks| - 1] == []
  {
    var front := Concat(chunks[..|chunks| - 1]);
    assert front == Concat(chunks)[..|front|];
  }

  /** Fragments of (the start of) one frame, from any earlier state. */
  lemma {:induction false} OneFrame(buf: seq<byte>, f: Frame, chunks: seq<seq<byte>>)
    requires Fits(f) && chunks != [] && Concat(chunks) <= FrameBytes(f)
    ensures var r := Run(buf, Fragments(chunks));
            if chunks[0] == [] then r == Rx([], [])
            else if Concat(chunks) == FrameBytes(f) then r == Rx([], [f])
            else r == Rx(Concat(chunks), []) && Concat(chunks) != []
    decreases |chunks|
  {
    hide FrameBytes, Receive;
    var n := |chunks| - 1;
    var front, last := chunks[..n], chunks[n];
    assert Fragments(chunks)[..n] == Fragments(front);
    ConcatFront(chunks, FrameBytes(f));
    if n == 0 {
      assert Concat(chunks) == last;
      CompleteExactly(f, last, buf, false, last);
      FrameHeader(f);
    } else {
      OneFrame(buf, f, front);
      var r := Run(buf, Fragments(front));
      if r.buf == [] {
        StrayIgnored(last);
      } else {
        CompleteExactly(f, r.buf + last, r.buf, true, last);
      }
    }
  }

  lemma StrayIgnored(data: seq<byte>)
    ensures Receive([], true, data) == Rx([], [])
  {
  }

  lemma {:induction false} RunAppend(buf: seq<byte>, a: seq<Local>, b: seq<Local>)
    ensures var r := Run(buf, a);
            var r' := Run(r.buf, b);
            Run(buf, a + b) == Rx(r'.buf, r.out + r'.out)
    decreases |b|
  {
    hide LocalStep;
    var r := Run(buf, a);
    if b == [] {
      assert a + b == a && r.out + [] == r.out;
    } else {
      var n := |b| - 1;
      assert (a + b)[..|a + b| - 1] == a + b[..n];
      RunAppend(buf, a, b[..n]);
    }
  }

  /** Exactly the frames sent whole with a non-empty start fragment come out, in order, byte for byte,
      whatever stands in the buffer before. */
  lemma {:induction false} StreamExactly(buf: seq<byte>, sents: seq<Sent>)
    requires forall i :: 0 <= i < |sents| ==> Valid(sents[i])
    ensures Run(buf, Items(sents)).out == Kept(sents)
  {
    hide Run, FrameBytes, Fragments;
    if sents == [] {
      RunNone(buf);
    } else {
      var n := |sents| - 1;
      var s := sents[n];
      StreamExactly(buf, sents[..n]);
      var r := Run(buf, Items(sents[..n]));
      match s {
        case Whole(f, chunks) =>
          RunAppend(buf, Items(sents[..n]), Fragments(chunks));
          OneFrame(r.buf, f, chunks);
        case Partial(f, chunks) =>
          RunAppend(buf, Items(sents[..n]), Fragments(chunks));
          OneFrame(r.buf, f, chunks);
        case Gone =>
          RunAppend(buf, Items(sents[..n]), [Reset]);
          RunReset(r.buf);
      }
    }
  }

  lemma RunNone(buf: seq<byte>)
    ensures Run(buf, []) == Rx(buf, [])
  {
  }

  lemma RunReset(buf: seq<byte>)
    ensures Run(buf, [Reset]) == Rx([], [])
  {
    assert [Reset][..0] == [];
  }

  lemma {:induction false} StraysIgnored(chunks: seq<seq<byte>>)
    ensures Run([], Continuing(chunks)) == Rx([], [])
  {
    if chunks == [] {
    } else {
      var n := |chunks| - 1;
      assert Continuing(chunks)[..n] == Continuing(chunks[..n]);
      StraysIgnored(chunks[..n]);
    }
  }

  lemma {:induction false} KeptIsAll(sents: seq<Sent>)
    requires forall i :: 0 <= i < |sents| ==> sents[i].Whole? ==> sents[i].chunks != [] && sents[i].chunks[0] != []
    ensures Kept(sents) == Frames(sents)
  {
    if sents == [] {
    } else {
      KeptIsAll(sents[..|sents| - 1]);
    }
  }

  // ---- Captures: any interleaving ----

  datatype Record =
    | AclRecord(file: nat, inbound: bool, p: seq<byte>)
    | Disconnected(file: nat, handle: nat)

  datatype State = State(rx: map<Key, seq<byte>>, delivered: seq<(Key, Frame)>)

  const START := State(map[], [])

  function Get(m: map<Key, seq<byte>>, k: Key): seq<byte> { if k in m then m[k] else [] }

  function Tagged(k: Key, fs: seq<Frame>): seq<(Key, Frame)> {
    seq(|fs|, i requires 0 <= i < |fs| => (k, fs[i]))
  }

  function Step(s: State, rec: Record): State {
    match rec
    case AclRecord(file, inbound, p) =>
      var a := ParseAcl(p);
      if a.NoAcl? then s
      else
        var k := Key(file, a.handle, inbound);
        var r := Receive(Get(s.rx, k), a.pb == 1, a.data);
        State(s.rx[k := r.buf], s.delivered + Tagged(k, r.out))
    case Disconnected(file, handle) =>
      s.(rx := s.rx - {Key(file, handle, true), Key(file, handle, false)})
  }

  function After(records: seq<Record>): State {
    if records == [] then START else Step(After(records[..|records| - 1]), records[|records| - 1])
  }

  /** What of a record one stream sees. */
  function Seen(k: Key, rec: Record): seq<Local> {
    match rec
    case AclRecord(file, inbound, p) =>
      var a := ParseAcl(p);
      if a.Acl? && k == Key(file, a.handle, inbound) then [Frag(a.pb == 1, a.data)] else []
    case Disconnected(file, handle) => if k.file == file && k.handle == handle then [Reset] else []
  }

  function Project(k: Key, records: seq<Record>): seq<Local> {
    if records == [] then [] else Project(k, records[..|records| - 1]) + Seen(k, records[|records| - 1])
  }

  function FramesOf(k: Key, delivered: seq<(Key, Frame)>): seq<Frame> {
    if delivered == [] then []
    else
      var (k', f) := delivered[|delivered| - 1];
      FramesOf(k, delivered[..|delivered| - 1]) + if k' == k then [f] else []
  }

  lemma FramesOfMore(k: Key, d: seq<(Key, Frame)>, k': Key, fs: seq<Frame>)
    requires |fs| <= 1
    ensures FramesOf(k, d + Tagged(k', fs)) == FramesOf(k, d) + if k' == k then fs else []
  {
    if fs == [] {
      assert d + Tagged(k', fs) == d;
      assert FramesOf(k, d) + [] == FramesOf(k, d);
    } else {
      assert fs == [fs[0]];
      assert d + Tagged(k', fs) == d + [(k', fs[0])];
      assert (d + [(k', fs[0])])[..|d|] == d;
    }
  }

  /** Streams do not disturb each other: each sees what it would see alone. */
  lemma {:induction false} StreamsAreIndependent(k: Key, records: seq<Record>)
    ensures var s := After(records);
            Rx(Get(s.rx, k), FramesOf(k, s.delivered)) == Run([], Project(k, records))
    decreases |records|
  {
    hide ParseAcl, Receive;
    if records == [] {
      RunNone([]);
    } else {
      var n := |records| - 1;
      StreamsAreIndependent(k, records[..n]);
      OneRecord(k, After(records[..n]), records[n], Project(k, records[..n]));
    }
  }

  lemma OneRecord(k: Key, s: State, rec: Record, items: seq<Local>)
    requires Rx(Get(s.rx, k), FramesOf(k, s.delivered)) == Run([], items)
    ensures var s' := Step(s, rec);
            Rx(Get(s'.rx, k), FramesOf(k, s'.delivered)) == Run([], items + Seen(k, rec))
  {
    hide ParseAcl, FramesOf, Receive;
    if Seen(k, rec) == [] {
      assert items + Seen(k, rec) == items;
    } else {
      assert (items + Seen(k, rec))[..|items|] == items;
    }
    if rec.AclRecord? && ParseAcl(rec.p).Acl? {
      var a := ParseAcl(rec.p);
      var k' := Key(rec.file, a.handle, rec.inbound);
      var r := Receive(Get(s.rx, k'), a.pb == 1, a.data);
      AtMostOne(Get(s.rx, k'), a.pb == 1, a.data);
      FramesOfMore(k, s.delivered, k', r.out);
      assert k' != k ==> FramesOf(k, s.delivered) + [] == FramesOf(k, s.delivered);
    } else {
      assert FramesOf(k, s.delivered) + [] == FramesOf(k, s.delivered);
    }
  }

  lemma AtMostOne(buf: seq<byte>, cont: bool, data: seq<byte>)
    ensures |Receive(buf, cont, data).out| <= 1
  {
  }

  /** Reassembly inverts fragmentation exactly: in any interleaving of streams, and after continuing
      fragments of a frame the capture missed, a stream gives the frames sent whole whose start fragment is
      not empty, in order, byte for byte, and no others. */
  lemma ReassemblyExactly(k: Key, records: seq<Record>, strays: seq<seq<byte>>, sents: seq<Sent>)
    requires Project(k, records) == Continuing(strays) + Items(sents)
    requires forall i :: 0 <= i < |sents| ==> Valid(sents[i])
    ensures FramesOf(k, After(records).delivered) == Kept(sents)
  {
    hide Project, After, FramesOf, Items, Kept, Run, Valid, Continuing;
    StreamsAreIndependent(k, records);
    StraysIgnored(strays);
    RunAppend([], Continuing(strays), Items(sents));
    StreamExactly([], sents);
  }

  /** With non-empty start fragments, every frame sent whole arrives. */
  lemma InvertsFragmentation(k: Key, records: seq<Record>, strays: seq<seq<byte>>, sents: seq<Sent>)
    requires Project(k, records) == Continuing(strays) + Items(sents)
    requires forall i :: 0 <= i < |sents| ==> Valid(sents[i])
    requires forall i :: 0 <= i < |sents| ==> sents[i].Whole? ==> sents[i].chunks != [] && sents[i].chunks[0] != []
    ensures FramesOf(k, After(records).delivered) == Frames(sents)
  {
    hide *;
    ReassemblyExactly(k, records, strays, sents);
    KeptIsAll(sents);
  }

  /** An empty start fragment loses its frame: one frame of no payload, cut as nothing and then all of it. */
  lemma EmptyStartLosesFrame()
    ensures var f := Frame(4, []);
            var sent := Whole(f, [[], FrameBytes(f)]);
            Valid(sent) && Frames([sent]) == [f] && Run([], Items([sent])).out == []
  {
    var f := Frame(4, []);
    var b := FrameBytes(f);
    var sent := Whole(f, [[], b]);
    var sents: seq<Sent> := [sent];
    var cs: seq<seq<byte>> := [[], b];
    assert cs[..1] == [[]] && cs[..1][..0] == [];
    assert Concat(cs[..1]) == [];
    assert Concat(cs) == Concat(cs[..1]) + cs[1] == b;
    assert sents[..0] == [];
    StreamExactly([], sents);
  }

  // ---- The analysers' object ----

  class Reassembly {
    var rx: map<Key, seq<byte>>
    var delivered: seq<(Key, Frame)>     // frames given to the upper layer, in order

    function View(): State
      reads this
    {
      State(rx, delivered)
    }

    constructor ()
      ensures View() == START
    {
      rx, delivered := map[], [];
    }

    method OnAcl(file: nat, inbound: bool, p: seq<byte>)
      modifies this
      ensures View() == Step(old(View()), AclRecord(file, inbound, p))
    {
      if |p| < 4 {
        return;
      }
      var handle := Le16(p, 0) % 0x1000;
      var pb := p[1] / 16 % 4;
      var len := Le16(p, 2);
      if 4 + len > |p| {
        return;
      }
      OnFragment(Key(file, handle, inbound), pb == 1, p[4..4 + len]);
    }

    method OnFragment(k: Key, cont: bool, data: seq<byte>)
      modifies this
      ensures var r := Receive(Get(old(rx), k), cont, data);
              rx == old(rx)[k := r.buf] && delivered == old(delivered) + Tagged(k, r.out)
    {
      hide Le16;
      ghost var noFrames: seq<Frame> := [];
      assert delivered + Tagged(k, noFrames) == delivered;
      var r := Get(rx, k);
      if cont {
        if r == [] {
          rx := rx[k := r];
          return;
        }
        r := r + data;
      } else {
        r := data;
      }
      rx := rx[k := r];
      if |r| < 4 {
        return;
      }
      var l2len: nat := Le16(r, 0);
      if |r| < 4 + l2len {
        return;
      }
      delivered := delivered + [(k, Frame(Le16(r, 2), r[4..4 + l2len]))];
      rx := rx[k := []];
    }

    method OnDisconnected(file: nat, handle: nat)
      modifies this
      ensures View() == Step(old(View()), Disconnected(file, handle))
    {
      rx := rx - {Key(file, handle, true), Key(file, handle, false)};
    }
  }
}
