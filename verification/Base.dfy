/** The strict BASE walk of the emulated broadcast sink (tools/emu/le_audio/broadcast_sink.py), against the
    grammar it accepts. */
module Base {
  import opened Options
  import opened Bytes

  function Min(a: nat, b: nat): nat { if a < b then a else b }

  /** A Python slice: it stops at the end of the data. */
  function Clamped(d: seq<byte>, i: nat, j: nat): seq<byte>
    requires i <= j
  {
    d[Min(i, |d|)..Min(j, |d|)]
  }

  // ---- The walks, as the code makes them ----

  predicate LtvOk(d: seq<byte>, i: nat)
    decreases |d| - i
  {
    i >= |d| || (d[i] != 0 && i + 1 + d[i] as nat <= |d| && LtvOk(d, i + 1 + d[i] as nat))
  }

  /** k BISes from `off`; the offset after them. */
  function WalkBises(d: seq<byte>, off: nat, k: nat): Option<nat>
    decreases k
  {
    if k == 0 then Some(off)
    else if off + 2 > |d| then None
    else
      var n: nat := d[off + 1];
      if !LtvOk(Clamped(d, off + 2, off + 2 + n), 0) then None else WalkBises(d, off + 2 + n, k - 1)
  }

  function WalkSubgroup(d: seq<byte>, off: nat): Option<nat> {
    if off + 7 > |d| || d[off] == 0 then None
    else
      var n: nat := d[off + 6];
      var at := off + 7 + n;
      if !LtvOk(Clamped(d, off + 7, at), 0) || at >= |d| then None
      else
        var m: nat := d[at];
        if !LtvOk(Clamped(d, at + 1, at + 1 + m), 0) then None
        else
          var end := WalkBises(d, at + 1 + m, d[off]);
          if end.Some? && end.value > |d| then None else end
  }

  function WalkSubgroups(d: seq<byte>, off: nat, k: nat): Option<nat>
    decreases k
  {
    if k == 0 then Some(off)
    else
      var next := WalkSubgroup(d, off);
      if next.None? then None else WalkSubgroups(d, next.value, k - 1)
  }

  predicate BaseOk(d: seq<byte>) {
    |d| >= 4 && d[3] != 0 && WalkSubgroups(d, 4, d[3]) == Some(|d|)
  }

  // ---- The grammar ----

  /** LTV structures, by their contents (type and value). */
  type Ltvs = seq<seq<byte>>

  predicate LtvsProper(ls: Ltvs) { forall i :: 0 <= i < |ls| ==> 1 <= |ls[i]| <= 255 }

  function LtvBytes(ls: Ltvs): seq<byte>
    requires LtvsProper(ls)
  {
    if ls == [] then [] else [|ls[0]|] + ls[0] + LtvBytes(ls[1..])
  }

  /** A codec configuration or metadata field: its length in one byte. */
  predicate FieldProper(ls: Ltvs) { LtvsProper(ls) && |LtvBytes(ls)| <= 255 }

  function FieldBytes(ls: Ltvs): seq<byte>
    requires FieldProper(ls)
  {
    [|LtvBytes(ls)|] + LtvBytes(ls)
  }

  datatype Bis = Bis(index: byte, config: Ltvs)

  predicate BisesProper(bs: seq<Bis>) { forall i :: 0 <= i < |bs| ==> FieldProper(bs[i].config) }

  function BisesBytes(bs: seq<Bis>): seq<byte>
    requires BisesProper(bs)
  {
    if bs == [] then [] else [bs[0].index] + FieldBytes(bs[0].config) + BisesBytes(bs[1..])
  }

  datatype Subgroup = Subgroup(codec: seq<byte>, config: Ltvs, metadata: Ltvs, bises: seq<Bis>)

  predicate SubgroupProper(g: Subgroup) {
    |g.codec| == 5 && FieldProper(g.config) && FieldProper(g.metadata) && BisesProper(g.bises) && 1 <= |g.bises| <= 255
  }

  function SubgroupBytes(g: Subgroup): seq<byte>
    requires SubgroupProper(g)
  {
    [|g.bises|] + g.codec + FieldBytes(g.config) + FieldBytes(g.metadata) + BisesBytes(g.bises)
  }

  predicate SubgroupsProper(gs: seq<Subgroup>) { forall i :: 0 <= i < |gs| ==> SubgroupProper(gs[i]) }

  function SubgroupsBytes(gs: seq<Subgroup>): seq<byte>
    requires SubgroupsProper(gs)
  {
    if gs == [] then [] else SubgroupBytes(gs[0]) + SubgroupsBytes(gs[1..])
  }

  /** Presentation delay and subgroups. */
  datatype BaseData = BaseData(delay: seq<byte>, subgroups: seq<Subgroup>)

  predicate BaseProper(b: BaseData) {
    |b.delay| == 3 && SubgroupsProper(b.subgroups) && 1 <= |b.subgroups| <= 255
  }

  function BaseBytes(b: BaseData): seq<byte>
    requires BaseProper(b)
  {
    b.delay + [|b.subgroups|] + SubgroupsBytes(b.subgroups)
  }

  // ---- LTVs ----

  lemma {:induction false} LtvComplete(d: seq<byte>, i: nat, ls: Ltvs)
    requires LtvsProper(ls) && i <= |d| && d[i..] == LtvBytes(ls)
    ensures LtvOk(d, i)
    decreases |ls|
  {
    if ls == [] {
    } else {
      var rest := [|ls[0]|] + ls[0] + LtvBytes(ls[1..]);
      assert d[i] == rest[0];
      Inside(d, i, rest, 0, 1 + |ls[0]|);
      assert rest[1 + |ls[0]|..] == LtvBytes(ls[1..]);
      LtvComplete(d, i + 1 + |ls[0]|, ls[1..]);
    }
  }

  lemma {:induction false} LtvSound(d: seq<byte>, i: nat) returns (ls: Ltvs)
    requires i <= |d| && LtvOk(d, i)
    ensures LtvsProper(ls) && LtvBytes(ls) == d[i..]
    decreases |d| - i
  {
    if i == |d| {
      ls := [];
    } else {
      var next := i + 1 + d[i] as nat;
      var tail := LtvSound(d, next);
      var first := d[i + 1..next];
      ls := [first] + tail;
      assert ls[1..] == tail;
      assert d[i..] == [d[i]] + first + d[next..];
    }
  }

  lemma FieldComplete(d: seq<byte>, off: nat, ls: Ltvs)
    requires FieldProper(ls)
    requires off + |FieldBytes(ls)| <= |d| && d[off..off + |FieldBytes(ls)|] == FieldBytes(ls)
    ensures off < |d| && |FieldBytes(ls)| == 1 + d[off] as nat
    ensures LtvOk(Clamped(d, off + 1, off + 1 + d[off] as nat), 0)
  {
    var h, s := FieldBytes(ls), LtvBytes(ls);
    assert d[off] == h[0];
    Slice(d, off, h, 1, |h|);
    assert h[1..] == s && h[1..|h|] == s;
    var c := Clamped(d, off + 1, off + 1 + d[off] as nat);
    assert c == s && c[0..] == c;
    LtvComplete(c, 0, ls);
  }

  lemma FieldSound(d: seq<byte>, off: nat) returns (ls: Ltvs)
    requires off < |d| && off + 1 + d[off] as nat <= |d| && LtvOk(Clamped(d, off + 1, off + 1 + d[off] as nat), 0)
    ensures FieldProper(ls) && FieldBytes(ls) == d[off..off + 1 + d[off] as nat]
  {
    var c := d[off + 1..off + 1 + d[off] as nat];
    ls := LtvSound(c, 0);
    assert c[0..] == c;
    assert d[off..off + 1 + d[off] as nat] == [d[off]] + c;
  }

  /** A string found in d, cut in three. */
  lemma Parts(d: seq<byte>, off: nat, a: seq<byte>, b: seq<byte>, c: seq<byte>)
    requires var h := a + b + c; off + |h| <= |d| && d[off..off + |h|] == h
    ensures d[off..off + |a|] == a && d[off + |a|..off + |a| + |b|] == b
    ensures d[off + |a| + |b|..off + |a| + |b| + |c|] == c
  {
    var h := a + b + c;
    Slice(d, off, h, 0, |a|);
    Slice(d, off, h, |a|, |a| + |b|);
    Slice(d, off, h, |a| + |b|, |h|);
    assert h[0..|a|] == a && h[|a|..|a| + |b|] == b && h[|a| + |b|..|h|] == c;
  }

  // ---- BISes ----

  lemma {:induction false} BisesGrow(d: seq<byte>, off: nat, k: nat)
    requires WalkBises(d, off, k).Some?
    ensures off <= WalkBises(d, off, k).value
    decreases k
  {
    if k == 0 {
    } else {
      BisesGrow(d, off + 2 + d[off + 1] as nat, k - 1);
    }
  }

  lemma {:induction false} BisesSound(d: seq<byte>, off: nat, k: nat) returns (bs: seq<Bis>)
    requires WalkBises(d, off, k).Some? && off <= WalkBises(d, off, k).value <= |d|
    ensures |bs| == k && BisesProper(bs) && BisesBytes(bs) == d[off..WalkBises(d, off, k).value]
    decreases k
  {
    hide LtvOk, FieldBytes;
    var end := WalkBises(d, off, k).value;
    if k == 0 {
      bs := [];
    } else {
      var next := off + 2 + d[off + 1] as nat;
      BisesGrow(d, next, k - 1);
      var config := FieldSound(d, off + 1);
      var tail := BisesSound(d, next, k - 1);
      bs := [Bis(d[off], config)] + tail;
      assert bs[1..] == tail;
      Cut(d, off, next, end);
      Cut(d, off, off + 1, next);
    }
  }

  lemma {:induction false} BisesComplete(d: seq<byte>, off: nat, bs: seq<Bis>)
    requires BisesProper(bs) && off + |BisesBytes(bs)| <= |d| && d[off..off + |BisesBytes(bs)|] == BisesBytes(bs)
    ensures WalkBises(d, off, |bs|) == Some(off + |BisesBytes(bs)|)
    decreases |bs|
  {
    hide LtvOk, Clamped, FieldBytes, FieldProper;
    if bs == [] {
    } else {
      var f, tail := FieldBytes(bs[0].config), BisesBytes(bs[1..]);
      Parts(d, off, [bs[0].index], f, tail);
      FieldComplete(d, off + 1, bs[0].config);
      BisesComplete(d, off + 1 + |f|, bs[1..]);
    }
  }

  // ---- Subgroups ----

  lemma SubgroupSound(d: seq<byte>, off: nat) returns (g: Subgroup)
    requires WalkSubgroup(d, off).Some?
    ensures off <= WalkSubgroup(d, off).value <= |d|
    ensures SubgroupProper(g) && SubgroupBytes(g) == d[off..WalkSubgroup(d, off).value]
  {
    hide LtvOk, FieldBytes, BisesBytes, WalkBises;
    var end := WalkSubgroup(d, off).value;
    var at := off + 7 + d[off + 6] as nat;
    var start := at + 1 + d[at] as nat;
    BisesGrow(d, start, d[off]);
    var config := FieldSound(d, off + 6);
    var metadata := FieldSound(d, at);
    var bises := BisesSound(d, start, d[off]);
    g := Subgroup(d[off + 1..off + 6], config, metadata, bises);
    Cut(d, off, start, end);
    Cut(d, off, at, start);
    Cut(d, off, off + 6, at);
    Cut(d, off, off + 1, off + 6);
  }

  lemma SubgroupComplete(d: seq<byte>, off: nat, g: Subgroup)
    requires SubgroupProper(g)
    requires off + |SubgroupBytes(g)| <= |d| && d[off..off + |SubgroupBytes(g)|] == SubgroupBytes(g)
    ensures WalkSubgroup(d, off) == Some(off + |SubgroupBytes(g)|)
  {
    hide LtvOk, Clamped, WalkBises, BisesBytes, FieldBytes, FieldProper, BisesProper;
    var f, m, b := FieldBytes(g.config), FieldBytes(g.metadata), BisesBytes(g.bises);
    var head := [|g.bises|] + g.codec;
    assert SubgroupBytes(g) == head + f + (m + b);
    Parts(d, off, head, f, m + b);
    assert m + b == [] + m + b;
    Parts(d, off + 6 + |f|, [], m, b);
    assert d[off] == d[off..off + 6][0];
    FieldComplete(d, off + 6, g.config);
    FieldComplete(d, off + 6 + |f|, g.metadata);
    BisesComplete(d, off + 6 + |f| + |m|, g.bises);
    AtLeastTwo(g.bises);
  }

  lemma AtLeastTwo(bs: seq<Bis>)
    requires BisesProper(bs) && bs != []
    ensures |BisesBytes(bs)| >= 2
  {
  }

  lemma {:induction false} SubgroupsSound(d: seq<byte>, off: nat, k: nat) returns (gs: seq<Subgroup>)
    requires off <= |d| && WalkSubgroups(d, off, k).Some?
    ensures off <= WalkSubgroups(d, off, k).value <= |d|
    ensures |gs| == k && SubgroupsProper(gs) && SubgroupsBytes(gs) == d[off..WalkSubgroups(d, off, k).value]
    decreases k
  {
    hide WalkSubgroup, SubgroupBytes, SubgroupProper;
    var end := WalkSubgroups(d, off, k).value;
    if k == 0 {
      gs := [];
    } else {
      var next := WalkSubgroup(d, off).value;
      var g := SubgroupSound(d, off);
      var tail := SubgroupsSound(d, next, k - 1);
      gs := [g] + tail;
      assert gs[1..] == tail;
      assert d[off..end] == d[off..next] + d[next..end];
    }
  }

  lemma {:induction false} SubgroupsComplete(d: seq<byte>, off: nat, gs: seq<Subgroup>)
    requires SubgroupsProper(gs)
    requires off + |SubgroupsBytes(gs)| <= |d| && d[off..off + |SubgroupsBytes(gs)|] == SubgroupsBytes(gs)
    ensures WalkSubgroups(d, off, |gs|) == Some(off + |SubgroupsBytes(gs)|)
    decreases |gs|
  {
    hide WalkSubgroup, SubgroupBytes, SubgroupProper;
    if gs == [] {
    } else {
      var h, g, tail := SubgroupsBytes(gs), SubgroupBytes(gs[0]), SubgroupsBytes(gs[1..]);
      assert h == g + tail;
      assert h[0..|g|] == g && h[|g|..|h|] == tail;
      Slice(d, off, h, 0, |g|);
      Slice(d, off, h, |g|, |h|);
      SubgroupComplete(d, off, gs[0]);
      SubgroupsComplete(d, off + |g|, gs[1..]);
    }
  }

  // ---- Results ----

  /** The BASE walk accepts a byte string if and only if it is the serialization of a BASE with at least one
      subgroup, a BIS in each and well-formed LTVs, although its slices stop at the end of the data. */
  lemma BaseExactly(d: seq<byte>)
    ensures BaseOk(d) <==> exists b :: BaseProper(b) && BaseBytes(b) == d
  {
    if BaseOk(d) {
      var gs := SubgroupsSound(d, 4, d[3]);
      var b := BaseData(d[..3], gs);
      assert d == d[..3] + [d[3]] + d[4..|d|];
      assert BaseProper(b) && BaseBytes(b) == d;
    }
    forall b | BaseProper(b) && BaseBytes(b) == d
      ensures BaseOk(d)
    {
      BaseComplete(b);
    }
  }

  lemma BaseComplete(b: BaseData)
    requires BaseProper(b)
    ensures BaseOk(BaseBytes(b))
  {
    hide SubgroupsBytes, SubgroupsProper, WalkSubgroups;
    var d, s := BaseBytes(b), SubgroupsBytes(b.subgroups);
    assert d[3] == |b.subgroups| && d[4..4 + |s|] == s && |d| == 4 + |s|;
    SubgroupsComplete(d, 4, b.subgroups);
  }

  // ---- The loops ----

  method LtvWalk(d: seq<byte>) returns (ok: bool)
    ensures ok == LtvOk(d, 0)
  {
    var i := 0;
    while i < |d|
      invariant LtvOk(d, i) == LtvOk(d, 0)
    {
      var length: nat := d[i];
      if length == 0 || i + 1 + length > |d| {
        return false;
      }
      i := i + 1 + length;
    }
    return true;
  }

  method BaseWalk(d: seq<byte>) returns (ok: bool)
    ensures ok == BaseOk(d)
  {
    hide WalkSubgroup;
    if |d| < 4 {
      return false;
    }
    var offset, subgroups: nat := 4, d[3];
    if subgroups == 0 {
      return false;
    }
    var k := 0;
    while k < subgroups
      invariant 0 <= k <= subgroups
      invariant WalkSubgroups(d, offset, subgroups - k) == WalkSubgroups(d, 4, subgroups)
    {
      var next := SubgroupWalk(d, offset);
      if next.None? {
        return false;
      }
      offset := next.value;
      k := k + 1;
    }
    return offset == |d|;
  }

  method SubgroupWalk(d: seq<byte>, start: nat) returns (r: Option<nat>)
    ensures r == WalkSubgroup(d, start)
  {
    hide LtvOk;
    var offset := start;
    if offset + 7 > |d| {
      return None;
    }
    var bises: nat := d[offset];
    if bises == 0 {
      return None;
    }
    offset := offset + 6;
    var n: nat := d[offset];
    var ok := LtvWalk(Clamped(d, offset + 1, offset + 1 + n));
    if !ok {
      return None;
    }
    offset := offset + 1 + n;
    if offset >= |d| {
      return None;
    }
    n := d[offset];
    ok := LtvWalk(Clamped(d, offset + 1, offset + 1 + n));
    if !ok {
      return None;
    }
    offset := offset + 1 + n;
    r := BisWalk(d, offset, bises);
    if r.Some? && r.value > |d| {
      return None;
    }
  }

  method BisWalk(d: seq<byte>, start: nat, bises: nat) returns (r: Option<nat>)
    ensures r == WalkBises(d, start, bises)
  {
    hide LtvOk;
    var offset: nat := start;
    var b := 0;
    while b < bises
      invariant 0 <= b <= bises
      invariant WalkBises(d, offset, bises - b) == WalkBises(d, start, bises)
    {
      if offset + 2 > |d| {
        return None;
      }
      var n: nat := d[offset + 1];
      var ok := LtvWalk(Clamped(d, offset + 2, offset + 2 + n));
      if !ok {
        return None;
      }
      offset := offset + 2 + n;
      b := b + 1;
    }
    return Some(offset);
  }
}
