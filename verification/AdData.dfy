/** Advertising data (tools/emu/le_audio/broadcast_sink.py, `ad_structures`). */
module AdData {
  import opened Options
  import opened Bytes

  datatype Ad = Ad(kind: byte, value: seq<byte>)

  predicate AllZero(d: seq<byte>) { forall i :: 0 <= i < |d| ==> d[i] == 0 }

  function Ads(d: seq<byte>, i: nat): Option<seq<Ad>>
    requires i <= |d|
    decreases |d| - i
  {
    if i == |d| then Some([])
    else
      var length: nat := d[i];
      if length == 0 then (if AllZero(d[i..]) then Some([]) else None)
      else if i + 1 + length > |d| then None
      else
        var rest := Ads(d, i + 1 + length);
        if rest.None? then None else Some([Ad(d[i + 1], d[i + 2..i + 1 + length])] + rest.value)
  }

  predicate AdsProper(xs: seq<Ad>) { forall i :: 0 <= i < |xs| ==> |xs[i].value| <= 254 }

  function AdBytes(xs: seq<Ad>): seq<byte>
    requires AdsProper(xs)
  {
    if xs == [] then [] else [1 + |xs[0].value|, xs[0].kind] + xs[0].value + AdBytes(xs[1..])
  }

  /** Structures and zero padding are read back. */
  lemma {:induction false} AdsComplete(d: seq<byte>, i: nat, xs: seq<Ad>, padding: seq<byte>)
    requires AdsProper(xs) && AllZero(padding) && i <= |d| && d[i..] == AdBytes(xs) + padding
    ensures Ads(d, i) == Some(xs)
    decreases |xs|
  {
    if xs == [] {
      assert d[i..] == padding;
      assert padding != [] ==> d[i] == padding[0];
    } else {
      var x, n := xs[0], |xs[0].value|;
      var tail := AdBytes(xs[1..]) + padding;
      var rest := [1 + n, x.kind] + x.value + tail;
      assert d[i..] == rest;
      AdHead(d, i, x, tail);
      AdsComplete(d, i + 2 + n, xs[1..], padding);
      assert xs == [x] + xs[1..];
    }
  }

  lemma AdHead(d: seq<byte>, i: nat, x: Ad, tail: seq<byte>)
    requires |x.value| <= 254 && i <= |d| && d[i..] == [1 + |x.value|, x.kind] + x.value + tail
    ensures i + 2 + |x.value| <= |d| && d[i] == 1 + |x.value| && d[i + 1] == x.kind
    ensures d[i + 2..i + 2 + |x.value|] == x.value && d[i + 2 + |x.value|..] == tail
  {
    var rest := [1 + |x.value|, x.kind] + x.value + tail;
    assert d[i] == rest[0] && d[i + 1] == rest[1];
    Inside(d, i, rest, 2, 2 + |x.value|);
  }

  /** What is read is what the data holds, and only zeros follow. */
  lemma {:induction false} AdsSound(d: seq<byte>, i: nat) returns (padding: seq<byte>)
    requires i <= |d| && Ads(d, i).Some?
    ensures AdsProper(Ads(d, i).value) && AllZero(padding) && d[i..] == AdBytes(Ads(d, i).value) + padding
    decreases |d| - i
  {
    if i == |d| || d[i] == 0 {
      padding := d[i..];
    } else {
      var next := i + 1 + d[i] as nat;
      padding := AdsSound(d, next);
      var xs, tail := Ads(d, i).value, Ads(d, next).value;
      assert xs[1..] == tail;
      Cut(d, i, next, |d|);
      Cut(d, i, i + 2, next);
    }
  }

  /** Advertising data gives these structures if and only if it is their serialization and zero padding. */
  lemma AdsExactly(d: seq<byte>, xs: seq<Ad>)
    ensures Ads(d, 0) == Some(xs) <==> AdsProper(xs) && exists padding :: AllZero(padding) && d == AdBytes(xs) + padding
  {
    assert d[0..] == d;
    if Ads(d, 0) == Some(xs) {
      var padding := AdsSound(d, 0);
      assert d == AdBytes(xs) + padding;
    }
    if AdsProper(xs) {
      forall padding | AllZero(padding) && d == AdBytes(xs) + padding
        ensures Ads(d, 0) == Some(xs)
      {
        AdsComplete(d, 0, xs, padding);
      }
    }
  }

  // ---- The loop ----

  function Prefixed(out: seq<Ad>, rest: Option<seq<Ad>>): Option<seq<Ad>> {
    if rest.None? then None else Some(out + rest.value)
  }

  lemma AroundNothing(r: Option<seq<Ad>>)
    ensures Prefixed([], r) == r
  {
    assert r.Some? ==> [] + r.value == r.value;
  }

  lemma PrefixedMore(out: seq<Ad>, x: Ad, rest: Option<seq<Ad>>)
    ensures Prefixed(out + [x], rest) == Prefixed(out, Prefixed([x], rest))
  {
    assert rest.Some? ==> out + [x] + rest.value == out + ([x] + rest.value);
  }

  method AdStructures(d: seq<byte>) returns (r: Option<seq<Ad>>)
    ensures r == Ads(d, 0)
  {
    var i, out: seq<Ad> := 0, [];
    AroundNothing(Ads(d, 0));
    while i < |d|
      invariant i <= |d|
      invariant Ads(d, 0) == Prefixed(out, Ads(d, i))
    {
      var length: nat := d[i];
      if length == 0 {
        if exists k :: i <= k < |d| && d[k] != 0 {
          assert !AllZero(d[i..]) by {
            var k :| i <= k < |d| && d[k] != 0;
            assert d[i..][k - i] != 0;
          }
          return None;
        }
        break;
      }
      if i + 1 + length > |d| {
        return None;
      }
      PrefixedMore(out, Ad(d[i + 1], d[i + 2..i + 1 + length]), Ads(d, i + 1 + length));
      out := out + [Ad(d[i + 1], d[i + 2..i + 1 + length])];
      i := i + 1 + length;
    }
    assert out + [] == out;
    return Some(out);
  }
}
