/** Padded base64 with the standard alphabet (section 4 of RFC 4648), in which channel data crosses the
    connection (app/src/core/src/rfcomm.rs, `BASE64.encode`). */
module Base64 {
  import opened Bytes
  import opened Options

  function Digit(n: int): char
    requires 0 <= n < 64
  {
    if n < 26 then ('A' as int + n) as char
    else if n < 52 then ('a' as int + (n - 26)) as char
    else if n < 62 then ('0' as int + (n - 52)) as char
    else if n == 62 then '+'
    else '/'
  }

  function Value(c: char): (n: Option<int>)
    ensures n.Some? ==> 0 <= n.value < 64
  {
    if 'A' <= c <= 'Z' then Some(c as int - 'A' as int)
    else if 'a' <= c <= 'z' then Some(c as int - 'a' as int + 26)
    else if '0' <= c <= '9' then Some(c as int - '0' as int + 52)
    else if c == '+' then Some(62)
    else if c == '/' then Some(63)
    else None
  }

  function Encode(s: seq<byte>): string {
    if s == [] then ""
    else if |s| == 1 then [Digit(s[0] / 4), Digit(s[0] % 4 * 16), '=', '=']
    else if |s| == 2 then [Digit(s[0] / 4), Digit(s[0] % 4 * 16 + s[1] / 16), Digit(s[1] % 16 * 4), '=']
    else
      [Digit(s[0] / 4), Digit(s[0] % 4 * 16 + s[1] / 16), Digit(s[1] % 16 * 4 + s[2] / 64), Digit(s[2] % 64)]
      + Encode(s[3..])
  }

  /** The bytes of one group of four characters. */
  function Group(t: string): Option<seq<byte>>
    requires |t| == 4
  {
    var a, b := Value(t[0]), Value(t[1]);
    if a.None? || b.None? then None
    else if t[2] == '=' && t[3] == '=' then Some([a.value * 4 + b.value / 16])
    else
      var c := Value(t[2]);
      if c.None? then None
      else if t[3] == '=' then Some([a.value * 4 + b.value / 16, b.value % 16 * 16 + c.value / 4])
      else
        var d := Value(t[3]);
        if d.None? then None
        else
          Some([a.value * 4 + b.value / 16, b.value % 16 * 16 + c.value / 4, c.value % 4 * 64 + d.value])
  }

  /** Padding only ends a text. */
  function Decode(t: string): Option<seq<byte>> {
    if t == "" then Some([])
    else if |t| < 4 then None
    else
      var first := Group(t[..4]);
      if first.None? then None
      else if |first.value| < 3 then (if |t| == 4 then first else None)
      else
        var rest := Decode(t[4..]);
        if rest.None? then None else Some(first.value + rest.value)
  }

  lemma DigitValue(n: int)
    requires 0 <= n < 64
    ensures Value(Digit(n)) == Some(n) && Digit(n) != '='
  {
  }

  lemma OneByte(a: byte)
    ensures Group([Digit(a / 4), Digit(a % 4 * 16), '=', '=']) == Some([a])
  {
    hide Digit, Value;
    DigitValue(a / 4);
    DigitValue(a % 4 * 16);
  }

  lemma TwoBytes(a: byte, b: byte)
    ensures Group([Digit(a / 4), Digit(a % 4 * 16 + b / 16), Digit(b % 16 * 4), '=']) == Some([a, b])
  {
    hide Digit, Value;
    DigitValue(a / 4);
    DigitValue(a % 4 * 16 + b / 16);
    DigitValue(b % 16 * 4);
  }

  lemma ThreeBytes(a: byte, b: byte, c: byte)
    ensures Group([Digit(a / 4), Digit(a % 4 * 16 + b / 16), Digit(b % 16 * 4 + c / 64), Digit(c % 64)])
            == Some([a, b, c])
  {
    hide Digit, Value;
    DigitValue(a / 4);
    DigitValue(a % 4 * 16 + b / 16);
    DigitValue(b % 16 * 4 + c / 64);
    DigitValue(c % 64);
    Parts16(a % 4, b / 16);
    Parts4(b % 16, c / 64);
  }

  lemma Parts16(x: int, y: int)
    requires 0 <= y < 16
    ensures (x * 16 + y) / 16 == x && (x * 16 + y) % 16 == y
  {
  }

  lemma Parts4(x: int, y: int)
    requires 0 <= y < 4
    ensures (x * 4 + y) / 4 == x && (x * 4 + y) % 4 == y
  {
  }

  /** Four characters for each three bytes begun. */
  lemma {:induction false} EncodedLength(s: seq<byte>)
    ensures |Encode(s)| == (|s| + 2) / 3 * 4
  {
    hide Digit;
    if |s| < 3 {
    } else {
      EncodedLength(s[3..]);
      OneGroupMore(|s|);
    }
  }

  lemma OneGroupMore(n: nat)
    requires n >= 3
    ensures (n + 2) / 3 * 4 == 4 + (n - 3 + 2) / 3 * 4
  {
  }

  /** Decoding gives back what was encoded. */
  lemma {:induction false} RoundTrip(s: seq<byte>)
    ensures Decode(Encode(s)) == Some(s)
  {
    hide Digit, Value, Group;
    var t := Encode(s);
    if s == [] {
    } else if |s| == 1 {
      OneByte(s[0]);
      assert t[..4] == t && s == [s[0]];
    } else if |s| == 2 {
      TwoBytes(s[0], s[1]);
      assert t[..4] == t && s == [s[0], s[1]];
    } else {
      var a, b, c := s[0], s[1], s[2];
      var head := [Digit(a / 4), Digit(a % 4 * 16 + b / 16), Digit(b % 16 * 4 + c / 64), Digit(c % 64)];
      ThreeBytes(a, b, c);
      assert t == head + Encode(s[3..]) && t[..4] == head && t[4..] == Encode(s[3..]);
      RoundTrip(s[3..]);
      assert s == [a, b, c] + s[3..];
    }
  }

  /** The example of RFC 4648's alphabet in use: "Man" and its parts. */
  lemma KnownTexts()
    ensures Encode([77, 97, 110]) == "TWFu" && Encode([77, 97]) == "TWE=" && Encode([77]) == "TQ=="
  {
    var man: seq<byte> := [77, 97, 110];
    assert man[3..] == [];
  }
}
