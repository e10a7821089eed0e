/** Base64 as Python's `base64` module does it: `b64encode` is the padded
    encoding of section 4 of RFC 4648, and `b64decode` (with its default
    `validate=False`) is the lenient decoder of CPython's `binascii`, which
    skips characters outside the alphabet and stops at the padding. */
module Base64 {
  import opened Types

  /** The character for a 6-bit group, in the order of Table 1 of RFC 4648:
      `A`-`Z`, `a`-`z`, `0`-`9`, `+`, `/`. */
  function Sextet(v: int): (c: char)
    requires 0 <= v < 64
  {
    if v < 26 then ('A' as int + v) as char
    else if v < 52 then ('a' as int + (v - 26)) as char
    else if v < 62 then ('0' as int + (v - 52)) as char
    else if v == 62 then '+'
    else '/'
  }

  /** The 6-bit group a character of the alphabet stands for; `None` for the
      pad character and for every character outside the alphabet. */
  function SextetOf(c: char): (r: Option<int>)
    ensures r.Some? ==> 0 <= r.value < 64 && Sextet(r.value) == c
  {
    if 'A' <= c <= 'Z' then Some(c as int - 'A' as int)
    else if 'a' <= c <= 'z' then Some(c as int - 'a' as int + 26)
    else if '0' <= c <= '9' then Some(c as int - '0' as int + 52)
    else if c == '+' then Some(62)
    else if c == '/' then Some(63)
    else None
  }

  lemma SextetRoundTrip(v: int)
    requires 0 <= v < 64
    ensures SextetOf(Sextet(v)) == Some(v)
  {
  }

  predicate InAlphabet(c: char) {
    SextetOf(c).Some?
  }

  /** Four characters for three octets. */
  function EncodeBlock(x: Byte, y: Byte, z: Byte): string {
    [Sextet(x / 4), Sextet((x % 4) * 16 + y / 16), Sextet((y % 16) * 4 + z / 64), Sextet(z % 64)]
  }

  /** `base64.b64encode`: every three octets become four characters, and a
      final group of one or two octets is padded with `=` to four. */
  function Encode(b: Bytes): (s: string)
    ensures |s| == 4 * ((|b| + 2) / 3)
    ensures forall i | 0 <= i < |s| :: InAlphabet(s[i]) || s[i] == '='
    decreases |b|
  {
    if |b| == 0 then ""
    else if |b| == 1 then [Sextet(b[0] / 4), Sextet((b[0] % 4) * 16), '=', '=']
    else if |b| == 2 then [Sextet(b[0] / 4), Sextet((b[0] % 4) * 16 + b[1] / 16), Sextet((b[1] % 16) * 4), '=']
    else EncodeBlock(b[0], b[1], b[2]) + Encode(b[3..])
  }

  /** Why the lenient decoder refuses an input. */
  datatype DecodeError =
    | ExcessDataCharacter  // one data character more than a multiple of four
    | IncorrectPadding

  /** How many bits of the pending 6-bit group are still to be emitted, by the
      position inside the current quad. */
  predicate PendingFits(pos: int, left: int) {
    0 <= pos < 4 && 0 <= left &&
    (pos == 0 ==> left == 0) && (pos == 1 ==> left < 64) &&
    (pos == 2 ==> left < 16) && (pos == 3 ==> left < 4)
  }

  /** The octets already emitted for the quad open at position `pos`. */
  function QuadOctets(pos: int): int {
    if pos <= 0 then 0 else pos - 1
  }

  /** The decoding loop of CPython's `binascii.a2b_base64` in non-strict mode.
      `pos` is the position inside the current quad, `left` the bits read but
      not yet emitted, `pads` the `=` characters seen since the last data
      character once two data characters of the quad are in. Characters outside
      the alphabet are skipped; enough padding ends decoding and whatever
      follows is ignored; a quad left open at the end is an error. The octet
      emitted at each step joins disjoint bit fields, so the source's bitwise
      or is written as a sum. */
  function A2b(s: string, pos: int, left: int, pads: nat, acc: Bytes): (r: Result<Bytes, DecodeError>)
    requires PendingFits(pos, left)
    ensures r.Ok? ==> acc <= r.value
    ensures r.Ok? ==> 4 * (|r.value| - |acc| + QuadOctets(pos)) <= 3 * (|s| + pos)
    decreases |s|
  {
    if s == [] then
      if pos == 0 then Ok(acc)
      else if pos == 1 then Err(ExcessDataCharacter)
      else Err(IncorrectPadding)
    else if s[0] == '=' then
      if pos >= 2 && pos + pads + 1 >= 4 then Ok(acc)
      else if pos >= 2 then A2b(s[1..], pos, left, pads + 1, acc)
      else A2b(s[1..], pos, left, pads, acc)
    else
      match SextetOf(s[0])
      case None => A2b(s[1..], pos, left, pads, acc)
      case Some(v) =>
        if pos == 0 then A2b(s[1..], 1, v, 0, acc)
        else if pos == 1 then A2b(s[1..], 2, v % 16, 0, acc + [left * 4 + v / 16])
        else if pos == 2 then A2b(s[1..], 3, v % 4, 0, acc + [left * 16 + v / 4])
        else A2b(s[1..], 0, 0, 0, acc + [left * 64 + v])
  }

  /** `base64.b64decode` with its default arguments. */
  function Decode(s: string): (r: Result<Bytes, DecodeError>)
    ensures r.Ok? ==> 4 * |r.value| <= 3 * |s|
  {
    A2b(s, 0, 0, 0, [])
  }

  /** One full block of four characters decodes to its three octets and leaves
      the decoder at the start of a quad. */
  lemma DecodeBlock(x: Byte, y: Byte, z: Byte, t: string, acc: Bytes)
    ensures A2b(EncodeBlock(x, y, z) + t, 0, 0, 0, acc) == A2b(t, 0, 0, 0, acc + [x, y, z])
  {
    var c0, c1, c2, c3 := x / 4, (x % 4) * 16 + y / 16, (y % 16) * 4 + z / 64, z % 64;
    var s := EncodeBlock(x, y, z) + t;
    SextetRoundTrip(c0);
    SextetRoundTrip(c1);
    SextetRoundTrip(c2);
    SextetRoundTrip(c3);
    assert s[1..][1..][1..][1..] == t;
    assert c0 * 4 + c1 / 16 == x;
    assert (c1 % 16) * 16 + c2 / 4 == y;
    assert (c2 % 4) * 64 + c3 == z;
    calc {
      A2b(s, 0, 0, 0, acc);
      A2b(s[1..], 1, c0, 0, acc);
      A2b(s[1..][1..], 2, c1 % 16, 0, acc + [x]);
      A2b(s[1..][1..][1..], 3, c2 % 4, 0, acc + [x] + [y]);
      A2b(t, 0, 0, 0, acc + [x] + [y] + [z]);
      { assert acc + [x] + [y] + [z] == acc + [x, y, z]; }
      A2b(t, 0, 0, 0, acc + [x, y, z]);
    }
  }

  /** A final group of one octet, `xy==`, decodes to that octet. */
  lemma DecodeLastOne(x: Byte, acc: Bytes)
    ensures A2b(Encode([x]), 0, 0, 0, acc) == Ok(acc + [x])
  {
    var c0, c1 := x / 4, (x % 4) * 16;
    var s := Encode([x]);
    SextetRoundTrip(c0);
    SextetRoundTrip(c1);
    assert s[1..][1..] == ['=', '='];
    assert c0 * 4 + c1 / 16 == x;
    calc {
      A2b(s, 0, 0, 0, acc);
      A2b(s[1..], 1, c0, 0, acc);
      A2b(s[1..][1..], 2, c1 % 16, 0, acc + [x]);
      A2b(s[1..][1..][1..], 2, c1 % 16, 1, acc + [x]);
      Ok(acc + [x]);
    }
  }

  /** A final group of two octets, `xyz=`, decodes to those octets. */
  lemma DecodeLastTwo(x: Byte, y: Byte, acc: Bytes)
    ensures A2b(Encode([x, y]), 0, 0, 0, acc) == Ok(acc + [x, y])
  {
    var c0, c1, c2 := x / 4, (x % 4) * 16 + y / 16, (y % 16) * 4;
    var s := Encode([x, y]);
    SextetRoundTrip(c0);
    SextetRoundTrip(c1);
    SextetRoundTrip(c2);
    assert s[1..][1..][1..] == ['='];
    assert c0 * 4 + c1 / 16 == x;
    assert (c1 % 16) * 16 + c2 / 4 == y;
    calc {
      A2b(s, 0, 0, 0, acc);
      A2b(s[1..], 1, c0, 0, acc);
      A2b(s[1..][1..], 2, c1 % 16, 0, acc + [x]);
      A2b(s[1..][1..][1..], 3, c2 % 4, 0, acc + [x] + [y]);
      Ok(acc + [x] + [y]);
      { assert acc + [x] + [y] == acc + [x, y]; }
      Ok(acc + [x, y]);
    }
  }

  /** Decoding what `Encode` produced gives back the octets, appended to
      whatever the decoder had already emitted. */
  lemma {:induction false} DecodeEncodeFrom(b: Bytes, acc: Bytes)
    ensures A2b(Encode(b), 0, 0, 0, acc) == Ok(acc + b)
    decreases |b|
  {
    if |b| == 0 {
      assert acc + b == acc;
    } else if |b| == 1 {
      DecodeLastOne(b[0], acc);
      assert [b[0]] == b;
    } else if |b| == 2 {
      DecodeLastTwo(b[0], b[1], acc);
      assert [b[0], b[1]] == b;
    } else {
      DecodeBlock(b[0], b[1], b[2], Encode(b[3..]), acc);
      DecodeEncodeFrom(b[3..], acc + [b[0], b[1], b[2]]);
      assert acc + [b[0], b[1], b[2]] + b[3..] == acc + b;
    }
  }

  /** Round trip: `b64decode(b64encode(b)) == b` for every octet string. */
  lemma DecodeEncode(b: Bytes)
    ensures Decode(Encode(b)) == Ok(b)
  {
    DecodeEncodeFrom(b, []);
    assert [] + b == b;
  }
}
