/**
 * Base64 as Python's `base64.b64encode` writes it (section 4 of RFC 4648,
 * with `=` padding) and as `base64.b64decode(s)` reads it without
 * `validate=True`: CPython's non-strict `binascii.a2b_base64`, which skips
 * characters outside the alphabet and stops at a complete padding sequence.
 */
module Base64 {
  import opened Wrappers
  import Text
  import Utf8

  type byte = Utf8.byte

  /** The character of the alphabet with value `k` (Table 1 of RFC 4648). */
  function Sextet(k: nat): (c: char)
    requires k < 64
    ensures c as int < 0x80 && c != '='
  {
    if k < 26 then ('A' as int + k) as char
    else if k < 52 then ('a' as int + (k - 26)) as char
    else if k < 62 then ('0' as int + (k - 52)) as char
    else if k == 62 then '+'
    else '/'
  }

  /** The value of an alphabet character; `None` for anything else, `=` included. */
  function SextetValue(c: char): (v: Option<nat>)
    ensures v.Some? ==> v.value < 64 && Sextet(v.value) == c
  {
    if 'A' <= c <= 'Z' then Some(c as int - 'A' as int)
    else if 'a' <= c <= 'z' then Some(c as int - 'a' as int + 26)
    else if '0' <= c <= '9' then Some(c as int - '0' as int + 52)
    else if c == '+' then Some(62)
    else if c == '/' then Some(63)
    else None
  }

  /** Every alphabet character reads back as its value. */
  lemma SextetRoundTrip(k: nat)
    requires k < 64
    ensures SextetValue(Sextet(k)) == Some(k)
  {
  }

  /** `base64.b64encode(b)`: four characters per three bytes, the last group padded with `=`. */
  function Encode(b: seq<byte>): (r: string)
    ensures |r| == (|b| + 2) / 3 * 4
    ensures forall i | 0 <= i < |r| :: r[i] as int < 0x80
    decreases |b|
  {
    if |b| == 0 then []
    else if |b| == 1 then [Sextet(b[0] / 4), Sextet(b[0] % 4 * 16), '=', '=']
    else if |b| == 2 then [Sextet(b[0] / 4), Sextet(b[0] % 4 * 16 + b[1] / 16), Sextet(b[1] % 16 * 4), '=']
    else Group(b[0], b[1], b[2]) + Encode(b[3..])
  }

  /** The four characters of one full group of three bytes. */
  function Group(b0: byte, b1: byte, b2: byte): (r: string)
    ensures |r| == 4 && forall i | 0 <= i < 4 :: r[i] as int < 0x80
  {
    [Sextet(b0 / 4), Sextet(b0 % 4 * 16 + b1 / 16), Sextet(b1 % 16 * 4 + b2 / 64), Sextet(b2 % 64)]
  }

  /**
   * The decoder's position inside a group of four: how many data characters
   * of the group it has read, the bits of the last one not yet emitted, and
   * how many `=` it has seen since the last data character.
   */
  datatype Quad = Quad(pos: nat, left: nat, pads: nat)

  ghost predicate QuadOk(q: Quad) {
    && q.pos < 4
    && (q.pos == 0 ==> q.left == 0)
    && (q.pos == 1 ==> q.left < 64)
    && (q.pos == 2 ==> q.left < 16)
    && (q.pos == 3 ==> q.left < 4)
  }

  const Start := Quad(0, 0, 0)

  /** `binascii.a2b_base64(s, strict_mode=False)`, reading `s` from where `q` and `out` left off. */
  function A2b(s: string, q: Quad, out: seq<byte>): (r: Result<seq<byte>, string>)
    requires QuadOk(q)
    ensures r.Ok? ==> |r.value| >= |out| && r.value[..|out|] == out
    decreases |s|
  {
    if s == [] then
      if q.pos == 0 then Ok(out)
      else if q.pos == 1 then Err(OneOverMessage(|out|))
      else Err("Incorrect padding")
    else if s[0] == '=' then
      if q.pos < 2 then A2b(s[1..], q, out)
      else if q.pos + q.pads + 1 >= 4 then Ok(out)
      else A2b(s[1..], q.(pads := q.pads + 1), out)
    else
      match SextetValue(s[0])
      case None => A2b(s[1..], q, out)
      case Some(v) =>
        var next := Step(q, v);
        A2b(s[1..], next.0, out + next.1)
  }

  /** One data character of value `v`: the new position, and the byte it completes, if any. */
  function Step(q: Quad, v: nat): (next: (Quad, seq<byte>))
    requires QuadOk(q) && v < 64
    ensures QuadOk(next.0) && |next.1| == (if q.pos == 0 then 0 else 1)
  {
    if q.pos == 0 then (Quad(1, v, 0), [])
    else if q.pos == 1 then (Quad(2, v % 16, 0), [q.left * 4 + v / 16])
    else if q.pos == 2 then (Quad(3, v % 4, 0), [q.left * 16 + v / 4])
    else (Start, [q.left * 64 + v])
  }

  /** The error for a last group of one data character, after `n` decoded bytes. */
  function OneOverMessage(n: nat): string {
    "Invalid base64-encoded string: number of data characters ("
      + Text.Decimal(n / 3 * 4 + 1) + ") cannot be 1 more than a multiple of 4"
  }

  /** `base64.b64decode(s)` for a `str` argument: ASCII only, then the non-strict decoder. */
  function Decode(s: string): Result<seq<byte>, string> {
    if exists i | 0 <= i < |s| :: s[i] as int >= 0x80 then
      Err("string argument should contain only ASCII characters")
    else A2b(s, Start, [])
  }

  /** A data character moves the decoder by `Step`. */
  lemma A2bData(s: string, q: Quad, out: seq<byte>, v: nat)
    requires QuadOk(q) && v < 64 && s != [] && SextetValue(s[0]) == Some(v)
    ensures A2b(s, q, out) == A2b(s[1..], Step(q, v).0, out + Step(q, v).1)
  {
  }

  /** The four sextets of a group carry the three bytes' bits, in order. */
  lemma GroupBits(b0: byte, b1: byte, b2: byte)
    ensures b0 / 4 * 4 + (b0 % 4 * 16 + b1 / 16) / 16 == b0
    ensures (b0 % 4 * 16 + b1 / 16) % 16 * 16 + (b1 % 16 * 4 + b2 / 64) / 4 == b1
    ensures (b1 % 16 * 4 + b2 / 64) % 4 * 64 + b2 % 64 == b2
  {
  }

  /** The decoder reads one full encoded group back into its three bytes. */
  lemma {:induction false} A2bGroup(b0: byte, b1: byte, b2: byte, rest: string, out: seq<byte>)
    ensures A2b(Group(b0, b1, b2) + rest, Start, out) == A2b(rest, Start, out + [b0, b1, b2])
  {
    var c0, c1, c2, c3 := b0 / 4, b0 % 4 * 16 + b1 / 16, b1 % 16 * 4 + b2 / 64, b2 % 64;
    var s0 := [Sextet(c0), Sextet(c1), Sextet(c2), Sextet(c3)] + rest;
    var s1, s2, s3 := s0[1..], s0[2..], s0[3..];
    SextetRoundTrip(c0); SextetRoundTrip(c1); SextetRoundTrip(c2); SextetRoundTrip(c3);
    assert s1[1..] == s2 && s2[1..] == s3 && s3[1..] == rest;
    GroupBits(b0, b1, b2);
    assert Step(Start, c0) == (Quad(1, c0, 0), []);
    assert Step(Quad(1, c0, 0), c1) == (Quad(2, c1 % 16, 0), [b0]);
    assert Step(Quad(2, c1 % 16, 0), c2) == (Quad(3, c2 % 4, 0), [b1]);
    assert Step(Quad(3, c2 % 4, 0), c3) == (Start, [b2]);
    A2bData(s0, Start, out, c0);
    assert out + [] == out;
    A2bData(s1, Quad(1, c0, 0), out, c1);
    A2bData(s2, Quad(2, c1 % 16, 0), out + [b0], c2);
    A2bData(s3, Quad(3, c2 % 4, 0), out + [b0] + [b1], c3);
    assert out + [b0] + [b1] + [b2] == out + [b0, b1, b2];
  }

  /** The decoder reads a final group of one byte, padded with `==`. */
  lemma A2bTail1(b0: byte, out: seq<byte>)
    ensures A2b([Sextet(b0 / 4), Sextet(b0 % 4 * 16), '=', '='], Start, out) == Ok(out + [b0])
  {
    var c0, c1 := b0 / 4, b0 % 4 * 16;
    var s0 := [Sextet(c0), Sextet(c1), '=', '='];
    SextetRoundTrip(c0); SextetRoundTrip(c1);
    assert s0[1..][1..] == ['=', '='];
    assert s0[1..][1..][1..] == ['='];
    assert c0 * 4 + c1 / 16 == b0;
    A2bData(s0, Start, out, c0);
    assert out + [] == out;
    A2bData(s0[1..], Quad(1, c0, 0), out, c1);
  }

  /** The decoder reads a final group of two bytes, padded with `=`. */
  lemma A2bTail2(b0: byte, b1: byte, out: seq<byte>)
    ensures A2b([Sextet(b0 / 4), Sextet(b0 % 4 * 16 + b1 / 16), Sextet(b1 % 16 * 4), '='], Start, out) == Ok(out + [b0, b1])
  {
    var c0, c1, c2 := b0 / 4, b0 % 4 * 16 + b1 / 16, b1 % 16 * 4;
    var s0 := [Sextet(c0), Sextet(c1), Sextet(c2), '='];
    SextetRoundTrip(c0); SextetRoundTrip(c1); SextetRoundTrip(c2);
    assert s0[1..][1..][1..] == ['='];
    assert c0 * 4 + c1 / 16 == b0;
    assert c1 % 16 * 16 + c2 / 4 == b1;
    A2bData(s0, Start, out, c0);
    assert out + [] == out;
    A2bData(s0[1..], Quad(1, c0, 0), out, c1);
    A2bData(s0[1..][1..], Quad(2, c1 % 16, 0), out + [b0], c2);
    assert out + [b0] + [b1] == out + [b0, b1];
  }

  /** The decoder reads what the encoder wrote for at most two bytes. */
  lemma A2bEncodeShort(b: seq<byte>, out: seq<byte>)
    requires |b| <= 2
    ensures A2b(Encode(b), Start, out) == Ok(out + b)
  {
    if |b| == 0 {
      assert out + b == out;
    } else if |b| == 1 {
      assert Encode(b) == [Sextet(b[0] / 4), Sextet(b[0] % 4 * 16), '=', '='];
      A2bTail1(b[0], out);
      assert [b[0]] == b;
    } else {
      assert Encode(b) == [Sextet(b[0] / 4), Sextet(b[0] % 4 * 16 + b[1] / 16), Sextet(b[1] % 16 * 4), '='];
      A2bTail2(b[0], b[1], out);
      assert [b[0], b[1]] == b;
    }
  }

  /** The decoder reads what the encoder wrote, appended to what it already has. */
  lemma {:induction false} A2bEncode(b: seq<byte>, out: seq<byte>)
    ensures A2b(Encode(b), Start, out) == Ok(out + b)
    decreases |b|
  {
    if |b| <= 2 {
      A2bEncodeShort(b, out);
    } else {
      var e := Encode(b[3..]);
      EncodeFull(b);
      A2bGroup(b[0], b[1], b[2], e, out);
      A2bEncode(b[3..], out + [b[0], b[1], b[2]]);
      SplitThree(b, out);
    }
  }

  /** Three or more bytes encode as one full group, then the rest. */
  lemma EncodeFull(b: seq<byte>)
    requires |b| >= 3
    ensures Encode(b) == Group(b[0], b[1], b[2]) + Encode(b[3..])
  {
  }

  /** Appending the first three bytes, then the rest, appends them all. */
  lemma SplitThree(b: seq<byte>, out: seq<byte>)
    requires |b| >= 3
    ensures out + [b[0], b[1], b[2]] + b[3..] == out + b
  {
    assert b == [b[0], b[1], b[2]] + b[3..];
  }

  /** `b64decode(b64encode(b)) == b` */
  lemma DecodeEncode(b: seq<byte>)
    ensures Decode(Encode(b)) == Ok(b)
  {
    A2bEncode(b, []);
  }
}
