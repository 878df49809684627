/** UTF-8 (RFC 3629, sections 3 and 4): strings as sequences of Unicode scalar values, their encoding, a
    decoder that accepts exactly the encodings, and character boundaries. */
module Utf8 {
  import opened Options

  type byte = n: nat | n < 0x100

  predicate IsTail(b: byte) {
    0x80 <= b < 0xC0
  }

  function EncodeChar(c: char): (b: seq<byte>)
    ensures 1 <= |b| <= 4 && !IsTail(b[0]) && forall i :: 1 <= i < |b| ==> IsTail(b[i])
  {
    var n := c as int;
    if n < 0x80 then [n]
    else if n < 0x800 then [0xC0 + n / 0x40, 0x80 + n % 0x40]
    else if n < 0x1_0000 then [0xE0 + n / 0x1000, 0x80 + n / 0x40 % 0x40, 0x80 + n % 0x40]
    else [0xF0 + n / 0x4_0000, 0x80 + n / 0x1000 % 0x40, 0x80 + n / 0x40 % 0x40, 0x80 + n % 0x40]
  }

  function Encode(s: string): seq<byte> {
    if s == "" then [] else EncodeChar(s[0]) + Encode(s[1..])
  }

  function ByteLength(text: string): nat {
    |Encode(text)|
  }

  predicate IsScalar(n: int) {
    0 <= n < 0xD800 || 0xE000 <= n < 0x11_0000
  }

  function Code2(a: int, b: int): int {
    (a - 0xC0) * 0x40 + (b - 0x80)
  }

  function Code3(a: int, b: int, c: int): int {
    (a - 0xE0) * 0x1000 + (b - 0x80) * 0x40 + (c - 0x80)
  }

  function Code4(a: int, b: int, c: int, d: int): int {
    (a - 0xF0) * 0x4_0000 + (b - 0x80) * 0x1000 + (c - 0x80) * 0x40 + (d - 0x80)
  }

  datatype Decoded = Decoded(c: char, size: nat)

  /** The first character of the bytes, unless they are cut short, overlong, a surrogate or too large. */
  function DecodeChar(b: seq<byte>): (r: Option<Decoded>)
    ensures r.Some? ==> 1 <= r.value.size <= |b| && b[..r.value.size] == EncodeChar(r.value.c)
  {
    if |b| >= 1 && b[0] < 0x80 then Some(Decoded(b[0] as char, 1))
    else if |b| >= 2 && 0xC0 <= b[0] < 0xE0 && IsTail(b[1]) then
      var n := Code2(b[0], b[1]);
      if n < 0x80 then None
      else
        Two(b[0], b[1]);
        Some(Decoded(n as char, 2))
    else if |b| >= 3 && 0xE0 <= b[0] < 0xF0 && IsTail(b[1]) && IsTail(b[2]) then
      var n := Code3(b[0], b[1], b[2]);
      if n < 0x800 || !IsScalar(n) then None
      else
        Three(b[0], b[1], b[2]);
        Some(Decoded(n as char, 3))
    else if |b| >= 4 && 0xF0 <= b[0] < 0xF8 && IsTail(b[1]) && IsTail(b[2]) && IsTail(b[3]) then
      var n := Code4(b[0], b[1], b[2], b[3]);
      if n < 0x1_0000 || !IsScalar(n) then None
      else
        Four(b[0], b[1], b[2], b[3]);
        Some(Decoded(n as char, 4))
    else None
  }

  lemma Two(a: byte, b: byte)
    requires 0xC0 <= a < 0xE0 && IsTail(b) && Code2(a, b) >= 0x80
    ensures EncodeChar(Code2(a, b) as char) == [a, b]
  {
  }

  lemma Three(a: byte, b: byte, c: byte)
    requires 0xE0 <= a < 0xF0 && IsTail(b) && IsTail(c) && Code3(a, b, c) >= 0x800 && IsScalar(Code3(a, b, c))
    ensures EncodeChar(Code3(a, b, c) as char) == [a, b, c]
  {
    var n := Code3(a, b, c);
    assert n / 0x1000 == a - 0xE0;
    assert n / 0x40 == Code2(a - 0x20, b);
  }

  lemma Four(a: byte, b: byte, c: byte, d: byte)
    requires 0xF0 <= a < 0xF8 && IsTail(b) && IsTail(c) && IsTail(d)
    requires Code4(a, b, c, d) >= 0x1_0000 && IsScalar(Code4(a, b, c, d))
    ensures EncodeChar(Code4(a, b, c, d) as char) == [a, b, c, d]
  {
    var n := Code4(a, b, c, d);
    assert n / 0x4_0000 == a - 0xF0;
    assert n / 0x1000 == Code2(a - 0x30, b);
    assert n / 0x40 == Code3(a - 0x10, b, c);
  }

  /** Decoding a character behind its encoding gives it back, whatever follows. */
  lemma DecodeEncodedChar(c: char, rest: seq<byte>)
    ensures DecodeChar(EncodeChar(c) + rest) == Some(Decoded(c, |EncodeChar(c)|))
  {
    var n := c as int;
    var b := EncodeChar(c) + rest;
    if n < 0x80 {
    } else if n < 0x800 {
      assert n == Code2(b[0], b[1]);
    } else if n < 0x1_0000 {
      assert n / 0x40 == n / 0x1000 * 0x40 + n / 0x40 % 0x40;
      assert n == Code3(b[0], b[1], b[2]);
    } else {
      assert n / 0x1000 == n / 0x4_0000 * 0x40 + n / 0x1000 % 0x40;
      assert n / 0x40 == n / 0x1000 * 0x40 + n / 0x40 % 0x40;
      assert n == Code4(b[0], b[1], b[2], b[3]);
    }
  }

  function Decode(b: seq<byte>): (r: Option<string>) {
    if b == [] then Some("")
    else
      var first := DecodeChar(b);
      if first.None? then None
      else
        var rest := Decode(b[first.value.size..]);
        if rest.None? then None else Some([first.value.c] + rest.value)
  }

  /** The decoder accepts every encoding and gives back what was encoded. */
  lemma {:induction false} DecodeEncode(s: string)
    ensures Decode(Encode(s)) == Some(s)
  {
    if s != "" {
      DecodeEncodedChar(s[0], Encode(s[1..]));
      var b, n := Encode(s), |EncodeChar(s[0])|;
      assert b[n..] == Encode(s[1..]);
      DecodeEncode(s[1..]);
      assert [s[0]] + s[1..] == s;
    }
  }

  lemma DecodeCons(b: seq<byte>) returns (c: char, rest: seq<byte>)
    requires b != [] && Decode(b).Some?
    ensures |rest| < |b| && b == EncodeChar(c) + rest
    ensures Decode(rest).Some? && Decode(b).value == [c] + Decode(rest).value
  {
    var first := DecodeChar(b).value;
    c, rest := first.c, b[first.size..];
    assert b == b[..first.size] + rest;
  }

  lemma EncodeCons(c: char, s: string)
    ensures Encode([c] + s) == EncodeChar(c) + Encode(s)
  {
    assert ([c] + s)[1..] == s;
  }

  /** And nothing else: what it accepts is the encoding of its result. */
  lemma {:induction false} EncodeDecode(b: seq<byte>)
    ensures Decode(b).Some? ==> Encode(Decode(b).value) == b
  {
    if b != [] && Decode(b).Some? {
      var c, rest := DecodeCons(b);
      EncodeDecode(rest);
      EncodeCons(c, Decode(rest).value);
    }
  }

  lemma {:induction false} EncodeConcat(s: string, t: string)
    ensures Encode(s + t) == Encode(s) + Encode(t)
  {
    if s == "" {
      assert s + t == t;
    } else {
      assert (s + t)[1..] == s[1..] + t;
      EncodeConcat(s[1..], t);
    }
  }

  // ----- character boundaries

  /** The program's test: the ends, or a byte that does not continue a character. */
  predicate IsBoundary(b: seq<byte>, i: nat) {
    i == 0 || i == |b| || (i < |b| && !IsTail(b[i]))
  }

  /** The test finds exactly the places between two characters. */
  lemma {:induction false} BoundaryIff(s: string, i: nat)
    ensures IsBoundary(Encode(s), i) <==> exists k :: 0 <= k <= |s| && i == |Encode(s[..k])|
  {
    if exists k :: 0 <= k <= |s| && i == |Encode(s[..k])| {
      var k :| 0 <= k <= |s| && i == |Encode(s[..k])|;
      PlaceIsBoundary(s, k);
    }
    if IsBoundary(Encode(s), i) {
      var k := BoundaryPlace(s, i);
      assert i == |Encode(s[..k])|;
    }
  }

  lemma PlaceIsBoundary(s: string, k: nat)
    requires k <= |s|
    ensures IsBoundary(Encode(s), |Encode(s[..k])|)
    ensures Encode(s)[..|Encode(s[..k])|] == Encode(s[..k]) && Encode(s)[|Encode(s[..k])|..] == Encode(s[k..])
  {
    assert s == s[..k] + s[k..];
    EncodeConcat(s[..k], s[k..]);
    if k < |s| {
      assert Encode(s[k..])[0] == EncodeChar(s[k])[0];
    } else {
      assert s[..k] == s;
    }
  }

  lemma {:induction false} BoundaryPlace(s: string, i: nat) returns (k: nat)
    requires IsBoundary(Encode(s), i)
    ensures k <= |s| && i == |Encode(s[..k])|
  {
    if i == 0 {
      k := 0;
    } else {
      var n := |EncodeChar(s[0])|;
      assert Encode(s) == EncodeChar(s[0]) + Encode(s[1..]);
      assert i >= n;
      k := BoundaryPlace(s[1..], i - n);
      k := k + 1;
      assert s[..k][1..] == s[1..][..k - 1];
    }
  }

  /** A boundary is never more than three bytes away. */
  lemma {:induction false} BoundaryNear(s: string, i: nat)
    requires i <= |Encode(s)|
    ensures exists j :: i <= j <= i + 3 && IsBoundary(Encode(s), j)
  {
    var b := Encode(s);
    if s == "" {
      assert IsBoundary(b, i);
    } else {
      var n := |EncodeChar(s[0])|;
      assert b == EncodeChar(s[0]) + Encode(s[1..]);
      if i == 0 {
        assert IsBoundary(b, 0);
      } else if i <= n {
        assert b[n..] == Encode(s[1..]);
        PlaceIsBoundary(s, 1);
        assert s[..1][1..] == "" && s[..1][0] == s[0];
        assert Encode(s[..1]) == EncodeChar(s[0]) + Encode(s[..1][1..]);
        assert IsBoundary(b, n);
      } else {
        BoundaryNear(s[1..], i - n);
        var j :| i - n <= j <= i - n + 3 && IsBoundary(Encode(s[1..]), j);
        assert IsBoundary(b, j + n);
      }
    }
  }
}
