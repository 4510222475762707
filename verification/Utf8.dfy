/** UTF-8, strict: the bytes of a Rust string and back. RFC 3629. */
module Utf8 {
  import opened Net
  import opened Sequences

  type Byte = b: int | 0 <= b < 256

  function EncodeChar(c: char): (r: seq<Byte>)
    ensures 1 <= |r| <= 4
  {
    var n := c as int;
    var q1 := n / 64;
    var q2 := q1 / 64;
    if n < 0x80 then [n]
    else if n < 0x800 then [0xC0 + q1, 0x80 + n % 64]
    else if n < 0x1_0000 then [0xE0 + q2, 0x80 + q1 % 64, 0x80 + n % 64]
    else [0xF0 + q2 / 64, 0x80 + q2 % 64, 0x80 + q1 % 64, 0x80 + n % 64]
  }

  function Encode(s: string): seq<Byte> {
    if s == [] then [] else EncodeChar(s[0]) + Encode(s[1..])
  }

  predicate IsContinuation(b: Byte) {
    0x80 <= b < 0xC0
  }

  /** The bits of `b` above its marker. */
  function Payload(b: Byte, marker: int): int {
    b - marker
  }

  /** The code point whose encoding starts `b`, and its length in bytes. */
  function Scan(b: seq<Byte>): (r: Option<(int, nat)>)
    requires b != []
    ensures r.Some? ==> 1 <= r.value.1 <= |b|
  {
    var b0 := b[0];
    if b0 < 0x80 then Some((b0, 1))
    else if 0xC0 <= b0 < 0xE0 then
      if |b| < 2 || !IsContinuation(b[1]) then None
      else
        var n: int := Payload(b0, 0xC0) * 64 + Payload(b[1], 0x80);
        if n < 0x80 then None else Some((n, 2))
    else if 0xE0 <= b0 < 0xF0 then
      if |b| < 3 || !IsContinuation(b[1]) || !IsContinuation(b[2]) then None
      else
        var n: int := Payload(b0, 0xE0) * 4096 + Payload(b[1], 0x80) * 64 + Payload(b[2], 0x80);
        if n < 0x800 then None else Some((n, 3))
    else if 0xF0 <= b0 < 0xF8 then
      if |b| < 4 || !IsContinuation(b[1]) || !IsContinuation(b[2]) || !IsContinuation(b[3]) then None
      else
        var n: int := Payload(b0, 0xF0) * 262144 + Payload(b[1], 0x80) * 4096 + Payload(b[2], 0x80) * 64 + Payload(b[3], 0x80);
        if n < 0x1_0000 then None else Some((n, 4))
    else None
  }

  predicate IsScalar(n: int) {
    0 <= n < 0xD800 || 0xE000 <= n < 0x11_0000
  }

  /** Overlong forms, surrogates and values past the last plane are refused. */
  function Decode(b: seq<Byte>): Option<string> {
    if b == [] then Some([])
    else
      match Scan(b)
      case None => None
      case Some((n, len)) =>
        if !IsScalar(n) then None
        else
          match Decode(b[len..])
          case None => None
          case Some(rest) => Some([n as char] + rest)
  }

  lemma ScanEncoded(c: char, rest: seq<Byte>)
    ensures Scan(EncodeChar(c) + rest) == Some((c as int, |EncodeChar(c)|))
  {
    var n := c as int;
    assert IsScalar(n);
    var e := EncodeChar(c);
    var b := e + rest;
    assert forall i :: 0 <= i < |e| ==> b[i] == e[i];
    var q1 := n / 64;
    var q2 := q1 / 64;
    assert n == 64 * q1 + n % 64 && q1 == 64 * q2 + q1 % 64 && q2 == 64 * (q2 / 64) + q2 % 64;
  }

  lemma EncodeScanned(b: seq<Byte>)
    requires b != [] && Scan(b).Some? && IsScalar(Scan(b).value.0)
    ensures EncodeChar(Scan(b).value.0 as char) == b[..Scan(b).value.1]
  {
    var (n, len) := Scan(b).value;
    if len == 2 {
      Digits(n, Payload(b[0], 0xC0), Payload(b[1], 0x80));
    } else if len == 3 {
      var q1: int := Payload(b[0], 0xE0) * 64 + Payload(b[1], 0x80);
      Digits(n, q1, Payload(b[2], 0x80));
      Digits(q1, Payload(b[0], 0xE0), Payload(b[1], 0x80));
    } else if len == 4 {
      var q2: int := Payload(b[0], 0xF0) * 64 + Payload(b[1], 0x80);
      var q1: int := q2 * 64 + Payload(b[2], 0x80);
      Digits(n, q1, Payload(b[3], 0x80));
      Digits(q1, q2, Payload(b[2], 0x80));
      Digits(q2, Payload(b[0], 0xF0), Payload(b[1], 0x80));
    }
  }

  lemma Digits(n: int, q: int, r: int)
    requires 0 <= r < 64 && n == 64 * q + r
    ensures n / 64 == q && n % 64 == r
  {
  }

  lemma {:induction false} DecodeEncode(s: string)
    ensures Decode(Encode(s)) == Some(s)
  {
    if s != [] {
      var first, rest := EncodeChar(s[0]), Encode(s[1..]);
      ScanEncoded(s[0], rest);
      DecodeEncode(s[1..]);
      assert (first + rest)[|first|..] == rest;
      assert [s[0]] + s[1..] == s;
    }
  }

  lemma {:induction false} EncodeDecode(b: seq<Byte>)
    requires Decode(b).Some?
    ensures Encode(Decode(b).value) == b
  {
    hide EncodeChar, Scan;
    if b != [] {
      var (n, len) := Scan(b).value;
      EncodeScanned(b);
      EncodeDecode(b[len..]);
      var rest := Decode(b[len..]).value;
      assert ([n as char] + rest)[1..] == rest;
      assert b[..len] + b[len..] == b;
    }
  }

  lemma EncodeCons(c: char, s: string)
    ensures Encode([c] + s) == EncodeChar(c) + Encode(s)
  {
    assert ([c] + s)[1..] == s;
  }

  lemma {:induction false} EncodeConcat(s: string, t: string)
    ensures Encode(s + t) == Encode(s) + Encode(t)
  {
    hide EncodeChar;
    if s == [] {
      assert s + t == t;
    } else {
      var first, rest := EncodeChar(s[0]), Encode(s[1..]);
      EncodeConcat(s[1..], t);
      assert s + t == [s[0]] + (s[1..] + t);
      EncodeCons(s[0], s[1..] + t);
      ConcatAssociates(first, rest, Encode(t));
    }
  }
}
