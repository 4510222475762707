/** Unpadded base64 in both alphabets, sections 4 and 5 of RFC 4648. Non-zero trailing bits are refused. */
module Base64 {
  import opened Net
  import opened Utf8

  datatype Alphabet = UrlSafe | Standard

  type Sextet = v: int | 0 <= v < 64

  function Symbol(al: Alphabet, v: Sextet): char {
    if v < 26 then ('A' as int + v) as char
    else if v < 52 then ('a' as int + (v - 26)) as char
    else if v < 62 then ('0' as int + (v - 52)) as char
    else if v == 62 then (if al.UrlSafe? then '-' else '+')
    else (if al.UrlSafe? then '_' else '/')
  }

  function Value(al: Alphabet, c: char): Option<Sextet> {
    if 'A' <= c <= 'Z' then Some(c as int - 'A' as int)
    else if 'a' <= c <= 'z' then Some(c as int - 'a' as int + 26)
    else if '0' <= c <= '9' then Some(c as int - '0' as int + 52)
    else if c == (if al.UrlSafe? then '-' else '+') then Some(62)
    else if c == (if al.UrlSafe? then '_' else '/') then Some(63)
    else None
  }

  lemma SymbolValue(al: Alphabet, v: Sextet)
    ensures Value(al, Symbol(al, v)) == Some(v)
  {
  }

  lemma ValueSymbol(al: Alphabet, c: char)
    requires Value(al, c).Some?
    ensures Symbol(al, Value(al, c).value) == c
  {
  }

  /** The alphabets as sections 4 and 5 of RFC 4648 tabulate them, in rows of 16. */
  function Row(al: Alphabet, r: nat): (row: string)
    requires r < 4
    ensures |row| == 16
  {
    match r
    case 0 => "ABCDEFGHIJKLMNOP"
    case 1 => "QRSTUVWXYZabcdef"
    case 2 => "ghijklmnopqrstuv"
    case 3 => if al.UrlSafe? then "wxyz0123456789-_" else "wxyz0123456789+/"
  }

  lemma SymbolsAreTabulated(al: Alphabet, v: Sextet)
    ensures Symbol(al, v) == Row(al, v / 16)[v % 16]
  {
    var r, i := v / 16, v % 16;
    assert v == r * 16 + i;
    FirstRows(al, i);
    LastRows(al, i);
    hide Row;
  }

  lemma FirstRows(al: Alphabet, i: nat)
    requires i < 16
    ensures Row(al, 0)[i] as int == 'A' as int + i
    ensures Row(al, 1)[i] as int == if i < 10 then 'Q' as int + i else 'a' as int + (i - 10)
  {
  }

  lemma LastRows(al: Alphabet, i: nat)
    requires i < 16
    ensures Row(al, 2)[i] as int == 'g' as int + i
    ensures Row(al, 3)[i] ==
            if i < 4 then ('w' as int + i) as char
            else if i < 14 then ('0' as int + (i - 4)) as char
            else if i == 14 then (if al.UrlSafe? then '-' else '+')
            else (if al.UrlSafe? then '_' else '/')
  {
  }

  function EncodeGroup(b: seq<Byte>): (r: seq<Sextet>)
    requires 1 <= |b| <= 3
    ensures |r| == |b| + 1
  {
    if |b| == 1 then [b[0] / 4, b[0] % 4 * 16]
    else if |b| == 2 then [b[0] / 4, b[0] % 4 * 16 + b[1] / 16, b[1] % 16 * 4]
    else [b[0] / 4, b[0] % 4 * 16 + b[1] / 16, b[1] % 16 * 4 + b[2] / 64, b[2] % 64]
  }

  /** Bytes past the end of a group are zero bits. */
  function ByteAt(b: seq<Byte>, i: nat): Byte {
    if i < |b| then b[i] else 0
  }

  function SextetAt(v: seq<Sextet>, i: nat): Sextet {
    if i < |v| then v[i] else 0
  }

  /** A group of sextets is the bits of its bytes, as one number of 24 bits. */
  lemma GroupIsTheSameBits(b: seq<Byte>)
    requires 1 <= |b| <= 3
    ensures var v := EncodeGroup(b);
            ((SextetAt(v, 0) * 64 + SextetAt(v, 1)) * 64 + SextetAt(v, 2)) * 64 + SextetAt(v, 3) ==
            (ByteAt(b, 0) * 256 + ByteAt(b, 1)) * 256 + ByteAt(b, 2)
  {
    var b0, b1, b2 := ByteAt(b, 0), ByteAt(b, 1), ByteAt(b, 2);
    assert b0 == b0 / 4 * 4 + b0 % 4 && b1 == b1 / 16 * 16 + b1 % 16 && b2 == b2 / 64 * 64 + b2 % 64;
  }

  /** Joins the low bits of one sextet to the high bits of the next. */
  function Join(high: int, scale: int, low: int): int {
    high * scale + low
  }

  /** The bytes of two to four sextets; one left alone, or trailing bits that are set, is not an encoding. */
  function DecodeGroup(v: seq<Sextet>): (r: Option<seq<Byte>>)
    requires 1 <= |v| <= 4
    ensures r.Some? ==> |r.value| == |v| - 1 >= 1
  {
    if |v| == 1 then None
    else
      var b0 := Join(v[0], 4, v[1] / 16);
      if |v| == 2 then
        if v[1] % 16 != 0 then None else Some([b0])
      else
        var b1 := Join(v[1] % 16, 16, v[2] / 4);
        if |v| == 3 then
          if v[2] % 4 != 0 then None else Some([b0, b1])
        else
          Some([b0, b1, Join(v[2] % 4, 64, v[3])])
  }

  lemma SplitJoin(high: int, scale: int, low: int)
    requires scale in {4, 16, 64} && 0 <= low < scale
    ensures Join(high, scale, low) / scale == high && Join(high, scale, low) % scale == low
  {
  }

  lemma GroupRoundTrip(b: seq<Byte>)
    requires 1 <= |b| <= 3
    ensures DecodeGroup(EncodeGroup(b)) == Some(b)
  {
    SplitJoin(b[0] % 4, 16, if |b| > 1 then b[1] / 16 else 0);
    if |b| > 1 {
      SplitJoin(b[1] % 16, 4, if |b| > 2 then b[2] / 64 else 0);
    }
    assert DecodeGroup(EncodeGroup(b)).value == b;
  }

  lemma GroupCanonical(v: seq<Sextet>)
    requires 1 <= |v| <= 4 && DecodeGroup(v).Some?
    ensures EncodeGroup(DecodeGroup(v).value) == v
  {
    SplitJoin(v[0], 4, v[1] / 16);
    if |v| > 2 {
      SplitJoin(v[1] % 16, 16, v[2] / 4);
    }
    if |v| > 3 {
      SplitJoin(v[2] % 4, 64, v[3]);
    }
  }

  function EncodeSextets(b: seq<Byte>): (r: seq<Sextet>) {
    if b == [] then []
    else if |b| <= 3 then EncodeGroup(b)
    else EncodeGroup(b[..3]) + EncodeSextets(b[3..])
  }

  function DecodeSextets(v: seq<Sextet>): (r: Option<seq<Byte>>) {
    if v == [] then Some([])
    else if |v| <= 4 then DecodeGroup(v)
    else
      match DecodeSextets(v[4..])
      case None => None
      case Some(rest) => Some(DecodeGroup(v[..4]).value + rest)
  }

  lemma {:induction false} SextetsRoundTrip(b: seq<Byte>)
    ensures DecodeSextets(EncodeSextets(b)) == Some(b)
    ensures b != [] ==> EncodeSextets(b) != []
  {
    if b == [] {
    } else if |b| <= 3 {
      GroupRoundTrip(b);
    } else {
      var group, rest := EncodeGroup(b[..3]), EncodeSextets(b[3..]);
      GroupRoundTrip(b[..3]);
      SextetsRoundTrip(b[3..]);
      assert (group + rest)[..4] == group && (group + rest)[4..] == rest;
      assert b[..3] + b[3..] == b;
    }
  }

  lemma {:induction false} SextetsCanonical(v: seq<Sextet>)
    requires DecodeSextets(v).Some?
    ensures EncodeSextets(DecodeSextets(v).value) == v
    ensures v != [] ==> DecodeSextets(v).value != []
  {
    if v == [] {
    } else if |v| <= 4 {
      GroupCanonical(v);
    } else {
      var group, rest := DecodeGroup(v[..4]).value, DecodeSextets(v[4..]).value;
      GroupCanonical(v[..4]);
      SextetsCanonical(v[4..]);
      assert (group + rest)[..3] == group && (group + rest)[3..] == rest;
      assert v[..4] + v[4..] == v;
    }
  }

  function Symbols(al: Alphabet, v: seq<Sextet>): string {
    seq(|v|, i requires 0 <= i < |v| => Symbol(al, v[i]))
  }

  predicate InAlphabet(al: Alphabet, s: string) {
    forall i :: 0 <= i < |s| ==> Value(al, s[i]).Some?
  }

  function Values(al: Alphabet, s: string): seq<Sextet>
    requires InAlphabet(al, s)
  {
    seq(|s|, i requires 0 <= i < |s| => Value(al, s[i]).value)
  }

  function EncodeText(al: Alphabet, b: seq<Byte>): string {
    Symbols(al, EncodeSextets(b))
  }

  function DecodeText(al: Alphabet, s: string): Option<seq<Byte>> {
    if InAlphabet(al, s) then DecodeSextets(Values(al, s)) else None
  }

  /** Decoding undoes encoding. */
  lemma DecodeEncodeText(al: Alphabet, b: seq<Byte>)
    ensures DecodeText(al, EncodeText(al, b)) == Some(b)
    ensures InAlphabet(al, EncodeText(al, b))
  {
    var v := EncodeSextets(b);
    forall i | 0 <= i < |v|
      ensures Value(al, Symbols(al, v)[i]) == Some(v[i])
    {
      SymbolValue(al, v[i]);
    }
    assert Values(al, Symbols(al, v)) == v;
    SextetsRoundTrip(b);
  }

  /** Only the one encoding of some bytes decodes to them. */
  lemma EncodeDecodeText(al: Alphabet, s: string)
    requires DecodeText(al, s).Some?
    ensures EncodeText(al, DecodeText(al, s).value) == s
  {
    var v := Values(al, s);
    SextetsCanonical(v);
    forall i | 0 <= i < |s|
      ensures Symbols(al, v)[i] == s[i]
    {
      ValueSymbol(al, s[i]);
    }
  }

  /** No string decodes in both alphabets to different bytes. */
  lemma AlphabetsAgree(s: string)
    requires DecodeText(UrlSafe, s).Some? && DecodeText(Standard, s).Some?
    ensures DecodeText(UrlSafe, s) == DecodeText(Standard, s)
  {
    forall i | 0 <= i < |s|
      ensures Value(UrlSafe, s[i]) == Value(Standard, s[i])
    {
      assert Value(UrlSafe, s[i]).Some? && Value(Standard, s[i]).Some?;
    }
    assert Values(UrlSafe, s) == Values(Standard, s);
  }
}
