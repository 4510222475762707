/** The string operations the link parser is made of: splits, trims, decimal numbers and percent escapes. */
module Text {
  import opened Net
  import opened Sequences
  import opened Utf8

  /** The index of the first `c`. */
  function First(s: string, c: char): (i: nat)
    requires c in s
    ensures i < |s| && s[i] == c && c !in s[..i]
  {
    if s[0] == c then 0 else
      var i := 1 + First(s[1..], c);
      assert s[..i] == [s[0]] + s[1..][..i - 1];
      i
  }

  /** The index of the last `c`. */
  function Last(s: string, c: char): (i: nat)
    requires c in s
    ensures i < |s| && s[i] == c && c !in s[i + 1..]
  {
    if c in s[1..] then
      var i := 1 + Last(s[1..], c);
      assert s[i + 1..] == s[1..][i..];
      i
    else 0
  }

  /** `split_once`: around the first `c`. */
  function SplitOnce(s: string, c: char): Option<(string, string)> {
    if c in s then var i := First(s, c); Some((s[..i], s[i + 1..])) else None
  }

  /** `rsplit_once`: around the last `c`. */
  function RSplitOnce(s: string, c: char): Option<(string, string)> {
    if c in s then var i := Last(s, c); Some((s[..i], s[i + 1..])) else None
  }

  lemma SplitOnceAt(a: string, c: char, b: string)
    requires c !in a
    ensures SplitOnce(a + [c] + b, c) == Some((a, b))
  {
    var s := a + [c] + b;
    assert s[|a|] == c && s[..|a|] == a && s[|a| + 1..] == b;
    var i := First(s, c);
    assert forall k :: 0 <= k < |a| ==> s[k] == a[k];
    assert forall k :: 0 <= k < i ==> s[k] == s[..i][k];
  }

  lemma RSplitOnceAt(a: string, c: char, b: string)
    requires c !in b
    ensures RSplitOnce(a + [c] + b, c) == Some((a, b))
  {
    var s := a + [c] + b;
    assert s[|a|] == c && s[..|a|] == a && s[|a| + 1..] == b;
    var i := Last(s, c);
    assert forall k :: |a| < k < |s| ==> s[k] == b[k - |a| - 1];
    assert forall k :: i < k < |s| ==> s[k] == s[i + 1..][k - i - 1];
  }

  /** Unicode's White_Space property. */
  predicate IsWhitespace(c: char) {
    var n := c as int;
    || 0x09 <= n <= 0x0D || n == 0x20 || n == 0x85 || n == 0xA0 || n == 0x1680
    || 0x2000 <= n <= 0x200A || n == 0x2028 || n == 0x2029 || n == 0x202F || n == 0x205F || n == 0x3000
  }

  /** The 25 characters of the property, listed. */
  const WHITE_SPACE := ["\t\n\U{b}\U{c}\r \U{85}\U{a0}\U{1680}", "\U{2000}\U{2001}\U{2002}\U{2003}\U{2004}\U{2005}",
                        "\U{2006}\U{2007}\U{2008}\U{2009}\U{200a}", "\U{2028}\U{2029}\U{202f}\U{205f}\U{3000}"]

  lemma WhiteSpaceExactly(c: char)
    ensures IsWhitespace(c) <==> exists row :: row in WHITE_SPACE && c in row
  {
    assert WHITE_SPACE[0] == "\t\n\U{b}\U{c}\r \U{85}\U{a0}\U{1680}";
    assert WHITE_SPACE[1] == "\U{2000}\U{2001}\U{2002}\U{2003}\U{2004}\U{2005}";
    assert WHITE_SPACE[2] == "\U{2006}\U{2007}\U{2008}\U{2009}\U{200a}";
    assert WHITE_SPACE[3] == "\U{2028}\U{2029}\U{202f}\U{205f}\U{3000}";
    if IsWhitespace(c) {
      assert exists i :: 0 <= i < 4 && c in WHITE_SPACE[i];
    }
  }

  function TrimStart(s: string): string {
    if s != [] && IsWhitespace(s[0]) then TrimStart(s[1..]) else s
  }

  function TrimEnd(s: string): string {
    if s != [] && IsWhitespace(s[|s| - 1]) then TrimEnd(s[..|s| - 1]) else s
  }

  function Trim(s: string): string {
    TrimEnd(TrimStart(s))
  }

  predicate Blank(s: string) {
    forall i :: 0 <= i < |s| ==> IsWhitespace(s[i])
  }

  /** Whitespace around a text that has none at its ends goes, and nothing else. */
  lemma TrimAround(before: string, s: string, after: string)
    requires Blank(before) && Blank(after)
    requires s != [] && !IsWhitespace(s[0]) && !IsWhitespace(s[|s| - 1])
    ensures Trim(before + s + after) == s
  {
    TrimStartDrops(before, s + after);
    assert before + s + after == before + (s + after);
    TrimEndDrops(s, after);
  }

  lemma {:induction false} TrimStartDrops(before: string, s: string)
    requires Blank(before)
    requires s != [] && !IsWhitespace(s[0])
    ensures TrimStart(before + s) == s
  {
    if before == [] {
      assert before + s == s;
    } else {
      TrimStartDrops(before[1..], s);
      assert (before + s)[1..] == before[1..] + s;
    }
  }

  lemma {:induction false} TrimEndDrops(s: string, after: string)
    requires Blank(after)
    requires s != [] && !IsWhitespace(s[|s| - 1])
    ensures TrimEnd(s + after) == s
  {
    var n := |after|;
    if n == 0 {
      assert s + after == s;
    } else {
      TrimEndDrops(s, after[..n - 1]);
      assert (s + after)[..|s + after| - 1] == s + after[..n - 1];
    }
  }

  /** Trimming takes whitespace off both ends, and all of it. */
  lemma TrimTakesBlanks(s: string) returns (before: string, after: string)
    ensures Blank(before) && Blank(after) && s == before + Trim(s) + after
    ensures Trim(s) != [] ==> !IsWhitespace(Trim(s)[|Trim(s)| - 1])
  {
    before := TrimStartTakes(s);
    after := TrimEndTakes(TrimStart(s));
    assert s == before + (Trim(s) + after);
  }

  lemma {:induction false} TrimStartTakes(s: string) returns (before: string)
    ensures Blank(before) && s == before + TrimStart(s)
  {
    before := [];
    if s != [] && IsWhitespace(s[0]) {
      before := TrimStartTakes(s[1..]);
      before := [s[0]] + before;
    }
  }

  lemma {:induction false} TrimEndTakes(s: string) returns (after: string)
    ensures Blank(after) && s == TrimEnd(s) + after
    ensures TrimEnd(s) != [] ==> !IsWhitespace(TrimEnd(s)[|TrimEnd(s)| - 1])
  {
    after := [];
    if s != [] && IsWhitespace(s[|s| - 1]) {
      after := TrimEndTakes(s[..|s| - 1]);
      after := after + [s[|s| - 1]];
    }
  }

  lemma {:induction false} StripPaddingTakes(s: string) returns (pad: string)
    ensures Padding(pad) && s == StripPadding(s) + pad
  {
    pad := [];
    if s != [] && s[|s| - 1] == '=' {
      pad := StripPaddingTakes(s[..|s| - 1]);
      pad := pad + ['='];
    }
  }

  /** `trim_end_matches('=')`. */
  function StripPadding(s: string): string {
    if s != [] && s[|s| - 1] == '=' then StripPadding(s[..|s| - 1]) else s
  }

  predicate Padding(s: string) {
    forall i :: 0 <= i < |s| ==> s[i] == '='
  }

  lemma {:induction false} StripPaddingDrops(s: string, pad: string)
    requires Padding(pad)
    requires s == [] || s[|s| - 1] != '='
    ensures StripPadding(s + pad) == s
  {
    var n := |pad|;
    if n == 0 {
      assert s + pad == s;
    } else {
      StripPaddingDrops(s, pad[..n - 1]);
      assert (s + pad)[..|s + pad| - 1] == s + pad[..n - 1];
    }
  }

  function Decimal(n: nat): (s: string)
    ensures s != [] && IsNumber(s)
  {
    var digit := ['0' as char + (n % 10) as char];
    if n < 10 then digit else Decimal(n / 10) + digit
  }

  predicate IsNumber(s: string) {
    forall i :: 0 <= i < |s| ==> '0' <= s[i] <= '9'
  }

  function NumberValue(s: string): (n: nat)
    requires IsNumber(s)
  {
    if s == [] then 0 else NumberValue(s[..|s| - 1]) * 10 + (s[|s| - 1] as int - '0' as int)
  }

  lemma {:induction false} NumberOfDecimal(n: nat)
    ensures NumberValue(Decimal(n)) == n
  {
    if n < 10 {
      assert Decimal(n)[..0] == [];
    } else {
      var s := Decimal(n);
      NumberOfDecimal(n / 10);
      assert s[..|s| - 1] == Decimal(n / 10);
    }
  }

  /** `str::parse::<u16>`: digits after at most one plus sign, in range. */
  function ParseU16(s: string): (r: Option<nat>)
    ensures r.Some? ==> r.value < 0x1_0000
  {
    var digits := if s != [] && s[0] == '+' then s[1..] else s;
    if digits == [] || !IsNumber(digits) || NumberValue(digits) >= 0x1_0000 then None
    else Some(NumberValue(digits))
  }

  predicate AllZeros(s: string) {
    forall i :: 0 <= i < |s| ==> s[i] == '0'
  }

  /** How a number may be written: perhaps a plus sign, any zeros, and its digits. */
  ghost predicate Spells(s: string, n: nat) {
    exists plus, zeros :: SpellsWith(s, plus, zeros, n)
  }

  predicate SpellsWith(s: string, plus: string, zeros: string, n: nat) {
    (plus == [] || plus == ['+']) && AllZeros(zeros) && s == plus + (zeros + Decimal(n))
  }

  lemma {:induction false} NumberAfterZeros(zeros: string, s: string)
    requires AllZeros(zeros) && IsNumber(s)
    ensures NumberValue(zeros + s) == NumberValue(s)
  {
    if s == [] {
      ZerosAreNought(zeros);
      assert zeros + s == zeros;
    } else {
      NumberAfterZeros(zeros, s[..|s| - 1]);
      assert (zeros + s)[..|zeros + s| - 1] == zeros + s[..|s| - 1];
    }
  }

  lemma {:induction false} ZerosAreNought(zeros: string)
    requires AllZeros(zeros)
    ensures NumberValue(zeros) == 0
  {
    if zeros != [] {
      ZerosAreNought(zeros[..|zeros| - 1]);
    }
  }

  lemma LastDigit(s: string)
    requires s != [] && IsNumber(s)
    ensures var front, d := s[..|s| - 1], s[|s| - 1] as int - '0' as int;
            && IsNumber(front) && 0 <= d < 10 && NumberValue(s) == NumberValue(front) * 10 + d
            && Decimal(d) == [s[|s| - 1]]
            && (NumberValue(front) > 0 ==> Decimal(NumberValue(s)) == Decimal(NumberValue(front)) + [s[|s| - 1]])
  {
    var v, d := NumberValue(s[..|s| - 1]), s[|s| - 1] as int - '0' as int;
    assert (v * 10 + d) / 10 == v && (v * 10 + d) % 10 == d;
    assert '0' as char + d as char == s[|s| - 1];
  }

  lemma {:induction false} NoughtIsZeros(s: string)
    requires IsNumber(s) && NumberValue(s) == 0
    ensures AllZeros(s)
  {
    if s != [] {
      LastDigit(s);
      NoughtIsZeros(s[..|s| - 1]);
    }
  }

  /** Any digits are some zeros and then the number they write. */
  lemma {:induction false} DigitsSpell(s: string) returns (zeros: string)
    requires s != [] && IsNumber(s)
    ensures AllZeros(zeros) && s == zeros + Decimal(NumberValue(s))
  {
    LastDigit(s);
    var front, last := s[..|s| - 1], [s[|s| - 1]];
    assert s == front + last;
    hide Decimal, NumberValue;
    if front == [] || NumberValue(front) == 0 {
      if front != [] {
        NoughtIsZeros(front);
      }
      NumberOfNothing();
      zeros := front;
    } else {
      zeros := DigitsSpell(front);
      ConcatAssociates(zeros, Decimal(NumberValue(front)), last);
    }
  }

  lemma NumberOfNothing()
    ensures NumberValue([]) == 0
  {
  }

  lemma PlusAndDigits(s: string, plus: string, zeros: string, n: nat)
    requires SpellsWith(s, plus, zeros, n)
    ensures var digits := zeros + Decimal(n);
            && digits != [] && IsNumber(digits) && NumberValue(digits) == n
            && digits == if s != [] && s[0] == '+' then s[1..] else s
  {
    NumberOfDecimal(n);
    NumberAfterZeros(zeros, Decimal(n));
    var digits := zeros + Decimal(n);
    assert digits[0] != '+';
    hide Decimal, NumberValue;
    assert s == plus + digits;
  }

  /** Exactly the numbers below 65536, however written, are read; whatever else is there is not a port. */
  lemma ParseU16ExactlyWhen(s: string, n: nat)
    ensures ParseU16(s) == Some(n) <==> n < 0x1_0000 && Spells(s, n)
  {
    hide Decimal, NumberValue, IsNumber;
    if ParseU16(s) == Some(n) {
      var plus := if s != [] && s[0] == '+' then ['+'] else [];
      var digits := if s != [] && s[0] == '+' then s[1..] else s;
      var zeros := DigitsSpell(digits);
      assert s == plus + digits;
      assert SpellsWith(s, plus, zeros, n);
    }
    if n < 0x1_0000 && Spells(s, n) {
      var plus, zeros :| SpellsWith(s, plus, zeros, n);
      PlusAndDigits(s, plus, zeros, n);
    }
  }

  /** A number as written, its sign and zeros included, has no character in it but digits and a plus sign. */
  lemma SpelledCharacters(s: string, n: nat)
    requires Spells(s, n)
    ensures s != [] && '0' <= s[|s| - 1] <= '9'
    ensures forall c :: c in s ==> c == '+' || '0' <= c <= '9'
  {
    var plus, zeros :| SpellsWith(s, plus, zeros, n);
    var d := Decimal(n);
    assert s[|s| - 1] == d[|d| - 1];
    assert forall i :: 0 <= i < |s| ==> s[i] in plus || s[i] in zeros || s[i] in d;
  }

  lemma DecimalSpells(n: nat)
    ensures Spells(Decimal(n), n)
  {
    assert Decimal(n) == [] + ([] + Decimal(n));
    assert SpellsWith(Decimal(n), [], [], n);
  }

  /** The unreserved characters of section 2.3 of RFC 3986. */
  predicate IsUnreserved(b: Byte) {
    || 'A' as int <= b <= 'Z' as int || 'a' as int <= b <= 'z' as int || '0' as int <= b <= '9' as int
    || b == '-' as int || b == '.' as int || b == '_' as int || b == '~' as int
  }

  function HexDigit(v: int): char
    requires 0 <= v < 16
  {
    if v < 10 then ('0' as int + v) as char else ('A' as int + (v - 10)) as char
  }

  /** `to_digit(16)`: either case. */
  function HexValue(b: Byte): (r: Option<int>)
    ensures r.Some? ==> 0 <= r.value < 16
  {
    if '0' as int <= b <= '9' as int then Some(b - '0' as int)
    else if 'a' as int <= b <= 'f' as int then Some(b - 'a' as int + 10)
    else if 'A' as int <= b <= 'F' as int then Some(b - 'A' as int + 10)
    else None
  }

  function EscapeByte(b: Byte): (s: string)
    ensures s != []
  {
    if IsUnreserved(b) then [b as char] else ['%', HexDigit(b / 16), HexDigit(b % 16)]
  }

  /** What section 2.3 of RFC 3986 leaves unreserved, listed. */
  const UNRESERVED := ["ABCDEFGHIJKLM", "NOPQRSTUVWXYZ", "abcdefghijklm", "nopqrstuvwxyz", "0123456789-._~"]

  predicate Listed(c: char) {
    exists row :: row in UNRESERVED && c in row
  }

  /** An unreserved character stands for itself, and any other byte becomes two upper-case digits after a percent sign. */
  lemma EscapesExactly(b: Byte)
    ensures EscapeByte(b) == if Listed(b as char) then [b as char] else ['%', UPPER_HEX[b / 16], UPPER_HEX[b % 16]]
  {
    UnreservedExactly(b);
    HexDigitsAre(b / 16);
    HexDigitsAre(b % 16);
  }

  lemma HexDigitsAre(v: int)
    requires 0 <= v < 16
    ensures HexDigit(v) == UPPER_HEX[v]
  {
  }

  lemma UnreservedExactly(b: Byte)
    ensures IsUnreserved(b) <==> Listed(b as char)
  {
    var c := b as char;
    assert UNRESERVED[0] == "ABCDEFGHIJKLM" && UNRESERVED[1] == "NOPQRSTUVWXYZ" && UNRESERVED[2] == "abcdefghijklm";
    assert UNRESERVED[3] == "nopqrstuvwxyz" && UNRESERVED[4] == "0123456789-._~";
    InUpper(c);
    InLower(c);
    InRest(c);
    if IsUnreserved(b) {
      assert exists i :: 0 <= i < 5 && c in UNRESERVED[i];
    }
  }

  lemma InUpper(c: char)
    ensures c in "ABCDEFGHIJKLM" <==> 'A' <= c <= 'M'
    ensures c in "NOPQRSTUVWXYZ" <==> 'N' <= c <= 'Z'
  {
    if 'A' <= c <= 'M' {
      assert "ABCDEFGHIJKLM"[c as int - 'A' as int] == c;
    }
    if 'N' <= c <= 'Z' {
      assert "NOPQRSTUVWXYZ"[c as int - 'N' as int] == c;
    }
  }

  lemma InLower(c: char)
    ensures c in "abcdefghijklm" <==> 'a' <= c <= 'm'
    ensures c in "nopqrstuvwxyz" <==> 'n' <= c <= 'z'
  {
    if 'a' <= c <= 'm' {
      assert "abcdefghijklm"[c as int - 'a' as int] == c;
    }
    if 'n' <= c <= 'z' {
      assert "nopqrstuvwxyz"[c as int - 'n' as int] == c;
    }
  }

  lemma InRest(c: char)
    ensures c in "0123456789-._~" <==> '0' <= c <= '9' || c == '-' || c == '.' || c == '_' || c == '~'
  {
    var s := "0123456789-._~";
    if '0' <= c <= '9' {
      assert s[c as int - '0' as int] == c;
    }
    assert s[10] == '-' && s[11] == '.' && s[12] == '_' && s[13] == '~';
  }

  function Escape(b: seq<Byte>): string {
    if b == [] then [] else EscapeByte(b[0]) + Escape(b[1..])
  }

  predicate StartsEscape(b: seq<Byte>) {
    |b| >= 3 && b[0] == '%' as int && HexValue(b[1]).Some? && HexValue(b[2]).Some?
  }

  function EscapedByte(hi: int, lo: int): Byte
    requires 0 <= hi < 16 && 0 <= lo < 16
  {
    hi * 16 + lo
  }

  /** Escapes become bytes and everything else, a stray `%` included, stands for itself. */
  function Unescape(b: seq<Byte>): seq<Byte> {
    if b == [] then []
    else if StartsEscape(b) then [EscapedByte(HexValue(b[1]).value, HexValue(b[2]).value)] + Unescape(b[3..])
    else [b[0]] + Unescape(b[1..])
  }

  function EncodeTag(tag: string): string {
    Escape(Encode(tag))
  }

  function DecodeTag(tag: string): string {
    match Decode(Unescape(Encode(tag)))
    case Some(s) => s
    case None => tag
  }

  method EncodeTagInPlace(tag: string) returns (out: string)
    ensures out == EncodeTag(tag)
  {
    var bytes := Encode(tag);
    out := [];
    for i := 0 to |bytes|
      invariant out + Escape(bytes[i..]) == Escape(bytes)
    {
      var b := bytes[i];
      assert bytes[i..][1..] == bytes[i + 1..];
      ConcatAssociates(out, EscapeByte(b), Escape(bytes[i + 1..]));
      if IsUnreserved(b) {
        out := out + [b as char];
      } else {
        out := out + ['%', HexDigit(b / 16), HexDigit(b % 16)];
      }
    }
    assert out + [] == out;
  }

  method DecodeTagInPlace(tag: string) returns (r: string)
    ensures r == DecodeTag(tag)
  {
    var b := Encode(tag);
    var out: seq<Byte> := [];
    var i := 0;
    while i < |b|
      invariant 0 <= i <= |b|
      invariant out + Unescape(b[i..]) == Unescape(b)
    {
      var rest := b[i..];
      if b[i] == '%' as int && i + 2 < |b| && HexValue(b[i + 1]).Some? && HexValue(b[i + 2]).Some? {
        var byte := EscapedByte(HexValue(b[i + 1]).value, HexValue(b[i + 2]).value);
        assert StartsEscape(rest) && rest[3..] == b[i + 3..];
        ConcatAssociates(out, [byte], Unescape(b[i + 3..]));
        out := out + [byte];
        i := i + 3;
        continue;
      }
      assert !StartsEscape(rest) && rest[1..] == b[i + 1..];
      ConcatAssociates(out, [b[i]], Unescape(b[i + 1..]));
      out := out + [b[i]];
      i := i + 1;
    }
    assert out + [] == out;
    match Decode(out)
    case Some(s) => r := s;
    case None => r := tag;
  }

  const LOWER_HEX := "0123456789abcdef"
  const UPPER_HEX := "0123456789ABCDEF"

  predicate IsHexDigit(b: Byte, v: int)
    requires 0 <= v < 16
  {
    b == LOWER_HEX[v] as int || b == UPPER_HEX[v] as int
  }

  /** A byte is a hexadecimal digit of value `v` exactly when it is the `v`-th of them, in either case. */
  lemma HexValueExactlyWhen(b: Byte, v: int)
    requires 0 <= v < 16
    ensures HexValue(b) == Some(v) <==> IsHexDigit(b, v)
    ensures HexValue(b) == None <==> forall i :: 0 <= i < 16 ==> !IsHexDigit(b, i)
  {
    assert forall i :: 0 <= i < 16 ==>
      && UPPER_HEX[i] as int == (if i < 10 then '0' as int + i else 'A' as int + i - 10)
      && LOWER_HEX[i] as int == (if i < 10 then '0' as int + i else 'a' as int + i - 10);
    if HexValue(b).Some? {
      var i := HexValue(b).value;
      assert IsHexDigit(b, i);
    }
  }

  /** An escape, its digits in either case or one in each, becomes its byte; a percent sign before anything else stays. */
  lemma EscapeDecodes(hi: Byte, lo: Byte, rest: seq<Byte>, b: Byte)
    ensures IsHexDigit(hi, b / 16) && IsHexDigit(lo, b % 16) ==>
              Unescape(['%' as int, hi, lo] + rest) == [b] + Unescape(rest)
    ensures HexValue(hi).None? || HexValue(lo).None? ==>
              Unescape(['%' as int, hi, lo] + rest) == ['%' as int] + Unescape([hi, lo] + rest)
  {
    HexValueExactlyWhen(hi, b / 16);
    HexValueExactlyWhen(lo, b % 16);
    assert EscapedByte(b / 16, b % 16) == b;
    hide HexValue, IsHexDigit, Unescape, EscapedByte;
    UnescapeFirst(hi, lo, rest);
  }

  lemma UnescapeFirst(hi: Byte, lo: Byte, rest: seq<Byte>)
    ensures var s := ['%' as int, hi, lo] + rest;
            Unescape(s) ==
            if HexValue(hi).Some? && HexValue(lo).Some? then
              [EscapedByte(HexValue(hi).value, HexValue(lo).value)] + Unescape(rest)
            else ['%' as int] + Unescape([hi, lo] + rest)
  {
    hide HexValue;
    var s := ['%' as int, hi, lo] + rest;
    assert s[3..] == rest && s[1..] == [hi, lo] + rest;
  }

  /** What an encoded tag is made of: nothing a link gives meaning to, and no whitespace. */
  predicate TagSafe(s: string) {
    forall i :: 0 <= i < |s| ==> s[i] < 128 as char && s[i] != '#' && !IsWhitespace(s[i])
  }

  lemma {:induction false} EscapeIsSafe(b: seq<Byte>)
    ensures TagSafe(Escape(b))
    ensures b != [] ==> Escape(b) != []
  {
    if b != [] {
      EscapeIsSafe(b[1..]);
      assert TagSafe(EscapeByte(b[0]));
    }
  }

  lemma {:induction false} EncodeAscii(s: string)
    requires forall i :: 0 <= i < |s| ==> s[i] < 128 as char
    ensures Encode(s) == seq(|s|, i requires 0 <= i < |s| => s[i] as int)
  {
    if s != [] {
      EncodeAscii(s[1..]);
      assert EncodeChar(s[0]) == [s[0] as int];
    }
  }

  lemma UnescapeEscapedByte(b: Byte, rest: seq<Byte>)
    ensures Unescape(Encode(EscapeByte(b)) + rest) == [b] + Unescape(rest)
  {
    var e := EscapeByte(b);
    EncodeAscii(e);
    var all := Encode(e) + rest;
    if IsUnreserved(b) {
      assert all[0] == b && all[1..] == rest;
    } else {
      assert HexValue(all[1]) == Some(b / 16) && HexValue(all[2]) == Some(b % 16);
      assert all[3..] == rest;
    }
  }

  lemma {:induction false} UnescapeEscape(b: seq<Byte>)
    ensures Unescape(Encode(Escape(b))) == b
  {
    if b != [] {
      EncodeConcat(EscapeByte(b[0]), Escape(b[1..]));
      UnescapeEscapedByte(b[0], Encode(Escape(b[1..])));
      UnescapeEscape(b[1..]);
    }
  }

  /** Every tag survives being written into a link. */
  lemma DecodeEncodeTag(tag: string)
    ensures DecodeTag(EncodeTag(tag)) == tag
  {
    UnescapeEscape(Encode(tag));
    DecodeEncode(tag);
  }

  /** A raw tag, as links in circulation carry, is read as it stands. */
  lemma RawTagStays(tag: string)
    requires '%' !in tag
    ensures DecodeTag(tag) == tag
  {
    PercentIsAscii(tag);
    NothingToUnescape(Encode(tag));
    DecodeEncode(tag);
  }

  lemma {:induction false} PercentIsAscii(s: string)
    requires '%' !in s
    ensures '%' as int !in Encode(s)
  {
    if s != [] {
      PercentIsAscii(s[1..]);
      assert s[0] != '%';
      assert '%' as int !in EncodeChar(s[0]);
    }
  }

  lemma {:induction false} NothingToUnescape(b: seq<Byte>)
    requires '%' as int !in b
    ensures Unescape(b) == b
  {
    if b != [] {
      NothingToUnescape(b[1..]);
    }
  }

  /** A tag whose escapes do not make text is left alone: `%FF` is no character. */
  lemma BadEscapesStay(tag: string)
    ensures Decode(Unescape(Encode(tag))).None? ==> DecodeTag(tag) == tag
    ensures DecodeTag("%FF") == "%FF"
  {
    var s := "%FF";
    EncodeAscii(s);
    assert Encode(s) == ['%' as int, 'F' as int, 'F' as int] + [];
    EscapeDecodes('F' as int, 'F' as int, [], 0xFF);
    assert Unescape(Encode(s)) == [0xFF];
  }

  lemma DecodeTagOfNonEmpty(tag: string)
    requires tag != []
    ensures DecodeTag(tag) != []
  {
    assert Encode(tag) != [];
    assert Unescape(Encode(tag)) != [];
  }
}
