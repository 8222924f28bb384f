/** IPv4 addresses as text: a parser for dotted decimal and for one 32-bit integer, and the printer. */
module Ipv4 {
  import opened Text

  type Byte = x: nat | x < 256

  const TWO32: nat := 0x1_0000_0000

  datatype Address = Address(b0: Byte, b1: Byte, b2: Byte, b3: Byte)

  function Bytes(a: Address): seq<Byte>
  {
    [a.b0, a.b1, a.b2, a.b3]
  }

  function OfBytes(bytes: seq<Byte>): Address
    requires |bytes| == 4
  {
    Address(bytes[0], bytes[1], bytes[2], bytes[3])
  }

  /** The address of a 32-bit integer, most significant byte first: the integer shifted right by 24, 16, 8
      and 0 bits, each cut down to a byte. */
  function OfInteger(n: nat): Address
    requires n < TWO32
  {
    Address(n / 256 / 256 / 256, n / 256 / 256 % 256, n / 256 % 256, n % 256)
  }

  function ToInteger(a: Address): (n: nat)
    ensures n < TWO32
  {
    ((a.b0 * 256 + a.b1) * 256 + a.b2) * 256 + a.b3
  }

  /** Addresses and 32-bit integers correspond one to one. */
  lemma IntegersAreAddresses(n: nat, a: Address)
    requires n < TWO32
    ensures OfInteger(n) == a <==> n == ToInteger(a)
  {
    var x := a.b0 * 256 + a.b1;
    var y := x * 256 + a.b2;
    assert (y * 256 + a.b3) / 256 == y && (y * 256 + a.b3) % 256 == a.b3;
    assert y / 256 == x && y % 256 == a.b2;
    assert x / 256 == a.b0 && x % 256 == a.b1;
  }

  /** Decimal texts of the bytes, each behind a dot. */
  function Dotted(bytes: seq<Byte>): string
  {
    if bytes == [] then [] else ['.'] + Decimal(bytes[0]) + Dotted(bytes[1..])
  }

  /** Dotted decimal. */
  function ToString(a: Address): string
  {
    Decimal(a.b0) + Dotted(Bytes(a)[1..])
  }

  // ---------------------------------------------------------------- the printer

  const MAX_LENGTH: nat := 15

  lemma DecimalOfByte(b: Byte)
    ensures b < 10 ==> Decimal(b) == [DigitChar(b)]
    ensures 10 <= b < 100 ==> Decimal(b) == [DigitChar(b / 10), DigitChar(b % 10)]
    ensures b >= 100 ==> Decimal(b) == [DigitChar(b / 100), DigitChar(b % 100 / 10), DigitChar(b % 10)]
  {
    if b >= 100 {
      assert b / 10 / 10 == b / 100 && b / 10 % 10 == b % 100 / 10;
      assert Decimal(b) == Decimal(b / 10) + [DigitChar(b % 10)];
      assert Decimal(b / 10) == Decimal(b / 100) + [DigitChar(b / 10 % 10)];
    }
  }

  /** One byte is written at `c`; no more than three characters. */
  method WriteByte(buffer: array<char>, c: nat, b: Byte) returns (end: nat)
    requires c + 3 <= buffer.Length
    modifies buffer
    ensures c < end <= c + 3 && buffer[c..end] == Decimal(b) && buffer[..c] == old(buffer[..c])
  {
    DecimalOfByte(b);
    end := c;
    if b >= 100 {
      buffer[c], buffer[c + 1], buffer[c + 2] := DigitChar(b / 100), DigitChar(b % 100 / 10), DigitChar(b % 10);
      end := c + 3;
    } else if b >= 10 {
      buffer[c], buffer[c + 1] := DigitChar(b / 10), DigitChar(b % 10);
      end := c + 2;
    } else {
      buffer[c] := DigitChar(b);
      end := c + 1;
    }
  }

  method WriteDotted(buffer: array<char>, c: nat, b: Byte) returns (end: nat)
    requires c + 4 <= buffer.Length
    modifies buffer
    ensures c < end <= c + 4 && buffer[..end] == old(buffer[..c]) + (['.'] + Decimal(b))
  {
    ghost var written := buffer[..c];
    buffer[c] := '.';
    assert buffer[..c + 1] == written + ['.'];
    end := WriteByte(buffer, c + 1, b);
    assert buffer[..end] == buffer[..c + 1] + buffer[c + 1..end];
  }

  /** The printer fills a buffer of 15 characters and never writes beyond it. */
  method Print(a: Address) returns (s: string)
    ensures s == ToString(a)
  {
    hide Decimal;
    var buffer := new char[MAX_LENGTH];
    var bytes := Bytes(a);
    var c := WriteByte(buffer, 0, bytes[0]);
    var i := 1;
    assert bytes[1..1] == [] && Dotted([]) == [];
    while i < 4
      invariant 1 <= i <= 4 && i <= c <= 4 * i - 1
      invariant buffer[..c] == Decimal(bytes[0]) + Dotted(bytes[1..i])
    {
      DottedMore(bytes[1..i], bytes[i]);
      assert bytes[1..i + 1] == bytes[1..i] + [bytes[i]];
      c := WriteDotted(buffer, c, bytes[i]);
      i := i + 1;
    }
    assert bytes[1..4] == bytes[1..];
    s := buffer[..c];
  }

  lemma {:induction false} DottedMore(bytes: seq<Byte>, b: Byte)
    ensures Dotted(bytes + [b]) == Dotted(bytes) + (['.'] + Decimal(b))
  {
    if bytes == [] {
      assert [] + [b] == [b];
    } else {
      assert (bytes + [b])[1..] == bytes[1..] + [b];
      DottedMore(bytes[1..], b);
    }
  }

  // ---------------------------------------------------------------- the parser

  predicate DigitAt(s: string, i: nat)
  {
    i < |s| && IsDigit(s[i])
  }

  /** The end of the run of digits from `i` on. */
  function DigitsEnd(s: string, i: nat): (e: nat)
    requires i <= |s|
    ensures i <= e <= |s| && (forall k :: i <= k < e ==> IsDigit(s[k])) && !DigitAt(s, e)
    decreases |s| - i
  {
    if DigitAt(s, i) then DigitsEnd(s, i + 1) else i
  }

  /** How many of the next characters the parser takes for a byte: at most three digits. */
  function ByteLength(s: string, i: nat): (n: nat)
    requires DigitAt(s, i)
    ensures 1 <= n <= 3 && i + n <= |s| && AllDigits(s[i..i + n]) && (n < 3 ==> !DigitAt(s, i + n))
  {
    if !DigitAt(s, i + 1) then 1 else if !DigitAt(s, i + 2) then 2 else 3
  }

  /** The rest of a dotted address from `pos` on, when `parts` have been read. */
  function ParseParts(s: string, pos: nat, parts: seq<Byte>): Option<Address>
    requires pos <= |s| && |parts| <= 4
    decreases 4 - |parts|
  {
    if |parts| == 4 then if pos < |s| then None else Some(OfBytes(parts))
    else if pos + 1 >= |s| || s[pos] != '.' || !DigitAt(s, pos + 1) then None
    else if s[pos + 1] == '0' && DigitAt(s, pos + 2) then None
    else
      var n := ByteLength(s, pos + 1);
      var v := DecimalValue(s[pos + 1..pos + 1 + n]);
      if v > 255 then None else ParseParts(s, pos + 1 + n, parts + [v])
  }

  function Parse(s: string): Option<Address>
  {
    if !DigitAt(s, 0) then None
    else if s[0] == '0' && |s| > 1 && (IsDigit(s[1]) || s[1] == 'x') then None
    else
      var e := DigitsEnd(s, 0);
      var v := DecimalValue(s[..e]);
      if v >= TWO32 then None
      else if e == |s| then Some(OfInteger(v))
      else if v > 255 then None
      else ParseParts(s, e, [v])
  }

  /** The overflow check of the program is exact: the next digit is taken iff the value stays below 2^32. */
  lemma OverflowGuard(v: nat, d: nat)
    requires v < TWO32 && d < 10
    ensures v > 0xFFFF_FFFF / 10 || (v == 0xFFFF_FFFF / 10 && d > 0xFFFF_FFFF % 10) <==> v * 10 + d >= TWO32
  {
  }

  /** The first number of the text, by the loop that guards against overflow. */
  method ParseInteger(s: string) returns (pos: nat, v: nat, overflow: bool)
    requires DigitAt(s, 0)
    ensures !overflow ==> pos == DigitsEnd(s, 0) && v == DecimalValue(s[..pos]) < TWO32
    ensures overflow ==> DecimalValue(s[..DigitsEnd(s, 0)]) >= TWO32
  {
    v, pos, overflow := DigitValue(s[0]), 1, false;
    assert s[..1][..0] == [];
    while pos < |s| && IsDigit(s[pos])
      invariant 1 <= pos <= |s| && AllDigits(s[..pos]) && v == DecimalValue(s[..pos]) < TWO32
      invariant DigitsEnd(s, 0) == DigitsEnd(s, pos)
      decreases |s| - pos
    {
      var digitValue := DigitValue(s[pos]);
      DecimalOneMore(s, pos);
      OverflowGuard(v, digitValue);
      pos := pos + 1;
      if v > 0xFFFF_FFFF / 10 || (v == 0xFFFF_FFFF / 10 && digitValue > 0xFFFF_FFFF % 10) {
        overflow := true;
        var e := DigitsEnd(s, 0);
        assert s[..e][..pos] == s[..pos];
        PrefixIsLess(s[..e], pos);
        return;
      }
      v := v * 10 + digitValue;
    }
  }

  /** One byte of the dotted form. */
  method ParseByte(s: string, start: nat) returns (pos: nat, partValue: nat, ok: bool)
    requires DigitAt(s, start)
    ensures ok <==> DecimalValue(s[start..start + ByteLength(s, start)]) <= 255
    ensures ok ==> pos == start + ByteLength(s, start) && partValue == DecimalValue(s[start..pos])
  {
    ByteValues(s, start);
    pos, ok := start, true;
    partValue := DigitValue(s[pos]);
    pos := pos + 1;
    if pos < |s| && IsDigit(s[pos]) {
      partValue := partValue * 10 + DigitValue(s[pos]);
      pos := pos + 1;
      if pos < |s| && IsDigit(s[pos]) {
        partValue := partValue * 10 + DigitValue(s[pos]);
        if partValue > 255 {
          ok := false;
          return;
        }
        pos := pos + 1;
      }
    }
  }

  method FromString(s: string) returns (r: Option<Address>)
    ensures r == Parse(s)
  {
    hide DecimalValue, DigitsEnd, ParseParts, OfInteger;
    if s == [] || !IsDigit(s[0]) {
      return None;
    }
    if s[0] == '0' && |s| > 1 {
      if IsDigit(s[1]) {
        return None;
      } else if s[1] == 'x' {
        return None;
      }
    }
    var pos: nat, v, overflow := ParseInteger(s);
    if overflow {
      return None;
    }
    if pos == |s| {
      return Some(OfInteger(v));
    } else if v > 255 {
      return None;
    }
    r := FromDotted(s, pos, v);
  }

  /** The rest of the dotted form, behind its first byte. */
  method FromDotted(s: string, start: nat, v: Byte) returns (r: Option<Address>)
    requires start <= |s|
    ensures r == ParseParts(s, start, [v])
  {
    hide DecimalValue, ByteLength;
    var partValues: seq<Byte> := [v];
    var part, pos := 1, start;
    while part < 4
      invariant 1 <= part <= 4 && part == |partValues| && 0 <= pos <= |s|
      invariant ParseParts(s, pos, partValues) == ParseParts(s, start, [v])
    {
      if pos + 1 >= |s| || s[pos] != '.' || !IsDigit(s[pos + 1]) {
        return None;
      }
      pos := pos + 1;
      if pos + 1 < |s| && s[pos] == '0' && IsDigit(s[pos + 1]) {
        return None;
      }
      var partValue, ok;
      pos, partValue, ok := ParseByte(s, pos);
      if !ok {
        return None;
      }
      partValues := partValues + [partValue];
      part := part + 1;
    }
    if pos < |s| {
      return None;
    }
    return Some(OfBytes(partValues));
  }

  lemma ByteValues(s: string, i: nat)
    requires DigitAt(s, i)
    ensures DecimalValue(s[i..i + 1]) == DigitValue(s[i])
    ensures DigitAt(s, i + 1) ==> DecimalValue(s[i..i + 2]) == DigitValue(s[i]) * 10 + DigitValue(s[i + 1])
    ensures DigitAt(s, i + 1) && DigitAt(s, i + 2) ==>
              DecimalValue(s[i..i + 3]) == (DigitValue(s[i]) * 10 + DigitValue(s[i + 1])) * 10 + DigitValue(s[i + 2])
  {
    assert s[i..i + 1][..0] == [];
    if DigitAt(s, i + 1) {
      assert s[i..i + 2][..1] == s[i..i + 1];
      if DigitAt(s, i + 2) {
        assert s[i..i + 3][..2] == s[i..i + 2];
      }
    }
  }

  // ---------------------------------------------------------------- what is accepted

  /** The text of one 32-bit integer: digits without a leading zero. */
  predicate IsInteger(s: string, a: Address)
  {
    NoLeadingZero(s) && AllDigits(s) && DecimalValue(s) == ToInteger(a)
  }

  /** Behind a decimal number that no digit follows, the parser finds exactly that number. */
  lemma ByteIsFound(s: string, i: nat, b: Byte, rest: string)
    requires i <= |s| && s[i..] == Decimal(b) + rest && (rest == [] || !IsDigit(rest[0]))
    ensures DigitAt(s, i) && ByteLength(s, i) == |Decimal(b)| && s[i + |Decimal(b)|..] == rest
    ensures DecimalValue(s[i..i + |Decimal(b)|]) == b
    ensures s[i] == '0' ==> !DigitAt(s, i + 1)
  {
    DecimalOfByte(b);
    ValueOfDecimal(b);
    var n := |Decimal(b)|;
    assert forall k :: 0 <= k < |s| - i ==> s[i..][k] == s[i + k];
    assert s[i..i + n] == s[i..][..n] == Decimal(b);
    assert s[i + n..] == s[i..][n..] == rest;
  }

  lemma DottedUnfolds(bytes: seq<Byte>)
    requires bytes != []
    ensures Dotted(bytes) == ['.'] + (Decimal(bytes[0]) + Dotted(bytes[1..]))
    ensures Dotted(bytes[1..]) == [] || !IsDigit(Dotted(bytes[1..])[0])
  {
  }

  lemma BehindTheDot(s: string, pos: nat, rest: string)
    requires pos <= |s| && s[pos..] == ['.'] + rest
    ensures pos < |s| && s[pos] == '.' && s[pos + 1..] == rest
  {
    assert s[pos..][0] == s[pos] && s[pos..][1..] == s[pos + 1..];
  }

  lemma OnePartParses(s: string, pos: nat, parts: seq<Byte>, b: Byte, rest: string)
    requires pos <= |s| && |parts| < 4 && s[pos..] == ['.'] + (Decimal(b) + rest) && (rest == [] || !IsDigit(rest[0]))
    ensures var next := pos + 1 + |Decimal(b)|;
            next <= |s| && s[next..] == rest && ParseParts(s, pos, parts) == ParseParts(s, next, parts + [b])
  {
    hide Decimal, DecimalValue, ByteLength;
    BehindTheDot(s, pos, Decimal(b) + rest);
    ByteIsFound(s, pos + 1, b, rest);
  }

  lemma NothingLeft(s: string, pos: nat, parts: seq<Byte>)
    requires pos <= |s| && |parts| == 4 && s[pos..] == Dotted([])
    ensures ParseParts(s, pos, parts) == Some(OfBytes(parts))
  {
  }

  lemma {:induction false} PrintedPartsParse(s: string, pos: nat, parts: seq<Byte>, bytes: seq<Byte>)
    requires pos <= |s| && |parts| + |bytes| == 4 && s[pos..] == Dotted(bytes)
    ensures ParseParts(s, pos, parts) == Some(OfBytes(parts + bytes))
    decreases |bytes|
  {
    hide *;
    if bytes == [] {
      NothingLeft(s, pos, parts);
      assert parts + bytes == parts;
    } else {
      DottedUnfolds(bytes);
      OnePartParses(s, pos, parts, bytes[0], Dotted(bytes[1..]));
      PrintedPartsParse(s, pos + 1 + |Decimal(bytes[0])|, parts + [bytes[0]], bytes[1..]);
      assert (parts + [bytes[0]]) + bytes[1..] == parts + bytes;
    }
  }

  /** What the printer writes, the parser reads back. */
  lemma RoundTrip(a: Address)
    ensures Parse(ToString(a)) == Some(a)
  {
    var s, first, rest := ToString(a), Decimal(a.b0), Dotted(Bytes(a)[1..]);
    assert s[0..] == s;
    ByteIsFound(s, 0, a.b0, rest);
    DigitsEndIs(s, |first|);
    assert rest[0] == '.' && s[|first|] == '.';
    assert s[..|first|] == s[0..0 + |first|];
    PrintedPartsParse(s, |first|, [a.b0], Bytes(a)[1..]);
    assert [a.b0] + Bytes(a)[1..] == Bytes(a);
  }

  lemma DigitsEndIs(s: string, e: nat)
    requires e <= |s| && (forall k :: 0 <= k < e ==> DigitAt(s, k)) && !DigitAt(s, e)
    ensures DigitsEnd(s, 0) == e
  {
    assert forall k :: 0 <= k < DigitsEnd(s, 0) ==> DigitAt(s, k);
  }

  /** Digits without a leading zero are an address exactly when their value is below 2^32. */
  lemma IntegerParsesIff(s: string)
    requires NoLeadingZero(s) && AllDigits(s)
    ensures Parse(s) == if DecimalValue(s) < TWO32 then Some(OfInteger(DecimalValue(s))) else None
  {
    DigitsEndIs(s, |s|);
    assert s[..|s|] == s;
  }

  lemma {:induction false} PartsAreDotted(s: string, pos: nat, parts: seq<Byte>)
    requires pos <= |s| && |parts| <= 4 && ParseParts(s, pos, parts).Some?
    ensures parts == Bytes(ParseParts(s, pos, parts).value)[..|parts|]
    ensures s[pos..] == Dotted(Bytes(ParseParts(s, pos, parts).value)[|parts|..])
    decreases 4 - |parts|
  {
    hide Decimal, DecimalValue, ByteLength;
    var a := ParseParts(s, pos, parts).value;
    if |parts| < 4 {
      var n := ByteLength(s, pos + 1);
      PartIsPlain(s, pos, n);
      var v := DecimalValue(s[pos + 1..pos + 1 + n]);
      PartsAreDotted(s, pos + 1 + n, parts + [v]);
      LastPart(Bytes(a), parts, v);
    }
  }

  lemma PartIsPlain(s: string, pos: nat, n: nat)
    requires pos < |s| && s[pos] == '.' && DigitAt(s, pos + 1) && n == ByteLength(s, pos + 1)
    requires !(s[pos + 1] == '0' && DigitAt(s, pos + 2))
    ensures var text := s[pos + 1..pos + 1 + n];
            Decimal(DecimalValue(text)) == text && s[pos..] == ['.'] + text + s[pos + 1 + n..]
  {
    DecimalOfValue(s[pos + 1..pos + 1 + n]);
  }

  lemma LastPart(bytes: seq<Byte>, parts: seq<Byte>, v: Byte)
    requires |parts| < |bytes| && parts + [v] == bytes[..|parts| + 1]
    ensures parts == bytes[..|parts|]
    ensures Dotted(bytes[|parts|..]) == ['.'] + Decimal(v) + Dotted(bytes[|parts| + 1..])
  {
    var k := |parts|;
    assert bytes[..k + 1][k] == v && bytes[..k + 1][..k] == bytes[..k];
    assert bytes[k..][1..] == bytes[k + 1..];
  }

  lemma FirstNumberIsPlain(s: string)
    requires Parse(s).Some?
    ensures var e := DigitsEnd(s, 0);
            && 0 < e && AllDigits(s[..e]) && NoLeadingZero(s[..e]) && s == s[..e] + s[e..]
            && Decimal(DecimalValue(s[..e])) == s[..e]
  {
    hide ParseParts;
    var e := DigitsEnd(s, 0);
    assert DigitAt(s, 0);
    assert e > 1 ==> DigitAt(s, 1);
    DecimalOfValue(s[..e]);
  }

  lemma AcceptedIsPlain(s: string, a: Address)
    requires Parse(s) == Some(a)
    ensures s == ToString(a) || IsInteger(s, a)
  {
    hide ParseParts, DigitsEnd, Decimal, DecimalValue, Dotted, ToInteger, OfInteger;
    FirstNumberIsPlain(s);
    var e := DigitsEnd(s, 0);
    if e == |s| {
      assert s[..e] == s;
      IntegersAreAddresses(DecimalValue(s), a);
    } else {
      PartsAreDotted(s, e, [DecimalValue(s[..e])]);
      assert a.b0 == Bytes(a)[..1][0] == DecimalValue(s[..e]);
    }
  }

  /** The parser accepts nothing but what the printer writes and integers below 2^32 without leading zeros. */
  lemma AcceptedTexts(s: string, a: Address)
    ensures Parse(s) == Some(a) <==> s == ToString(a) || IsInteger(s, a)
  {
    hide Parse, ToString;
    if Parse(s) == Some(a) {
      AcceptedIsPlain(s, a);
    }
    if s == ToString(a) {
      RoundTrip(a);
    }
    if IsInteger(s, a) {
      IntegerParsesIff(s);
      IntegersAreAddresses(DecimalValue(s), a);
    }
  }
}
