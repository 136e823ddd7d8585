// The text frame of the Meitrack GPRS protocol, section 1.1:
//   flag, data id, length, comma block, '*', two hex digits, CR LF
// with the length counting from the first comma to the end, and the checksum
// over everything up to and including the '*'.
module GprsFrame {
  import opened Bytes
  import opened Optional

  const COMMA: Byte := 0x2c
  const STAR: Byte := 0x2a
  const CR: Byte := 0x0d
  const LF: Byte := 0x0a
  const DOLLAR: Byte := 0x24
  const AT: Byte := 0x40

  datatype Direction = Reply | Command

  datatype Frame = Frame(
    consumed: nat, direction: Direction, dataId: Byte, length: int,
    imei: seq<Byte>, commandCode: seq<Byte>, content: seq<Byte>, validChecksum: bool)

  datatype ParseResult = Incomplete | Invalid | Parsed(frame: Frame)

  // ----- checksum -----

  function Checksum(s: seq<Byte>): (c: Byte) {
    if s == [] then 0 else (Checksum(s[..|s| - 1]) + s[|s| - 1]) % 256
  }

  // The byte sum modulo 256.
  function Sum(s: seq<Byte>): nat {
    if s == [] then 0 else s[0] + Sum(s[1..])
  }

  lemma {:induction false} SumAppend(s: seq<Byte>, b: Byte)
    ensures Sum(s + [b]) == Sum(s) + b
  {
    if s != [] {
      SumAppend(s[1..], b);
      assert (s + [b])[1..] == s[1..] + [b];
    }
  }

  lemma Wrap(a: int, b: int)
    ensures (a % 256 + b) % 256 == (a + b) % 256
  {
  }

  lemma {:induction false} ChecksumIsSum(s: seq<Byte>)
    ensures Checksum(s) == Sum(s) % 256
  {
    if s != [] {
      var n := |s| - 1;
      ChecksumIsSum(s[..n]);
      SumAppend(s[..n], s[n]);
      assert s == s[..n] + [s[n]];
      Wrap(Sum(s[..n]), s[n]);
    }
  }

  // ----- numbers as JavaScript's parseInt reads them -----

  // Decoding as ASCII drops the top bit.
  function Ascii(s: seq<Byte>): (a: seq<Byte>)
    ensures |a| == |s|
  {
    seq(|s|, i requires 0 <= i < |s| => s[i] % 128)
  }

  predicate IsSpace(b: Byte) { 9 <= b <= 13 || b == 32 }

  function SkipSpaces(s: seq<Byte>): seq<Byte> {
    if s != [] && IsSpace(s[0]) then SkipSpaces(s[1..]) else s
  }

  // The value of a digit, or 99.
  function DigitOf(b: Byte): nat {
    if 48 <= b <= 57 then b - 48
    else if 65 <= b <= 90 then b - 55
    else if 97 <= b <= 122 then b - 87
    else 99
  }

  // The longest prefix of digits, from an accumulated value.
  function DigitsValue(s: seq<Byte>, radix: nat, acc: nat): nat {
    if s == [] || DigitOf(s[0]) >= radix then acc
    else DigitsValue(s[1..], radix, acc * radix + DigitOf(s[0]))
  }

  // None stands for NaN.
  function ParseInt(s: seq<Byte>, radix: nat): Option<int> {
    var t := SkipSpaces(s);
    var negative := t != [] && t[0] == 45;
    var u := if t != [] && (t[0] == 43 || t[0] == 45) then t[1..] else t;
    var v := if radix == 16 && |u| >= 2 && u[0] == 48 && (u[1] == 88 || u[1] == 120) then u[2..] else u;
    if v == [] || DigitOf(v[0]) >= radix then None
    else
      var n: int := DigitsValue(v, radix, 0);
      Some(if negative then -n else n)
  }

  // ----- what that amounts to -----

  // A digit of base 36, of either case.
  ghost predicate DigitIs(b: Byte, v: nat) {
    (v < 10 && b == '0' as int + v) || (10 <= v < 36 && (b == 'a' as int + v - 10 || b == 'A' as int + v - 10))
  }

  ghost predicate IsDigit(b: Byte, radix: nat) {
    exists v: nat :: v < radix && DigitIs(b, v)
  }

  lemma DigitOfIs(b: Byte, radix: nat)
    requires radix <= 36
    ensures DigitOf(b) < radix <==> IsDigit(b, radix)
  {
    if DigitOf(b) < radix {
      assert DigitIs(b, DigitOf(b));
    }
  }

  // White space, a sign, a prefix of hex and digits, before anything that is no digit.
  ghost predicate IsNumeral(spaces: seq<Byte>, sign: seq<Byte>, prefix: seq<Byte>, digits: seq<Byte>, rest: seq<Byte>,
                            radix: nat)
  {
    && (forall i :: 0 <= i < |spaces| ==> spaces[i] in {9, 10, 11, 12, 13, 32})
    && (sign == [] || sign == [43] || sign == [45])
    && (prefix == [] || (radix == 16 && (prefix == [48, 88] || prefix == [48, 120])))
    && (forall i :: 0 <= i < |digits| ==> IsDigit(digits[i], radix))
    && (rest != [] ==> !IsDigit(rest[0], radix))
  }

  // What was taken was the most there is: of space and sign, and of a hex prefix.
  ghost predicate TookAll(sign: seq<Byte>, prefix: seq<Byte>, digits: seq<Byte>, rest: seq<Byte>, radix: nat) {
    && (sign == [] && prefix == [] && digits == [] && rest != [] ==> rest[0] !in {9, 10, 11, 12, 13, 32, 43, 45})
    && (radix == 16 && prefix == [] && digits == [48] && rest != [] ==> rest[0] != 88 && rest[0] != 120)
  }

  lemma {:induction false} SkipsSpaces(spaces: seq<Byte>, t: seq<Byte>)
    requires forall i :: 0 <= i < |spaces| ==> spaces[i] in {9, 10, 11, 12, 13, 32}
    requires t != [] ==> t[0] !in {9, 10, 11, 12, 13, 32}
    ensures SkipSpaces(spaces + t) == t
  {
    if spaces == [] {
      assert spaces + t == t;
    } else {
      assert (spaces + t)[1..] == spaces[1..] + t;
      SkipsSpaces(spaces[1..], t);
    }
  }

  lemma {:induction false} ValueOfDigits(digits: seq<Byte>, rest: seq<Byte>, radix: nat, acc: nat)
    requires radix <= 36 && forall i :: 0 <= i < |digits| ==> IsDigit(digits[i], radix)
    requires rest != [] ==> !IsDigit(rest[0], radix)
    ensures DigitsValue(digits + rest, radix, acc) == DigitsValue(digits, radix, acc)
  {
    hide DigitOf, IsDigit;
    if digits == [] {
      assert digits + rest == rest;
      if rest != [] {
        DigitOfIs(rest[0], radix);
      }
    } else {
      DigitOfIs(digits[0], radix);
      assert (digits + rest)[1..] == digits[1..] + rest;
      ValueOfDigits(digits[1..], rest, radix, acc * radix + DigitOf(digits[0]));
    }
  }

  // Every text is read as the number that its digits are, or as none where it has
  // none.
  lemma ParseIntExactly(spaces: seq<Byte>, sign: seq<Byte>, prefix: seq<Byte>, digits: seq<Byte>, rest: seq<Byte>,
                        radix: nat)
    requires 0 < radix <= 36
    requires IsNumeral(spaces, sign, prefix, digits, rest, radix) && TookAll(sign, prefix, digits, rest, radix)
    ensures var n: int := DigitsValue(digits, radix, 0);
            ParseInt(spaces + (sign + (prefix + (digits + rest))), radix) ==
            if digits == [] then None else Some(if sign == [45] then -n else n)
  {
    var v := digits + rest;
    var u := prefix + v;
    var t := sign + u;
    StartsWell(sign, prefix, digits, rest, radix);
    SkipsSpaces(spaces, t);
    ValueOfDigits(digits, rest, radix, 0);
    FirstDigit(digits, rest, radix);
    hide DigitOf, DigitsValue, IsDigit, SkipSpaces;
    assert sign != [] ==> t[1..] == u && t[0] == sign[0];
    assert prefix != [] ==> u[2..] == v && u[0] == 48 && u[1] == prefix[1];
    assert sign == [] ==> t == u;
    assert prefix == [] ==> u == v;
    ParseIntIs(spaces + t, t, u, v, sign, prefix, radix);
  }

  lemma ParseIntIs(text: seq<Byte>, t: seq<Byte>, u: seq<Byte>, v: seq<Byte>, sign: seq<Byte>, prefix: seq<Byte>,
                   radix: nat)
    requires SkipSpaces(text) == t
    requires if sign == [] then u == t && (t == [] || (t[0] != 43 && t[0] != 45))
             else t != [] && u == t[1..] && [t[0]] == sign && t[0] in {43, 45}
    requires if prefix == [] then v == u && (radix == 16 && |u| >= 2 && u[0] == 48 ==> u[1] != 88 && u[1] != 120)
             else radix == 16 && |u| >= 2 && v == u[2..] && u[0] == 48 && u[1] in {88, 120}
    ensures var n: int := DigitsValue(v, radix, 0);
            ParseInt(text, radix) == if v == [] || DigitOf(v[0]) >= radix then None
                                     else Some(if sign == [45] then -n else n)
  {
    hide DigitOf, DigitsValue, SkipSpaces;
  }

  lemma StartsWell(sign: seq<Byte>, prefix: seq<Byte>, digits: seq<Byte>, rest: seq<Byte>, radix: nat)
    requires 0 < radix <= 36
    requires IsNumeral([], sign, prefix, digits, rest, radix) && TookAll(sign, prefix, digits, rest, radix)
    ensures var u := prefix + (digits + rest);
            var t := sign + u;
            && (t != [] ==> t[0] !in {9, 10, 11, 12, 13, 32})
            && (sign == [] && t != [] ==> t[0] != 43 && t[0] != 45)
            && (radix == 16 && prefix == [] && |u| >= 2 && u[0] == 48 ==> u[1] != 88 && u[1] != 120)
  {
    if digits != [] {
      DigitOfIs(digits[0], radix);
    }
    if |digits| >= 2 {
      DigitOfIs(digits[1], radix);
    }
    if radix == 16 && digits == [] && rest != [] && prefix == [] {
      DigitOfIs(rest[0], radix);
    }
    hide IsDigit;
  }

  lemma FirstDigit(digits: seq<Byte>, rest: seq<Byte>, radix: nat)
    requires radix <= 36 && forall i :: 0 <= i < |digits| ==> IsDigit(digits[i], radix)
    requires rest != [] ==> !IsDigit(rest[0], radix)
    ensures var v := digits + rest;
            v == [] || DigitOf(v[0]) >= radix <==> digits == []
  {
    if digits + rest != [] {
      DigitOfIs((digits + rest)[0], radix);
    }
  }

  // ----- parse -----

  function Before(s: seq<Byte>, b: Byte): seq<Byte> {
    var i := IndexOf(s, b, 0);
    if i == -1 then s else s[..i]
  }

  function After(s: seq<Byte>, b: Byte): seq<Byte> {
    var i := IndexOf(s, b, 0);
    if i == -1 then [] else s[i + 1..]
  }

  function Parse(buf: seq<Byte>): ParseResult {
    if |buf| < 2 then Incomplete
    else if !(buf[0] == DOLLAR && buf[1] == DOLLAR) && !(buf[0] == AT && buf[1] == AT) then Invalid
    else
      var comma := IndexOf(buf, COMMA, 2);
      if comma == -1 then (if |buf| > 16 then Invalid else Incomplete)
      else if comma < 4 then Invalid
      else
        var length := ParseInt(Ascii(buf[3..comma]), 10);
        if length.None? || length.value < 4 then Invalid
        else
          var end := comma + length.value;
          if |buf| < end then (if end > 65536 then Invalid else Incomplete)
          else if buf[end - 2] != CR || buf[end - 1] != LF || buf[end - 5] != STAR then Invalid
          else ParseBody(buf, comma, end, length.value)
  }

  // The fields of a frame that ends at end.
  function ParseBody(buf: seq<Byte>, comma: nat, end: nat, length: int): ParseResult
    requires 4 <= comma && comma + 4 <= end <= |buf|
  {
    var body := buf[2..end - 5];
    if IndexOf(body, COMMA, 0) < 2 then Invalid
    else
      var rest := After(body, COMMA);
      var remainder := After(rest, COMMA);
      Parsed(Frame(
        end, if buf[0] == DOLLAR then Reply else Command, buf[2], length,
        Before(rest, COMMA), Before(remainder, COMMA), After(remainder, COMMA),
        ParseInt(Ascii(buf[end - 4..end - 2]), 16) == Some(Checksum(buf[..end - 4]))))
  }

  // ----- build -----

  function Decimal(n: nat): (s: seq<Byte>)
    ensures |s| >= 1 && forall i :: 0 <= i < |s| ==> 48 <= s[i] <= 57
  {
    if n < 10 then [48 + n] else Decimal(n / 10) + [48 + n % 10]
  }

  function HexDigit(n: nat): (b: Byte)
    requires n < 16
    ensures DigitOf(b) == n && b < 128 && !IsSpace(b) && b != 43 && b != 45 && b != 88 && b != 120
  {
    if n < 10 then 48 + n else 55 + n
  }

  function Hex2(c: Byte): seq<Byte> { [HexDigit(c / 16), HexDigit(c % 16)] }

  function Flag(d: Direction): Byte { if d.Reply? then DOLLAR else AT }

  function Head(d: Direction, dataId: Byte, commaBlock: seq<Byte>): seq<Byte> {
    [Flag(d), Flag(d), dataId] + Decimal(|commaBlock| + 5)
  }

  // The frame around a comma block.
  function Seal(d: Direction, dataId: Byte, commaBlock: seq<Byte>): seq<Byte> {
    var region := Head(d, dataId, commaBlock) + commaBlock + [STAR];
    region + Hex2(Checksum(region)) + [CR, LF]
  }

  function TextBlock(imei: seq<Byte>, code: seq<Byte>, content: seq<Byte>): seq<Byte> {
    [COMMA] + imei + [COMMA] + code + (if content == [] then [] else [COMMA] + content)
  }

  function BinaryBlock(imei: seq<Byte>, code: seq<Byte>, body: seq<Byte>): seq<Byte> {
    [COMMA] + imei + [COMMA] + code + [COMMA] + body
  }

  // buildGprsCommand and buildGprsReply.
  function BuildText(d: Direction, imei: seq<Byte>, code: seq<Byte>, content: seq<Byte>, dataId: Byte): seq<Byte> {
    Seal(d, dataId, TextBlock(imei, code, content))
  }

  // buildGprsBinaryReply.
  function BuildBinary(imei: seq<Byte>, code: seq<Byte>, body: seq<Byte>, dataId: Byte): seq<Byte> {
    Seal(Reply, dataId, BinaryBlock(imei, code, body))
  }

  // ----- numbers round trip -----

  lemma {:induction false} DigitsValueAppend(s: seq<Byte>, d: Byte, radix: nat, acc: nat)
    requires forall i :: 0 <= i < |s| ==> DigitOf(s[i]) < radix
    requires DigitOf(d) < radix
    ensures DigitsValue(s + [d], radix, acc) == DigitsValue(s, radix, acc) * radix + DigitOf(d)
  {
    if s == [] {
      assert [d][1..] == [];
    } else {
      DigitsValueAppend(s[1..], d, radix, acc * radix + DigitOf(s[0]));
      assert (s + [d])[1..] == s[1..] + [d];
    }
  }

  lemma {:induction false} DecimalValue(n: nat)
    ensures DigitsValue(Decimal(n), 10, 0) == n
  {
    if n >= 10 {
      DecimalValue(n / 10);
      DigitsValueAppend(Decimal(n / 10), 48 + n % 10, 10, 0);
    }
  }

  lemma DecimalRoundTrip(n: nat)
    ensures ParseInt(Ascii(Decimal(n)), 10) == Some(n)
  {
    hide Decimal;
    DecimalValue(n);
    var s := Decimal(n);
    assert Ascii(s) == s;
    assert SkipSpaces(s) == s;
  }

  lemma HexRoundTrip(c: Byte)
    ensures ParseInt(Ascii(Hex2(c)), 16) == Some(c)
  {
    var hi, lo := HexDigit(c / 16), HexDigit(c % 16);
    var s := [hi, lo];
    assert Ascii(s) == s;
    assert s[1..] == [lo] && [lo][1..] == [];
    assert SkipSpaces(s) == s;
    assert DigitsValue(s, 16, 0) == DigitsValue([lo], 16, c / 16) == c;
  }

  // ----- the frame round trip -----

  lemma FirstAt(s: seq<Byte>, b: Byte, from: nat, i: nat)
    requires from <= i < |s| && s[i] == b && forall k :: from <= k < i ==> s[k] != b
    ensures IndexOf(s, b, from) == i
  {
  }

  // Where the parts of a sealed frame are.
  lemma SealLayout(d: Direction, dataId: Byte, block: seq<Byte>, rest: seq<Byte>)
    requires block != [] && block[0] == COMMA && dataId != COMMA
    ensures var digits, f := Decimal(|block| + 5), Seal(d, dataId, block);
            var buf, comma, end := f + rest, 3 + |digits|, |f|;
            && end == comma + |block| + 5
            && buf[0] == Flag(d) && buf[1] == Flag(d) && buf[2] == dataId
            && buf[3..comma] == digits && IndexOf(buf, COMMA, 2) == comma
            && buf[2..end - 5] == [dataId] + digits + block
            && buf[end - 5] == STAR && buf[end - 2] == CR && buf[end - 1] == LF
            && buf[..end - 4] == Head(d, dataId, block) + block + [STAR]
            && buf[end - 4..end - 2] == Hex2(Checksum(buf[..end - 4]))
  {
    hide Decimal, Checksum, Hex2;
    var digits, f := Decimal(|block| + 5), Seal(d, dataId, block);
    var region := Head(d, dataId, block) + block + [STAR];
    var buf, comma := f + rest, 3 + |digits|;
    HexLength(Checksum(region));
    assert buf[..|region|] == region;
    assert buf[3..comma] == digits;
    assert buf[comma] == COMMA;
    forall k | 2 <= k < comma ensures buf[k] != COMMA {
      assert k >= 3 ==> buf[k] == digits[k - 3];
    }
    FirstAt(buf, COMMA, 2, comma);
  }

  lemma SealSize(d: Direction, dataId: Byte, block: seq<Byte>)
    ensures |Seal(d, dataId, block)| == |Decimal(|block| + 5)| + |block| + 8
  {
    hide Decimal, Checksum, Hex2;
    HexLength(Checksum(Head(d, dataId, block) + block + [STAR]));
  }

  lemma HexLength(c: Byte)
    ensures |Hex2(c)| == 2
  {
  }

  // What a sealed block parses to, whatever follows it.
  lemma SealParses(d: Direction, dataId: Byte, block: seq<Byte>, rest: seq<Byte>)
    requires block != [] && block[0] == COMMA && dataId != COMMA
    ensures var f, fields := Seal(d, dataId, block), block[1..];
            Parse(f + rest) == Parsed(Frame(
              |f|, d, dataId, |block| + 5, Before(fields, COMMA), Before(After(fields, COMMA), COMMA),
              After(After(fields, COMMA), COMMA), true))
  {
    hide Seal, Parse, ParseBody, Before, After;
    SealHead(d, dataId, block, rest);
    SealBody(d, dataId, block, rest);
  }

  lemma SealBody(d: Direction, dataId: Byte, block: seq<Byte>, rest: seq<Byte>)
    requires block != [] && block[0] == COMMA && dataId != COMMA
    requires |Seal(d, dataId, block)| - |block| - 5 >= 4
    ensures var f, fields := Seal(d, dataId, block), block[1..];
            ParseBody(f + rest, |f| - |block| - 5, |f|, |block| + 5) == Parsed(Frame(
              |f|, d, dataId, |block| + 5, Before(fields, COMMA), Before(After(fields, COMMA), COMMA),
              After(After(fields, COMMA), COMMA), true))
  {
    hide Decimal, Checksum, Hex2, Seal, ParseInt, Ascii, Before, After, Head;
    var digits, f := Decimal(|block| + 5), Seal(d, dataId, block);
    var buf, end := f + rest, |f|;
    SealLayout(d, dataId, block, rest);
    HexRoundTrip(Checksum(buf[..end - 4]));
    BodyFields(dataId, digits, block);
  }

  // The framing of a sealed block is accepted.
  lemma SealHead(d: Direction, dataId: Byte, block: seq<Byte>, rest: seq<Byte>)
    requires block != [] && block[0] == COMMA && dataId != COMMA
    ensures var f := Seal(d, dataId, block);
            |f| - |block| - 5 >= 4 && Parse(f + rest) == ParseBody(f + rest, |f| - |block| - 5, |f|, |block| + 5)
  {
    hide Decimal, Checksum, Hex2, Seal, ParseInt, Ascii, ParseBody;
    SealLayout(d, dataId, block, rest);
    DecimalRoundTrip(|block| + 5);
  }

  lemma BodyFields(dataId: Byte, digits: seq<Byte>, block: seq<Byte>)
    requires block != [] && block[0] == COMMA && dataId != COMMA
    requires |digits| >= 1 && forall i :: 0 <= i < |digits| ==> digits[i] != COMMA
    ensures var body := [dataId] + digits + block;
            IndexOf(body, COMMA, 0) >= 2 && After(body, COMMA) == block[1..]
  {
    var body := [dataId] + digits + block;
    forall k | 0 <= k < 1 + |digits| ensures body[k] != COMMA {
      assert k >= 1 ==> body[k] == digits[k - 1];
    }
    assert body[1 + |digits|] == COMMA;
    FirstAt(body, COMMA, 0, 1 + |digits|);
    assert body[1 + |digits| + 1..] == block[1..];
  }

  lemma SplitAtComma(head: seq<Byte>, tail: seq<Byte>)
    ensures Before(head + [COMMA] + tail, COMMA) == head <==> COMMA !in head
    ensures COMMA !in head ==> After(head + [COMMA] + tail, COMMA) == tail
  {
    var s := head + [COMMA] + tail;
    assert s[|head|] == COMMA;
    if COMMA in head {
      var k :| 0 <= k < |head| && head[k] == COMMA;
      assert s[k] == COMMA;
      assert IndexOf(s, COMMA, 0) <= k;
    } else {
      FirstAt(s, COMMA, 0, |head|);
      assert s[..|head|] == head && s[|head| + 1..] == tail;
    }
  }

  lemma NoComma(s: seq<Byte>)
    ensures Before(s, COMMA) == s <==> COMMA !in s
    ensures COMMA !in s ==> After(s, COMMA) == []
  {
    var i := IndexOf(s, COMMA, 0);
    if COMMA in s {
      var k :| 0 <= k < |s| && s[k] == COMMA;
      assert i != -1 && |s[..i]| < |s|;
    }
  }

  lemma {:induction false} NoLeadingZero(n: nat)
    ensures Decimal(n)[0] == 48 ==> n == 0
  {
    if n >= 10 {
      NoLeadingZero(n / 10);
    }
  }

  // A byte in two upper-case hex digits.
  ghost predicate InHex(hex: seq<Byte>, c: nat) {
    && |hex| == 2 && c < 256
    && hex[0] == "0123456789ABCDEF"[c / 16] as int && hex[1] == "0123456789ABCDEF"[c % 16] as int
  }

  lemma HexDigitIs(n: nat)
    requires n < 16
    ensures HexDigit(n) == "0123456789ABCDEF"[n] as int
  {
  }

  lemma HexIs(c: Byte)
    ensures InHex(Hex2(c), c)
  {
    HexDigitIs(c / 16);
    HexDigitIs(c % 16);
  }

  // The bytes of every frame: two flags and the data id; the length as a decimal
  // number, from the comma to the end; the comma block and a star; the byte sum of
  // all that in two upper-case hex digits; CR and LF.
  lemma SealExactly(d: Direction, dataId: Byte, block: seq<Byte>)
    returns (digits: seq<Byte>, region: seq<Byte>, hex: seq<Byte>)
    ensures Seal(d, dataId, block) == region + hex + [13, 10]
    ensures var flag: Byte := if d == Reply then 36 else 64;
            region == [flag, flag, dataId] + digits + block + [42]
    ensures DigitsValue(digits, 10, 0) == |block| + 5
    ensures digits != [] && digits[0] != 48 && forall i :: 0 <= i < |digits| ==> '0' as int <= digits[i] <= '9' as int
    ensures InHex(hex, Sum(region) % 256)
  {
    digits := Decimal(|block| + 5);
    region := Head(d, dataId, block) + block + [STAR];
    hex := Hex2(Checksum(region));
    DecimalValue(|block| + 5);
    NoLeadingZero(|block| + 5);
    ChecksumIsSum(region);
    HexIs(Checksum(region));
    hide Decimal, Sum, Checksum, DigitsValue, Hex2, InHex;
  }

  ghost predicate Carries(r: ParseResult, d: Direction, imei: seq<Byte>, code: seq<Byte>, content: seq<Byte>,
                          dataId: Byte, size: nat)
  {
    && r.Parsed? && r.frame.direction == d && r.frame.dataId == dataId && r.frame.consumed == size
    && r.frame.imei == imei && r.frame.commandCode == code && r.frame.content == content
    && r.frame.validChecksum
  }

  // A comma for data id is taken by the builder and never by the parser.
  lemma CommaDataId(d: Direction, block: seq<Byte>, rest: seq<Byte>, k: nat)
    requires k <= |Seal(d, COMMA, block) + rest|
    ensures Parse((Seal(d, COMMA, block) + rest)[..k]) == if k <= 2 then Incomplete else Invalid
  {
    hide Decimal, Checksum, Hex2;
    var p := (Seal(d, COMMA, block) + rest)[..k];
    if k > 2 {
      assert p[2] == COMMA;
      assert IndexOf(p, COMMA, 2) == 2;
    }
  }

  // A text frame comes back with all its parts exactly when data id, IMEI and
  // command hold no comma; the content may hold anything.
  lemma TextRoundTrip(d: Direction, imei: seq<Byte>, code: seq<Byte>, content: seq<Byte>, dataId: Byte, rest: seq<Byte>)
    ensures var f := BuildText(d, imei, code, content, dataId);
            Carries(Parse(f + rest), d, imei, code, content, dataId, |f|) <==>
            dataId != COMMA && COMMA !in imei && COMMA !in code
  {
    hide Parse, Seal, Before, After;
    var block := TextBlock(imei, code, content);
    if dataId == COMMA {
      var buf := Seal(d, dataId, block) + rest;
      CommaDataId(d, block, rest, |buf|);
      assert buf[..|buf|] == buf;
      return;
    }
    SealParses(d, dataId, block, rest);
    var tail := code + (if content == [] then [] else [COMMA] + content);
    assert block[1..] == imei + [COMMA] + tail;
    SplitAtComma(imei, tail);
    if content == [] {
      assert tail == code;
      NoComma(code);
    } else {
      assert tail == code + [COMMA] + content;
      SplitAtComma(code, content);
    }
  }

  lemma BinaryRoundTrip(imei: seq<Byte>, code: seq<Byte>, body: seq<Byte>, dataId: Byte, rest: seq<Byte>)
    ensures var f := BuildBinary(imei, code, body, dataId);
            Carries(Parse(f + rest), Reply, imei, code, body, dataId, |f|) <==>
            dataId != COMMA && COMMA !in imei && COMMA !in code
  {
    hide Parse, Seal, Before, After;
    var block := BinaryBlock(imei, code, body);
    if dataId == COMMA {
      var buf := Seal(Reply, dataId, block) + rest;
      CommaDataId(Reply, block, rest, |buf|);
      assert buf[..|buf|] == buf;
      return;
    }
    SealParses(Reply, dataId, block, rest);
    assert block[1..] == imei + [COMMA] + (code + [COMMA] + body);
    SplitAtComma(imei, code + [COMMA] + body);
    SplitAtComma(code, body);
  }

  // ----- every buffer -----

  // Up to the first comma behind the flags.
  ghost predicate FirstComma(buf: seq<Byte>, c: nat) {
    2 <= c < |buf| && buf[c] == 44 && forall k :: 2 <= k < c ==> buf[k] != 44
  }

  ghost predicate SevenBits(text: seq<Byte>, s: seq<Byte>) {
    |text| == |s| && forall i :: 0 <= i < |s| ==> text[i] == s[i] % 128
  }

  // Cut at the first two commas.
  ghost predicate CutInto(fields: seq<Byte>, imei: seq<Byte>, code: seq<Byte>, content: seq<Byte>) {
    && 44 !in imei && 44 !in code
    && (|| (fields == imei && code == [] && content == [])
        || (fields == imei + [44] + code && content == [])
        || fields == imei + [44] + code + [44] + content)
  }

  lemma NoFrame(buf: seq<Byte>)
    ensures |buf| < 2 ==> Parse(buf) == Incomplete
    ensures |buf| >= 2 && buf[..2] != [36, 36] && buf[..2] != [64, 64] ==> Parse(buf) == Invalid
    ensures |buf| >= 2 && (buf[..2] == [36, 36] || buf[..2] == [64, 64])
            && (forall k :: 2 <= k < |buf| ==> buf[k] != 44) ==>
              Parse(buf) == if |buf| > 16 then Invalid else Incomplete
  {
    hide ParseInt, ParseBody;
    if |buf| >= 2 {
      assert buf[..2] == [buf[0], buf[1]];
    }
  }

  // With a comma: what is between data id and comma is the length, counted from the
  // comma; the frame it bounds ends in a star, two digits, CR and LF; and what is
  // between comma and star are the fields.
  ghost predicate FrameIs(buf: seq<Byte>, c: nat, length: Option<int>, sum: Option<int>, r: ParseResult)
    requires FirstComma(buf, c)
  {
    if c < 4 || length.None? || length.value < 4 then r == Invalid
    else
      var end := c + length.value;
      if |buf| < end then r == if end > 65536 then Invalid else Incomplete
      else if buf[end - 5] != 42 || buf[end - 2..end] != [13, 10] || end - 5 <= c then r == Invalid
      else
        && r.Parsed? && CutInto(buf[c + 1..end - 5], r.frame.imei, r.frame.commandCode, r.frame.content)
        && r.frame.consumed == end && r.frame.length == length.value && r.frame.dataId == buf[2]
        && (r.frame.direction == Reply <==> buf[0] == 36)
        && (r.frame.validChecksum <==> sum == Some(Sum(buf[..end - 4]) % 256))
  }

  lemma ParseFrom(buf: seq<Byte>, c: nat)
    requires FirstComma(buf, c) && (buf[..2] == [36, 36] || buf[..2] == [64, 64])
    ensures Parse(buf) ==
            if c < 4 then Invalid
            else
              var length := ParseInt(Ascii(buf[3..c]), 10);
              if length.None? || length.value < 4 then Invalid
              else
                var end := c + length.value;
                if |buf| < end then (if end > 65536 then Invalid else Incomplete)
                else if buf[end - 2] != 13 || buf[end - 1] != 10 || buf[end - 5] != 42 then Invalid
                else ParseBody(buf, c, end, length.value)
  {
    FirstAt(buf, COMMA, 2, c);
    assert buf[..2] == [buf[0], buf[1]];
    hide ParseInt, Ascii, ParseBody, IndexOf;
  }

  lemma FrameExactly(buf: seq<Byte>, c: nat, text: seq<Byte>, hex: seq<Byte>)
    requires FirstComma(buf, c) && (buf[..2] == [36, 36] || buf[..2] == [64, 64])
    requires c >= 4 ==> SevenBits(text, buf[3..c])
    requires c >= 4 && ParseInt(text, 10).Some? ==>
               var end := c + ParseInt(text, 10).value; 4 <= end <= |buf| ==> SevenBits(hex, buf[end - 4..end - 2])
    ensures FrameIs(buf, c, ParseInt(text, 10), ParseInt(hex, 16), Parse(buf))
  {
    ParseFrom(buf, c);
    hide Parse, ParseInt, ParseBody;
    if c >= 4 {
      assert Ascii(buf[3..c]) == text;
      var length := ParseInt(text, 10);
      if length.Some? && length.value >= 4 && c + length.value <= |buf| {
        var end := c + length.value;
        assert buf[end - 2..end] == [buf[end - 2], buf[end - 1]];
        assert Ascii(buf[end - 4..end - 2]) == hex;
        BodyExactly(buf, c, end, length.value);
      }
    }
    hide Ascii, Sum, CutInto;
  }

  lemma BodyExactly(buf: seq<Byte>, c: nat, end: nat, length: int)
    requires FirstComma(buf, c) && 4 <= c && c + 4 <= end <= |buf|
    ensures var r := ParseBody(buf, c, end, length);
            if end - 5 <= c then r == Invalid
            else
              && r.Parsed? && CutInto(buf[c + 1..end - 5], r.frame.imei, r.frame.commandCode, r.frame.content)
              && r.frame.consumed == end && r.frame.length == length && r.frame.dataId == buf[2]
              && (r.frame.direction == Reply <==> buf[0] == 36)
              && (r.frame.validChecksum <==>
                  ParseInt(Ascii(buf[end - 4..end - 2]), 16) == Some(Sum(buf[..end - 4]) % 256))
  {
    var body := buf[2..end - 5];
    ChecksumIsSum(buf[..end - 4]);
    if end - 5 <= c {
      assert forall k :: 0 <= k < |body| ==> body[k] == buf[k + 2] != 44;
    } else {
      FirstAt(body, COMMA, 0, c - 2);
      assert After(body, COMMA) == buf[c + 1..end - 5];
      CutsIn(buf[c + 1..end - 5]);
    }
    hide ParseInt, Ascii, Sum, Checksum, Before, After, CutInto;
  }

  lemma CutsIn(fields: seq<Byte>)
    ensures var rest := After(fields, COMMA);
            CutInto(fields, Before(fields, COMMA), Before(rest, COMMA), After(rest, COMMA))
  {
    CutOne(fields);
    CutOne(After(fields, COMMA));
    hide Before, After;
  }

  lemma CutOne(s: seq<Byte>)
    ensures COMMA !in Before(s, COMMA)
    ensures if COMMA in s then s == Before(s, COMMA) + [COMMA] + After(s, COMMA)
            else s == Before(s, COMMA) && After(s, COMMA) == []
  {
  }

  // ----- partial frames -----

  // A proper prefix of a frame waits for more as long as the frame is at most
  // 65536 bytes or its length is not read yet, and not after 16 bytes; with a comma
  // for data id not after two.
  lemma PrefixVerdict(d: Direction, dataId: Byte, block: seq<Byte>, k: nat)
    requires block != [] && block[0] == COMMA
    requires k < |Seal(d, dataId, block)|
    ensures var f, comma := Seal(d, dataId, block), 3 + |Decimal(|block| + 5)|;
            Parse(f[..k]) == (if dataId == COMMA then (if k <= 2 then Incomplete else Invalid)
                              else if k <= comma then (if k <= 16 then Incomplete else Invalid)
                              else if |f| <= 65536 then Incomplete else Invalid)
  {
    hide Decimal, Seal, Parse;
    assert Seal(d, dataId, block) + [] == Seal(d, dataId, block);
    if dataId == COMMA {
      CommaDataId(d, block, [], k);
    } else if k <= 3 + |Decimal(|block| + 5)| {
      HeadPrefix(d, dataId, block, k);
    } else {
      LongPrefix(d, dataId, block, k);
    }
  }

  lemma HeadPrefix(d: Direction, dataId: Byte, block: seq<Byte>, k: nat)
    requires block != [] && block[0] == COMMA && dataId != COMMA
    requires k < |Seal(d, dataId, block)| && k <= 3 + |Decimal(|block| + 5)|
    ensures Parse(Seal(d, dataId, block)[..k]) == if k <= 16 then Incomplete else Invalid
  {
    hide Decimal, Seal, ParseInt, Ascii, ParseBody, Checksum, Hex2, Head;
    var f := Seal(d, dataId, block);
    var p := f[..k];
    assert f + [] == f;
    SealLayout(d, dataId, block, []);
    assert forall j :: 2 <= j < k ==> p[j] == f[j] != COMMA;
  }

  lemma LongPrefix(d: Direction, dataId: Byte, block: seq<Byte>, k: nat)
    requires block != [] && block[0] == COMMA && dataId != COMMA
    requires 3 + |Decimal(|block| + 5)| < k < |Seal(d, dataId, block)|
    ensures Parse(Seal(d, dataId, block)[..k]) == if |Seal(d, dataId, block)| <= 65536 then Incomplete else Invalid
  {
    hide Decimal, Seal, ParseInt, Ascii, ParseBody, Checksum, Hex2, Head;
    var digits, f := Decimal(|block| + 5), Seal(d, dataId, block);
    var p, comma := f[..k], 3 + |digits|;
    assert f + [] == f;
    SealLayout(d, dataId, block, []);
    assert p[3..comma] == digits;
    FirstAt(p, COMMA, 2, comma);
    DecimalRoundTrip(|block| + 5);
  }

  lemma {:induction false} DecimalLength(n: nat, bound: nat, digits: nat)
    requires 1 <= digits && n < bound && bound == Power10(digits)
    ensures |Decimal(n)| <= digits
  {
    if n >= 10 {
      DecimalLength(n / 10, bound / 10, digits - 1);
    }
  }

  function Power10(n: nat): nat { if n == 0 then 1 else 10 * Power10(n - 1) }

  // So a frame of up to 65536 bytes is waited for, unless its data id is a comma.
  lemma ShortFrameWaits(d: Direction, dataId: Byte, block: seq<Byte>, k: nat)
    requires block != [] && block[0] == COMMA
    requires k < |Seal(d, dataId, block)| <= 65536
    ensures Parse(Seal(d, dataId, block)[..k]) == Incomplete <==> dataId != COMMA || k <= 2
  {
    hide Decimal, Seal, Parse, Checksum, Hex2;
    PrefixVerdict(d, dataId, block, k);
    SealSize(d, dataId, block);
    assert Power10(5) == 100000;
    DecimalLength(|block| + 5, 100000, 5);
  }

  // A parsed frame is decided by its own bytes.
  lemma ParseStable(buf: seq<Byte>, more: seq<Byte>)
    requires Parse(buf).Parsed?
    ensures Parse(buf + more) == Parse(buf)
  {
    hide ParseInt, Ascii, Before, After, Checksum;
    var all := buf + more;
    var comma := IndexOf(buf, COMMA, 2);
    FirstAt(all, COMMA, 2, comma);
    assert all[3..comma] == buf[3..comma];
    var end := Parse(buf).frame.consumed;
    assert all[2..end - 5] == buf[2..end - 5];
    assert all[end - 4..end - 2] == buf[end - 4..end - 2] && all[..end - 4] == buf[..end - 4];
  }

  // ----- corruption -----

  lemma {:induction false} SumUpdate(s: seq<Byte>, i: nat, v: Byte)
    requires i < |s|
    ensures Sum(s[i := v]) == Sum(s) + v - s[i]
  {
    var t := s[i := v];
    if i == 0 {
      assert t[1..] == s[1..];
    } else {
      SumUpdate(s[1..], i - 1, v);
      assert t[1..] == s[1..][i - 1 := v];
    }
  }

  lemma ChecksumUpdate(s: seq<Byte>, i: nat, v: Byte)
    requires i < |s|
    ensures Checksum(s[i := v]) == (Checksum(s) + v - s[i]) % 256
  {
    ChecksumIsSum(s);
    ChecksumIsSum(s[i := v]);
    SumUpdate(s, i, v);
    Wrap(Sum(s), v - s[i]);
  }

  // One wrong byte between the first comma and the '*' keeps the framing, and
  // the checksum finds it.
  lemma OneByteDetected(buf: seq<Byte>, i: nat, v: Byte)
    requires Parse(buf).Parsed? && Parse(buf).frame.validChecksum
    requires IndexOf(buf, COMMA, 2) < i < Parse(buf).frame.consumed - 5 && v != buf[i]
    ensures var r, f := Parse(buf[i := v]), Parse(buf).frame;
            && r.Parsed? && !r.frame.validChecksum
            && r.frame.consumed == f.consumed && r.frame.direction == f.direction
            && r.frame.dataId == f.dataId && r.frame.length == f.length
  {
    hide ParseInt, Ascii, Before, After, Checksum;
    var bad := buf[i := v];
    var comma, end := IndexOf(buf, COMMA, 2), Parse(buf).frame.consumed;
    FirstAt(bad, COMMA, 2, comma);
    assert bad[3..comma] == buf[3..comma];
    assert bad[end - 4..end - 2] == buf[end - 4..end - 2];
    assert bad[..end - 4] == buf[..end - 4][i := v];
    ChecksumUpdate(buf[..end - 4], i, v);
    var body := bad[2..end - 5];
    assert body[comma - 2] == COMMA;
    assert IndexOf(body, COMMA, 0) >= 2 by {
      assert IndexOf(buf[2..end - 5], COMMA, 0) >= 2;
      assert forall k :: 0 <= k < 2 ==> body[k] == buf[2..end - 5][k];
    }
  }

  // ----- the loop of the program -----

  method GprsChecksum(buf: seq<Byte>) returns (sum: Byte)
    ensures sum == Checksum(buf)
  {
    sum := 0;
    for i := 0 to |buf|
      invariant sum == Checksum(buf[..i])
    {
      sum := (sum + buf[i]) % 256;
      assert buf[..i + 1][..i] == buf[..i];
    }
    assert buf[..|buf|] == buf;
  }
}
