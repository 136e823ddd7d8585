// The binary media packet of the MDVR video connection: a 28-byte header that
// starts with 0x12, then the data body (section 3.16 of the Meitrack MDVR GPRS
// Protocol V2.0).
module MediaPacket {
  import opened Bytes
  import opened Optional

  const HEADER_SIZE := 28
  const FLAG: Byte := 0x12

  datatype Packet = Packet(
    payloadType: nat, isLastPacket: bool, packetNo: nat, imei: string, channel: nat,
    dataType: nat, packetFlag: nat, timestamp: nat, payload: seq<Byte>)

  datatype ParseResult = Incomplete(need: nat) | Invalid | Parsed(packet: Packet)

  function TotalLength(p: Packet): nat { HEADER_SIZE + |p.payload| }

  // ----- the IMEI -----

  function Nibble(n: nat): char
    requires n < 16
  {
    if n > 9 then '?' else '0' + n as char
  }

  function BcdToString(bcd: seq<Byte>): (s: string)
    ensures |s| == 2 * |bcd|
  {
    if bcd == [] then ""
    else
      var n := |bcd| - 1;
      BcdToString(bcd[..n]) + [Nibble(bcd[n] / 16), Nibble(bcd[n] % 16)]
  }

  function NormalizeImei(raw: string): string {
    if |raw| == 16 && raw[0] == '0' then raw[1..] else raw
  }

  predicate IsDigit(c: char) { '0' <= c <= '9' }

  predicate AllDigits(s: string) { forall i :: 0 <= i < |s| ==> IsDigit(s[i]) }

  function DigitsOnly(s: string): (d: string)
    ensures AllDigits(d) && |d| <= |s|
    ensures AllDigits(s) <==> d == s
  {
    if s == "" then ""
    else if IsDigit(s[|s| - 1]) then
      var d := DigitsOnly(s[..|s| - 1]);
      assert AllDigits(s) ==> AllDigits(s[..|s| - 1]);
      assert AllDigits(s[..|s| - 1]) ==> AllDigits(s) && s == s[..|s| - 1] + [s[|s| - 1]];
      d + [s[|s| - 1]]
    else DigitsOnly(s[..|s| - 1])
  }

  function Zeros(n: nat): (z: string)
    ensures |z| == n && forall i :: 0 <= i < n ==> z[i] == '0'
  {
    seq(n, _ => '0')
  }

  // The sixteen digits that go on the wire.
  function WireImei(imei: string): (d: string)
    ensures |d| == 16 && AllDigits(d)
  {
    var digits := DigitsOnly(imei);
    if |digits| < 16 then Zeros(16 - |digits|) + digits else digits[..16]
  }

  function DigitValue(c: char): nat
    requires IsDigit(c)
  {
    c as nat - '0' as nat
  }

  function PackBcd(digits: string): (bcd: seq<Byte>)
    requires AllDigits(digits)
    ensures |bcd| == |digits| / 2
  {
    if |digits| < 2 then []
    else
      [16 * DigitValue(digits[0]) + DigitValue(digits[1])] + PackBcd(digits[2..])
  }

  // ----- parse -----

  function Parse(buf: seq<Byte>): ParseResult {
    if |buf| < HEADER_SIZE then Incomplete(HEADER_SIZE)
    else if buf[0] != FLAG then Invalid
    else
      var dataLength := BigEndian(buf[26..28]);
      var total := HEADER_SIZE + dataLength;
      if |buf| < total then Incomplete(total)
      else Parsed(Packet(
        buf[1] / 2, buf[1] % 2 == 1, BigEndian(buf[2..4]), NormalizeImei(BcdToString(buf[4..12])),
        buf[12], buf[13] / 16, buf[13] % 16, BigEndian(buf[14..22]), buf[HEADER_SIZE..total]))
  }

  // ----- the header, byte by byte -----

  ghost function Word(high: int, low: int): int { 256 * high + low }

  ghost function Double(a: int, b: int, c: int, d: int): int { 0x1_0000 * Word(a, b) + Word(c, d) }

  lemma BigEndianTwo(s: seq<Byte>)
    requires |s| == 2
    ensures BigEndian(s) == Word(s[0], s[1])
  {
    assert s[..1][..0] == [] && BigEndian([]) == 0;
    assert BigEndian(s[..1]) == s[0];
  }

  lemma {:induction false} BigEndianTail(s: seq<Byte>, t: seq<Byte>)
    ensures BigEndian(s + t) == BigEndian(s) * Power256(|t|) + BigEndian(t)
  {
    if t == [] {
      assert s + t == s;
    } else {
      var m := |t| - 1;
      BigEndianTail(s, t[..m]);
      assert (s + t)[..|s + t| - 1] == s + t[..m];
      Regroup(BigEndian(s), Power256(m), BigEndian(t[..m]), t[m]);
    }
  }

  lemma Regroup(a: int, p: int, b: int, c: int)
    ensures 256 * (a * p + b) + c == a * (256 * p) + (256 * b + c)
  {
  }

  lemma Powers()
    ensures Power256(2) == 0x1_0000 && Power256(4) == 0x1_0000_0000
  {
    assert Power256(2) == 0x1_0000;
  }

  lemma TwoHalves(a: seq<Byte>, b: seq<Byte>)
    requires |b| == 4
    ensures BigEndian(a + b) == 0x1_0000_0000 * BigEndian(a) + BigEndian(b)
  {
    Powers();
    BigEndianTail(a, b);
    hide BigEndian, Power256;
  }

  lemma BigEndianEight(s: seq<Byte>)
    requires |s| == 8
    ensures BigEndian(s) == 0x1_0000_0000 * Double(s[0], s[1], s[2], s[3]) + Double(s[4], s[5], s[6], s[7])
  {
    hide *;
    var a, b := s[..4], s[4..];
    assert s == a + b;
    assert b[0] == s[4] && b[1] == s[5] && b[2] == s[6] && b[3] == s[7];
    TwoHalves(a, b);
    BigEndianFour(a);
    BigEndianFour(b);
  }

  lemma BigEndianFour(s: seq<Byte>)
    requires |s| == 4
    ensures BigEndian(s) == Double(s[0], s[1], s[2], s[3])
  {
    var a, b := s[..2], s[2..];
    assert s == a + b;
    Powers();
    BigEndianTwo(a);
    BigEndianTwo(b);
    BigEndianTail(a, b);
    hide BigEndian, Power256, Word;
  }

  // The digits of the nibbles, with a mark for those that are none.
  ghost predicate ReadsNibbles(s: string, bcd: seq<Byte>) {
    |s| == 2 * |bcd| && forall i :: 0 <= i < |bcd| ==> NibblesAt(s, i, bcd[i])
  }

  ghost predicate NibblesAt(s: string, i: nat, b: Byte)
    requires 2 * i + 1 < |s|
  {
    s[2 * i] == "0123456789??????"[b / 16] && s[2 * i + 1] == "0123456789??????"[b % 16]
  }

  lemma NibbleIs(n: nat)
    requires n < 16
    ensures Nibble(n) == "0123456789??????"[n]
  {
  }

  lemma {:induction false} BcdReads(bcd: seq<Byte>)
    ensures ReadsNibbles(BcdToString(bcd), bcd)
  {
    if bcd != [] {
      var n := |bcd| - 1;
      BcdReads(bcd[..n]);
      NibbleIs(bcd[n] / 16);
      NibbleIs(bcd[n] % 16);
      var start := BcdToString(bcd[..n]);
      forall i | 0 <= i < |bcd| ensures NibblesAt(BcdToString(bcd), i, bcd[i]) {
        if i < n {
          assert NibblesAt(start, i, bcd[..n][i]);
        }
      }
    }
  }

  // The packet that a header and the body behind it are read as.
  ghost predicate ReadsPacket(buf: seq<Byte>, p: Packet)
    requires |buf| >= 28
  {
    && buf[1] == 2 * p.payloadType + (if p.isLastPacket then 1 else 0)
    && p.packetNo == Word(buf[2], buf[3])
    && p.channel == buf[12] && buf[13] == 16 * p.dataType + p.packetFlag && p.packetFlag < 16
    && p.timestamp == 0x1_0000_0000 * Double(buf[14], buf[15], buf[16], buf[17])
                      + Double(buf[18], buf[19], buf[20], buf[21])
    && |buf| >= 28 + Word(buf[26], buf[27]) && p.payload == buf[28..28 + Word(buf[26], buf[27])]
  }

  // Its IMEI: sixteen nibbles, without a leading zero.
  ghost predicate ReadsImei(buf: seq<Byte>, imei: string)
    requires |buf| >= 28
  {
    || (buf[4] < 16 && ReadsNibbles("0" + imei, buf[4..12]))
    || (buf[4] >= 16 && ReadsNibbles(imei, buf[4..12]))
  }

  // Every buffer, byte by byte: too short for a header, without the flag, too short
  // for the body, or a packet.
  lemma ParseExactly(buf: seq<Byte>)
    ensures |buf| < 28 ==> Parse(buf) == Incomplete(28)
    ensures |buf| >= 28 && buf[0] != 0x12 ==> Parse(buf) == Invalid
    ensures |buf| >= 28 && buf[0] == 0x12 ==>
              var total := 28 + Word(buf[26], buf[27]);
              if |buf| < total then Parse(buf) == Incomplete(total)
              else Parse(buf).Parsed? && ReadsPacket(buf, Parse(buf).packet) && ReadsImei(buf, Parse(buf).packet.imei)
  {
    if |buf| >= 28 && buf[0] == 0x12 {
      BigEndianTwo(buf[26..28]);
      BigEndianTwo(buf[2..4]);
      BigEndianEight(buf[14..22]);
      ImeiReads(buf);
      hide BigEndian, BcdToString, NormalizeImei, ReadsNibbles, ReadsImei, Word, Double;
    }
  }

  lemma ImeiReads(buf: seq<Byte>)
    requires |buf| >= 28
    ensures ReadsImei(buf, NormalizeImei(BcdToString(buf[4..12])))
  {
    var bcd := buf[4..12];
    var raw := BcdToString(bcd);
    BcdReads(bcd);
    hide BcdToString;
    assert NibblesAt(raw, 0, bcd[0]);
    if raw[0] == '0' {
      assert "0" + raw[1..] == raw;
    }
  }

  // An aligned buffer is never invalid, so the video loop's skip is dead code.
  lemma AlignedNeverInvalid(buf: seq<Byte>)
    requires buf != [] && buf[0] == FLAG
    ensures !Parse(buf).Invalid?
  {
  }

  // A parsed packet is decided by its own bytes; a missing one is asked for by
  // the exact length at which it is there.
  lemma ParseStable(buf: seq<Byte>, more: seq<Byte>)
    requires Parse(buf).Parsed?
    ensures TotalLength(Parse(buf).packet) <= |buf|
    ensures Parse(buf + more) == Parse(buf)
    ensures (buf + more)[TotalLength(Parse(buf).packet)..] == buf[TotalLength(Parse(buf).packet)..] + more
  {
    hide BigEndian, BcdToString, NormalizeImei;
    var all := buf + more;
    assert all[26..28] == buf[26..28] && all[2..4] == buf[2..4];
    assert all[4..12] == buf[4..12] && all[14..22] == buf[14..22];
    var total := HEADER_SIZE + BigEndian(buf[26..28]);
    assert all[HEADER_SIZE..total] == buf[HEADER_SIZE..total];
  }

  lemma IncompleteBound(buf: seq<Byte>)
    requires Parse(buf).Incomplete?
    ensures |buf| < Parse(buf).need < HEADER_SIZE + 0x1_0000
  {
    if |buf| >= HEADER_SIZE {
      BigEndianBound(buf[26..28]);
      assert Power256(2) == 0x1_0000;
    }
  }

  // ----- build -----

  datatype Fields = Fields(
    imei: string, channel: int, dataType: int, packetFlag: int, payloadType: int,
    packetNo: int, timestamp: int, payload: seq<Byte>)

  // The writes that fail: a timestamp outside 64 bits, a body over 65535 bytes.
  predicate Buildable(f: Fields) {
    0 <= f.timestamp < 0x1_0000_0000_0000_0000 && |f.payload| < 0x1_0000
  }

  function HeadBytes(f: Fields): (h: seq<Byte>)
    ensures |h| == 14
  {
    [FLAG, 2 * (f.payloadType % 128)]
    + ToBigEndian(f.packetNo % 0x1_0000, 2)
    + PackBcd(WireImei(f.imei))
    + [f.channel % 256, 16 * (f.dataType % 16) + f.packetFlag % 16]
  }

  function Header(f: Fields): (h: seq<Byte>)
    requires Buildable(f)
    ensures |h| == HEADER_SIZE
  {
    HeadBytes(f)
    + ToBigEndian(f.timestamp, 8)
    + ToBigEndian(0, 2) + ToBigEndian(0, 2)
    + ToBigEndian(|f.payload|, 2)
  }

  function Wire(f: Fields): seq<Byte>
    requires Buildable(f)
  {
    Header(f) + f.payload
  }

  function Build(f: Fields): Option<seq<Byte>> {
    if Buildable(f) then Some(Wire(f)) else None
  }

  // What a receiver reads back: every field cut to its width.
  function Received(f: Fields): Packet
    requires Buildable(f)
  {
    Packet(f.payloadType % 128, false, f.packetNo % 0x1_0000, NormalizeImei(WireImei(f.imei)),
           f.channel % 256, f.dataType % 16, f.packetFlag % 16, f.timestamp, f.payload)
  }

  lemma {:induction false} UnpackBcd(digits: string)
    requires AllDigits(digits) && |digits| % 2 == 0
    ensures BcdToString(PackBcd(digits)) == digits
  {
    if |digits| > 0 {
      var bcd := PackBcd(digits);
      UnpackBcd(digits[2..]);
      BcdHead(bcd);
      assert bcd[1..] == PackBcd(digits[2..]);
      assert digits == digits[..2] + digits[2..];
      assert digits[..2] == [Nibble(bcd[0] / 16), Nibble(bcd[0] % 16)];
    }
  }

  lemma {:induction false} BcdHead(bcd: seq<Byte>)
    requires bcd != []
    ensures BcdToString(bcd) == [Nibble(bcd[0] / 16), Nibble(bcd[0] % 16)] + BcdToString(bcd[1..])
  {
    var n := |bcd| - 1;
    if n == 0 {
      assert bcd[..0] == [] && bcd[1..] == [];
    } else {
      BcdHead(bcd[..n]);
      assert bcd[..n][1..] == bcd[1..][..n - 1];
    }
  }

  lemma HeaderParts(f: Fields)
    requires Buildable(f)
    ensures var h := Header(f);
            && h[0] == FLAG && h[1] == 2 * (f.payloadType % 128)
            && h[2..4] == ToBigEndian(f.packetNo % 0x1_0000, 2)
            && h[4..12] == PackBcd(WireImei(f.imei))
            && h[12] == f.channel % 256 && h[13] == 16 * (f.dataType % 16) + f.packetFlag % 16
            && h[14..22] == ToBigEndian(f.timestamp, 8) && h[22..26] == ToBigEndian(0, 4)
            && h[26..28] == ToBigEndian(|f.payload|, 2)
  {
    assert ToBigEndian(0, 4) == ToBigEndian(0, 2) + ToBigEndian(0, 2);
    hide ToBigEndian, PackBcd, WireImei;
  }

  // A built packet parses to its fields, whatever follows it.
  lemma ParseBuilt(f: Fields, rest: seq<Byte>)
    requires Buildable(f)
    ensures Parse(Wire(f) + rest) == Parsed(Received(f))
  {
    hide ToBigEndian, PackBcd, WireImei, BigEndian, BcdToString, NormalizeImei, Header;
    var h := Header(f);
    var buf := Wire(f) + rest;
    HeaderParts(f);
    assert buf[0] == h[0] && buf[1] == h[1] && buf[12] == h[12] && buf[13] == h[13];
    assert buf[2..4] == h[2..4] && buf[4..12] == h[4..12];
    assert buf[14..22] == h[14..22] && buf[26..28] == h[26..28];
    Widths();
    BigEndianRoundTrip(f.packetNo % 0x1_0000, 2);
    BigEndianRoundTrip(f.timestamp, 8);
    BigEndianRoundTrip(|f.payload|, 2);
    UnpackBcd(WireImei(f.imei));
    assert buf[HEADER_SIZE..HEADER_SIZE + |f.payload|] == f.payload;
  }

  lemma Widths()
    ensures Power256(2) == 0x1_0000 && Power256(8) == 0x1_0000_0000_0000_0000
  {
    assert Power256(4) == 0x1_0000_0000;
    assert Power256(6) == 0x1_0000_0000_0000;
  }

  // An IMEI comes back unchanged exactly when it is fifteen digits, or sixteen
  // that do not start with the padding digit.
  lemma ImeiRoundTrip(imei: string)
    ensures NormalizeImei(WireImei(imei)) == imei
            <==> AllDigits(imei) && (|imei| == 15 || (|imei| == 16 && imei[0] != '0'))
  {
    var wire := WireImei(imei);
    if AllDigits(imei) && |imei| == 15 {
      assert wire == Zeros(1) + imei;
      assert wire[1..] == imei;
    } else if AllDigits(imei) && |imei| == 16 {
      assert wire == imei;
    }
  }

  predicate InRange(f: Fields) {
    && Buildable(f)
    && 0 <= f.payloadType < 128 && 0 <= f.packetNo < 0x1_0000
    && 0 <= f.channel < 256 && 0 <= f.dataType < 16 && 0 <= f.packetFlag < 16
    && AllDigits(f.imei) && (|f.imei| == 15 || (|f.imei| == 16 && f.imei[0] != '0'))
  }

  predicate SameFields(p: Packet, f: Fields) {
    && p.payloadType == f.payloadType && p.packetNo == f.packetNo && p.imei == f.imei
    && p.channel == f.channel && p.dataType == f.dataType && p.packetFlag == f.packetFlag
    && p.timestamp == f.timestamp && p.payload == f.payload
  }

  // Exactly the in-range fields come back one by one.
  lemma FieldsRoundTrip(f: Fields, rest: seq<Byte>)
    requires Buildable(f)
    ensures Parse(Wire(f) + rest).Parsed?
    ensures SameFields(Parse(Wire(f) + rest).packet, f) <==> InRange(f)
  {
    hide Wire, Parse, WireImei, NormalizeImei;
    ParseBuilt(f, rest);
    ImeiRoundTrip(f.imei);
  }

  // ----- the loops of the program -----

  method DecodeBcd(bcd: seq<Byte>) returns (s: string)
    ensures s == BcdToString(bcd)
  {
    s := "";
    for i := 0 to |bcd|
      invariant s == BcdToString(bcd[..i])
    {
      s := s + [Nibble(bcd[i] / 16)] + [Nibble(bcd[i] % 16)];
      assert bcd[..i + 1][..i] == bcd[..i];
    }
    assert bcd[..|bcd|] == bcd;
  }

  method WriteBigEndian(buf: array<Byte>, n: nat, offset: nat, width: nat)
    requires offset + width <= buf.Length
    modifies buf
    ensures buf[..] == old(buf[..offset]) + ToBigEndian(n, width) + old(buf[offset + width..])
  {
    var rest := n;
    for i := width downto 0
      invariant buf[..offset + i] == old(buf[..offset + i])
      invariant buf[offset + width..] == old(buf[offset + width..])
      invariant ToBigEndian(n, width) == ToBigEndian(rest, i) + buf[offset + i..offset + width]
    {
      buf[offset + i] := rest % 256;
      rest := rest / 256;
      assert buf[offset + i..offset + width] == [buf[offset + i]] + buf[offset + i + 1..offset + width];
    }
    assert buf[..] == buf[..offset] + buf[offset..offset + width] + buf[offset + width..];
  }

  method FillBcd(imei: string) returns (bcd: array<Byte>)
    ensures fresh(bcd) && bcd[..] == PackBcd(WireImei(imei))
  {
    hide WireImei;
    var digits := WireImei(imei);
    ghost var packed := PackBcd(digits);
    bcd := new Byte[8](_ => 0);
    for i := 0 to 8
      invariant forall k :: 0 <= k < i ==> bcd[k] == packed[k]
    {
      PackAt(digits, i);
      bcd[i] := 16 * DigitValue(digits[2 * i]) + DigitValue(digits[2 * i + 1]);
    }
    assert bcd[..] == packed;
  }

  lemma {:induction false} PackAt(digits: string, i: nat)
    requires AllDigits(digits) && i < |digits| / 2
    ensures PackBcd(digits)[i] == 16 * DigitValue(digits[2 * i]) + DigitValue(digits[2 * i + 1])
  {
    var rest := digits[2..];
    assert PackBcd(digits) == [16 * DigitValue(digits[0]) + DigitValue(digits[1])] + PackBcd(rest);
    if i > 0 {
      PackAt(rest, i - 1);
      assert rest[2 * (i - 1)] == digits[2 * i] && rest[2 * (i - 1) + 1] == digits[2 * i + 1];
      assert PackBcd(digits)[i] == PackBcd(rest)[i - 1];
    }
  }

  method WriteHead(header: array<Byte>, f: Fields)
    requires header.Length == HEADER_SIZE
    modifies header
    ensures header[..14] == HeadBytes(f)
  {
    hide PackBcd, ToBigEndian, WireImei;
    var imeiBcd := FillBcd(f.imei);
    header[0] := FLAG;
    header[1] := 2 * (f.payloadType % 128);
    WriteBigEndian(header, f.packetNo % 0x1_0000, 2, 2);
    assert header[..4] == [FLAG, 2 * (f.payloadType % 128)] + ToBigEndian(f.packetNo % 0x1_0000, 2);
    ghost var first := header[..4];
    forall i | 0 <= i < 8 {
      header[4 + i] := imeiBcd[i];
    }
    assert header[..4] == first && header[4..12] == imeiBcd[..];
    header[12] := f.channel % 256;
    header[13] := 16 * (f.dataType % 16) + f.packetFlag % 16;
    assert header[..14] == first + imeiBcd[..] + [header[12], header[13]];
  }

  method BuildMediaPacket(f: Fields) returns (r: Option<seq<Byte>>)
    ensures r == Build(f)
  {
    if !(0 <= f.timestamp < 0x1_0000_0000_0000_0000) || |f.payload| >= 0x1_0000 {
      return None;
    }
    hide PackBcd, ToBigEndian, WireImei;
    var header := new Byte[HEADER_SIZE](_ => 0);
    WriteHead(header, f);
    WriteBigEndian(header, f.timestamp, 14, 8);
    assert header[..22] == HeadBytes(f) + ToBigEndian(f.timestamp, 8);
    WriteBigEndian(header, 0, 22, 2);
    assert header[..24] == HeadBytes(f) + ToBigEndian(f.timestamp, 8) + ToBigEndian(0, 2);
    WriteBigEndian(header, 0, 24, 2);
    assert header[..26] == HeadBytes(f) + ToBigEndian(f.timestamp, 8) + ToBigEndian(0, 2) + ToBigEndian(0, 2);
    WriteBigEndian(header, |f.payload|, 26, 2);
    assert header[..] == Header(f);
    r := Some(header[..] + f.payload);
  }
}
