/**
 The two text lines of a DS18B20 `w1_slave` device file and what the sensor
 reader makes of them: line 1 must carry nine hex bytes and a `crc=hh YES`
 marker, line 2 nine hex bytes and `t=<signed integer>` in milli-degrees Celsius.
 Both patterns are matched at the start of the line only (`re.match`), so any
 trailing text, the newline included, is accepted.
 */
module W1Slave {
  import opened Wrappers
  import opened Decimal

  /** `[0-9a-f]`: lowercase hexadecimal digits only. */
  predicate IsHex(c: char) {
    '0' <= c <= '9' || 'a' <= c <= 'f'
  }

  /** Repetition k of `([0-9a-f]{2} )`: two hex digits and a space at positions 3k .. 3k+2. */
  predicate ByteField(line: string, k: nat) {
    3 * k + 2 < |line| && IsHex(line[3 * k]) && IsHex(line[3 * k + 1]) && line[3 * k + 2] == ' '
  }

  /** `([0-9a-f]{2} ){9}` at the start of the line (27 characters). */
  predicate NineByteFields(line: string) {
    forall k: nat :: k < 9 ==> ByteField(line, k)
  }

  /** `re.match(r"([0-9a-f]{2} ){9}: crc=[0-9a-f]{2} YES", line)`. */
  predicate MatchesLine1(line: string) {
    && NineByteFields(line)
    && |line| >= 39
    && line[27..33] == ": crc="
    && IsHex(line[33]) && IsHex(line[34])
    && line[35..39] == " YES"
  }

  /**
   `re.match(r"([0-9a-f]{2} ){9}t=([+-]?[0-9]+)", line)` and the integer its
   second group spells (milli-degrees), or None when the line does not match.
   */
  function ParseLine2(line: string): (r: Option<int>)
    ensures r.Some? <==>
              NineByteFields(line) && |line| >= 29 && line[27..29] == "t=" && ParseSigned(line[29..]).Some?
  {
    if NineByteFields(line) && |line| >= 29 && line[27..29] == "t=" then ParseSigned(line[29..]) else None
  }

  /**
   What reading the device file yields: it cannot be opened or its first line
   cannot be read (Unreadable), or a first line and, when the second `readline`
   raised, no second line.
   */
  datatype DeviceFile = Unreadable | Readable(first: string, second: Option<string>)

  /**
   One sensor read, in milli-degrees. Every failure (open or read error, a
   first line without the valid-CRC marker, a malformed second line) is None;
   the second line is only looked at when the first one matched.
   */
  function ReadSensor(f: DeviceFile): (r: Option<int>)
    ensures r.Some? ==> f.Readable? && MatchesLine1(f.first) && f.second.Some?
    ensures r.Some? <==> f.Readable? && MatchesLine1(f.first) && f.second.Some? && ParseLine2(f.second.value).Some?
  {
    if f.Unreadable? || !MatchesLine1(f.first) then None
    else if f.second.None? then None
    else ParseLine2(f.second.value)
  }

  // ---------------------------------------------------------------------------
  // The lines as the kernel driver writes them, and what the reader makes of them.

  type Byte = b: int | 0 <= b < 256

  function HexChar(v: nat): (c: char)
    requires v < 16
    ensures IsHex(c)
  {
    if v < 10 then ('0' as int + v) as char else ('a' as int + v - 10) as char
  }

  function HexValue(c: char): (v: nat)
    requires IsHex(c)
    ensures v < 16 && HexChar(v) == c
  {
    if c <= '9' then c as int - '0' as int else c as int - 'a' as int + 10
  }

  /** A byte as two lowercase hex digits. */
  function HexPair(b: Byte): string {
    [HexChar(b / 16), HexChar(b % 16)]
  }

  function PairByte(hi: char, lo: char): (b: Byte)
    requires IsHex(hi) && IsHex(lo)
    ensures HexPair(b) == [hi, lo]
  {
    var h, l := HexValue(hi), HexValue(lo);
    assert (16 * h + l) / 16 == h && (16 * h + l) % 16 == l;
    16 * h + l
  }

  /** Each byte as two hex digits followed by a space. */
  function ByteFields(bs: seq<Byte>): (s: string)
    ensures |s| == 3 * |bs|
  {
    if bs == [] then "" else HexPair(bs[0]) + " " + ByteFields(bs[1..])
  }

  function Line1Text(bs: seq<Byte>, crc: Byte, valid: bool): string {
    ByteFields(bs) + ": crc=" + HexPair(crc) + (if valid then " YES" else " NO")
  }

  function Line2Text(bs: seq<Byte>, milli: int): string {
    ByteFields(bs) + "t=" + IntToDecimal(milli)
  }

  lemma ByteFieldShift(x: string, y: string, k: nat)
    requires |x| == 3
    ensures ByteField(x + y, k + 1) == ByteField(y, k)
  {
    var s := x + y;
    if 3 * k + 2 < |y| {
      assert s[3 * (k + 1)] == y[3 * k];
      assert s[3 * (k + 1) + 1] == y[3 * k + 1];
      assert s[3 * (k + 1) + 2] == y[3 * k + 2];
    }
  }

  lemma {:induction false} ByteFieldsMatch(bs: seq<Byte>, rest: string, k: nat)
    requires k < |bs|
    ensures ByteField(ByteFields(bs) + rest, k)
  {
    var head := HexPair(bs[0]) + " ";
    assert ByteFields(bs) + rest == head + (ByteFields(bs[1..]) + rest);
    if k > 0 {
      ByteFieldsMatch(bs[1..], rest, k - 1);
      ByteFieldShift(head, ByteFields(bs[1..]) + rest, k - 1);
    }
  }

  lemma NineFieldsMatch(bs: seq<Byte>, rest: string)
    requires |bs| == 9
    ensures NineByteFields(ByteFields(bs) + rest)
  {
    forall k: nat | k < 9 ensures ByteField(ByteFields(bs) + rest, k) {
      ByteFieldsMatch(bs, rest, k);
    }
  }

  /** A first line in the driver's format is accepted exactly when it ends in YES. */
  lemma Line1Accepted(bs: seq<Byte>, crc: Byte, valid: bool, rest: string)
    requires |bs| == 9
    ensures MatchesLine1(Line1Text(bs, crc, valid) + rest) <==> valid
  {
    var line := Line1Text(bs, crc, valid) + rest;
    var tail := ": crc=" + HexPair(crc) + (if valid then " YES" else " NO") + rest;
    assert line == ByteFields(bs) + tail;
    NineFieldsMatch(bs, tail);
    assert line[27..] == tail;
    assert line[27..33] == ": crc=";
    if valid {
      assert line[35..39] == " YES";
    } else if |line| >= 39 {
      assert line[36] == 'N';
    }
  }

  /** The second line gives back the temperature the driver wrote into it. */
  lemma Line2RoundTrip(bs: seq<Byte>, milli: int, rest: string)
    requires |bs| == 9
    requires rest == [] || !IsDigit(rest[0])
    ensures ParseLine2(Line2Text(bs, milli) + rest) == Some(milli)
  {
    var line := Line2Text(bs, milli) + rest;
    var tail := "t=" + IntToDecimal(milli) + rest;
    assert line == ByteFields(bs) + tail;
    NineFieldsMatch(bs, tail);
    assert line[27..] == tail;
    assert line[27..29] == "t=";
    assert line[29..] == IntToDecimal(milli) + rest;
    SignedRoundTrip(milli, rest);
  }

  /**
   A whole device file in the driver's format: the reading is the milli-degree
   value of line 2 when line 1 carries YES, and absent when it carries NO.
   */
  lemma ReadSensorRoundTrip(bs1: seq<Byte>, crc: Byte, valid: bool, rest1: string,
                            bs2: seq<Byte>, milli: int, rest2: string)
    requires |bs1| == 9 && |bs2| == 9
    requires rest2 == [] || !IsDigit(rest2[0])
    ensures ReadSensor(Readable(Line1Text(bs1, crc, valid) + rest1, Some(Line2Text(bs2, milli) + rest2)))
            == if valid then Some(milli) else None
  {
    Line1Accepted(bs1, crc, valid, rest1);
    Line2RoundTrip(bs2, milli, rest2);
  }

  /** Dropping the first field of a line shifts the remaining fields down by one. */
  lemma DropField(line: string, n: nat)
    requires n > 0
    requires forall k: nat :: k < n ==> ByteField(line, k)
    ensures |line| >= 3 * n
    ensures forall k: nat :: k < n - 1 ==> ByteField(line[3..], k)
  {
    assert ByteField(line, n - 1);
    assert line == line[..3] + line[3..];
    forall k: nat | k < n - 1 ensures ByteField(line[3..], k) {
      assert ByteField(line, k + 1);
      ByteFieldShift(line[..3], line[3..], k);
    }
  }

  /** The bytes spelled by the first n fields of a line. */
  function FieldBytes(line: string, n: nat): (bs: seq<Byte>)
    requires forall k: nat :: k < n ==> ByteField(line, k)
    ensures |bs| == n
  {
    if n == 0 then []
    else
      DropField(line, n);
      assert ByteField(line, 0);
      [PairByte(line[0], line[1])] + FieldBytes(line[3..], n - 1)
  }

  lemma {:induction false} FieldBytesText(line: string, n: nat)
    requires forall k: nat :: k < n ==> ByteField(line, k)
    ensures |line| >= 3 * n && ByteFields(FieldBytes(line, n)) == line[..3 * n]
  {
    if n > 0 {
      DropField(line, n);
      var bs := FieldBytes(line, n);
      assert ByteField(line, 0);
      assert bs[1..] == FieldBytes(line[3..], n - 1);
      FieldBytesText(line[3..], n - 1);
      assert line[..3 * n] == [line[0], line[1], line[2]] + line[3..][..3 * (n - 1)];
    }
  }

  /** Every accepted first line is the driver's format with YES, followed by some trailing text. */
  lemma Line1Complete(line: string)
    requires MatchesLine1(line)
    ensures exists bs: seq<Byte>, crc: Byte, rest: string :: |bs| == 9 && line == Line1Text(bs, crc, true) + rest
  {
    var bs := FieldBytes(line, 9);
    FieldBytesText(line, 9);
    var crc := PairByte(line[33], line[34]);
    var rest := line[39..];
    assert line == line[..27] + line[27..33] + line[33..35] + line[35..39] + rest;
    assert line == Line1Text(bs, crc, true) + rest;
  }

  lemma NineZeroFields()
    ensures ByteFields([0, 0, 0, 0, 0, 0, 0, 0, 0]) == "00 00 00 00 00 00 00 00 00 "
  {
    var z: seq<Byte> := [0, 0, 0, 0, 0, 0, 0, 0, 0];
    assert HexPair(0) == "00";
    assert ByteFields(z[8..]) == "00 ";
    assert ByteFields(z[7..]) == "00 00 ";
    assert ByteFields(z[6..]) == "00 00 00 ";
    assert ByteFields(z[5..]) == "00 00 00 00 ";
    assert ByteFields(z[4..]) == "00 00 00 00 00 ";
    assert ByteFields(z[3..]) == "00 00 00 00 00 00 ";
    assert ByteFields(z[2..]) == "00 00 00 00 00 00 00 ";
    assert ByteFields(z[1..]) == "00 00 00 00 00 00 00 00 ";
  }

  lemma Decimal21500()
    ensures IntToDecimal(21500) == "21500"
  {
    assert NatToDecimal(2) == "2";
    assert NatToDecimal(21) == "21";
    assert NatToDecimal(215) == "215";
    assert NatToDecimal(2150) == "2150";
  }

  lemma ExampleLine1Text()
    ensures Line1Text([0, 0, 0, 0, 0, 0, 0, 0, 0], 0, true) + "\n" == "00 00 00 00 00 00 00 00 00 : crc=00 YES\n"
  {
    NineZeroFields();
  }

  lemma ExampleLine2Text()
    ensures Line2Text([0, 0, 0, 0, 0, 0, 0, 0, 0], 21500) + "\n" == "00 00 00 00 00 00 00 00 00 t=21500\n"
  {
    NineZeroFields();
    Decimal21500();
  }

  /** The example of a valid reading of 21.5 degrees. */
  lemma ValidReadingExample()
    ensures ReadSensor(Readable("00 00 00 00 00 00 00 00 00 : crc=00 YES\n",
                                Some("00 00 00 00 00 00 00 00 00 t=21500\n"))) == Some(21500)
  {
    ExampleLine1Text();
    ExampleLine2Text();
    ReadSensorRoundTrip([0, 0, 0, 0, 0, 0, 0, 0, 0], 0, true, "\n", [0, 0, 0, 0, 0, 0, 0, 0, 0], 21500, "\n");
  }

  /** A first line whose marker is NO gives no reading, whatever the second line says. */
  lemma CrcFailureExample(second: Option<string>)
    ensures ReadSensor(Readable("00 00 00 00 00 00 00 00 00 : crc=00 NO\n", second)).None?
  {
    var zeros: seq<Byte> := [0, 0, 0, 0, 0, 0, 0, 0, 0];
    NineZeroFields();
    assert Line1Text(zeros, 0, false) + "\n" == "00 00 00 00 00 00 00 00 00 : crc=00 NO\n";
    Line1Accepted(zeros, 0, false, "\n");
  }
}
