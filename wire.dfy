/** Byte-level vocabulary of the root controller: protocol constants, the
    control-plane frame, the servo instruction packet and its checksum, the
    split of a 16-bit value into two bytes, and the decimal conversions used
    on the host link. */
module Wire {

  /** One byte on a serial line; the firmware's `char` is unsigned on its target. */
  type Byte = x: int | 0 <= x < 256

  // Control-plane markers and command types.
  const StartTransmit: Byte := 252
  const EndTransmit: Byte := 253
  const CommandTypeSpace: Byte := 200
  const HelloByte: Byte := 200
  const IdAssignment: Byte := 201
  const IdAssignOk: Byte := 202
  const PingByte: Byte := 203
  const ClearConfig: Byte := 204
  const ConfigCleared: Byte := 205

  // Well-known addresses.
  const ParentId: Byte := 0
  const Broadcast: Byte := 254
  const BlankModuleId: Byte := 251

  // Servo sub-protocol.
  const ServoStart: Byte := 255
  const PingServo: Byte := 1
  const ReadServo: Byte := 2
  const WriteServo: Byte := 3
  const ResetServo: Byte := 6

  // Servo register addresses used by the host commands.
  const TorqueEnableAddress: Byte := 24
  const GoalPositionAddress: Byte := 30
  const MovingSpeedAddress: Byte := 32
  const PresentPositionAddress: Byte := 36

  /** The unsigned-char conversion: the value modulo 256. */
  function ToByte(x: int): (b: Byte)
    ensures 0 <= x < 256 ==> b == x
    ensures (x - b) % 256 == 0
  {
    x % 256
  }

  /** C division, which truncates toward zero (Dafny's `/` is Euclidean). */
  function CQuot(a: int, d: int): (q: int)
    requires d > 0
    ensures a >= 0 ==> q == a / d
    ensures a < 0 ==> q <= 0 && a <= q * d < a + d
  {
    if a >= 0 then a / d else -((-a) / d)
  }

  /** C remainder, whose sign follows the dividend. */
  function CRem(a: int, d: int): (r: int)
    requires d > 0
    ensures a == d * CQuot(a, d) + r
    ensures a >= 0 ==> r == a % d
    ensures a < 0 ==> -d < r <= 0
  {
    a - d * CQuot(a, d)
  }

  function Sum(xs: seq<int>): int
  {
    if xs == [] then 0 else Sum(xs[..|xs| - 1]) + xs[|xs| - 1]
  }

  lemma {:induction false} SumAppend(xs: seq<int>, ys: seq<int>)
    ensures Sum(xs + ys) == Sum(xs) + Sum(ys)
    decreases |ys|
  {
    if ys == [] {
      assert xs + ys == xs;
    } else {
      var zs := ys[..|ys| - 1];
      assert (xs + ys)[..|xs + ys| - 1] == xs + zs;
      SumAppend(xs, zs);
    }
  }

  /* ---------------- Control-plane frames ---------------- */

  /** `START START src dst cmd params END END`, as the root sends it. */
  function ControlFrame(src: Byte, dst: Byte, cmd: Byte, params: seq<Byte>): seq<Byte>
  {
    [StartTransmit, StartTransmit, src, dst, cmd] + params + [EndTransmit, EndTransmit]
  }

  /** The probe broadcast to an unconfigured module. */
  function HelloFrame(): seq<Byte>
  {
    ControlFrame(ParentId, BlankModuleId, HelloByte, [])
  }

  /** A ping of module `moduleId`; the address is put on the wire as a char. */
  function PingFrame(moduleId: int): seq<Byte>
  {
    ControlFrame(ParentId, ToByte(moduleId), PingByte, [])
  }

  /** The assignment of address `newId` to the unconfigured module. */
  function AssignFrame(newId: int): seq<Byte>
  {
    ControlFrame(ParentId, BlankModuleId, IdAssignment, [ToByte(newId)])
  }

  /** The three frames the root emits, byte for byte. */
  lemma ControlFrameBytes(m: Byte, a: Byte)
    ensures HelloFrame() == [252, 252, 0, 251, 200, 253, 253]
    ensures PingFrame(m) == [252, 252, 0, m, 203, 253, 253]
    ensures AssignFrame(a) == [252, 252, 0, 251, 201, a, 253, 253]
  {
  }

  /* ---------------- Servo packets ---------------- */

  /** `255 - (sum mod 256)`, the servo protocol's checksum over the fields after the two start bytes. */
  function Checksum(fields: seq<Byte>): Byte
  {
    255 - Sum(fields) % 256
  }

  /** An instruction packet `0xFF 0xFF id length instruction address values checksum`.
      One value byte is the short form, two the long form. */
  function ServoPacket(id: Byte, length: Byte, instruction: Byte, address: Byte, values: seq<Byte>): seq<Byte>
  {
    var body := [id, length, instruction, address] + values;
    [ServoStart, ServoStart] + body + [Checksum(body)]
  }

  /** What a servo sends back: `0xFF 0xFF id length error payload checksum`, with
      `length` counting the error byte, the payload and the checksum. */
  function ServoReply(id: Byte, error: Byte, payload: seq<Byte>): seq<Byte>
    requires |payload| + 2 < 256
  {
    var body := [id, |payload| + 2, error] + payload;
    [ServoStart, ServoStart] + body + [Checksum(body)]
  }

  /** Every field after the start bytes, checksum included, adds up to 255 modulo 256,
      and the packet carries its fields at fixed positions. */
  lemma {:induction false} ServoPacketChecks(id: Byte, length: Byte, instruction: Byte, address: Byte, values: seq<Byte>)
    ensures var f := ServoPacket(id, length, instruction, address, values);
      && |f| == 7 + |values|
      && f[..6] == [ServoStart, ServoStart, id, length, instruction, address]
      && f[6..|f| - 1] == values
      && Sum(f[2..]) % 256 == 255
  {
    var body := [id, length, instruction, address] + values;
    var f := ServoPacket(id, length, instruction, address, values);
    assert f[2..] == body + [Checksum(body)];
    SumAppend(body, [Checksum(body)]);
    assert Sum([Checksum(body)]) == Checksum(body) by {
      assert [Checksum(body)][..0] == [];
    }
  }

  /** The checksum total of one more field. */
  lemma SumSnoc(xs: seq<int>, x: int)
    ensures Sum(xs + [x]) == Sum(xs) + x
  {
    assert (xs + [x])[..|xs + [x]| - 1] == xs;
  }

  /** The checksum total of a four-field servo reply. */
  lemma SumOfFour(a: int, b: int, c: int, d: int)
    ensures Sum([a, b, c, d]) == a + b + c + d
  {
    SumSnoc([], a);
    assert [] + [a] == [a];
    SumSnoc([a], b);
    assert [a] + [b] == [a, b];
    SumSnoc([a, b], c);
    assert [a, b] + [c] == [a, b, c];
    SumSnoc([a, b, c], d);
    assert [a, b, c] + [d] == [a, b, c, d];
  }

  /** The checksum total of a short instruction's five fields. */
  lemma SumOfFive(a: int, b: int, c: int, d: int, e: int)
    ensures Sum([a, b, c, d, e]) == a + b + c + d + e
  {
    SumOfFour(a, b, c, d);
    SumSnoc([a, b, c, d], e);
    assert [a, b, c, d] + [e] == [a, b, c, d, e];
  }

  /** The checksum total of a long instruction's six fields. */
  lemma SumOfSix(a: int, b: int, c: int, d: int, e: int, f: int)
    ensures Sum([a, b, c, d, e, f]) == a + b + c + d + e + f
  {
    SumOfFive(a, b, c, d, e);
    SumSnoc([a, b, c, d, e], f);
    assert [a, b, c, d, e] + [f] == [a, b, c, d, e, f];
  }

  /* ---------------- 16-bit values on the servo link ---------------- */

  /** `total % 256` stored into a char. */
  function LowByte(total: int): Byte
  {
    ToByte(CRem(total, 256))
  }

  /** `total / 256` stored into a char. */
  function HighByte(total: int): Byte
  {
    ToByte(CQuot(total, 256))
  }

  /** `hi * 256 + lo`, the value rebuilt from the two bytes a servo reports. */
  function Word(lo: Byte, hi: Byte): (w: nat)
    ensures w < 65536
  {
    hi * 256 + lo
  }

  /** Splitting a 16-bit value and rebuilding it gives the value back, and a
      rebuilt value splits into the same two bytes. */
  lemma SplitWord(v: int, lo: Byte, hi: Byte)
    ensures 0 <= v < 65536 ==> Word(LowByte(v), HighByte(v)) == v
    ensures LowByte(Word(lo, hi)) == lo && HighByte(Word(lo, hi)) == hi
  {
  }

  /* ---------------- Decimal text on the host link ---------------- */

  predicate IsDigit(c: char)
  {
    '0' <= c <= '9'
  }

  function DigitChar(d: nat): (c: char)
    requires d < 10
    ensures IsDigit(c) && c as int - '0' as int == d
  {
    ('0' as int + d) as char
  }

  /** `itoa(n, 10)` for a non-negative `n`: its decimal digits, most significant first. */
  function DecimalString(n: nat): (s: string)
    ensures |s| >= 1 && IsDigit(s[0])
    ensures forall i :: 0 <= i < |s| ==> IsDigit(s[i])
    ensures n >= 10 ==> s[0] != '0'
    decreases n
  {
    if n < 10 then [DigitChar(n)] else DecimalString(n / 10) + [DigitChar(n % 10)]
  }

  /** The value of a string of digits, read from the left. */
  function DigitsValue(s: string): nat
    requires forall i :: 0 <= i < |s| ==> IsDigit(s[i])
  {
    if s == [] then 0 else DigitsValue(s[..|s| - 1]) * 10 + DigitValue(s[|s| - 1])
  }

  function DigitValue(c: char): (d: nat)
    requires IsDigit(c)
    ensures d < 10
  {
    c as int - '0' as int
  }

  /** The longest prefix of `s` made of digits. */
  function LeadingDigits(s: string): (p: string)
    ensures |p| <= |s| && p == s[..|p|]
    ensures forall i :: 0 <= i < |p| ==> IsDigit(p[i])
    ensures |p| < |s| ==> !IsDigit(s[|p|])
  {
    if s == [] || !IsDigit(s[0]) then [] else [s[0]] + LeadingDigits(s[1..])
  }

  /** `atoi` on a host token: an optional sign, then the leading digits. */
  function Atoi(s: string): int
  {
    if |s| > 0 && s[0] == '-' then -(DigitsValue(LeadingDigits(s[1..])) as int)
    else if |s| > 0 && s[0] == '+' then DigitsValue(LeadingDigits(s[1..]))
    else DigitsValue(LeadingDigits(s))
  }

  lemma {:induction false} LeadingDigitsOfDigits(s: string)
    requires forall i :: 0 <= i < |s| ==> IsDigit(s[i])
    ensures LeadingDigits(s) == s
  {
    if s != [] {
      LeadingDigitsOfDigits(s[1..]);
    }
  }

  lemma {:induction false} DigitsValueOfDecimal(n: nat)
    ensures DigitsValue(DecimalString(n)) == n
    decreases n
  {
    if n >= 10 {
      var s := DecimalString(n);
      assert s[..|s| - 1] == DecimalString(n / 10);
      DigitsValueOfDecimal(n / 10);
    }
  }

  /** Reading back what `itoa` wrote gives the number: `atoi(itoa(n)) == n`. */
  lemma AtoiOfDecimal(n: nat)
    ensures Atoi(DecimalString(n)) == n
  {
    LeadingDigitsOfDigits(DecimalString(n));
    DigitsValueOfDecimal(n);
  }

  /** A whole number written as `atoi` reads it: a minus sign for a negative value, then its digits. */
  function SignedDecimal(x: int): (s: string)
    ensures |s| >= 1
  {
    if x < 0 then "-" + DecimalString(-x) else DecimalString(x)
  }

  /** `atoi` reads back any whole number written with an optional minus sign. */
  lemma AtoiOfSigned(x: int)
    ensures Atoi(SignedDecimal(x)) == x
  {
    if x < 0 {
      var s := SignedDecimal(x);
      assert s[1..] == DecimalString(-x);
      LeadingDigitsOfDigits(DecimalString(-x));
      DigitsValueOfDecimal(-x);
    } else {
      AtoiOfDecimal(x);
    }
  }
}
