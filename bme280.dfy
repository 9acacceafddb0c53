/**
 * The BME280 reader: its I2C address setting, the register traffic of one poll, the
 * decoding of the calibration and measurement registers, the integer temperature
 * compensation and the pressure and humidity formulas of the Bosch BME280 datasheet
 * (sections 4.2.2 and 4.2.3), with the pressure guard and the humidity clamp.
 * Floating-point formulas are computed on exact reals.
 */
module Bme280 {
  import opened Wrappers
  import opened Common

  const Protocol: string := "BME280"
  const DefaultAddress: int := 0x76

  // ---------------------------------------------------------------------------
  // The address setting

  /** The configured address: a string or an integer. */
  datatype MeterAddress = AddrText(s: string) | AddrInt(i: int)

  /** ValueError from `int(..., 16)`; AttributeError from reading an address never assigned. */
  datatype AddressError = ValueError | AttributeError

  /** A hexadecimal digit of a lower-cased string. */
  predicate IsHexDigit(c: char) { IsDigit(c) || 'a' <= c <= 'f' }

  predicate AllHex(s: string) {
    forall i :: 0 <= i < |s| ==> IsHexDigit(s[i])
  }

  function HexDigitValue(c: char): (v: nat)
    requires IsHexDigit(c)
    ensures v < 16
  {
    if IsDigit(c) then DigitValue(c) else c as int - 'a' as int + 10
  }

  /** `int(s, 16)` for a string of hexadecimal digits. */
  function HexValue(s: string): nat
    requires AllHex(s)
  {
    if s == [] then 0 else HexValue(s[..|s| - 1]) * 16 + HexDigitValue(s[|s| - 1])
  }

  predicate HasHexPrefix(l: string) {
    |l| >= 2 && l[0] == '0' && l[1] == 'x'
  }

  /**
   * A string address: hexadecimal after a `0x` prefix in either case, decimal when all
   * digits, the default address otherwise. Hexadecimal digits that do not parse raise.
   */
  function ParseText(s: string): (r: Result<int, AddressError>)
    ensures r.Err? <==> HasHexPrefix(LowerAll(s)) && !(|s| > 2 && AllHex(LowerAll(s)[2..]))
    ensures r.Ok? ==> r.value >= 0
    ensures !HasHexPrefix(LowerAll(s)) && s != [] && AllDigits(s) ==> r == Ok(DigitsValue(s))
    ensures !HasHexPrefix(LowerAll(s)) && !(s != [] && AllDigits(s)) ==> r == Ok(DefaultAddress)
  {
    var l := LowerAll(s);
    if HasHexPrefix(l) then
      if |l| > 2 && AllHex(l[2..]) then Ok(HexValue(l[2..])) else Err(ValueError)
    else if s != [] && AllDigits(s) then Ok(DigitsValue(s))
    else Ok(DefaultAddress)
  }

  /** The range check: an address of 1024 or more is replaced by the default, any other is kept. */
  function RangeChecked(a: int): (r: int)
    ensures a < 1024 ==> r == a
    ensures a >= 1024 ==> r == DefaultAddress
  {
    if a >= 1024 then DefaultAddress else a
  }

  /** The constructor as written: an integer address is never stored, so the range check raises. */
  function AddressAsWritten(m: MeterAddress): (r: Result<int, AddressError>)
    ensures m.AddrInt? ==> r == Err(AttributeError)
    ensures m.AddrText? && r.Ok? ==> 0 <= r.value < 1024
  {
    match m
    case AddrText(s) =>
      (match ParseText(s)
       case Ok(a) => Ok(RangeChecked(a))
       case Err(e) => Err(e))
    case AddrInt(_) => Err(AttributeError)
  }

  /** The address setting with an integer address used as given. */
  function Address(m: MeterAddress): (r: Result<int, AddressError>)
    ensures m.AddrInt? ==> r.Ok? && (m.i < 1024 ==> r.value == m.i) && (m.i >= 1024 ==> r.value == DefaultAddress)
    ensures r.Ok? ==> r.value < 1024
    ensures m.AddrText? ==> r == AddressAsWritten(m)
  {
    match m
    case AddrText(_) => AddressAsWritten(m)
    case AddrInt(i) => Ok(RangeChecked(i))
  }

  /** The integer address of the reader's own type hint fails as written and is kept once corrected. */
  lemma IntegerAddress()
    ensures AddressAsWritten(AddrInt(0x77)) == Err(AttributeError)
    ensures Address(AddrInt(0x77)) == Ok(0x77)
  {
  }

  /** Any decimal rendering of an address below 1024 reads back as that address. */
  lemma DecimalAddressRoundTrip(n: nat)
    requires n < 1024
    ensures Address(AddrText(NatToString(n))) == Ok(n)
  {
    NatToStringRoundTrip(n);
    var s := NatToString(n);
    assert !HasHexPrefix(LowerAll(s)) by {
      if |s| >= 2 {
        assert IsDigit(s[1]);
        assert LowerAll(s)[1] == s[1];
      }
    }
  }

  /** A hexadecimal address string: a `0x` prefix, in either case, before lower-case digits. */
  lemma HexAddress(s: string, digits: string)
    requires |s| == |digits| + 2 && (s[0] == '0') && (s[1] == 'x' || s[1] == 'X')
    requires forall i :: 0 <= i < |digits| ==> ToLower(s[i + 2]) == digits[i]
    requires AllHex(digits) && digits != []
    ensures Address(AddrText(s)) == Ok(RangeChecked(HexValue(digits)))
  {
    assert LowerAll(s)[2..] == digits by {
      forall i | 0 <= i < |digits|
        ensures LowerAll(s)[2..][i] == digits[i]
      {
        assert ToLower(s[i + 2]) == digits[i];
      }
    }
  }

  /** The two addresses detection tries, in that order. */
  lemma DetectAddressValues()
    ensures Address(AddrText("0x76")) == Ok(0x76)
    ensures Address(AddrText("0x77")) == Ok(0x77)
  {
    assert "7"[..0] == "";
    assert HexValue("7") == 7;
    assert "76"[..1] == "7" && "77"[..1] == "7";
    HexAddress("0x76", "76");
    HexAddress("0x77", "77");
  }

  /** An upper-case prefix, and an address just past the range that is reset. */
  lemma HexAddressExamples()
    ensures Address(AddrText("0X3FF")) == Ok(1023)
    ensures Address(AddrText("0x400")) == Ok(DefaultAddress)
  {
    assert "3"[..0] == "" && "4"[..0] == "";
    assert "3f"[..1] == "3" && "3ff"[..2] == "3f";
    assert "40"[..1] == "4" && "400"[..2] == "40";
    assert HexValue("3ff") == 1023;
    assert HexValue("400") == 1024;
    HexAddress("0X3FF", "3ff");
    HexAddress("0x400", "400");
  }

  /** A non-digit after the prefix raises; a string that is neither form gives the default. */
  lemma OtherAddressExamples()
    ensures Address(AddrText("0xg")) == Err(ValueError)
    ensures Address(AddrText("i2c")) == Ok(DefaultAddress)
  {
    assert LowerAll("0xg") == "0xg";
    assert !IsHexDigit("0xg"[2..][0]);
    assert LowerAll("i2c")[0] == 'i';
    assert !IsDigit("i2c"[0]);
  }

  // ---------------------------------------------------------------------------
  // The bus

  /** One `write_byte_data(address, register, value)`. */
  datatype BusWrite = BusWrite(address: int, register: int, value: int)

  /** A register file: the byte each register address reads. */
  type Registers = int -> byte

  /** `n` consecutive registers from `start`. */
  function Block(regs: Registers, start: int, n: nat): (b: seq<byte>)
    ensures |b| == n && forall i :: 0 <= i < n ==> b[i] == regs(start + i)
  {
    seq(n, i => regs(start + i))
  }

  /**
   * I2C bus 1: the devices that answer, each with its register file, and the writes so far.
   * Any access to an address where no device answers raises OSError.
   */
  class I2cBus {
    const devices: map<int, Registers>
    var writes: seq<BusWrite>

    constructor (devices: map<int, Registers>)
      ensures this.devices == devices && writes == []
    {
      this.devices := devices;
      writes := [];
    }

    method WriteByteData(address: int, register: int, value: int) returns (ok: bool)
      modifies this
      ensures ok <==> address in devices
      ensures writes == old(writes) + (if ok then [BusWrite(address, register, value)] else [])
    {
      ok := address in devices;
      if ok {
        writes := writes + [BusWrite(address, register, value)];
      }
    }

    method ReadBlockData(address: int, register: int, n: nat) returns (r: Option<seq<byte>>)
      ensures r.Some? <==> address in devices
      ensures r.Some? ==> r.value == Block(devices[address], register, n)
    {
      r := if address in devices then Some(Block(devices[address], register, n)) else None;
    }
  }

  const RegData: int := 0xF7
  const RegControl: int := 0xF4
  const RegControlHum: int := 0xF2
  const OversampleTemp: int := 2
  const OversamplePres: int := 2
  const OversampleHum: int := 2
  const Mode: int := 1

  /** The control byte: temperature and pressure oversampling and the mode in their bit fields. */
  function ControlByte(osrsT: nat, osrsP: nat, mode: nat): (c: int)
    requires osrsT < 8 && osrsP < 8 && mode < 4
    ensures 0 <= c < 256
    ensures c / 32 == osrsT && c / 4 % 8 == osrsP && c % 4 == mode
  {
    osrsT * 32 + osrsP * 4 + mode
  }

  /** The two configuration writes of a poll, humidity oversampling first. */
  function ConfigWrites(address: int): (w: seq<BusWrite>)
    ensures w == [BusWrite(address, 0xF2, 2), BusWrite(address, 0xF4, 0x49)]
  {
    [BusWrite(address, RegControlHum, OversampleHum),
     BusWrite(address, RegControl, ControlByte(OversampleTemp, OversamplePres, Mode))]
  }

  // ---------------------------------------------------------------------------
  // Register decoding

  function Pow2(k: nat): (p: nat)
    ensures p >= 1
  {
    if k == 0 then 1 else 2 * Pow2(k - 1)
  }

  lemma Pow2Values()
    ensures Pow2(3) == 8 && Pow2(4) == 16 && Pow2(7) == 128 && Pow2(8) == 256
    ensures Pow2(11) == 2048 && Pow2(12) == 4096 && Pow2(14) == 16384 && Pow2(15) == 32768
    ensures Pow2(16) == 65536
  {
  }

  /** Python's `x >> k`: division rounding toward minus infinity, as `/` by a positive divisor is here. */
  function Shr(x: int, k: nat): int {
    x / Pow2(k)
  }

  /** The two's-complement reading of a `bits`-bit unsigned value. */
  function Signed(u: int, bits: nat): (s: int)
    requires bits >= 1 && 0 <= u < Pow2(bits)
    ensures -(Pow2(bits - 1) as int) <= s < Pow2(bits - 1)
    ensures (s - u) % Pow2(bits) == 0
  {
    var p := Pow2(bits);
    assert p == 2 * Pow2(bits - 1);
    NegatedModulus(p);
    if u >= Pow2(bits - 1) then u - p else u
  }

  /** `-p` and `0` are both multiples of `p`. */
  lemma NegatedModulus(p: int)
    requires p > 0
    ensures (-p) % p == 0 && 0 % p == 0
  {
    var q, r := (-p) / p, (-p) % p;
    assert p * (q + 1) == -r;
    MulBounds(p, q + 1);
  }

  /** A 20-bit raw value from its high byte, middle byte and the high nibble of its low byte. */
  function Raw20(hi: byte, mid: byte, lo: byte): (r: int)
    ensures 0 <= r < 0x100000
    ensures r / 4096 == hi as int && r / 16 % 256 == mid as int && r % 16 == lo as int / 16
  {
    hi as int * 4096 + mid as int * 16 + lo as int / 16
  }

  /** A 16-bit big-endian raw value. */
  function Raw16(hi: byte, lo: byte): (r: int)
    ensures 0 <= r < 0x10000
    ensures r / 256 == hi as int && r % 256 == lo as int
  {
    hi as int * 256 + lo as int
  }

  /** The eight measurement registers: pressure, temperature, humidity. */
  datatype RawValues = RawValues(pressure: int, temperature: int, humidity: int)

  function DecodeRaw(d: seq<byte>): (r: RawValues)
    requires |d| == 8
    ensures 0 <= r.pressure < 0x100000 && 0 <= r.temperature < 0x100000 && 0 <= r.humidity < 0x10000
  {
    RawValues(Raw20(d[0], d[1], d[2]), Raw20(d[3], d[4], d[5]), Raw16(d[6], d[7]))
  }

  /** A little-endian 16-bit field at `i`. */
  function U16(b: seq<byte>, i: nat): (u: int)
    requires i + 1 < |b|
    ensures 0 <= u < 0x10000
  {
    b[i] as int + 256 * b[i + 1] as int
  }

  function S16(b: seq<byte>, i: nat): (s: int)
    requires i + 1 < |b|
    ensures -0x8000 <= s < 0x8000
  {
    Pow2Values();
    Signed(U16(b, i), 16)
  }

  /** The trimming parameters. */
  datatype Calibration = Calibration(
    t1: int, t2: int, t3: int,
    p1: int, p2: int, p3: int, p4: int, p5: int, p6: int, p7: int, p8: int, p9: int,
    h1: int, h2: int, h3: int, h4: int, h5: int, h6: int)

  /**
   * H4 and H5 as the reader computes them: the six nibbles of registers 0xE4..0xE6 are
   * regrouped into three bytes whose first and last twelve bits are read as signed numbers.
   */
  function HumidityNibbles(e4: byte, e5: byte, e6: byte): (h: (int, int))
    ensures -2048 <= h.0 < 2048 && -2048 <= h.1 < 2048
  {
    var n1, n2 := e4 as int / 16, e4 as int % 16;
    var n3, n4 := e5 as int / 16, e5 as int % 16;
    var n5, n6 := e6 as int / 16, e6 as int % 16;
    var x0, x1, x2 := n1 * 16 + n2, n4 * 16 + n5, n6 * 16 + n3;
    (Signed(x0 * 16 + x1 / 16, 12), Signed(x1 % 16 * 256 + x2, 12))
  }

  /**
   * The regrouping agrees with the datasheet's definition: H4 is the signed byte 0xE4
   * times 16 plus the low nibble of 0xE5, H5 the signed byte 0xE6 times 16 plus its high nibble.
   */
  lemma HumidityNibblesDatasheet(e4: byte, e5: byte, e6: byte)
    ensures HumidityNibbles(e4, e5, e6).0 == Signed(e4 as int, 8) * 16 + e5 as int % 16
    ensures HumidityNibbles(e4, e5, e6).1 == Signed(e6 as int, 8) * 16 + e5 as int / 16
  {
    var x1 := e5 as int % 16 * 16 + e6 as int / 16;
    assert x1 / 16 == e5 as int % 16 && x1 % 16 == e6 as int / 16;
    assert Pow2(11) == 2048 && Pow2(12) == 4096 && Pow2(7) == 128 && Pow2(8) == 256;
  }

  /**
   * The 32 calibration bytes (see `CalibrationBytes`) decoded field by field as the
   * reader's layout says, H6 read as an unsigned byte.
   */
  function DecodeCalibrationAsWritten(b: seq<byte>): (c: Calibration)
    requires |b| == 32
    ensures 0 <= c.t1 < 0x10000 && 0 <= c.p1 < 0x10000 && 0 <= c.h1 < 256 && 0 <= c.h3 < 256
    ensures 0 <= c.h6 < 256
  {
    var h := HumidityNibbles(b[28], b[29], b[30]);
    Calibration(U16(b, 0), S16(b, 2), S16(b, 4),
                U16(b, 6), S16(b, 8), S16(b, 10), S16(b, 12), S16(b, 14), S16(b, 16), S16(b, 18),
                S16(b, 20), S16(b, 22),
                b[24] as int, S16(b, 25), b[27] as int, h.0, h.1, b[31] as int)
  }

  /** The calibration with H6 read as the signed byte the datasheet defines. */
  function DecodeCalibration(b: seq<byte>): (c: Calibration)
    requires |b| == 32
    ensures -128 <= c.h6 < 128 && (c.h6 - b[31] as int) % 256 == 0
    ensures c == DecodeCalibrationAsWritten(b).(h6 := c.h6)
  {
    DecodeCalibrationAsWritten(b).(h6 := Signed(b[31] as int, 8))
  }

  /** A value of 0xFF in register 0xE7 is H6 = -1, which the unsigned reading takes as 255. */
  lemma H6SignDiffers(b: seq<byte>)
    requires |b| == 32 && b[31] == 0xFF
    ensures DecodeCalibrationAsWritten(b).h6 == 255
    ensures DecodeCalibration(b).h6 == -1
  {
    assert Pow2(7) == 128 && Pow2(8) == 256;
  }

  /** For an H6 byte below 0x80 the signed and the unsigned readings give the same calibration. */
  lemma H6Agrees(b: seq<byte>)
    requires |b| == 32 && b[31] < 0x80
    ensures DecodeCalibration(b) == DecodeCalibrationAsWritten(b)
  {
    assert Pow2(7) == 128 && Pow2(8) == 256;
  }

  /** The calibration block as the reader reads it: 24 bytes from 0x88, one from 0xA1, seven from 0xE1. */
  function CalibrationBytes(regs: Registers): (b: seq<byte>)
    ensures |b| == 32 && b[24] == regs(0xA1) && b[25] == regs(0xE1) && b[31] == regs(0xE7)
    ensures forall i :: 0 <= i < 24 ==> b[i] == regs(0x88 + i)
  {
    Block(regs, 0x88, 24) + Block(regs, 0xA1, 1) + Block(regs, 0xE1, 7)
  }

  // ---------------------------------------------------------------------------
  // Compensation

  /** The fine temperature, in the integer arithmetic of datasheet section 4.2.3. */
  function TFine(rawT: int, c: Calibration): int {
    var var1 := Shr((Shr(rawT, 3) - c.t1 * 2) * c.t2, 11);
    var d := Shr(rawT, 4) - c.t1;
    var var2 := Shr(Shr(d * d, 12) * c.t3, 14);
    var1 + var2
  }

  /** The temperature in hundredths of a degree: `tFine * 5 / 256`, rounded to the nearest, halves up. */
  function Temperature100(tFine: int): (t: int)
    ensures 256 * t - 128 <= tFine * 5 < 256 * t + 128
  {
    Shr(tFine * 5 + 128, 8)
  }

  /** One reading worked through: raw 519888 with T1 = 27504, T2 = 26435, T3 = -1000 is 25.08 degrees. */
  lemma TemperatureExample(c: Calibration)
    requires c.t1 == 27504 && c.t2 == 26435 && c.t3 == -1000
    ensures TFine(519888, c) == 128422
    ensures Temperature100(128422) == 2508
  {
    assert Pow2(3) == 8 && Pow2(4) == 16 && Pow2(8) == 256;
    assert Pow2(11) == 2048 && Pow2(12) == 4096 && Pow2(14) == 16384;
    assert Shr(519888, 3) == 64986;
    assert Shr(519888, 4) == 32493;
    assert Shr(9978 * 26435, 11) == 128793;
    assert Shr(4989 * 4989, 12) == 6076;
    assert Shr(6076 * -1000, 14) == -371;
  }

  /** The pressure in pascal, on reals; exactly zero when the divisor of the formula vanishes. */
  function PressurePa(tFine: int, rawP: int, c: Calibration): (p: real)
    ensures c.p1 == 0 ==> p == 0.0
  {
    var v1 := tFine as real / 2.0 - 64000.0;
    var v2 := v1 * v1 * c.p6 as real / 32768.0;
    var v2' := v2 + v1 * c.p5 as real * 2.0;
    var v2'' := v2' / 4.0 + c.p4 as real * 65536.0;
    var w1 := (c.p3 as real * v1 * v1 / 524288.0 + c.p2 as real * v1) / 524288.0;
    var w := (1.0 + w1 / 32768.0) * c.p1 as real;
    if w == 0.0 then 0.0
    else
      var p0 := 1048576.0 - rawP as real;
      var p1 := ((p0 - v2'' / 4096.0) * 6250.0) / w;
      var u1 := c.p9 as real * p1 * p1 / 2147483648.0;
      var u2 := p1 * c.p8 as real / 32768.0;
      p1 + (u1 + u2 + c.p7 as real) / 16.0
  }

  /** The relative humidity before clamping, on reals. */
  function HumidityUnclamped(tFine: int, rawH: int, c: Calibration): real {
    var h := tFine as real - 76800.0;
    var h' := (rawH as real - (c.h4 as real * 64.0 + c.h5 as real / 16384.0 * h))
              * (c.h2 as real / 65536.0 * (1.0 + c.h6 as real / 67108864.0 * h
                                          * (1.0 + c.h3 as real / 67108864.0 * h)));
    h' * (1.0 - c.h1 as real * h' / 524288.0)
  }

  /** The clamp: above 100 becomes the integer 100, below 0 the integer 0, anything else is kept. */
  function ClampHumidity(h: real): (v: Value)
    ensures v.Float? <==> 0.0 <= h <= 100.0
    ensures v.Float? ==> v.r == h
    ensures v.Int? ==> (h > 100.0 && v.i == 100) || (h < 0.0 && v.i == 0)
  {
    if h > 100.0 then Int(100) else if h < 0.0 then Int(0) else Float(h)
  }

  /** The three channels of one measurement. */
  function Channels(calBytes: seq<byte>, data: seq<byte>): (cs: seq<ChannelValue>)
    requires |calBytes| == 32 && |data| == 8
    ensures |cs| == 3
    ensures cs[0].channelName == "TEMPERATURE" && cs[0].unit == Some("\U{00B0}C")
    ensures cs[1].channelName == "PRESSURE" && cs[1].unit == Some("hPa")
    ensures cs[2].channelName == "HUMIDITY" && cs[2].unit == Some("%")
  {
    var c := DecodeCalibration(calBytes);
    var raw := DecodeRaw(data);
    var tFine := TFine(raw.temperature, c);
    [ChannelValue("TEMPERATURE", Float(Temperature100(tFine) as real / 100.0), Some("\U{00B0}C")),
     ChannelValue("PRESSURE", Float(PressurePa(tFine, raw.pressure, c) / 100.0), Some("hPa")),
     ChannelValue("HUMIDITY", ClampHumidity(HumidityUnclamped(tFine, raw.humidity, c)), Some("%"))]
  }

  /** What a poll at `address` returns: None when no device answers there. */
  function PollResult(devices: map<int, Registers>, address: int, now: int): (r: Option<Sample>)
    ensures r.Some? <==> address in devices
    ensures r.Some? ==> r.value.time == now && r.value.meterId == "" && |r.value.channels| == 3
  {
    if address in devices
    then Some(Sample(now, "", Channels(CalibrationBytes(devices[address]), Block(devices[address], RegData, 8))))
    else None
  }

  // ---------------------------------------------------------------------------
  // The reader

  class Bme280Reader {
    var i2cAddress: int

    /** Store the parsed address, then replace it by the default when it is out of range. */
    constructor (parsed: int)
      ensures i2cAddress == RangeChecked(parsed)
    {
      i2cAddress := parsed;
      new;
      if i2cAddress >= 1024 {
        i2cAddress := DefaultAddress;
      }
    }

    /**
     * `poll`: configure the sensor, read calibration and measurement, and return the
     * three channels; an absent device (OSError) gives None and nothing is written.
     */
    method Poll(bus: I2cBus, now: int) returns (r: Option<Sample>)
      modifies bus
      ensures r == PollResult(bus.devices, i2cAddress, now)
      ensures bus.writes == old(bus.writes) + (if i2cAddress in bus.devices then ConfigWrites(i2cAddress) else [])
    {
      var ok := bus.WriteByteData(i2cAddress, RegControlHum, OversampleHum);
      if !ok {
        return None;
      }
      var control := ControlByte(OversampleTemp, OversamplePres, Mode);
      ok := bus.WriteByteData(i2cAddress, RegControl, control);
      var cal1 := bus.ReadBlockData(i2cAddress, 0x88, 24);
      var cal2 := bus.ReadBlockData(i2cAddress, 0xA1, 1);
      var cal3 := bus.ReadBlockData(i2cAddress, 0xE1, 7);
      var data := bus.ReadBlockData(i2cAddress, RegData, 8);
      var sample := NewSample(now);
      var cs := Channels(cal1.value + cal2.value + cal3.value, data.value);
      sample := sample.(channels := sample.channels + [cs[0]]);
      sample := sample.(channels := sample.channels + [cs[1]]);
      sample := sample.(channels := sample.channels + [cs[2]]);
      assert sample.channels == cs;
      r := Some(sample);
    }
  }

  /** The constructor: the address setting, then a reader holding it. */
  method NewReader(m: MeterAddress) returns (r: Result<Bme280Reader, AddressError>)
    ensures r.Err? <==> Address(m).Err?
    ensures r.Err? ==> r.error == Address(m).error
    ensures r.Ok? ==> fresh(r.value) && r.value.i2cAddress == Address(m).value
  {
    match m
    case AddrText(s) =>
      var parsed := ParseText(s);
      if parsed.Err? {
        return Err(parsed.error);
      }
      var reader := new Bme280Reader(parsed.value);
      r := Ok(reader);
    case AddrInt(i) =>
      var reader := new Bme280Reader(i);
      r := Ok(reader);
  }

  const DetectAddresses: seq<string> := ["0x76", "0x77"]

  /** Appended to the address to name a device found on the bus. */
  const BusSuffix: string := ['@'] + "I2C"

  /** The device found at one of the probed addresses. */
  function DeviceAt(address: string, sample: Sample): Device {
    Device(address + BusSuffix, address, Protocol, sample.channels)
  }

  /** The devices detection lists after probing the first `n` addresses. */
  function DetectedUpTo(devices: map<int, Registers>, now: int, n: nat): (ds: seq<Device>)
    requires n <= |DetectAddresses|
    ensures |ds| <= n
  {
    if n == 0 then []
    else
      var address := DetectAddresses[n - 1];
      var p := PollResult(devices, (if n == 1 then 0x76 else 0x77), now);
      DetectedUpTo(devices, now, n - 1) + (if p.Some? then [DeviceAt(address, p.value)] else [])
  }

  /** Detection lists the device at 0x76 first, then the one at 0x77, each exactly when it answers. */
  lemma DetectedSpec(devices: map<int, Registers>, now: int)
    ensures |DetectedUpTo(devices, now, 2)| == (if 0x76 in devices then 1 else 0) + (if 0x77 in devices then 1 else 0)
    ensures 0x76 in devices ==> DetectedUpTo(devices, now, 2)[0].identifier == "0x76" + BusSuffix
    ensures 0x77 in devices ==>
      DetectedUpTo(devices, now, 2)[|DetectedUpTo(devices, now, 2)| - 1].identifier == "0x77" + BusSuffix
  {
    var first := if 0x76 in devices then [DeviceAt("0x76", PollResult(devices, 0x76, now).value)] else [];
    var second := if 0x77 in devices then [DeviceAt("0x77", PollResult(devices, 0x77, now).value)] else [];
    assert DetectedUpTo(devices, now, 1) == first;
    assert DetectedUpTo(devices, now, 2) == first + second;
  }

  /** One probe of `detect`: a new reader at the address, polled; the device found, if it answers. */
  method ProbeAddress(bus: I2cBus, now: int, address: string, addr: int) returns (d: seq<Device>)
    requires Address(AddrText(address)) == Ok(addr)
    modifies bus
    ensures d == (if PollResult(bus.devices, addr, now).Some? then [DeviceAt(address, PollResult(bus.devices, addr, now).value)] else [])
  {
    var reader := NewReader(AddrText(address));
    var sample := reader.value.Poll(bus, now);
    d := if sample.Some? then [DeviceAt(address, sample.value)] else [];
  }

  /** `detect`: poll a new reader at each of the two addresses and list those that answer. */
  method Detect(bus: I2cBus, now: int) returns (found: seq<Device>)
    modifies bus
    ensures found == DetectedUpTo(bus.devices, now, 2)
  {
    DetectAddressValues();
    found := [];
    var i := 0;
    while i < |DetectAddresses|
      invariant 0 <= i <= |DetectAddresses|
      invariant found == DetectedUpTo(bus.devices, now, i)
    {
      var d := ProbeAddress(bus, now, DetectAddresses[i], if i == 0 then 0x76 else 0x77);
      found := found + d;
      i := i + 1;
    }
  }
}
