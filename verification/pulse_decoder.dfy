/** The RHT03 sensor's 40-bit frame: from recorded pulse lengths to humidity and
    temperature, in the AVR's 16-bit arithmetic. */
module PulseDecoder {

  /** A 16-bit int. */
  function Int16(x: int): int {
    (x + 0x8000) % 0x10000 - 0x8000
  }

  /** A byte cast; also what & 0xFF leaves. */
  function Byte(x: int): nat {
    x % 256
  }

  predicate LowOk(p: int) {
    35 < p < 75
  }

  predicate IsBit(p: int) {
    10 < p < 40 || 60 < p < 85
  }

  function BitOf(p: int): nat {
    if 60 < p < 85 then 1 else 0
  }

  /** n bits from index i on: each a low pulse, then the pulse that is the bit. */
  predicate BitsOk(ts: seq<int>, i: nat, n: nat)
    requires i + 2 * n <= |ts|
  {
    forall b :: 0 <= b < n ==> LowOk(ts[i + 2 * b]) && IsBit(ts[i + 2 * b + 1])
  }

  /** Their value, most significant bit first. */
  function BitsValue(ts: seq<int>, i: nat, n: nat): nat
    requires i + 2 * n <= |ts|
  {
    if n == 0 then 0 else 2 * BitsValue(ts, i, n - 1) + BitOf(ts[i + 2 * n - 1])
  }

  function Checksum(humidity: nat, temperature: nat): nat {
    (humidity / 256 + humidity % 256 + temperature / 256 + temperature % 256) % 256
  }

  /** Sign and magnitude, as the sensor sends temperatures. */
  function SignMagnitude(word: nat): int {
    if word >= 0x8000 then -(word - 0x8000) else word
  }

  /** The shift of a 16-bit int, one bit in. */
  lemma ShiftIsDoubling(value: nat, bit: nat)
    requires bit <= 1
    ensures Int16(2 * Int16(value) + bit) == Int16(2 * value + bit)
  {
    var k := (value + 0x8000) / 0x10000;
    assert Int16(value) == value - k * 0x10000;
    assert 2 * Int16(value) + bit + 0x8000 == (2 * value + bit + 0x8000) + (-2 * k) * 0x10000;
    ModShift(2 * value + bit + 0x8000, -2 * k);
  }

  lemma ModShift(x: int, k: int)
    ensures (x + k * 0x10000) % 0x10000 == x % 0x10000
  {
  }

  /** Casts of the sign-extended word give its two bytes. */
  lemma BytesOfWord(word: nat)
    requires word < 0x10000
    ensures Byte(Int16(word) / 256) == word / 256 && Byte(Int16(word)) == word % 256
  {
    var high, low := word / 256, word % 256;
    assert word == 256 * high + low;
    if word < 0x8000 {
      assert Int16(word) == word;
    } else {
      assert Int16(word) == 256 * (high - 256) + low;
      assert Int16(word) / 256 == high - 256;
    }
  }

  /** The sum of the four byte casts, cast to a byte. */
  function ChecksumByte(humid16: int, temp16: int): nat {
    Byte(Byte(humid16 / 256) + Byte(humid16) + Byte(temp16 / 256) + Byte(temp16))
  }

  lemma WordArithmetic(h: nat, t: nat, c: nat)
    requires h < 0x10000 && t < 0x10000 && c < 0x100
    ensures ChecksumByte(Int16(h), Int16(t)) == Checksum(h, t)
    ensures Int16(c) == c
    ensures Int16(t) == if t >= 0x8000 then t - 0x10000 else t
  {
    BytesOfWord(h);
    BytesOfWord(t);
  }

  lemma FrameNumbers(f: Frame)
    requires f.InRange()
    ensures Checksum(f.humidity, f.temperature)
         == (f.humidity / 256 + f.humidity % 256 + f.temperature / 256 + f.temperature % 256) % 256
    ensures Int16(f.humidity) == if f.humidity < 0x8000 then f.humidity else f.humidity - 0x10000
    ensures SignMagnitude(f.temperature) == if f.temperature < 0x8000 then f.temperature else 0x8000 - f.temperature
  {
    WordArithmetic(f.temperature, f.humidity, 0);
  }

  lemma WordsInRange(ts: seq<int>)
    requires |ts| == 88
    ensures BitsValue(ts, 5, 16) < 0x10000 && BitsValue(ts, 37, 16) < 0x10000 && BitsValue(ts, 69, 8) < 0x100
  {
    BitsValueBound(ts, 5, 16);
    BitsValueBound(ts, 37, 16);
    BitsValueBound(ts, 69, 8);
    assert Pow2(8) == 0x100 && Pow2(16) == 0x10000;
  }

  class Sensor {
    const timings: array<int>
    var errorFlag: bool
    var temperature: int
    var humidity: int

    constructor ()
      ensures timings.Length == 88 && !errorFlag
    {
      timings := new int[88];
      errorFlag, temperature, humidity := false, 0, 0;
    }

    method CheckPreBitLowPulse(pulseMicros: int)
      modifies this`errorFlag
      ensures errorFlag == (old(errorFlag) || !LowOk(pulseMicros))
      ensures errorFlag <==> old(errorFlag) || !(35 < pulseMicros < 75)
    {
      if pulseMicros <= 35 || pulseMicros >= 75 {
        errorFlag := true;
      }
    }

    method ShiftNextBit(oldValue: int, pulseMicros: int) returns (r: int)
      modifies this`errorFlag
      ensures errorFlag == (old(errorFlag) || !IsBit(pulseMicros))
      ensures r == if IsBit(pulseMicros) then Int16(2 * oldValue + BitOf(pulseMicros)) else -1
      ensures errorFlag <==> old(errorFlag) || !(10 < pulseMicros < 40 || 60 < pulseMicros < 85)
      ensures 10 < pulseMicros < 40 ==> r == Int16(2 * oldValue)
      ensures 60 < pulseMicros < 85 ==> r == Int16(2 * oldValue + 1)
    {
      if pulseMicros > 10 && pulseMicros < 40 {
        return Int16(2 * oldValue);
      } else if pulseMicros > 60 && pulseMicros < 85 {
        return Int16(2 * oldValue + 1);
      } else {
        errorFlag := true;
        return -1;
      }
    }

    /** Reads stay inside the array; the error flag is sticky. */
    method ReadNBits(start: nat, nbits: nat) returns (result: int, timingsIdx: nat)
      requires start + 2 * nbits <= timings.Length
      modifies this`errorFlag
      ensures timingsIdx == start + 2 * nbits
      ensures errorFlag == (old(errorFlag) || !BitsOk(timings[..], start, nbits))
      ensures !errorFlag ==> result == Int16(BitsValue(timings[..], start, nbits))
    {
      timingsIdx := start;
      result := 0;
      ghost var ts := timings[..];
      ghost var n := 0;
      while timingsIdx != start + 2 * nbits
        invariant n <= nbits && timingsIdx == start + 2 * n
        invariant errorFlag == (old(errorFlag) || !BitsOk(ts, start, n))
        invariant !errorFlag ==> result == Int16(BitsValue(ts, start, n))
        decreases start + 2 * nbits - timingsIdx
      {
        CheckPreBitLowPulse(timings[timingsIdx]);
        result := ShiftNextBit(result, timings[timingsIdx + 1]);
        ShiftIsDoubling(BitsValue(ts, start, n), BitOf(ts[timingsIdx + 1]));
        OneMoreBitOk(ts, start, n);
        timingsIdx := timingsIdx + 2;
        n := n + 1;
      }
    }

    /** readSensor, once the pulses of a frame have been recorded: true exactly when
        the checksum matches, and then the outputs are the values sent; on false they
        are not modified. */
    method ReadSensor(ghost f: Frame) returns (ok: bool)
      requires timings.Length == 88 && f.InRange() && SendsFrame(timings[..], f)
      modifies this
      ensures ok <==> f.sum == (f.humidity / 256 + f.humidity % 256 + f.temperature / 256 + f.temperature % 256) % 256
      ensures ok ==> humidity == if f.humidity < 0x8000 then f.humidity else f.humidity - 0x10000
      ensures ok ==> temperature == if f.temperature < 0x8000 then f.temperature else 0x8000 - f.temperature
      ensures !ok ==> humidity == old(humidity) && temperature == old(temperature)
    {
      FrameArrives(timings[..], f);
      FrameNumbers(f);
      errorFlag := false;
      AnalyseTimings();
      return !errorFlag;
    }

    /** The same for a reading the sensor takes: what it measures is what comes out. */
    method ReadMeasured(ghost decidegrees: int, ghost decipercent: nat) returns (ok: bool)
      requires -0x8000 < decidegrees < 0x8000 && decipercent < 0x8000
      requires timings.Length == 88 && SendsFrame(timings[..], Measured(decidegrees, decipercent))
      modifies this
      ensures ok && temperature == decidegrees && humidity == decipercent
    {
      ok := ReadSensor(Measured(decidegrees, decipercent));
    }

    /** What the 80 pulses from the sixth on say. */
    ghost predicate FrameOk()
      requires timings.Length == 88
      reads timings
    {
      && BitsOk(timings[..], 5, 16) && BitsOk(timings[..], 37, 16) && BitsOk(timings[..], 69, 8)
      && Checksum(BitsValue(timings[..], 5, 16), BitsValue(timings[..], 37, 16)) == BitsValue(timings[..], 69, 8)
    }

    /** The outputs are written if and only if no error was pending, every pulse is
        within tolerance and the checksum holds; otherwise they are untouched and
        the error flag is set. */
    method AnalyseTimings()
      requires timings.Length == 88
      modifies this
      ensures errorFlag == (old(errorFlag) || !FrameOk())
      ensures !errorFlag ==>
                && humidity == Int16(BitsValue(timings[..], 5, 16))
                && temperature == SignMagnitude(BitsValue(timings[..], 37, 16))
      ensures errorFlag ==> humidity == old(humidity) && temperature == old(temperature)
    {
      var humid16, i1 := ReadNBits(5, 16);
      if errorFlag {
        return;
      }
      var temp16, i2 := ReadNBits(i1, 16);
      if errorFlag {
        return;
      }
      var checksum8, i3 := ReadNBits(i2, 8);
      if errorFlag {
        return;
      }
      ghost var ts := timings[..];
      WordsInRange(ts);
      WordArithmetic(BitsValue(ts, 5, 16), BitsValue(ts, 37, 16), BitsValue(ts, 69, 8));
      if ChecksumByte(humid16, temp16) != checksum8 {
        errorFlag := true;
      }
      // Bit 15 is the sign bit; clearing it leaves the magnitude.
      if temp16 < 0 {
        temp16 := -(temp16 + 0x8000);
      }
      if !errorFlag {
        temperature := temp16;
        humidity := humid16;
      }
    }
  }

  function Pow2(n: nat): nat {
    if n == 0 then 1 else 2 * Pow2(n - 1)
  }

  lemma {:induction false} BitsValueBound(ts: seq<int>, i: nat, n: nat)
    requires i + 2 * n <= |ts|
    ensures BitsValue(ts, i, n) < Pow2(n)
    decreases n
  {
    if n > 0 { BitsValueBound(ts, i, n - 1); }
  }

  // ------------------------------------------------------------------- the sender's side

  /** The n bits of a value, most significant first. */
  function Bits(v: nat, n: nat): (r: seq<nat>)
    ensures |r| == n
  {
    if n == 0 then [] else Bits(v / 2, n - 1) + [v % 2]
  }

  /** Pulses anywhere inside the tolerance windows of the given bits. */
  predicate Sends(ts: seq<int>, i: nat, bits: seq<nat>)
    requires i + 2 * |bits| <= |ts|
  {
    forall b :: 0 <= b < |bits| ==>
      LowOk(ts[i + 2 * b]) && if bits[b] == 0 then 10 < ts[i + 2 * b + 1] < 40 else 60 < ts[i + 2 * b + 1] < 85
  }

  /** Which pulses count at all, and that no other ones do. */
  lemma BitsOkExactly(ts: seq<int>, i: nat, n: nat)
    requires i + 2 * n <= |ts|
    ensures BitsOk(ts, i, n) <==>
              forall b :: 0 <= b < n ==>
                && 35 < ts[i + 2 * b] < 75
                && (10 < ts[i + 2 * b + 1] < 40 || 60 < ts[i + 2 * b + 1] < 85)
  {
  }

  lemma LastBitSent(ts: seq<int>, i: nat, front: seq<nat>, bit: nat)
    requires i + 2 * |front| + 2 <= |ts| && bit <= 1 && Sends(ts, i, front + [bit])
    ensures Sends(ts, i, front)
    ensures LowOk(ts[i + 2 * |front|]) && IsBit(ts[i + 2 * |front| + 1]) && BitOf(ts[i + 2 * |front| + 1]) == bit
  {
    var bits := front + [bit];
    forall b | 0 <= b < |front| ensures bits[b] == front[b] {
    }
    assert bits[|front|] == bit;
  }

  lemma OneMoreBitOk(ts: seq<int>, i: nat, n: nat)
    requires i + 2 * n + 2 <= |ts|
    ensures BitsOk(ts, i, n + 1) <==> BitsOk(ts, i, n) && LowOk(ts[i + 2 * n]) && IsBit(ts[i + 2 * n + 1])
  {
  }

  lemma {:induction false} SentBitsArrive(ts: seq<int>, i: nat, v: nat, n: nat)
    requires i + 2 * n <= |ts| && v < Pow2(n) && Sends(ts, i, Bits(v, n))
    ensures BitsOk(ts, i, n) && BitsValue(ts, i, n) == v
    decreases n
  {
    if n > 0 {
      var front := Bits(v / 2, n - 1);
      LastBitSent(ts, i, front, v % 2);
      SentBitsArrive(ts, i, v / 2, n - 1);
      OneMoreBitOk(ts, i, n - 1);
    }
  }

  /** The five bytes of a frame: two words and their checksum. */
  datatype Frame = Frame(humidity: nat, temperature: nat, sum: nat) {
    predicate InRange() {
      humidity < 0x10000 && temperature < 0x10000 && sum < 0x100
    }

    function Bytes(): seq<nat> {
      [humidity / 256, humidity % 256, temperature / 256, temperature % 256, sum]
    }
  }

  /** The recorded pulses of 40 bits sent with the nominal lengths. */
  function Nominal(bits: seq<nat>): (ts: seq<int>)
    requires |bits| == 40
    ensures |ts| == 88
  {
    seq(88, i requires 0 <= i < 88 =>
      if i < 5 || i >= 85 then 80 else if i % 2 == 1 then 50 else if bits[(i - 6) / 2] == 0 then 26 else 70)
  }

  lemma NominalAt(bits: seq<nat>, b: nat)
    requires |bits| == 40 && b < 40
    ensures Nominal(bits)[5 + 2 * b] == 50 && Nominal(bits)[6 + 2 * b] == if bits[b] == 0 then 26 else 70
  {
    assert (5 + 2 * b) % 2 == 1 && (6 + 2 * b) % 2 == 0 && (6 + 2 * b - 6) / 2 == b;
  }

  lemma NominalSends(h: seq<nat>, t: seq<nat>, c: seq<nat>)
    requires |h| == |t| == 16 && |c| == 8
    ensures var ts := Nominal(h + t + c); Sends(ts, 5, h) && Sends(ts, 37, t) && Sends(ts, 69, c)
  {
    ThreeParts(h, t, c);
    NominalPart(h + t + c, h, 0);
    NominalPart(h + t + c, t, 16);
    NominalPart(h + t + c, c, 32);
  }

  lemma ThreeParts(h: seq<nat>, t: seq<nat>, c: seq<nat>)
    requires |h| == |t| == 16 && |c| == 8
    ensures var bits := h + t + c; |bits| == 40 && bits[0..16] == h && bits[16..32] == t && bits[32..40] == c
  {
  }

  /** Every frame can be sent. */
  lemma FrameCanBeSent(f: Frame)
    ensures SendsFrame(Nominal(Bits(f.humidity, 16) + Bits(f.temperature, 16) + Bits(f.sum, 8)), f)
  {
    NominalSends(Bits(f.humidity, 16), Bits(f.temperature, 16), Bits(f.sum, 8));
  }

  lemma NominalPart(bits: seq<nat>, part: seq<nat>, at: nat)
    requires |bits| == 40 && at + |part| <= 40 && bits[at..at + |part|] == part
    ensures Sends(Nominal(bits), 5 + 2 * at, part)
  {
    var ts := Nominal(bits);
    forall b | 0 <= b < |part|
      ensures LowOk(ts[5 + 2 * at + 2 * b])
      ensures if part[b] == 0 then 10 < ts[5 + 2 * at + 2 * b + 1] < 40 else 60 < ts[5 + 2 * at + 2 * b + 1] < 85
    {
      NominalAt(bits, at + b);
      assert bits[at..at + |part|][b] == bits[at + b];
      assert 5 + 2 * at + 2 * b == 5 + 2 * (at + b) && 5 + 2 * at + 2 * b + 1 == 6 + 2 * (at + b);
    }
  }

  /** What the sensor sends for a temperature and a humidity: sign bit and magnitude,
      and the sum of the four bytes. */
  function Measured(decidegrees: int, decipercent: nat): (f: Frame)
    requires -0x8000 < decidegrees < 0x8000 && decipercent < 0x8000
    ensures f.InRange()
  {
    var t := if decidegrees < 0 then 0x8000 - decidegrees else decidegrees;
    Frame(decipercent, t, (decipercent / 256 + decipercent % 256 + t / 256 + t % 256) % 256)
  }

  predicate SendsFrame(ts: seq<int>, f: Frame)
    requires |ts| == 88
  {
    Sends(ts, 5, Bits(f.humidity, 16)) && Sends(ts, 37, Bits(f.temperature, 16)) && Sends(ts, 69, Bits(f.sum, 8))
  }

  lemma FrameArrives(ts: seq<int>, f: Frame)
    requires |ts| == 88 && f.InRange() && SendsFrame(ts, f)
    ensures BitsOk(ts, 5, 16) && BitsOk(ts, 37, 16) && BitsOk(ts, 69, 8)
    ensures BitsValue(ts, 5, 16) == f.humidity && BitsValue(ts, 37, 16) == f.temperature
    ensures BitsValue(ts, 69, 8) == f.sum
  {
    assert Pow2(8) == 0x100 && Pow2(16) == 0x10000;
    SentBitsArrive(ts, 5, f.humidity, 16);
    SentBitsArrive(ts, 37, f.temperature, 16);
    SentBitsArrive(ts, 69, f.sum, 8);
  }

  /** A correct frame changed in exactly one byte no longer has a correct checksum. */
  lemma OneByteChangeIsDetected(f: Frame, g: Frame, k: nat)
    requires f.InRange() && g.InRange() && k < 5
    requires f.sum == Checksum(f.humidity, f.temperature)
    requires forall i :: 0 <= i < 5 ==> (f.Bytes()[i] != g.Bytes()[i] <==> i == k)
    ensures g.sum != Checksum(g.humidity, g.temperature)
  {
    BytesFit(f);
    BytesFit(g);
    ByteChange(f.Bytes(), g.Bytes(), k);
  }

  lemma BytesFit(f: Frame)
    requires f.InRange()
    ensures forall i :: 0 <= i < 5 ==> f.Bytes()[i] < 256
    ensures Checksum(f.humidity, f.temperature) == DataSum(f.Bytes()) % 256
  {
  }

  function DataSum(bytes: seq<nat>): nat
    requires |bytes| == 5
  {
    bytes[0] + bytes[1] + bytes[2] + bytes[3]
  }

  lemma ByteChange(a: seq<nat>, b: seq<nat>, k: nat)
    requires |a| == 5 && |b| == 5 && k < 5
    requires forall i :: 0 <= i < 5 ==> a[i] < 256 && b[i] < 256 && (a[i] != b[i] <==> i == k)
    requires a[4] == DataSum(a) % 256
    ensures b[4] != DataSum(b) % 256
  {
    assert if k == 4 then DataSum(a) == DataSum(b) else DataSum(a) + b[k] == DataSum(b) + a[k];
    SumsDiffer(DataSum(a), DataSum(b));
  }

  lemma SumsDiffer(x: nat, y: nat)
    ensures -256 < x - y < 256 && x != y ==> x % 256 != y % 256
  {
  }
}
