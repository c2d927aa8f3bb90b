/**
 * The per-attribute bitfield codecs: each attribute has a discriminant or a
 * packed byte, an encoder emitting its fixed number of symbols LSB first, a
 * specification `Parse*` of what its decoder returns for the cursor standing
 * at `pos`, and the decoder itself, a method advancing the shared cursor.
 */
module Attributes {
  import opened Codes
  import opened BitFields

  // ---------------------------------------------------------------- Mode (3 bits)

  datatype Mode = Auto | Cold | Dry | Wind | Hot

  /** `mode as u8`: the enum discriminant. */
  function ModeValue(m: Mode): (v: bv8)
    ensures v <= 4
  {
    match m
    case Auto => 0
    case Cold => 1
    case Dry => 2
    case Wind => 3
    case Hot => 4
  }

  /** The `match` of `Mode::decode`: 0..4 name a mode, 5..7 are `InvalidMode`. */
  function ModeOf(a: bv8): (r: Result<Mode>)
    ensures r.Ok? <==> a <= 4
    ensures r.Ok? ==> ModeValue(r.value) == a
    ensures r.Err? ==> r.error == InvalidMode
  {
    if a == 0 then Ok(Mode.Auto)
    else if a == 1 then Ok(Cold)
    else if a == 2 then Ok(Dry)
    else if a == 3 then Ok(Wind)
    else if a == 4 then Ok(Hot)
    else Err(InvalidMode)
  }

  function EncodeMode(m: Mode): (r: seq<Code>)
    ensures |r| == 3
  {
    Bits(ModeValue(m), 3)
  }

  function ParseMode(codes: seq<Code>, pos: nat): Result<Mode>
    requires pos <= |codes|
  {
    var a :- ReadBits(codes, pos, 3);
    ModeOf(a)
  }

  /** `Mode::decode`: three bits read one by one and combined as `a | b << 1 | c << 2`. */
  method DecodeMode(it: Cursor) returns (r: Result<Mode>)
    requires it.Valid()
    modifies it
    ensures it.Valid()
    ensures r == ParseMode(it.codes, old(it.pos))
    ensures r.Ok? ==> it.pos == old(it.pos) + 3
  {
    ghost var start := it.pos;
    var a := NextBit(it);
    ReadBitsStep(it.codes, start, 0, 0);
    if a.Err? {
      ReadBitsFailsEarly(it.codes, start, 1, 3);
      return Err(a.error);
    }
    var b := NextBit(it);
    ReadBitsStep(it.codes, start, 1, 0 | Placed(a.value, 0));
    if b.Err? {
      ReadBitsFailsEarly(it.codes, start, 2, 3);
      return Err(b.error);
    }
    var c := NextBit(it);
    ReadBitsStep(it.codes, start, 2, 0 | Placed(a.value, 0) | Placed(b.value, 1));
    if c.Err? {
      return Err(c.error);
    }
    ShiftForms(0, a.value, 0);
    ShiftForms(0, b.value, 1);
    ShiftForms(0, c.value, 2);
    assert 0 | Placed(a.value, 0) | Placed(b.value, 1) | Placed(c.value, 2) == (a.value << 0) | (b.value << 1) | (c.value << 2);
    r := ModeOf((a.value << 0) | (b.value << 1) | (c.value << 2));
  }

  // ---------------------------------------------------------------- Fan (2 bits)

  datatype Fan = Auto | Level1 | Level2 | Level3

  /** `fan as u8`. */
  function FanValue(f: Fan): (v: bv8)
    ensures v <= 3
  {
    match f
    case Auto => 0
    case Level1 => 1
    case Level2 => 2
    case Level3 => 3
  }

  /** The `match` of `Fan::decode`; its `InvalidFan` arm is never taken for a 2-bit value. */
  function FanOf(a: bv8): (r: Result<Fan>)
    ensures r.Ok? <==> a <= 3
    ensures r.Ok? ==> FanValue(r.value) == a
    ensures r.Err? ==> r.error == InvalidFan
  {
    if a == 0 then Ok(Fan.Auto)
    else if a == 1 then Ok(Level1)
    else if a == 2 then Ok(Level2)
    else if a == 3 then Ok(Level3)
    else Err(InvalidFan)
  }

  function EncodeFan(f: Fan): (r: seq<Code>)
    ensures |r| == 2
  {
    Bits(FanValue(f), 2)
  }

  function ParseFan(codes: seq<Code>, pos: nat): Result<Fan>
    requires pos <= |codes|
  {
    var a :- ReadBits(codes, pos, 2);
    FanOf(a)
  }

  /** `Fan::decode`: two bits read one by one and combined as `a | b << 1`. */
  method DecodeFan(it: Cursor) returns (r: Result<Fan>)
    requires it.Valid()
    modifies it
    ensures it.Valid()
    ensures r == ParseFan(it.codes, old(it.pos))
    ensures r.Ok? ==> it.pos == old(it.pos) + 2
  {
    ghost var start := it.pos;
    var a := NextBit(it);
    ReadBitsStep(it.codes, start, 0, 0);
    if a.Err? {
      ReadBitsFailsEarly(it.codes, start, 1, 2);
      return Err(a.error);
    }
    var b := NextBit(it);
    ReadBitsStep(it.codes, start, 1, 0 | Placed(a.value, 0));
    if b.Err? {
      return Err(b.error);
    }
    ShiftForms(0, a.value, 0);
    ShiftForms(0, b.value, 1);
    assert 0 | Placed(a.value, 0) | Placed(b.value, 1) == (a.value << 0) | (b.value << 1);
    r := FanOf((a.value << 0) | (b.value << 1));
  }

  // ---------------------------------------------------------------- Temperature (4 bits)

  /** The degrees Celsius a `Temperature` can hold; its field is private to the source. */
  type Centigrade = d: bv8 | 16 <= d <= 30 witness 16

  datatype Temperature = Temperature(degrees: Centigrade)

  /** `Temperature::from_centigrade`: rejects anything outside 16..30 by returning no value. */
  function FromCentigrade(degrees: bv8): (r: Option<Temperature>)
    ensures r.None? <==> degrees < 16 || degrees > 30
    ensures r.Some? ==> r.value.degrees == degrees
  {
    if degrees < 16 || degrees > 30 then None else Some(Temperature(degrees))
  }

  /** `self.0 - 16`, which cannot underflow: the stored value is at least 16. */
  function TemperatureOffset(t: Temperature): (v: bv8)
    ensures v <= 14 && v as int == t.degrees as int - 16
  {
    t.degrees - 16
  }

  function EncodeTemperature(t: Temperature): (r: seq<Code>)
    ensures |r| == 4
  {
    Bits(TemperatureOffset(t), 4)
  }

  /** The range check of `Temperature::decode`: raw values above `30 - 16` are `InvalidTemperature`. */
  function TemperatureOf(a: bv8): (r: Result<Temperature>)
    ensures r.Ok? <==> a <= 14
    ensures r.Ok? ==> r.value.degrees as int == a as int + 16 && TemperatureOffset(r.value) == a
    ensures r.Err? ==> r.error == InvalidTemperature
  {
    if a > 30 - 16 then Err(InvalidTemperature) else Ok(Temperature(a + 16))
  }

  function ParseTemperature(codes: seq<Code>, pos: nat): Result<Temperature>
    requires pos <= |codes|
  {
    var a :- ReadBits(codes, pos, 4);
    TemperatureOf(a)
  }

  /** `Temperature::decode`: the 4-bit loop, then the range check `a > 30 - 16`. */
  method DecodeTemperature(it: Cursor) returns (r: Result<Temperature>)
    requires it.Valid()
    modifies it
    ensures it.Valid()
    ensures r == ParseTemperature(it.codes, old(it.pos))
    ensures r.Ok? ==> it.pos == old(it.pos) + 4
  {
    var a := NextBits(it, 4);
    if a.Err? {
      return Err(a.error);
    }
    r := TemperatureOf(a.value);
  }

  // ---------------------------------------------------------------- TimerSetting (8 bits)

  datatype TimerSetting = TimerSetting(enabled: bool, halfHours: bv8)

  /**
   * `Into<u8> for &TimerSetting`: `half | tens << 1 | enabled << 3 | units << 4`
   * in 8-bit arithmetic. Up to 59 half hours each field lands in its own bits
   * (half, tens of hours, enabled, units of hours). `halfHours` is not
   * range-checked: 60..79 still pack without spilling, with `tens` = 3, which
   * decoding rejects (`TimerTensThree`); from 80 on, `tens << 1` reaches bit 3
   * and above (`TimerSpillsIntoEnabled`).
   */
  function TimerToByte(t: TimerSetting): (v: bv8)
    ensures t.halfHours <= 59 ==>
      && v & 1 == t.halfHours % 2
      && (v >> 1) & 0x3 == t.halfHours / 20
      && ((v >> 3) & 1 != 0) == t.enabled
      && v >> 4 == t.halfHours / 2 % 10
  {
    var hours := t.halfHours / 2;
    var half := t.halfHours % 2;
    var tens := hours / 10;
    var units := hours % 10;
    half | (tens << 1) | ((if t.enabled then 1 else 0) << 3) | (units << 4)
  }

  /**
   * `TryFrom<u8> for TimerSetting`: fails exactly when the `tens` field exceeds
   * 2 or the `units` field exceeds 9; on success the duration is at most 59
   * half hours and packing it again gives back the same byte.
   */
  function TimerFromByte(v: bv8): (r: Result<TimerSetting>)
    ensures r.Err? <==> ((v >> 1) & 0x3) > 2 || (v >> 4) > 9
    ensures r.Err? ==> r.error == InvalidTimerSetting
    ensures r.Ok? ==> r.value.halfHours <= 59 && TimerToByte(r.value) == v
  {
    var half := v & 1;
    var tens := (v >> 1) & 0x3;
    var enabled := (v >> 3) & 1 != 0;
    var units := v >> 4;
    if tens > 2 || units > 9 then Err(InvalidTimerSetting)
    else Ok(TimerSetting(enabled, (tens * 10 + units) * 2 + half))
  }

  /** Packing any setting of at most 59 half hours and unpacking it is the identity. */
  lemma TimerByteRoundTrip(t: TimerSetting)
    requires t.halfHours <= 59
    ensures TimerFromByte(TimerToByte(t)) == Ok(t)
  {
    var v := TimerToByte(t);
    assert ((v >> 1) & 0x3) <= 2 && (v >> 4) <= 9;
    assert ((((v >> 1) & 0x3) * 10 + (v >> 4)) * 2 + (v & 1)) == t.halfHours;
    assert ((v >> 3) & 1 != 0) == t.enabled;
  }

  /**
   * From 60 to 79 half hours the tens of hours are 3: every field still sits
   * in its own bits, but `try_from` rejects the byte because `tens > 2`.
   */
  lemma TimerTensThree(t: TimerSetting)
    requires 60 <= t.halfHours <= 79
    ensures var v := TimerToByte(t);
      && v & 1 == t.halfHours % 2
      && (v >> 1) & 0x3 == 3
      && ((v >> 3) & 1 != 0) == t.enabled
      && v >> 4 == t.halfHours / 2 % 10
      && TimerFromByte(v) == Err(InvalidTimerSetting)
  {
  }

  /**
   * The unchecked packing at work: a disabled 40-hour timer (80 half hours)
   * has `tens` = 4, whose `tens << 1` lands on the `enabled` bit, so the byte
   * reads back as an enabled timer of zero half hours.
   */
  lemma TimerSpillsIntoEnabled()
    ensures TimerToByte(TimerSetting(false, 80)) == 0x08
    ensures TimerFromByte(0x08) == Ok(TimerSetting(true, 0))
  {
  }

  function EncodeTimer(t: TimerSetting): (r: seq<Code>)
    ensures |r| == 8
  {
    Bits(TimerToByte(t), 8)
  }

  function ParseTimer(codes: seq<Code>, pos: nat): Result<TimerSetting>
    requires pos <= |codes|
  {
    var a :- ReadBits(codes, pos, 8);
    TimerFromByte(a)
  }

  /** `TimerSetting::decode`: the 8-bit loop, then `try_from`. */
  method DecodeTimer(it: Cursor) returns (r: Result<TimerSetting>)
    requires it.Valid()
    modifies it
    ensures it.Valid()
    ensures r == ParseTimer(it.codes, old(it.pos))
    ensures r.Ok? ==> it.pos == old(it.pos) + 8
  {
    var a := NextBits(it, 8);
    if a.Err? {
      return Err(a.error);
    }
    r := TimerFromByte(a.value);
  }

  // ---------------------------------------------------------------- SwingMode (4 bits)

  datatype SwingMode =
    | Off | On | Unknown2 | Unknown3 | Unknown4 | Unknown5 | Unknown6 | Unknown7
    | Unknown8 | Unknown9 | Unknown10 | Unknown11 | Unknown12 | Unknown13 | Unknown14 | Unknown15

  /** `swing as u8`. */
  function SwingValue(s: SwingMode): (v: bv8)
    ensures v <= 15
  {
    match s
    case Off => 0
    case On => 1
    case Unknown2 => 2
    case Unknown3 => 3
    case Unknown4 => 4
    case Unknown5 => 5
    case Unknown6 => 6
    case Unknown7 => 7
    case Unknown8 => 8
    case Unknown9 => 9
    case Unknown10 => 10
    case Unknown11 => 11
    case Unknown12 => 12
    case Unknown13 => 13
    case Unknown14 => 14
    case Unknown15 => 15
  }

  /** The `match` of `SwingMode::decode`: total, its catch-all arm gives `Off`. */
  function SwingOf(a: bv8): (s: SwingMode)
    ensures a <= 15 ==> SwingValue(s) == a
    ensures a > 15 ==> s == Off
  {
    if a == 1 then On
    else if a == 2 then Unknown2
    else if a == 3 then Unknown3
    else if a == 4 then Unknown4
    else if a == 5 then Unknown5
    else if a == 6 then Unknown6
    else if a == 7 then Unknown7
    else if a == 8 then Unknown8
    else if a == 9 then Unknown9
    else if a == 10 then Unknown10
    else if a == 11 then Unknown11
    else if a == 12 then Unknown12
    else if a == 13 then Unknown13
    else if a == 14 then Unknown14
    else if a == 15 then Unknown15
    else Off
  }

  /** Every swing mode is named by its own discriminant. */
  lemma SwingValueInverse(s: SwingMode)
    ensures SwingOf(SwingValue(s)) == s
  {
  }

  function EncodeSwing(s: SwingMode): (r: seq<Code>)
    ensures |r| == 4
  {
    Bits(SwingValue(s), 4)
  }

  function ParseSwing(codes: seq<Code>, pos: nat): Result<SwingMode>
    requires pos <= |codes|
  {
    var a :- ReadBits(codes, pos, 4);
    Ok(SwingOf(a))
  }

  /** `SwingMode::decode`: the 4-bit loop, then the total `match`. */
  method DecodeSwing(it: Cursor) returns (r: Result<SwingMode>)
    requires it.Valid()
    modifies it
    ensures it.Valid()
    ensures r == ParseSwing(it.codes, old(it.pos))
    ensures r.Ok? ==> it.pos == old(it.pos) + 4
  {
    var a := NextBits(it, 4);
    if a.Err? {
      return Err(a.error);
    }
    r := Ok(SwingOf(a.value));
  }

  // ---------------------------------------------------------------- TemperatureDisplay (2 bits)

  datatype TemperatureDisplay = Setting | Room | Indoor | Outdoor

  /** `display as u8`. */
  function DisplayValue(d: TemperatureDisplay): (v: bv8)
    ensures v <= 3
  {
    match d
    case Setting => 0
    case Room => 1
    case Indoor => 2
    case Outdoor => 3
  }

  function EncodeDisplay(d: TemperatureDisplay): (r: seq<Code>)
    ensures |r| == 2
  {
    Bits(DisplayValue(d), 2)
  }

  /** The display is decoded from two booleans, the first being bit 0. */
  function DisplayOf(a: bool, b: bool): (d: TemperatureDisplay)
    ensures Bit(DisplayValue(d), 0) == a && Bit(DisplayValue(d), 1) == b
  {
    match (a, b)
    case (false, false) => Setting
    case (true, false) => Room
    case (false, true) => Indoor
    case (true, true) => Outdoor
  }

  function ParseDisplay(codes: seq<Code>, pos: nat): Result<TemperatureDisplay>
  {
    var a :- BoolAt(codes, pos);
    var b :- BoolAt(codes, pos + 1);
    Ok(DisplayOf(a, b))
  }

  /** `TemperatureDisplay::decode`: two booleans and a total `match`. */
  method DecodeDisplay(it: Cursor) returns (r: Result<TemperatureDisplay>)
    requires it.Valid()
    modifies it
    ensures it.Valid()
    ensures r == ParseDisplay(it.codes, old(it.pos))
    ensures r.Ok? ==> it.pos == old(it.pos) + 2
  {
    var a := NextBool(it);
    if a.Err? {
      return Err(a.error);
    }
    var b := NextBool(it);
    if b.Err? {
      return Err(b.error);
    }
    r := Ok(DisplayOf(a.value, b.value));
  }

  // ---------------------------------------------------------------- round trips and ranges

  /** A 3-symbol window decodes to `m` exactly when it is `m`'s encoding. */
  lemma ModeWindow(codes: seq<Code>, pos: nat, m: Mode)
    requires pos + 3 <= |codes|
    ensures ParseMode(codes, pos) == Ok(m) <==> codes[pos..pos + 3] == EncodeMode(m)
  {
    ReadBitsSpec(codes, pos, 3);
    if codes[pos..pos + 3] == EncodeMode(m) {
      ReadBitsOfBits(codes, pos, ModeValue(m), 3);
    }
  }

  /** On data symbols, `Mode::decode` fails exactly for the raw values 5, 6 and 7. */
  lemma ModeRange(codes: seq<Code>, pos: nat)
    requires pos + 3 <= |codes| && forall i | pos <= i < pos + 3 :: !codes[i].IsMarker()
    ensures ReadBits(codes, pos, 3).Ok?
    ensures ParseMode(codes, pos).Err? <==> ReadBits(codes, pos, 3).value >= 5
    ensures ParseMode(codes, pos).Err? ==> ParseMode(codes, pos).error == InvalidMode
  {
    ReadBitsSpec(codes, pos, 3);
  }

  /** A 2-symbol window decodes to `f` exactly when it is `f`'s encoding. */
  lemma FanWindow(codes: seq<Code>, pos: nat, f: Fan)
    requires pos + 2 <= |codes|
    ensures ParseFan(codes, pos) == Ok(f) <==> codes[pos..pos + 2] == EncodeFan(f)
  {
    ReadBitsSpec(codes, pos, 2);
    if codes[pos..pos + 2] == EncodeFan(f) {
      ReadBitsOfBits(codes, pos, FanValue(f), 2);
    }
  }

  /** `Fan::decode` never reports `InvalidFan`: every 2-bit value names a speed. */
  lemma FanTotal(codes: seq<Code>, pos: nat)
    requires pos + 2 <= |codes| && forall i | pos <= i < pos + 2 :: !codes[i].IsMarker()
    ensures ParseFan(codes, pos).Ok?
  {
    ReadBitsSpec(codes, pos, 2);
    var a := ReadBits(codes, pos, 2).value;
    assert a & Mask(2) == a;
  }

  /** A 4-symbol window decodes to `t` exactly when it is `t`'s encoding. */
  lemma TemperatureWindow(codes: seq<Code>, pos: nat, t: Temperature)
    requires pos + 4 <= |codes|
    ensures ParseTemperature(codes, pos) == Ok(t) <==> codes[pos..pos + 4] == EncodeTemperature(t)
  {
    ReadBitsSpec(codes, pos, 4);
    if codes[pos..pos + 4] == EncodeTemperature(t) {
      ReadBitsOfBits(codes, pos, TemperatureOffset(t), 4);
    }
  }

  /** On data symbols, raw values above 14 are `InvalidTemperature`; the rest are 16..30 degrees. */
  lemma TemperatureRange(codes: seq<Code>, pos: nat)
    requires pos + 4 <= |codes| && forall i | pos <= i < pos + 4 :: !codes[i].IsMarker()
    ensures ReadBits(codes, pos, 4).Ok?
    ensures ParseTemperature(codes, pos) == Err(InvalidTemperature) <==> ReadBits(codes, pos, 4).value > 14
    ensures ParseTemperature(codes, pos).Ok? ==>
      ParseTemperature(codes, pos).value.degrees == ReadBits(codes, pos, 4).value + 16
  {
    ReadBitsSpec(codes, pos, 4);
  }

  /** An 8-symbol window decodes to `t` exactly when `t` is at most 59 half hours and the window is its encoding. */
  lemma TimerWindow(codes: seq<Code>, pos: nat, t: TimerSetting)
    requires pos + 8 <= |codes|
    ensures ParseTimer(codes, pos) == Ok(t) <==> t.halfHours <= 59 && codes[pos..pos + 8] == EncodeTimer(t)
  {
    ReadBitsSpec(codes, pos, 8);
    if t.halfHours <= 59 && codes[pos..pos + 8] == EncodeTimer(t) {
      ReadBitsOfBits(codes, pos, TimerToByte(t), 8);
      assert TimerToByte(t) & Mask(8) == TimerToByte(t);
      TimerByteRoundTrip(t);
    }
  }

  /** A 4-symbol window decodes to `s` exactly when it is `s`'s encoding. */
  lemma SwingWindow(codes: seq<Code>, pos: nat, s: SwingMode)
    requires pos + 4 <= |codes|
    ensures ParseSwing(codes, pos) == Ok(s) <==> codes[pos..pos + 4] == EncodeSwing(s)
  {
    ReadBitsSpec(codes, pos, 4);
    if ParseSwing(codes, pos) == Ok(s) {
      var a := ReadBits(codes, pos, 4).value;
      assert a & Mask(4) == a;
      assert SwingValue(s) == a;
    }
    if codes[pos..pos + 4] == EncodeSwing(s) {
      ReadBitsOfBits(codes, pos, SwingValue(s), 4);
      assert SwingValue(s) & Mask(4) == SwingValue(s);
      SwingValueInverse(s);
    }
  }

  /** `SwingMode::decode` never fails on data symbols: all sixteen patterns are named. */
  lemma SwingTotal(codes: seq<Code>, pos: nat)
    requires pos + 4 <= |codes| && forall i | pos <= i < pos + 4 :: !codes[i].IsMarker()
    ensures ParseSwing(codes, pos).Ok?
  {
    ReadBitsSpec(codes, pos, 4);
  }

  /** A 2-symbol window decodes to `d` exactly when it is `d`'s encoding. */
  lemma DisplayWindow(codes: seq<Code>, pos: nat, d: TemperatureDisplay)
    requires pos + 2 <= |codes|
    ensures ParseDisplay(codes, pos) == Ok(d) <==> codes[pos..pos + 2] == EncodeDisplay(d)
  {
    var w := codes[pos..pos + 2];
    assert w[0] == codes[pos] && w[1] == codes[pos + 1];
    if w == EncodeDisplay(d) {
      assert codes[pos] == FromBool(Bit(DisplayValue(d), 0));
      assert codes[pos + 1] == FromBool(Bit(DisplayValue(d), 1));
    }
  }

  /** `TemperatureDisplay::decode` never fails on data symbols. */
  lemma DisplayTotal(codes: seq<Code>, pos: nat)
    requires pos + 2 <= |codes| && !codes[pos].IsMarker() && !codes[pos + 1].IsMarker()
    ensures ParseDisplay(codes, pos).Ok?
  {
  }

  // ---------------------------------------------------------------- errors

  /** Within the frame, `Mode::decode` fails only on a marker or on a raw value above 4. */
  lemma ModeErrors(codes: seq<Code>, pos: nat)
    requires pos + 3 <= |codes|
    ensures ParseMode(codes, pos).Err? ==> ParseMode(codes, pos).error in {UnexpectedMarker, InvalidMode}
  {
    ReadBitsSpec(codes, pos, 3);
  }

  /** Within the frame, `Fan::decode` fails only on a marker: its `InvalidFan` arm is unreachable. */
  lemma FanErrors(codes: seq<Code>, pos: nat)
    requires pos + 2 <= |codes|
    ensures ParseFan(codes, pos).Err? ==> ParseFan(codes, pos).error == UnexpectedMarker
  {
    ReadBitsSpec(codes, pos, 2);
    if ReadBits(codes, pos, 2).Ok? {
      var a := ReadBits(codes, pos, 2).value;
      assert a & Mask(2) == a;
    }
  }

  /** Within the frame, `Temperature::decode` fails only on a marker or on a raw value above 14. */
  lemma TemperatureErrors(codes: seq<Code>, pos: nat)
    requires pos + 4 <= |codes|
    ensures ParseTemperature(codes, pos).Err? ==> ParseTemperature(codes, pos).error in {UnexpectedMarker, InvalidTemperature}
  {
    ReadBitsSpec(codes, pos, 4);
  }

  /** Within the frame, `TimerSetting::decode` fails only on a marker or on a byte `try_from` rejects. */
  lemma TimerErrors(codes: seq<Code>, pos: nat)
    requires pos + 8 <= |codes|
    ensures ParseTimer(codes, pos).Err? ==> ParseTimer(codes, pos).error in {UnexpectedMarker, InvalidTimerSetting}
  {
    ReadBitsSpec(codes, pos, 8);
  }

  /** Within the frame, `SwingMode::decode` fails only on a marker, never with `InvalidSwingMode`. */
  lemma SwingErrors(codes: seq<Code>, pos: nat)
    requires pos + 4 <= |codes|
    ensures ParseSwing(codes, pos).Err? ==> ParseSwing(codes, pos).error == UnexpectedMarker
  {
    ReadBitsSpec(codes, pos, 4);
  }

  /** Within the frame, `TemperatureDisplay::decode` fails only on a marker. */
  lemma DisplayErrors(codes: seq<Code>, pos: nat)
    requires pos + 2 <= |codes|
    ensures ParseDisplay(codes, pos).Err? ==> ParseDisplay(codes, pos).error == UnexpectedMarker
  {
  }

  // ---------------------------------------------------------------- locality

  /** The decoders read their own symbols only. */
  lemma ModeLocal(codes: seq<Code>, other: seq<Code>, pos: nat)
    requires pos + 3 <= |codes| && pos + 3 <= |other|
    requires forall i | pos <= i < pos + 3 :: codes[i] == other[i]
    ensures ParseMode(codes, pos) == ParseMode(other, pos)
  {
    ReadBitsLocal(codes, other, pos, 3);
  }

  lemma FanLocal(codes: seq<Code>, other: seq<Code>, pos: nat)
    requires pos + 2 <= |codes| && pos + 2 <= |other|
    requires forall i | pos <= i < pos + 2 :: codes[i] == other[i]
    ensures ParseFan(codes, pos) == ParseFan(other, pos)
  {
    ReadBitsLocal(codes, other, pos, 2);
  }

  lemma TemperatureLocal(codes: seq<Code>, other: seq<Code>, pos: nat)
    requires pos + 4 <= |codes| && pos + 4 <= |other|
    requires forall i | pos <= i < pos + 4 :: codes[i] == other[i]
    ensures ParseTemperature(codes, pos) == ParseTemperature(other, pos)
  {
    ReadBitsLocal(codes, other, pos, 4);
  }

  lemma TimerLocal(codes: seq<Code>, other: seq<Code>, pos: nat)
    requires pos + 8 <= |codes| && pos + 8 <= |other|
    requires forall i | pos <= i < pos + 8 :: codes[i] == other[i]
    ensures ParseTimer(codes, pos) == ParseTimer(other, pos)
  {
    ReadBitsLocal(codes, other, pos, 8);
  }

  lemma SwingLocal(codes: seq<Code>, other: seq<Code>, pos: nat)
    requires pos + 4 <= |codes| && pos + 4 <= |other|
    requires forall i | pos <= i < pos + 4 :: codes[i] == other[i]
    ensures ParseSwing(codes, pos) == ParseSwing(other, pos)
  {
    ReadBitsLocal(codes, other, pos, 4);
  }
}
