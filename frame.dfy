/**
 * The 70-symbol frame of the Gree remote: the `Controller` state, the
 * vendor fingerprints ("magic" blocks), the nibble-sum checksum, and the
 * frame encoder and decoder.
 *
 * Frame layout (symbol indices):
 *   0 Start | 1..25 data fields | 26..32 MAGIC_1 | 33..35 MAGIC_3 | 36 Continue |
 *   37..47 swing, display, i_feel | 48..50 MAGIC_4 | 51 wifi | 52..62 reserved |
 *   63 econo | 64 reserved | 65..68 checksum, LSB first | 69 End
 */
module Frame {
  import opened Codes
  import opened BitFields
  import opened Attributes

  datatype Controller = Controller(
    mode: Mode,
    on: bool,
    fan: Fan,
    swing: bool,
    sleep: bool,
    temperature: Temperature,
    timing: TimerSetting,
    strong: bool,
    light: bool,
    anion: bool,
    dry: bool,
    ventilate: bool,
    vSwing: SwingMode,
    hSwing: SwingMode,
    temperatureDisplay: TemperatureDisplay,
    iFeel: bool,
    wifi: bool,
    econo: bool)

  const FrameLength: nat := 70

  /** The two accepted fingerprints of the first block, and the fixed second and third blocks. */
  const Magic1: seq<Code> := [Short, Short, Short, Long, Short, Long, Short]
  const Magic2: seq<Code> := [Short, Short, Short, Long, Long, Long, Short]
  const Magic3: seq<Code> := [Short, Long, Short]
  const Magic4: seq<Code> := [Short, Short, Long]

  /** `b as u8`. */
  function BoolByte(b: bool): (v: bv8)
    ensures v <= 1 && (v == 1 <==> b)
  {
    if b then 1 else 0
  }

  // ---------------------------------------------------------------- checksum

  /** The seven bytes `Controller::checksum` feeds to `checksum_block`. */
  function ChecksumBlocks(c: Controller): (blocks: seq<bv8>)
    ensures |blocks| == 7
  {
    [ ModeValue(c.mode) | (BoolByte(c.on) << 3),
      TemperatureOffset(c.temperature),
      0x0,  // the timer block is always zero
      BoolByte(c.ventilate) | 0x50,
      SwingValue(c.vSwing) | (SwingValue(c.hSwing) << 4),
      DisplayValue(c.temperatureDisplay) | (BoolByte(c.iFeel) << 2) | (0x4 << 3),
      0x00 ]
  }

  /** Sum of the low nibbles `v & 0xF` of `data`. */
  function LowNibbleSum(data: seq<bv8>): (s: int)
    ensures 0 <= s <= 15 * |data|
  {
    if data == [] then 0 else LowNibbleSum(data[..|data| - 1]) + (data[|data| - 1] & 0xF) as int
  }

  /** Sum of the high nibbles `v >> 4` of `data`. */
  function HighNibbleSum(data: seq<bv8>): (s: int)
    ensures 0 <= s <= 15 * |data|
  {
    if data == [] then 0 else HighNibbleSum(data[..|data| - 1]) + (data[|data| - 1] >> 4) as int
  }

  /** `iter().take(n)` as a sequence. */
  function Take(data: seq<bv8>, n: nat): (r: seq<bv8>)
    ensures |r| <= n && |r| <= |data| && r == data[..|r|]
    ensures |data| >= n ==> |r| == n
  {
    if |data| <= n then data else data[..n]
  }

  /**
   * The sum `checksum_block` accumulates: the seed 10, the low nibbles of the
   * first four bytes and the high nibbles of the next three. It never exceeds
   * 10 + 4 * 15 + 3 * 15 = 115, so the source's `u8` accumulator cannot overflow.
   */
  function NibbleSum(data: seq<bv8>): (s: int)
    ensures 10 <= s <= 115
  {
    10 + LowNibbleSum(Take(data, 4)) + HighNibbleSum(Take(data[|Take(data, 4)|..], 3))
  }

  /** What `checksum_block` returns: the nibble sum modulo 16. */
  function BlockChecksum(data: seq<bv8>): (r: bv8)
    ensures r < 16 && r as int == NibbleSum(data) % 16
  {
    (NibbleSum(data) % 16) as bv8
  }

  /**
   * `Controller::checksum_block`: two loops over the bytes, then `sum & 0xF`.
   * The accumulator is kept as an integer; the invariants bound it by
   * 10 + 15 * (bytes added so far), so the source's `u8` additions never wrap
   * and `& 0xF` is the remainder modulo 16.
   */
  method ChecksumBlock(data: seq<bv8>) returns (r: bv8)
    ensures r == BlockChecksum(data)
  {
    var sum := 10;
    var low := Take(data, 4);
    for i := 0 to |low|
      invariant sum == 10 + LowNibbleSum(low[..i]) <= 10 + 15 * i
    {
      assert low[..i + 1][..i] == low[..i];
      sum := sum + (low[i] & 0xF) as int;
    }
    assert low[..|low|] == low;
    var high := Take(data[|low|..], 3);
    ghost var lowSum := sum;
    for i := 0 to |high|
      invariant sum == lowSum + HighNibbleSum(high[..i]) <= lowSum + 15 * i
    {
      assert high[..i + 1][..i] == high[..i];
      sum := sum + (high[i] >> 4) as int;
    }
    assert high[..|high|] == high;
    assert sum <= 115;
    r := (sum % 16) as bv8;
  }

  /** `Controller::checksum`: a nibble in 0..15. */
  function ControllerChecksum(c: Controller): (r: bv8)
    ensures r < 16
  {
    BlockChecksum(ChecksumBlocks(c))
  }

  // ---------------------------------------------------------------- field groups

  /**
   * The decoder reads the controller in three runs of fields separated by
   * magic blocks and markers; each run is a value of its own here.
   */
  datatype Settings = Settings(
    mode: Mode, on: bool, fan: Fan, swing: bool, sleep: bool, temperature: Temperature,
    timing: TimerSetting)

  /** Positions 21..25: five toggles. */
  datatype Toggles = Toggles(strong: bool, light: bool, anion: bool, dry: bool, ventilate: bool)

  /** The fields after `Continue`: swings, display, i_feel, wifi and econo. */
  datatype Features = Features(
    vSwing: SwingMode, hSwing: SwingMode, temperatureDisplay: TemperatureDisplay,
    iFeel: bool, wifi: bool, econo: bool)

  function SettingsOf(c: Controller): Settings {
    Settings(c.mode, c.on, c.fan, c.swing, c.sleep, c.temperature, c.timing)
  }

  function TogglesOf(c: Controller): Toggles {
    Toggles(c.strong, c.light, c.anion, c.dry, c.ventilate)
  }

  function FeaturesOf(c: Controller): Features {
    Features(c.vSwing, c.hSwing, c.temperatureDisplay, c.iFeel, c.wifi, c.econo)
  }

  /** Puts the three runs back together; the inverse of the three projections. */
  function Assemble(s: Settings, t: Toggles, b: Features): Controller {
    Controller(s.mode, s.on, s.fan, s.swing, s.sleep, s.temperature, s.timing,
               t.strong, t.light, t.anion, t.dry, t.ventilate,
               b.vSwing, b.hSwing, b.temperatureDisplay, b.iFeel, b.wifi, b.econo)
  }

  // ---------------------------------------------------------------- encode

  /** Symbols 1..20 of the frame: mode, on, fan, swing, sleep, temperature, timer. */
  function EncodeSettings(s: Settings): (r: seq<Code>)
    ensures |r| == 20
  {
    EncodeMode(s.mode)
      + [FromBool(s.on)]
      + EncodeFan(s.fan)
      + [FromBool(s.swing)]
      + [FromBool(s.sleep)]
      + EncodeTemperature(s.temperature)
      + EncodeTimer(s.timing)
  }

  /** Symbols 21..25 of the frame: strong, light, anion, dry, ventilate. */
  function EncodeToggles(t: Toggles): (r: seq<Code>)
    ensures |r| == 5
  {
    [FromBool(t.strong), FromBool(t.light), FromBool(t.anion), FromBool(t.dry), FromBool(t.ventilate)]
  }

  /** The 35 symbols between `Start` and `Continue`. */
  function SegmentA(c: Controller): (r: seq<Code>)
    ensures |r| == 35
  {
    EncodeSettings(SettingsOf(c)) + EncodeToggles(TogglesOf(c)) + Magic1 + Magic3
  }

  /** Symbols 37..47 of the frame: vertical and horizontal swing, display, i_feel (wifi and econo are placed apart). */
  function EncodeAirflow(b: Features): (r: seq<Code>)
    ensures |r| == 11
  {
    EncodeSwing(b.vSwing)
      + EncodeSwing(b.hSwing)
      + EncodeDisplay(b.temperatureDisplay)
      + [FromBool(b.iFeel)]
  }

  /** The 32 symbols between `Continue` and `End`, the checksum last. */
  function SegmentB(c: Controller): (r: seq<Code>)
    ensures |r| == 32
  {
    EncodeAirflow(FeaturesOf(c))
      + Magic4
      + [FromBool(c.wifi)]
      + seq(11, _ => Short)
      + [FromBool(c.econo)]
      + [Short]
      + Bits(ControllerChecksum(c), 4)
  }

  /** `Controller::encode`: the whole frame, markers included. */
  function Encode(c: Controller): (r: seq<Code>)
    ensures |r| == FrameLength
  {
    [Start] + SegmentA(c) + [Continue] + SegmentB(c) + [End]
  }

  // ---------------------------------------------------------------- decode

  /** Positions whose symbols `Controller::decode` never looks at. */
  predicate Reserved(i: int) {
    52 <= i <= 62 || i == 64
  }

  /** The `n` symbols `check_magic_code*` copy into its local array, or `Eof`. */
  function BlockAt(codes: seq<Code>, pos: nat, n: nat): (r: Result<seq<Code>>)
    ensures r.Ok? <==> pos + n <= |codes|
    ensures r.Err? ==> r.error == Eof
    ensures r.Ok? ==> r.value == codes[pos..pos + n]
  {
    if pos + n <= |codes| then Ok(codes[pos..pos + n]) else Err(Eof)
  }

  /** `check_magic_code1`: either fingerprint is accepted; markers are just mismatches here. */
  function MagicBlock1(codes: seq<Code>, pos: nat): Result<()>
  {
    var block :- BlockAt(codes, pos, 7);
    if block == Magic1 || block == Magic2 then Ok(()) else Err(InvalidMagic(1))
  }

  /** `check_magic_code2`: only MAGIC_3 is accepted. */
  function MagicBlock2(codes: seq<Code>, pos: nat): Result<()>
  {
    var block :- BlockAt(codes, pos, 3);
    if block == Magic3 then Ok(()) else Err(InvalidMagic(2))
  }

  /** `check_magic_code3`: only MAGIC_4 is accepted. */
  function MagicBlock3(codes: seq<Code>, pos: nat): Result<()>
  {
    var block :- BlockAt(codes, pos, 3);
    if block == Magic4 then Ok(()) else Err(InvalidMagic(3))
  }

  /** Decoding positions 1..20, just after `Start`. */
  function ParseSettings(codes: seq<Code>): Result<Settings>
    requires |codes| == FrameLength
  {
    var mode :- ParseMode(codes, 1);
    var on :- BoolAt(codes, 4);
    var fan :- ParseFan(codes, 5);
    var swing :- BoolAt(codes, 7);
    var sleep :- BoolAt(codes, 8);
    var temperature :- ParseTemperature(codes, 9);
    var timing :- ParseTimer(codes, 13);
    Ok(Settings(mode, on, fan, swing, sleep, temperature, timing))
  }

  /** Decoding positions 21..35: five toggles, then the first two magic blocks. */
  function ParseToggles(codes: seq<Code>): Result<Toggles>
    requires |codes| == FrameLength
  {
    var strong :- BoolAt(codes, 21);
    var light :- BoolAt(codes, 22);
    var anion :- BoolAt(codes, 23);
    var dry :- BoolAt(codes, 24);
    var ventilate :- BoolAt(codes, 25);
    var _ :- MagicBlock1(codes, 26);
    var _ :- MagicBlock2(codes, 33);
    Ok(Toggles(strong, light, anion, dry, ventilate))
  }

  /** Decoding positions 37..63: the fields, the third magic block and `econo` after the skipped run. */
  function ParseFeatures(codes: seq<Code>): Result<Features>
    requires |codes| == FrameLength
  {
    var vSwing :- ParseSwing(codes, 37);
    var hSwing :- ParseSwing(codes, 41);
    var temperatureDisplay :- ParseDisplay(codes, 45);
    var iFeel :- BoolAt(codes, 47);
    var _ :- MagicBlock3(codes, 48);
    var wifi :- BoolAt(codes, 51);
    var econo :- BoolAt(codes, 63);
    Ok(Features(vSwing, hSwing, temperatureDisplay, iFeel, wifi, econo))
  }

  /**
   * What `Controller::decode` returns: markers first, then the fields and
   * magic blocks in frame order, then the checksum, whose mismatch reports
   * `transmitted << 4 | computed`.
   */
  function ParseFrame(codes: seq<Code>): Result<Controller>
    requires |codes| == FrameLength
  {
    if !(codes[0] == Start && codes[36] == Continue && codes[69] == End) then Err(InvalidMarker)
    else
      var s :- ParseSettings(codes);
      var t :- ParseToggles(codes);
      var b :- ParseFeatures(codes);
      var value := Assemble(s, t, b);
      var transmitted :- ReadBits(codes, 65, 4);
      var computed := ControllerChecksum(value);
      if transmitted != computed then Err(Checksum((transmitted << 4) | computed))
      else Ok(value)
  }

  /** The common part of `check_magic_code*`: fill a local array of `n` symbols from the cursor. */
  method NextBlock(it: Cursor, n: nat) returns (r: Result<seq<Code>>)
    requires it.Valid()
    modifies it
    ensures it.Valid()
    ensures r == BlockAt(it.codes, old(it.pos), n)
    ensures r.Ok? ==> it.pos == old(it.pos) + n
  {
    ghost var start := it.pos;
    var block := new Code[n](_ => Short);
    for i := 0 to n
      invariant it.Valid()
      invariant it.pos == start + i <= |it.codes|
      invariant block[..i] == it.codes[start..start + i]
    {
      var c := it.Next();
      if c.None? {
        return Err(Eof);
      }
      block[i] := c.value;
      assert block[..i + 1] == block[..i] + [c.value];
    }
    assert block[..] == block[..n];
    r := Ok(block[..]);
  }

  method CheckMagic1(it: Cursor) returns (r: Result<()>)
    requires it.Valid()
    modifies it
    ensures it.Valid()
    ensures r == MagicBlock1(it.codes, old(it.pos))
    ensures r.Ok? ==> it.pos == old(it.pos) + 7
  {
    var block := NextBlock(it, 7);
    if block.Err? {
      return Err(block.error);
    }
    if block.value == Magic1 || block.value == Magic2 {
      r := Ok(());
    } else {
      r := Err(InvalidMagic(1));
    }
  }

  method CheckMagic2(it: Cursor) returns (r: Result<()>)
    requires it.Valid()
    modifies it
    ensures it.Valid()
    ensures r == MagicBlock2(it.codes, old(it.pos))
    ensures r.Ok? ==> it.pos == old(it.pos) + 3
  {
    var block := NextBlock(it, 3);
    if block.Err? {
      return Err(block.error);
    }
    r := if block.value == Magic3 then Ok(()) else Err(InvalidMagic(2));
  }

  method CheckMagic3(it: Cursor) returns (r: Result<()>)
    requires it.Valid()
    modifies it
    ensures it.Valid()
    ensures r == MagicBlock3(it.codes, old(it.pos))
    ensures r.Ok? ==> it.pos == old(it.pos) + 3
  {
    var block := NextBlock(it, 3);
    if block.Err? {
      return Err(block.error);
    }
    r := if block.value == Magic4 then Ok(()) else Err(InvalidMagic(3));
  }

  /** The part of `Controller::decode` from `mode` to `timing`. */
  method DecodeSettings(it: Cursor) returns (r: Result<Settings>)
    requires it.Valid() && |it.codes| == FrameLength && it.pos == 1
    modifies it
    ensures it.Valid()
    ensures r == ParseSettings(it.codes)
    ensures r.Ok? ==> it.pos == 21
  {
    var mode := DecodeMode(it);
    if mode.Err? { return Err(mode.error); }
    assert it.pos == 4;
    var on := NextBool(it);
    if on.Err? { return Err(on.error); }
    assert it.pos == 5;
    var fan := DecodeFan(it);
    if fan.Err? { return Err(fan.error); }
    assert it.pos == 7;
    var swing := NextBool(it);
    if swing.Err? { return Err(swing.error); }
    var sleep := NextBool(it);
    if sleep.Err? { return Err(sleep.error); }
    assert it.pos == 9;
    var temperature := DecodeTemperature(it);
    if temperature.Err? { return Err(temperature.error); }
    assert it.pos == 13;
    var timing := DecodeTimer(it);
    if timing.Err? { return Err(timing.error); }
    r := Ok(Settings(mode.value, on.value, fan.value, swing.value, sleep.value,
      temperature.value, timing.value));
  }

  /** The part of `Controller::decode` from `strong` (`humidification`) to the second magic block. */
  method DecodeToggles(it: Cursor) returns (r: Result<Toggles>)
    requires it.Valid() && |it.codes| == FrameLength && it.pos == 21
    modifies it
    ensures it.Valid()
    ensures r == ParseToggles(it.codes)
    ensures r.Ok? ==> it.pos == 36
  {
    var humidification := NextBool(it);
    if humidification.Err? { return Err(humidification.error); }
    assert it.pos == 22;
    var light := NextBool(it);
    if light.Err? { return Err(light.error); }
    assert it.pos == 23;
    var anion := NextBool(it);
    if anion.Err? { return Err(anion.error); }
    assert it.pos == 24;
    var dry := NextBool(it);
    if dry.Err? { return Err(dry.error); }
    var ventilate := NextBool(it);
    if ventilate.Err? { return Err(ventilate.error); }
    assert it.pos == 26;
    var magic1 := CheckMagic1(it);
    if magic1.Err? { return Err(magic1.error); }
    assert it.pos == 33;
    var magic2 := CheckMagic2(it);
    if magic2.Err? { return Err(magic2.error); }
    r := Ok(Toggles(humidification.value, light.value, anion.value, dry.value, ventilate.value));
  }

  /** The part of `Controller::decode` after `Continue` up to the checksum: `nth(11)` skips the reserved run. */
  method DecodeFeatures(it: Cursor) returns (r: Result<Features>)
    requires it.Valid() && |it.codes| == FrameLength && it.pos == 37
    modifies it
    ensures it.Valid()
    ensures r == ParseFeatures(it.codes)
    ensures r.Ok? ==> it.pos == 65
  {
    var vSwing := DecodeSwing(it);
    if vSwing.Err? { return Err(vSwing.error); }
    assert it.pos == 41;
    var hSwing := DecodeSwing(it);
    if hSwing.Err? { return Err(hSwing.error); }
    assert it.pos == 45;
    var temperatureDisplay := DecodeDisplay(it);
    if temperatureDisplay.Err? { return Err(temperatureDisplay.error); }
    assert it.pos == 47;
    var iFeel := NextBool(it);
    if iFeel.Err? { return Err(iFeel.error); }
    assert it.pos == 48;
    var magic3 := CheckMagic3(it);
    if magic3.Err? { return Err(magic3.error); }
    assert it.pos == 51;
    var wifi := NextBool(it);
    if wifi.Err? { return Err(wifi.error); }
    assert it.pos == 52;
    var econo := it.Nth(11);
    assert it.pos == 64 && econo == Some(it.codes[63]);
    var powerSave := ToBool(econo.value);
    if powerSave.Err? { return Err(powerSave.error); }
    var skipped := it.Next();
    assert skipped == Some(it.codes[64]);
    r := Ok(Features(vSwing.value, hSwing.value, temperatureDisplay.value,
      iFeel.value, wifi.value, powerSave.value));
  }

  /**
   * `Controller::decode`: checks the three markers, then walks one cursor
   * through the frame. The second look at `Start`, at `Continue` and at `End`
   * always succeeds, and `Eof` cannot arise, because the frame has exactly 70
   * symbols; the asserts below record both facts.
   */
  method Decode(codes: seq<Code>) returns (r: Result<Controller>)
    requires |codes| == FrameLength
    ensures r == ParseFrame(codes)
  {
    if !(codes[0] == Start && codes[36] == Continue && codes[69] == End) {
      return Err(InvalidMarker);
    }
    var it := new Cursor(codes);
    var first := it.Next();
    assert first == Some(Start);
    var settings := DecodeSettings(it);
    if settings.Err? { return Err(settings.error); }
    assert it.pos == 21;
    var toggles := DecodeToggles(it);
    if toggles.Err? { return Err(toggles.error); }
    assert it.pos == 36;
    var cont := it.Next();
    assert cont == Some(Continue);
    var b := DecodeFeatures(it);
    if b.Err? { return Err(b.error); }
    assert it.pos == 65;
    var value := Assemble(settings.value, toggles.value, b.value);
    var checksum := NextBits(it, 4);
    if checksum.Err? { return Err(checksum.error); }
    assert it.pos == 69;
    var checksumCalc := ChecksumBlock(ChecksumBlocks(value));
    if checksum.value != checksumCalc {
      return Err(Checksum((checksum.value << 4) | checksumCalc));
    }
    var last := it.Next();
    assert last == Some(End);
    r := Ok(value);
  }
}
