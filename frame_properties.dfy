/**
 * What the frame codec guarantees: the geometry of every encoded frame,
 * exactly which frames decode to a given controller (hence the round trip),
 * which symbols the decoder ignores, how the checksum behaves, and which
 * errors a 70-symbol frame can produce.
 */
module FrameProperties {
  import opened Codes
  import opened BitFields
  import opened Attributes
  import opened Frame

  // ---------------------------------------------------------------- slices

  /** A slice of a run that `f` holds at `p` is the matching slice of `f`. */
  lemma Within(f: seq<Code>, s: seq<Code>, p: nat, k: nat, l: nat)
    requires p + |s| <= |f| && f[p..p + |s|] == s && k <= l <= |s|
    ensures f[p + k..p + l] == s[k..l]
  {
    assert forall i | p + k <= i < p + l :: f[i] == f[p..p + |s|][i - p];
  }

  /** A single symbol of a run that `f` holds at `p`. */
  lemma WithinAt(f: seq<Code>, s: seq<Code>, p: nat, k: nat)
    requires p + |s| <= |f| && f[p..p + |s|] == s && k < |s|
    ensures f[p + k] == s[k]
  {
    assert f[p..p + |s|][k] == f[p + k];
  }

  // ---------------------------------------------------------------- layout

  /** Where the settings fields sit inside their 20-symbol run. */
  lemma SettingsParts(s: Settings)
    ensures var e := EncodeSettings(s);
      && e[0..3] == EncodeMode(s.mode) && e[3] == FromBool(s.on)
      && e[4..6] == EncodeFan(s.fan) && e[6] == FromBool(s.swing) && e[7] == FromBool(s.sleep)
      && e[8..12] == EncodeTemperature(s.temperature) && e[12..20] == EncodeTimer(s.timing)
  {
  }

  /** Where the swing, display and i_feel fields sit inside their 11-symbol run. */
  lemma AirflowParts(b: Features)
    ensures var e := EncodeAirflow(b);
      && e[0..4] == EncodeSwing(b.vSwing) && e[4..8] == EncodeSwing(b.hSwing)
      && e[8..10] == EncodeDisplay(b.temperatureDisplay) && e[10] == FromBool(b.iFeel)
  {
  }

  /** The first half of an encoded frame, up to `Continue`, as runs. */
  lemma FrameFront(c: Controller)
    ensures var f := Encode(c);
      && f[0] == Start
      && f[1..21] == EncodeSettings(SettingsOf(c))
      && f[21..26] == EncodeToggles(TogglesOf(c))
      && f[26..33] == Magic1 && f[33..36] == Magic3
      && f[36] == Continue
      && f[37..48] == EncodeAirflow(FeaturesOf(c))
  {
  }

  /** A run of data symbols only. */
  ghost predicate DataOnly(s: seq<Code>) {
    forall i | 0 <= i < |s| :: !s[i].IsMarker()
  }

  /** Data runs stay data runs when joined. */
  lemma DataOnlyAppend(a: seq<Code>, b: seq<Code>)
    requires DataOnly(a) && DataOnly(b)
    ensures DataOnly(a + b)
  {
  }

  /** A spelled value, or a single boolean, is data. */
  lemma BitsDataOnly(a: bv8, n: nat, x: bool)
    requires n <= 8
    ensures DataOnly(Bits(a, n)) && DataOnly([FromBool(x)])
  {
  }

  /** The settings run is data. */
  lemma SettingsDataOnly(s: Settings)
    ensures DataOnly(EncodeSettings(s))
  {
    var mode := EncodeMode(s.mode);
    var on := [FromBool(s.on)];
    var fan := EncodeFan(s.fan);
    var swing := [FromBool(s.swing)];
    var sleep := [FromBool(s.sleep)];
    var temperature := EncodeTemperature(s.temperature);
    var timing := EncodeTimer(s.timing);
    BitsDataOnly(ModeValue(s.mode), 3, s.on);
    BitsDataOnly(FanValue(s.fan), 2, s.swing);
    BitsDataOnly(TemperatureOffset(s.temperature), 4, s.sleep);
    BitsDataOnly(TimerToByte(s.timing), 8, s.on);
    DataOnlyAppend(mode, on);
    DataOnlyAppend(mode + on, fan);
    DataOnlyAppend(mode + on + fan, swing);
    DataOnlyAppend(mode + on + fan + swing, sleep);
    DataOnlyAppend(mode + on + fan + swing + sleep, temperature);
    DataOnlyAppend(mode + on + fan + swing + sleep + temperature, timing);
  }

  /** The swing, display and `i_feel` run is data. */
  lemma AirflowDataOnly(b: Features)
    ensures DataOnly(EncodeAirflow(b))
  {
    var v := EncodeSwing(b.vSwing);
    var h := EncodeSwing(b.hSwing);
    var d := EncodeDisplay(b.temperatureDisplay);
    var i := [FromBool(b.iFeel)];
    BitsDataOnly(SwingValue(b.vSwing), 4, b.iFeel);
    BitsDataOnly(SwingValue(b.hSwing), 4, b.iFeel);
    BitsDataOnly(DisplayValue(b.temperatureDisplay), 2, b.iFeel);
    DataOnlyAppend(v, h);
    DataOnlyAppend(v + h, d);
    DataOnlyAppend(v + h + d, i);
  }

  /** The 35 symbols between `Start` and `Continue` are data. */
  lemma SegmentADataOnly(c: Controller)
    ensures DataOnly(SegmentA(c))
  {
    var e := EncodeSettings(SettingsOf(c));
    var t := EncodeToggles(TogglesOf(c));
    SettingsDataOnly(SettingsOf(c));
    assert DataOnly(t);
    assert DataOnly(Magic1) && DataOnly(Magic3);
    DataOnlyAppend(e, t);
    DataOnlyAppend(e + t, Magic1);
    DataOnlyAppend(e + t + Magic1, Magic3);
  }

  /** The 32 symbols between `Continue` and `End` are data. */
  lemma SegmentBDataOnly(c: Controller)
    ensures DataOnly(SegmentB(c))
  {
    var w := EncodeAirflow(FeaturesOf(c));
    var wifi := [FromBool(c.wifi)];
    var gap: seq<Code> := seq(11, _ => Short);
    var econo := [FromBool(c.econo)];
    var sum := Bits(ControllerChecksum(c), 4);
    AirflowDataOnly(FeaturesOf(c));
    BitsDataOnly(ControllerChecksum(c), 4, c.wifi);
    BitsDataOnly(0, 0, c.econo);
    assert DataOnly(Magic4) && DataOnly(gap) && DataOnly([Short]);
    DataOnlyAppend(w, Magic4);
    DataOnlyAppend(w + Magic4, wifi);
    DataOnlyAppend(w + Magic4 + wifi, gap);
    DataOnlyAppend(w + Magic4 + wifi + gap, econo);
    DataOnlyAppend(w + Magic4 + wifi + gap + econo, [Short]);
    DataOnlyAppend(w + Magic4 + wifi + gap + econo + [Short], sum);
  }

  /** An encoded frame holds data symbols everywhere except at 0, 36 and 69. */
  lemma EncodeOnlyData(c: Controller)
    ensures forall i | 0 < i < FrameLength - 1 && i != 36 :: !Encode(c)[i].IsMarker()
  {
    SegmentADataOnly(c);
    SegmentBDataOnly(c);
    var f := Encode(c);
    forall i | 0 < i < FrameLength - 1 && i != 36
      ensures !f[i].IsMarker()
    {
      if i < 36 {
        assert f[i] == SegmentA(c)[i - 1];
      } else {
        assert f[i] == SegmentB(c)[i - 37];
      }
    }
  }

  /** The second half of an encoded frame, after the swing and display fields, as runs. */
  lemma FrameBack(c: Controller)
    ensures var f := Encode(c);
      && f[48..51] == Magic4 && f[51] == FromBool(c.wifi)
      && (forall i | 52 <= i <= 62 :: f[i] == Short)
      && f[63] == FromBool(c.econo) && f[64] == Short
      && f[65..69] == Bits(ControllerChecksum(c), 4)
      && f[69] == End
  {
  }

  // ---------------------------------------------------------------- field runs

  /** A boolean field decodes to `b` exactly when its symbol is `b`'s symbol. */
  lemma BoolWindow(codes: seq<Code>, pos: nat, b: bool)
    requires pos < |codes|
    ensures BoolAt(codes, pos) == Ok(b) <==> codes[pos] == FromBool(b)
  {
    if codes[pos] == FromBool(b) {
      FromBoolRoundTrip(b);
    }
  }

  /** Positions 1..20 hold `s`'s encoding exactly when each field's positions hold that field's. */
  lemma SettingsRun(codes: seq<Code>, s: Settings)
    requires |codes| == FrameLength
    ensures codes[1..21] == EncodeSettings(s) <==>
      && codes[1..4] == EncodeMode(s.mode) && codes[4] == FromBool(s.on)
      && codes[5..7] == EncodeFan(s.fan) && codes[7] == FromBool(s.swing) && codes[8] == FromBool(s.sleep)
      && codes[9..13] == EncodeTemperature(s.temperature) && codes[13..21] == EncodeTimer(s.timing)
  {
    var e := EncodeSettings(s);
    if codes[1..21] == e {
      SettingsParts(s);
      Within(codes, e, 1, 0, 3);
      WithinAt(codes, e, 1, 3);
      Within(codes, e, 1, 4, 6);
      WithinAt(codes, e, 1, 6);
      WithinAt(codes, e, 1, 7);
      Within(codes, e, 1, 8, 12);
      Within(codes, e, 1, 12, 20);
    }
    assert codes[1..21] == codes[1..4] + [codes[4]] + codes[5..7] + [codes[7]] + [codes[8]] + codes[9..13] + codes[13..21];
  }

  /** `ParseSettings` yields `s` exactly when every field decoder yields `s`'s field. */
  lemma SettingsSteps(codes: seq<Code>, s: Settings)
    requires |codes| == FrameLength
    ensures ParseSettings(codes) == Ok(s) <==>
      && ParseMode(codes, 1) == Ok(s.mode) && BoolAt(codes, 4) == Ok(s.on)
      && ParseFan(codes, 5) == Ok(s.fan) && BoolAt(codes, 7) == Ok(s.swing) && BoolAt(codes, 8) == Ok(s.sleep)
      && ParseTemperature(codes, 9) == Ok(s.temperature) && ParseTimer(codes, 13) == Ok(s.timing)
  {
  }

  /** Each of the first five settings fields decodes to `s`'s value exactly when its positions hold that value's encoding. */
  lemma SettingsFields(codes: seq<Code>, s: Settings)
    requires |codes| == FrameLength
    ensures ParseMode(codes, 1) == Ok(s.mode) <==> codes[1..4] == EncodeMode(s.mode)
    ensures BoolAt(codes, 4) == Ok(s.on) <==> codes[4] == FromBool(s.on)
    ensures ParseFan(codes, 5) == Ok(s.fan) <==> codes[5..7] == EncodeFan(s.fan)
    ensures BoolAt(codes, 7) == Ok(s.swing) <==> codes[7] == FromBool(s.swing)
    ensures BoolAt(codes, 8) == Ok(s.sleep) <==> codes[8] == FromBool(s.sleep)
  {
    ModeWindow(codes, 1, s.mode);
    BoolWindow(codes, 4, s.on);
    FanWindow(codes, 5, s.fan);
    BoolWindow(codes, 7, s.swing);
    BoolWindow(codes, 8, s.sleep);
  }

  /** The temperature and timer fields decode to `s`'s values exactly when their positions hold those values' encodings. */
  lemma SettingsWideFields(codes: seq<Code>, s: Settings)
    requires |codes| == FrameLength
    ensures ParseTemperature(codes, 9) == Ok(s.temperature) <==> codes[9..13] == EncodeTemperature(s.temperature)
    ensures ParseTimer(codes, 13) == Ok(s.timing) <==> s.timing.halfHours <= 59 && codes[13..21] == EncodeTimer(s.timing)
  {
    TemperatureWindow(codes, 9, s.temperature);
    TimerWindow(codes, 13, s.timing);
  }

  /**
   * Positions 1..20 decode to `s` exactly when they hold `s`'s encoding and
   * the timer is in range: the run's codec is a bijection onto its valid values.
   */
  lemma SettingsWindow(codes: seq<Code>, s: Settings)
    requires |codes| == FrameLength
    ensures ParseSettings(codes) == Ok(s) <==> s.timing.halfHours <= 59 && codes[1..21] == EncodeSettings(s)
  {
    SettingsSteps(codes, s);
    SettingsRun(codes, s);
    SettingsFields(codes, s);
    SettingsWideFields(codes, s);
  }

  /**
   * Each magic check passes exactly on its accepted fingerprints, and
   * otherwise reports its own block number.
   */
  lemma MagicWindows(codes: seq<Code>)
    requires |codes| == FrameLength
    ensures MagicBlock1(codes, 26) == Ok(()) <==> codes[26..33] == Magic1 || codes[26..33] == Magic2
    ensures MagicBlock2(codes, 33) == Ok(()) <==> codes[33..36] == Magic3
    ensures MagicBlock3(codes, 48) == Ok(()) <==> codes[48..51] == Magic4
    ensures MagicBlock1(codes, 26) != Ok(()) ==> MagicBlock1(codes, 26) == Err(InvalidMagic(1))
    ensures MagicBlock2(codes, 33) != Ok(()) ==> MagicBlock2(codes, 33) == Err(InvalidMagic(2))
    ensures MagicBlock3(codes, 48) != Ok(()) ==> MagicBlock3(codes, 48) == Err(InvalidMagic(3))
  {
  }

  /** `ParseToggles` yields `t` exactly when the five toggles do and both magic blocks pass. */
  lemma TogglesSteps(codes: seq<Code>, t: Toggles)
    requires |codes| == FrameLength
    ensures ParseToggles(codes) == Ok(t) <==>
      && BoolAt(codes, 21) == Ok(t.strong) && BoolAt(codes, 22) == Ok(t.light)
      && BoolAt(codes, 23) == Ok(t.anion) && BoolAt(codes, 24) == Ok(t.dry)
      && BoolAt(codes, 25) == Ok(t.ventilate)
      && MagicBlock1(codes, 26) == Ok(()) && MagicBlock2(codes, 33) == Ok(())
  {
  }

  /** Positions 21..35 decode to `t` exactly when they hold `t`'s toggles and the two magic blocks. */
  lemma TogglesWindow(codes: seq<Code>, t: Toggles)
    requires |codes| == FrameLength
    ensures ParseToggles(codes) == Ok(t) <==>
      && codes[21..26] == EncodeToggles(t)
      && (codes[26..33] == Magic1 || codes[26..33] == Magic2)
      && codes[33..36] == Magic3
  {
    TogglesSteps(codes, t);
    MagicWindows(codes);
    BoolWindow(codes, 21, t.strong);
    BoolWindow(codes, 22, t.light);
    BoolWindow(codes, 23, t.anion);
    BoolWindow(codes, 24, t.dry);
    BoolWindow(codes, 25, t.ventilate);
    assert codes[21..26] == [codes[21], codes[22], codes[23], codes[24], codes[25]];
  }

  /** Positions 37..47 hold `b`'s airflow run exactly when each of its fields does. */
  lemma AirflowRun(codes: seq<Code>, b: Features)
    requires |codes| == FrameLength
    ensures codes[37..48] == EncodeAirflow(b) <==>
      && codes[37..41] == EncodeSwing(b.vSwing) && codes[41..45] == EncodeSwing(b.hSwing)
      && codes[45..47] == EncodeDisplay(b.temperatureDisplay) && codes[47] == FromBool(b.iFeel)
  {
    var e := EncodeAirflow(b);
    if codes[37..48] == e {
      AirflowParts(b);
      Within(codes, e, 37, 0, 4);
      Within(codes, e, 37, 4, 8);
      Within(codes, e, 37, 8, 10);
      WithinAt(codes, e, 37, 10);
    }
    assert codes[37..48] == codes[37..41] + codes[41..45] + codes[45..47] + [codes[47]] by {
      assert codes[37..48] == codes[37..41] + codes[41..48];
      assert codes[41..48] == codes[41..45] + codes[45..48];
      assert codes[45..48] == codes[45..47] + [codes[47]];
    }
  }

  /** `ParseFeatures` yields `b` exactly when every field decoder does and the third magic block passes. */
  lemma FeaturesSteps(codes: seq<Code>, b: Features)
    requires |codes| == FrameLength
    ensures ParseFeatures(codes) == Ok(b) <==>
      && ParseSwing(codes, 37) == Ok(b.vSwing) && ParseSwing(codes, 41) == Ok(b.hSwing)
      && ParseDisplay(codes, 45) == Ok(b.temperatureDisplay) && BoolAt(codes, 47) == Ok(b.iFeel)
      && MagicBlock3(codes, 48) == Ok(())
      && BoolAt(codes, 51) == Ok(b.wifi) && BoolAt(codes, 63) == Ok(b.econo)
  {
  }

  /** Positions 37..63 decode to `b` exactly when they hold `b`'s fields and the third magic block. */
  lemma FeaturesWindow(codes: seq<Code>, b: Features)
    requires |codes| == FrameLength
    ensures ParseFeatures(codes) == Ok(b) <==>
      && codes[37..48] == EncodeAirflow(b) && codes[48..51] == Magic4
      && codes[51] == FromBool(b.wifi) && codes[63] == FromBool(b.econo)
  {
    FeaturesSteps(codes, b);
    AirflowRun(codes, b);
    MagicWindows(codes);
    SwingWindow(codes, 37, b.vSwing);
    SwingWindow(codes, 41, b.hSwing);
    DisplayWindow(codes, 45, b.temperatureDisplay);
    BoolWindow(codes, 47, b.iFeel);
    BoolWindow(codes, 51, b.wifi);
    BoolWindow(codes, 63, b.econo);
  }

  // ---------------------------------------------------------------- whole frames

  /** The transmitted checksum reads as `k` exactly when positions 65..68 hold `k`'s four bits. */
  lemma ChecksumWindow(codes: seq<Code>, k: bv8)
    requires |codes| == FrameLength && k < 16
    ensures ReadBits(codes, 65, 4) == Ok(k) <==> codes[65..69] == Bits(k, 4)
  {
    if codes[65..69] == Bits(k, 4) {
      ReadBitsOfBits(codes, 65, k, 4);
      assert k & Mask(4) == k;
    }
  }

  /** `ParseFrame` yields `c` exactly when the markers are in place and every run and the checksum decode to `c`'s. */
  lemma FrameSteps(codes: seq<Code>, c: Controller)
    requires |codes| == FrameLength
    ensures ParseFrame(codes) == Ok(c) <==>
      && codes[0] == Start && codes[36] == Continue && codes[69] == End
      && ParseSettings(codes) == Ok(SettingsOf(c))
      && ParseToggles(codes) == Ok(TogglesOf(c))
      && ParseFeatures(codes) == Ok(FeaturesOf(c))
      && ReadBits(codes, 65, 4) == Ok(ControllerChecksum(c))
  {
    if ParseFrame(codes) == Ok(c) {
      FrameParsed(codes, c);
    }
    if && codes[0] == Start && codes[36] == Continue && codes[69] == End
       && ParseSettings(codes) == Ok(SettingsOf(c))
       && ParseToggles(codes) == Ok(TogglesOf(c))
       && ParseFeatures(codes) == Ok(FeaturesOf(c))
       && ReadBits(codes, 65, 4) == Ok(ControllerChecksum(c))
    {
      FrameChecked(codes, c, ControllerChecksum(c));
    }
  }

  /**
   * Once the markers and the three runs decode to `c`'s, the transmitted nibble
   * `t` decides: `c` when it matches the checksum, otherwise the `Checksum`
   * error carrying `t` in the high nibble and the computed checksum in the low one.
   */
  lemma FrameChecked(codes: seq<Code>, c: Controller, t: bv8)
    requires |codes| == FrameLength
    requires codes[0] == Start && codes[36] == Continue && codes[69] == End
    requires ParseSettings(codes) == Ok(SettingsOf(c))
    requires ParseToggles(codes) == Ok(TogglesOf(c))
    requires ParseFeatures(codes) == Ok(FeaturesOf(c))
    requires ReadBits(codes, 65, 4) == Ok(t)
    ensures ParseFrame(codes) ==
      if t == ControllerChecksum(c) then Ok(c) else Err(Checksum((t << 4) | ControllerChecksum(c)))
  {
    assert Assemble(SettingsOf(c), TogglesOf(c), FeaturesOf(c)) == c;
  }

  /** A frame that decodes to `c` carries `c`'s three runs and checksum, in that order. */
  lemma FrameParsed(codes: seq<Code>, c: Controller)
    requires |codes| == FrameLength && ParseFrame(codes) == Ok(c)
    ensures codes[0] == Start && codes[36] == Continue && codes[69] == End
    ensures ParseSettings(codes) == Ok(SettingsOf(c))
    ensures ParseToggles(codes) == Ok(TogglesOf(c))
    ensures ParseFeatures(codes) == Ok(FeaturesOf(c))
    ensures ReadBits(codes, 65, 4) == Ok(ControllerChecksum(c))
  {
    SettingsErrors(codes);
    TogglesErrors(codes);
    FeaturesErrors(codes);
    ReadBitsErrors(codes, 65, 4);
    assert codes[0] == Start && codes[36] == Continue && codes[69] == End;
    assert ParseSettings(codes).Ok? && ParseToggles(codes).Ok? && ParseFeatures(codes).Ok?;
    assert ReadBits(codes, 65, 4).Ok?;
    var s := ParseSettings(codes).value;
    var t := ParseToggles(codes).value;
    var b := ParseFeatures(codes).value;
    var k := ReadBits(codes, 65, 4).value;
    assert c == Assemble(s, t, b) && k == ControllerChecksum(Assemble(s, t, b));
  }

  /**
   * The frames that carry `c`: markers at 0, 36 and 69, `c`'s runs in their
   * places, either fingerprint in the first magic block, the fixed second and
   * third blocks, and `c`'s checksum; positions 52..62 and 64 are free.
   */
  ghost predicate IsFrameOf(codes: seq<Code>, c: Controller) {
    && |codes| == FrameLength
    && codes[0] == Start && codes[36] == Continue && codes[69] == End
    && codes[1..21] == EncodeSettings(SettingsOf(c))
    && codes[21..26] == EncodeToggles(TogglesOf(c))
    && (codes[26..33] == Magic1 || codes[26..33] == Magic2)
    && codes[33..36] == Magic3
    && codes[37..48] == EncodeAirflow(FeaturesOf(c))
    && codes[48..51] == Magic4
    && codes[51] == FromBool(c.wifi)
    && codes[63] == FromBool(c.econo)
    && codes[65..69] == Bits(ControllerChecksum(c), 4)
  }

  /**
   * The decoder is exact: a 70-symbol frame decodes to `c` if and only if it
   * is a frame of `c` and `c`'s timer is in range.
   */
  lemma DecodeExactly(codes: seq<Code>, c: Controller)
    requires |codes| == FrameLength
    ensures ParseFrame(codes) == Ok(c) <==> c.timing.halfHours <= 59 && IsFrameOf(codes, c)
  {
    FrameSteps(codes, c);
    SettingsWindow(codes, SettingsOf(c));
    TogglesWindow(codes, TogglesOf(c));
    FeaturesWindow(codes, FeaturesOf(c));
    ChecksumWindow(codes, ControllerChecksum(c));
  }

  /** Every encoded frame is a frame of its controller. */
  lemma EncodeIsFrame(c: Controller)
    ensures IsFrameOf(Encode(c), c)
  {
    FrameFront(c);
    FrameBack(c);
  }

  /**
   * `decode(encode(c)) == c` holds exactly for the controllers whose timer is
   * at most 59 half hours. From 60 to 79 the packed timer byte is rejected
   * with `InvalidTimerSetting`; from 80 on its tens reach bit 3 and above.
   */
  lemma RoundTrip(c: Controller)
    ensures ParseFrame(Encode(c)) == Ok(c) <==> c.timing.halfHours <= 59
  {
    EncodeIsFrame(c);
    DecodeExactly(Encode(c), c);
  }

  // ---------------------------------------------------------------- checksum

  /** The nibble sum of four bytes, term by term. */
  lemma {:induction false} LowNibbleSum4(x: seq<bv8>)
    requires |x| == 4
    ensures LowNibbleSum(x) == (x[0] & 0xF) as int + (x[1] & 0xF) as int + (x[2] & 0xF) as int + (x[3] & 0xF) as int
  {
    assert x[..3][..2] == x[..2];
    assert x[..2][..1] == x[..1];
    assert x[..1][..0] == [];
    assert LowNibbleSum(x) == LowNibbleSum(x[..3]) + (x[3] & 0xF) as int;
    assert LowNibbleSum(x[..3]) == LowNibbleSum(x[..2]) + (x[2] & 0xF) as int;
    assert LowNibbleSum(x[..2]) == LowNibbleSum(x[..1]) + (x[1] & 0xF) as int;
    assert LowNibbleSum(x[..1]) == (x[0] & 0xF) as int;
  }

  /** The high-nibble sum of three bytes, term by term. */
  lemma {:induction false} HighNibbleSum3(x: seq<bv8>)
    requires |x| == 3
    ensures HighNibbleSum(x) == (x[0] >> 4) as int + (x[1] >> 4) as int + (x[2] >> 4) as int
  {
    assert x[..2][..1] == x[..1];
    assert x[..1][..0] == [];
    assert HighNibbleSum(x) == HighNibbleSum(x[..2]) + (x[2] >> 4) as int;
    assert HighNibbleSum(x[..2]) == HighNibbleSum(x[..1]) + (x[1] >> 4) as int;
    assert HighNibbleSum(x[..1]) == (x[0] >> 4) as int;
  }

  /** `checksum_block` on seven bytes: the seed, four low nibbles and three high nibbles. */
  lemma NibbleSum7(d: seq<bv8>)
    requires |d| == 7
    ensures NibbleSum(d) == 10 + (d[0] & 0xF) as int + (d[1] & 0xF) as int + (d[2] & 0xF) as int
      + (d[3] & 0xF) as int + (d[4] >> 4) as int + (d[5] >> 4) as int + (d[6] >> 4) as int
  {
    assert Take(d, 4) == d[..4];
    assert d[|Take(d, 4)|..] == d[4..];
    assert Take(d[4..], 3) == d[4..];
    LowNibbleSum4(d[..4]);
    HighNibbleSum3(d[4..]);
  }

  /** What each of the seven checksum bytes contributes. */
  lemma ChecksumTerms(c: Controller)
    ensures var d := ChecksumBlocks(c);
      && (d[0] & 0xF) as int == ModeValue(c.mode) as int + 8 * BoolByte(c.on) as int
      && (d[1] & 0xF) as int == TemperatureOffset(c.temperature) as int
      && (d[2] & 0xF) as int == 0
      && (d[3] & 0xF) as int == BoolByte(c.ventilate) as int
      && (d[4] >> 4) as int == SwingValue(c.hSwing) as int
      && (d[5] >> 4) as int == 2
      && (d[6] >> 4) as int == 0
  {
    var d := ChecksumBlocks(c);
    assert d[0] & 0xF == ModeValue(c.mode) + 8 * BoolByte(c.on);
    assert d[1] & 0xF == TemperatureOffset(c.temperature);
    assert d[3] & 0xF == BoolByte(c.ventilate);
    assert d[4] >> 4 == SwingValue(c.hSwing);
    assert d[5] >> 4 == 2;
  }

  /**
   * The checksum in closed form: 12 plus the mode, 8 if on, the temperature
   * offset, 1 if ventilating and the horizontal swing, modulo 16. The seed 10
   * and the constant 2 from the display byte make the 12.
   */
  lemma ChecksumFormula(c: Controller)
    ensures ControllerChecksum(c) as int ==
      (12 + ModeValue(c.mode) as int + 8 * BoolByte(c.on) as int + TemperatureOffset(c.temperature) as int
        + BoolByte(c.ventilate) as int + SwingValue(c.hSwing) as int) % 16
  {
    NibbleSum7(ChecksumBlocks(c));
    ChecksumTerms(c);
  }

  /** The checksum depends on the mode, power, temperature, ventilation and horizontal swing only. */
  lemma ChecksumDependsOnly(c: Controller, c': Controller)
    requires c.mode == c'.mode && c.on == c'.on && c.temperature == c'.temperature
    requires c.ventilate == c'.ventilate && c.hSwing == c'.hSwing
    ensures ControllerChecksum(c) == ControllerChecksum(c')
  {
    ChecksumFormula(c);
    ChecksumFormula(c');
    assert ControllerChecksum(c) as int == ControllerChecksum(c') as int;
  }

  /**
   * A frame of `c` whose checksum nibble is replaced by a wrong value `t` is
   * rejected with `Checksum(t << 4 | checksum)`: every other field still decodes.
   */
  lemma ChecksumMismatch(c: Controller, t: bv8)
    requires c.timing.halfHours <= 59 && t < 16 && t != ControllerChecksum(c)
    ensures var f := Encode(c)[..65] + Bits(t, 4) + [End];
      |f| == FrameLength && ParseFrame(f) == Err(Checksum((t << 4) | ControllerChecksum(c)))
  {
    var e := Encode(c);
    var f := e[..65] + Bits(t, 4) + [End];
    FrameFront(c);
    FrameBack(c);
    assert f[..65] == e[..65];
    assert f[1..21] == e[1..21] && f[21..26] == e[21..26] && f[26..33] == e[26..33] && f[33..36] == e[33..36];
    assert f[37..48] == e[37..48] && f[48..51] == e[48..51] && f[51] == e[51] && f[63] == e[63];
    assert f[65..69] == Bits(t, 4);
    SettingsWindow(f, SettingsOf(c));
    TogglesWindow(f, TogglesOf(c));
    FeaturesWindow(f, FeaturesOf(c));
    ChecksumWindow(f, t);
    FrameChecked(f, c, t);
  }

  // ---------------------------------------------------------------- reserved positions

  /** Two frames that agree everywhere except possibly at the reserved positions 52..62 and 64. */
  ghost predicate AgreeOffReserved(codes: seq<Code>, other: seq<Code>) {
    && |codes| == FrameLength && |other| == FrameLength
    && forall i | 0 <= i < FrameLength && !Reserved(i) :: codes[i] == other[i]
  }

  /** The settings run depends on positions 1..20 only. */
  lemma SettingsLocal(codes: seq<Code>, other: seq<Code>)
    requires |codes| == FrameLength && |other| == FrameLength
    requires forall i | 1 <= i < 21 :: codes[i] == other[i]
    ensures ParseSettings(codes) == ParseSettings(other)
  {
    ModeLocal(codes, other, 1);
    FanLocal(codes, other, 5);
    TemperatureLocal(codes, other, 9);
    TimerLocal(codes, other, 13);
    SettingsFromFields(codes, other);
  }

  /** `ParseSettings` is a function of its seven field decoders' results. */
  lemma SettingsFromFields(codes: seq<Code>, other: seq<Code>)
    requires |codes| == FrameLength && |other| == FrameLength
    requires ParseMode(codes, 1) == ParseMode(other, 1) && BoolAt(codes, 4) == BoolAt(other, 4)
    requires ParseFan(codes, 5) == ParseFan(other, 5)
    requires BoolAt(codes, 7) == BoolAt(other, 7) && BoolAt(codes, 8) == BoolAt(other, 8)
    requires ParseTemperature(codes, 9) == ParseTemperature(other, 9)
    requires ParseTimer(codes, 13) == ParseTimer(other, 13)
    ensures ParseSettings(codes) == ParseSettings(other)
  {
  }

  /** The toggles run depends on positions 21..35 only. */
  lemma TogglesLocal(codes: seq<Code>, other: seq<Code>)
    requires |codes| == FrameLength && |other| == FrameLength
    requires forall i | 21 <= i < 36 :: codes[i] == other[i]
    ensures ParseToggles(codes) == ParseToggles(other)
  {
    assert codes[26..33] == other[26..33];
    assert codes[33..36] == other[33..36];
  }

  /** The run after `Continue` depends on positions 37..51 and 63 only. */
  lemma FeaturesLocal(codes: seq<Code>, other: seq<Code>)
    requires |codes| == FrameLength && |other| == FrameLength
    requires forall i | 37 <= i < 52 :: codes[i] == other[i]
    requires codes[63] == other[63]
    ensures ParseFeatures(codes) == ParseFeatures(other)
  {
    SwingLocal(codes, other, 37);
    SwingLocal(codes, other, 41);
    assert codes[48..51] == other[48..51];
    FeaturesFromFields(codes, other);
  }

  /** `ParseFeatures` is a function of its field decoders' and magic check's results. */
  lemma FeaturesFromFields(codes: seq<Code>, other: seq<Code>)
    requires |codes| == FrameLength && |other| == FrameLength
    requires ParseSwing(codes, 37) == ParseSwing(other, 37) && ParseSwing(codes, 41) == ParseSwing(other, 41)
    requires ParseDisplay(codes, 45) == ParseDisplay(other, 45) && BoolAt(codes, 47) == BoolAt(other, 47)
    requires MagicBlock3(codes, 48) == MagicBlock3(other, 48)
    requires BoolAt(codes, 51) == BoolAt(other, 51) && BoolAt(codes, 63) == BoolAt(other, 63)
    ensures ParseFeatures(codes) == ParseFeatures(other)
  {
  }

  /** `ParseFrame` is a function of the markers, the three runs and the checksum nibble. */
  lemma FrameFromParts(codes: seq<Code>, other: seq<Code>)
    requires |codes| == FrameLength && |other| == FrameLength
    requires codes[0] == other[0] && codes[36] == other[36] && codes[69] == other[69]
    requires ParseSettings(codes) == ParseSettings(other) && ParseToggles(codes) == ParseToggles(other)
    requires ParseFeatures(codes) == ParseFeatures(other)
    requires ReadBits(codes, 65, 4) == ReadBits(other, 65, 4)
    ensures ParseFrame(codes) == ParseFrame(other)
  {
  }

  /** The decoder never looks at the reserved positions: changing them changes nothing, errors included. */
  lemma ReservedIgnored(codes: seq<Code>, other: seq<Code>)
    requires AgreeOffReserved(codes, other)
    ensures ParseFrame(codes) == ParseFrame(other)
  {
    assert forall i | 0 <= i < 52 :: codes[i] == other[i] by {
      forall i | 0 <= i < 52 ensures codes[i] == other[i] {
        assert !Reserved(i);
      }
    }
    assert !Reserved(63);
    assert forall i | 65 <= i < FrameLength :: codes[i] == other[i] by {
      forall i | 65 <= i < FrameLength ensures codes[i] == other[i] {
        assert !Reserved(i);
      }
    }
    WindowsAgree(codes, other);
  }

  /** Agreement on positions 0..51, 63 and 65..69 is all `ParseFrame` needs. */
  lemma WindowsAgree(codes: seq<Code>, other: seq<Code>)
    requires |codes| == FrameLength && |other| == FrameLength
    requires forall i | 0 <= i < 52 :: codes[i] == other[i]
    requires codes[63] == other[63]
    requires forall i | 65 <= i < FrameLength :: codes[i] == other[i]
    ensures ParseFrame(codes) == ParseFrame(other)
  {
    SettingsLocal(codes, other);
    TogglesLocal(codes, other);
    FeaturesLocal(codes, other);
    ReadBitsLocal(codes, other, 65, 4);
    FrameFromParts(codes, other);
  }

  // ---------------------------------------------------------------- errors

  /** The settings run fails only on a marker or a value out of range. */
  lemma SettingsErrors(codes: seq<Code>)
    requires |codes| == FrameLength
    ensures ParseSettings(codes).Err? ==>
      ParseSettings(codes).error in {UnexpectedMarker, InvalidMode, InvalidTemperature, InvalidTimerSetting}
  {
    var r := ParseSettings(codes);
    if ParseMode(codes, 1).Err? {
      ModeErrors(codes, 1);
    } else if BoolAt(codes, 4).Err? {
      assert r == Err(UnexpectedMarker);
    } else if ParseFan(codes, 5).Err? {
      FanErrors(codes, 5);
    } else if BoolAt(codes, 7).Err? || BoolAt(codes, 8).Err? {
      assert r == Err(UnexpectedMarker);
    } else if ParseTemperature(codes, 9).Err? {
      TemperatureErrors(codes, 9);
    } else {
      TimerErrors(codes, 13);
    }
  }

  /** The toggles run fails only on a marker or on the first or second magic block. */
  lemma TogglesErrors(codes: seq<Code>)
    requires |codes| == FrameLength
    ensures ParseToggles(codes).Err? ==>
      ParseToggles(codes).error in {UnexpectedMarker, InvalidMagic(1), InvalidMagic(2)}
  {
  }

  /** The run after `Continue` fails only on a marker or on the third magic block. */
  lemma FeaturesErrors(codes: seq<Code>)
    requires |codes| == FrameLength
    ensures ParseFeatures(codes).Err? ==>
      ParseFeatures(codes).error in {UnexpectedMarker, InvalidMagic(3)}
  {
    SwingErrors(codes, 37);
    SwingErrors(codes, 41);
    DisplayErrors(codes, 45);
  }

  /**
   * Every error a 70-symbol frame can produce: `InvalidMarker` exactly when
   * a marker position is wrong, a magic block numbered 1 to 3, and
   * otherwise a marker inside a field, a field value out of range or a
   * checksum report. `Eof`, `InvalidFan` and `InvalidSwingMode` never occur.
   */
  lemma FrameErrors(codes: seq<Code>)
    requires |codes| == FrameLength
    ensures var r := ParseFrame(codes);
      && (r == Err(InvalidMarker) <==> !(codes[0] == Start && codes[36] == Continue && codes[69] == End))
      && (r.Err? && r.error.InvalidMagic? ==> 1 <= r.error.block <= 3)
      && (r.Err? ==> !r.error.Eof? && !r.error.InvalidFan? && !r.error.InvalidSwingMode?)
  {
    SettingsErrors(codes);
    TogglesErrors(codes);
    FeaturesErrors(codes);
    ReadBitsSpec(codes, 65, 4);
  }

  /** A checksum report names the transmitted nibble and the computed one, and they differ. */
  lemma ChecksumReport(codes: seq<Code>)
    requires |codes| == FrameLength
    requires ParseFrame(codes).Err? && ParseFrame(codes).error.Checksum?
    ensures var n := ParseFrame(codes).error.nibbles; n >> 4 != n & 0x0F
  {
    SettingsErrors(codes);
    TogglesErrors(codes);
    FeaturesErrors(codes);
    ReadBitsErrors(codes, 65, 4);
    assert codes[0] == Start && codes[36] == Continue && codes[69] == End;
    assert ParseSettings(codes).Ok? && ParseToggles(codes).Ok? && ParseFeatures(codes).Ok?;
    assert ReadBits(codes, 65, 4).Ok?;
    var s := ParseSettings(codes).value;
    var t := ParseToggles(codes).value;
    var b := ParseFeatures(codes).value;
    var k := ReadBits(codes, 65, 4).value;
    var m := ControllerChecksum(Assemble(s, t, b));
    assert ParseFrame(codes) == Err(Checksum((k << 4) | m)) && k != m;
    ReadBitsSpec(codes, 65, 4);
    assert FitsIn(k, 4);
    NibblesSplit(k, m);
  }

  /** `t << 4 | c` keeps both nibbles apart. */
  lemma NibblesSplit(t: bv8, c: bv8)
    requires FitsIn(t, 4) && c < 16
    ensures ((t << 4) | c) >> 4 == t && ((t << 4) | c) & 0x0F == c
  {
  }

  /** A frame whose only markers are at 0, 36 and 69 never fails with `UnexpectedMarker`. */
  lemma NoStrayMarkers(codes: seq<Code>)
    requires |codes| == FrameLength
    requires forall i | 0 < i < FrameLength - 1 && i != 36 :: !codes[i].IsMarker()
    ensures ParseFrame(codes) != Err(UnexpectedMarker)
  {
    SettingsClean(codes);
    TogglesClean(codes);
    FeaturesClean(codes);
    ReadBitsSucceeds(codes, 65, 4);
  }

  /** Without markers in 1..20, the settings run cannot fail with `UnexpectedMarker`. */
  lemma SettingsClean(codes: seq<Code>)
    requires |codes| == FrameLength
    requires forall i | 1 <= i < 21 :: !codes[i].IsMarker()
    ensures ParseSettings(codes) != Err(UnexpectedMarker)
  {
    ReadBitsSucceeds(codes, 1, 3);
    ReadBitsSucceeds(codes, 5, 2);
    ReadBitsSucceeds(codes, 9, 4);
    ReadBitsSucceeds(codes, 13, 8);
  }

  /** Without markers in 21..25, the toggles run cannot fail with `UnexpectedMarker`. */
  lemma TogglesClean(codes: seq<Code>)
    requires |codes| == FrameLength
    requires forall i | 21 <= i < 26 :: !codes[i].IsMarker()
    ensures ParseToggles(codes) != Err(UnexpectedMarker)
  {
  }

  /** Without markers in 37..51 and at 63, the run after `Continue` cannot fail with `UnexpectedMarker`. */
  lemma FeaturesClean(codes: seq<Code>)
    requires |codes| == FrameLength
    requires forall i | 37 <= i < 52 :: !codes[i].IsMarker()
    requires !codes[63].IsMarker()
    ensures ParseFeatures(codes) != Err(UnexpectedMarker)
  {
    ReadBitsSucceeds(codes, 37, 4);
    ReadBitsSucceeds(codes, 41, 4);
  }

  // ---------------------------------------------------------------- rejected frames

  /** With the markers in place, a failing settings run is the frame's error. */
  lemma SettingsFailureFirst(codes: seq<Code>)
    requires |codes| == FrameLength
    requires codes[0] == Start && codes[36] == Continue && codes[69] == End
    requires ParseSettings(codes).Err?
    ensures ParseFrame(codes) == Err(ParseSettings(codes).error)
  {
  }

  /** After a good settings run, a failing toggles run is the frame's error. */
  lemma TogglesFailureFirst(codes: seq<Code>)
    requires |codes| == FrameLength
    requires codes[0] == Start && codes[36] == Continue && codes[69] == End
    requires ParseSettings(codes).Ok? && ParseToggles(codes).Err?
    ensures ParseFrame(codes) == Err(ParseToggles(codes).error)
  {
  }

  /** After good settings and toggles, a failing run after `Continue` is the frame's error. */
  lemma FeaturesFailureFirst(codes: seq<Code>)
    requires |codes| == FrameLength
    requires codes[0] == Start && codes[36] == Continue && codes[69] == End
    requires ParseSettings(codes).Ok? && ParseToggles(codes).Ok? && ParseFeatures(codes).Err?
    ensures ParseFrame(codes) == Err(ParseFeatures(codes).error)
  {
  }

  /** With good settings and plain toggles, a wrong first fingerprint is rejected with `InvalidMagic(1)`. */
  lemma Magic1Rejected(codes: seq<Code>)
    requires |codes| == FrameLength
    requires codes[0] == Start && codes[36] == Continue && codes[69] == End
    requires ParseSettings(codes).Ok?
    requires forall i | 21 <= i < 26 :: !codes[i].IsMarker()
    requires codes[26..33] != Magic1 && codes[26..33] != Magic2
    ensures ParseFrame(codes) == Err(InvalidMagic(1))
  {
    MagicWindows(codes);
    assert ParseToggles(codes) == Err(InvalidMagic(1));
    TogglesFailureFirst(codes);
  }

  /** With everything before it accepted, a wrong second block is rejected with `InvalidMagic(2)`. */
  lemma Magic2Rejected(codes: seq<Code>)
    requires |codes| == FrameLength
    requires codes[0] == Start && codes[36] == Continue && codes[69] == End
    requires ParseSettings(codes).Ok?
    requires forall i | 21 <= i < 26 :: !codes[i].IsMarker()
    requires codes[26..33] == Magic1 || codes[26..33] == Magic2
    requires codes[33..36] != Magic3
    ensures ParseFrame(codes) == Err(InvalidMagic(2))
  {
    MagicWindows(codes);
    assert ParseToggles(codes) == Err(InvalidMagic(2));
    TogglesFailureFirst(codes);
  }

  /** With everything before it accepted, a wrong third block is rejected with `InvalidMagic(3)`. */
  lemma Magic3Rejected(codes: seq<Code>)
    requires |codes| == FrameLength
    requires codes[0] == Start && codes[36] == Continue && codes[69] == End
    requires ParseSettings(codes).Ok? && ParseToggles(codes).Ok?
    requires forall i | 37 <= i < 48 :: !codes[i].IsMarker()
    requires codes[48..51] != Magic4
    ensures ParseFrame(codes) == Err(InvalidMagic(3))
  {
    MagicWindows(codes);
    SwingTotal(codes, 37);
    SwingTotal(codes, 41);
    assert ParseFeatures(codes) == Err(InvalidMagic(3));
    FeaturesFailureFirst(codes);
  }

  /** Replacing the `|w|` symbols at `k` by `w` changes nothing else. */
  lemma Spliced(e: seq<Code>, w: seq<Code>, k: nat)
    requires k + |w| <= |e|
    ensures var f := e[..k] + w + e[k + |w|..];
      && |f| == |e| && f[k..k + |w|] == w
      && (forall i | 0 <= i < |e| && !(k <= i < k + |w|) :: f[i] == e[i])
  {
    var f := e[..k] + w + e[k + |w|..];
    forall i | 0 <= i < |e| && !(k <= i < k + |w|)
      ensures f[i] == e[i]
    {
      if i < k {
        assert f[i] == e[..k][i];
      } else {
        assert f[i] == e[k + |w|..][i - k - |w|];
      }
    }
  }

  /** An encoded frame with its markers, settings run and data symbols, as facts on its positions. */
  lemma EncodedBasics(c: Controller)
    requires c.timing.halfHours <= 59
    ensures var e := Encode(c);
      && e[0] == Start && e[36] == Continue && e[69] == End
      && ParseSettings(e) == Ok(SettingsOf(c)) && ParseToggles(e) == Ok(TogglesOf(c))
      && (forall i | 0 < i < FrameLength - 1 && i != 36 :: !e[i].IsMarker())
      && (e[26..33] == Magic1 || e[26..33] == Magic2)
  {
    RoundTrip(c);
    FrameParsed(Encode(c), c);
    FrameFront(c);
    EncodeOnlyData(c);
  }

  /** A well-formed frame whose first magic block is replaced by anything but `MAGIC_1` or `MAGIC_2` is rejected with `InvalidMagic(1)`. */
  lemma Splice1Rejected(e: seq<Code>, w: seq<Code>)
    requires |e| == FrameLength && e[0] == Start && e[36] == Continue && e[69] == End
    requires ParseSettings(e).Ok?
    requires forall i | 0 < i < FrameLength - 1 && i != 36 :: !e[i].IsMarker()
    requires |w| == 7 && w != Magic1 && w != Magic2
    ensures ParseFrame(e[..26] + w + e[33..]) == Err(InvalidMagic(1))
  {
    var f := e[..26] + w + e[33..];
    Spliced(e, w, 26);
    SettingsLocal(f, e);
    Magic1Rejected(f);
  }

  /** A well-formed frame whose second magic block is replaced by anything but `MAGIC_3` is rejected with `InvalidMagic(2)`. */
  lemma Splice2Rejected(e: seq<Code>, w: seq<Code>)
    requires |e| == FrameLength && e[0] == Start && e[36] == Continue && e[69] == End
    requires ParseSettings(e).Ok? && (e[26..33] == Magic1 || e[26..33] == Magic2)
    requires forall i | 0 < i < FrameLength - 1 && i != 36 :: !e[i].IsMarker()
    requires |w| == 3 && w != Magic3
    ensures ParseFrame(e[..33] + w + e[36..]) == Err(InvalidMagic(2))
  {
    var f := e[..33] + w + e[36..];
    Spliced(e, w, 33);
    SettingsLocal(f, e);
    assert f[26..33] == e[26..33];
    Magic2Rejected(f);
  }

  /** A well-formed frame whose third magic block is replaced by anything but `MAGIC_4` is rejected with `InvalidMagic(3)`. */
  lemma Splice3Rejected(e: seq<Code>, w: seq<Code>)
    requires |e| == FrameLength && e[0] == Start && e[36] == Continue && e[69] == End
    requires ParseSettings(e).Ok? && ParseToggles(e).Ok?
    requires forall i | 0 < i < FrameLength - 1 && i != 36 :: !e[i].IsMarker()
    requires |w| == 3 && w != Magic4
    ensures ParseFrame(e[..48] + w + e[51..]) == Err(InvalidMagic(3))
  {
    var f := e[..48] + w + e[51..];
    Spliced(e, w, 48);
    SettingsLocal(f, e);
    TogglesLocal(f, e);
    Magic3Rejected(f);
  }

  /**
   * An encoded frame whose first magic block is replaced by anything but
   * `MAGIC_1` or `MAGIC_2` is rejected with `InvalidMagic(1)`.
   */
  lemma MagicMismatch1(c: Controller, w: seq<Code>)
    requires c.timing.halfHours <= 59 && |w| == 7 && w != Magic1 && w != Magic2
    ensures var f := Encode(c)[..26] + w + Encode(c)[33..];
      |f| == FrameLength && ParseFrame(f) == Err(InvalidMagic(1))
  {
    EncodedBasics(c);
    Splice1Rejected(Encode(c), w);
  }

  /** An encoded frame whose second magic block is not `MAGIC_3` is rejected with `InvalidMagic(2)`. */
  lemma MagicMismatch2(c: Controller, w: seq<Code>)
    requires c.timing.halfHours <= 59 && |w| == 3 && w != Magic3
    ensures var f := Encode(c)[..33] + w + Encode(c)[36..];
      |f| == FrameLength && ParseFrame(f) == Err(InvalidMagic(2))
  {
    EncodedBasics(c);
    Splice2Rejected(Encode(c), w);
  }

  /** An encoded frame whose third magic block is not `MAGIC_4` is rejected with `InvalidMagic(3)`. */
  lemma MagicMismatch3(c: Controller, w: seq<Code>)
    requires c.timing.halfHours <= 59 && |w| == 3 && w != Magic4
    ensures var f := Encode(c)[..48] + w + Encode(c)[51..];
      |f| == FrameLength && ParseFrame(f) == Err(InvalidMagic(3))
  {
    EncodedBasics(c);
    Splice3Rejected(Encode(c), w);
  }

  // ---------------------------------------------------------------- stray markers

  /** The data positions the decoder reads as field bits or booleans (not the magic blocks, not the skipped run). */
  predicate FieldPosition(p: nat) {
    (1 <= p < 26) || (37 <= p < 48) || p == 51 || p == 63 || (65 <= p < FrameLength - 1)
  }

  /** A marker inside an `n`-bit field makes its read fail with `UnexpectedMarker`. */
  lemma ReadBitsHit(codes: seq<Code>, pos: nat, n: nat, p: nat)
    requires n <= 8 && pos <= p < pos + n <= |codes| && codes[p].IsMarker()
    ensures ReadBits(codes, pos, n) == Err(UnexpectedMarker)
  {
    ReadBitsSpec(codes, pos, n);
  }

  /** A marker put into a good settings run makes it fail with `UnexpectedMarker`. */
  lemma SettingsHit(f: seq<Code>, e: seq<Code>, p: nat)
    requires |f| == FrameLength && |e| == FrameLength && ParseSettings(e).Ok?
    requires 1 <= p < 21 && f[p].IsMarker()
    requires forall i | 1 <= i < 21 && i != p :: f[i] == e[i]
    ensures ParseSettings(f) == Err(UnexpectedMarker)
  {
    if p < 9 {
      FrontSettingsHit(f, e, p);
    } else {
      BackSettingsHit(f, e, p);
    }
  }

  /** The settings case for positions 1..8: mode, power, fan, swing and sleep. */
  lemma FrontSettingsHit(f: seq<Code>, e: seq<Code>, p: nat)
    requires |f| == FrameLength && |e| == FrameLength && ParseSettings(e).Ok?
    requires 1 <= p < 9 && f[p].IsMarker()
    requires forall i | 1 <= i < 21 && i != p :: f[i] == e[i]
    ensures ParseSettings(f) == Err(UnexpectedMarker)
  {
    if p < 4 {
      ReadBitsHit(f, 1, 3, p);
    } else if p == 4 {
      ModeLocal(f, e, 1);
    } else if p < 7 {
      ModeLocal(f, e, 1);
      ReadBitsHit(f, 5, 2, p);
    } else {
      ModeLocal(f, e, 1);
      FanLocal(f, e, 5);
    }
  }

  /** The settings case for positions 9..20: temperature and timer. */
  lemma BackSettingsHit(f: seq<Code>, e: seq<Code>, p: nat)
    requires |f| == FrameLength && |e| == FrameLength && ParseSettings(e).Ok?
    requires 9 <= p < 21 && f[p].IsMarker()
    requires forall i | 1 <= i < 21 && i != p :: f[i] == e[i]
    ensures ParseSettings(f) == Err(UnexpectedMarker)
  {
    ModeLocal(f, e, 1);
    FanLocal(f, e, 5);
    assert BoolAt(f, 4) == BoolAt(e, 4) && BoolAt(f, 7) == BoolAt(e, 7) && BoolAt(f, 8) == BoolAt(e, 8);
    if p < 13 {
      ReadBitsHit(f, 9, 4, p);
    } else {
      TemperatureLocal(f, e, 9);
      ReadBitsHit(f, 13, 8, p);
    }
  }

  /** A marker put among the five toggles of a good toggles run makes it fail with `UnexpectedMarker`. */
  lemma TogglesHit(f: seq<Code>, e: seq<Code>, p: nat)
    requires |f| == FrameLength && |e| == FrameLength && ParseToggles(e).Ok?
    requires 21 <= p < 26 && f[p].IsMarker()
    requires forall i | 21 <= i < 26 && i != p :: f[i] == e[i]
    ensures ParseToggles(f) == Err(UnexpectedMarker)
  {
  }

  /** A marker put into a field of a good run after `Continue` makes it fail with `UnexpectedMarker`. */
  lemma FeaturesHit(f: seq<Code>, e: seq<Code>, p: nat)
    requires |f| == FrameLength && |e| == FrameLength && ParseFeatures(e).Ok?
    requires ((37 <= p < 48) || p == 51 || p == 63) && f[p].IsMarker()
    requires forall i | 37 <= i < 52 && i != p :: f[i] == e[i]
    ensures ParseFeatures(f) == Err(UnexpectedMarker)
  {
    if p < 41 {
      ReadBitsHit(f, 37, 4, p);
    } else if p < 45 {
      SwingLocal(f, e, 37);
      ReadBitsHit(f, 41, 4, p);
    } else {
      SwingLocal(f, e, 37);
      SwingLocal(f, e, 41);
      if p >= 48 {
        assert f[48..51] == e[48..51];
      }
    }
  }

  /** After good runs, a failing checksum read is the frame's error. */
  lemma ChecksumFailureLast(codes: seq<Code>)
    requires |codes| == FrameLength
    requires codes[0] == Start && codes[36] == Continue && codes[69] == End
    requires ParseSettings(codes).Ok? && ParseToggles(codes).Ok? && ParseFeatures(codes).Ok?
    requires ReadBits(codes, 65, 4).Err?
    ensures ParseFrame(codes) == Err(ReadBits(codes, 65, 4).error)
  {
  }

  /**
   * A marker put at any position the decoder reads as data turns an
   * accepted frame into one rejected with `UnexpectedMarker`.
   */
  lemma StrayMarkerRejected(e: seq<Code>, p: nat, m: Code)
    requires |e| == FrameLength && ParseFrame(e).Ok? && FieldPosition(p) && m.IsMarker()
    ensures ParseFrame(e[p := m]) == Err(UnexpectedMarker)
  {
    var f := e[p := m];
    FrameParsed(e, ParseFrame(e).value);
    if p < 26 {
      FrontStray(f, e, p);
    } else {
      BackStray(f, e, p);
    }
  }

  /** The stray-marker case for positions 1..25: the settings and toggles runs. */
  lemma FrontStray(f: seq<Code>, e: seq<Code>, p: nat)
    requires |f| == FrameLength && |e| == FrameLength && e[0] == Start && e[36] == Continue && e[69] == End
    requires ParseSettings(e).Ok? && ParseToggles(e).Ok?
    requires 1 <= p < 26 && f[p].IsMarker()
    requires forall i | 0 <= i < FrameLength && i != p :: f[i] == e[i]
    ensures ParseFrame(f) == Err(UnexpectedMarker)
  {
    if p < 21 {
      SettingsHit(f, e, p);
      SettingsFailureFirst(f);
    } else {
      SettingsLocal(f, e);
      TogglesHit(f, e, p);
      TogglesFailureFirst(f);
    }
  }

  /** The stray-marker case after `Continue`: the fields and `econo`, then the checksum nibble. */
  lemma BackStray(f: seq<Code>, e: seq<Code>, p: nat)
    requires |f| == FrameLength && |e| == FrameLength && e[0] == Start && e[36] == Continue && e[69] == End
    requires ParseSettings(e).Ok? && ParseToggles(e).Ok? && ParseFeatures(e).Ok?
    requires ((37 <= p < 48) || p == 51 || p == 63 || (65 <= p < FrameLength - 1)) && f[p].IsMarker()
    requires forall i | 0 <= i < FrameLength && i != p :: f[i] == e[i]
    ensures ParseFrame(f) == Err(UnexpectedMarker)
  {
    SettingsLocal(f, e);
    TogglesLocal(f, e);
    if p < 64 {
      FeaturesHit(f, e, p);
      FeaturesFailureFirst(f);
    } else {
      ChecksumStray(f, e, p);
    }
  }

  /** A marker in the checksum nibble of an otherwise good frame is the frame's error. */
  lemma ChecksumStray(f: seq<Code>, e: seq<Code>, p: nat)
    requires |f| == FrameLength && |e| == FrameLength && f[0] == Start && f[36] == Continue && f[69] == End
    requires ParseSettings(f).Ok? && ParseToggles(f).Ok? && ParseFeatures(e).Ok?
    requires 65 <= p < FrameLength - 1 && f[p].IsMarker()
    requires forall i | 37 <= i < 64 :: f[i] == e[i]
    ensures ParseFrame(f) == Err(UnexpectedMarker)
  {
    FeaturesLocal(f, e);
    ReadBitsHit(f, 65, 4, p);
    ChecksumFailureLast(f);
  }

  /** An encoded frame with a marker put at a position read as data is rejected with `UnexpectedMarker`. */
  lemma StrayMarker(c: Controller, p: nat, m: Code)
    requires c.timing.halfHours <= 59 && FieldPosition(p) && m.IsMarker()
    ensures |Encode(c)| == FrameLength && ParseFrame(Encode(c)[p := m]) == Err(UnexpectedMarker)
  {
    RoundTrip(c);
    StrayMarkerRejected(Encode(c), p, m);
  }
}
