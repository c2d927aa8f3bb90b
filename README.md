# gree-ir: a verified model of the Gree remote-control frame codec

The `gree-ir` crate turns the settings of a Gree air conditioner (a
`Controller`: mode, fan, temperature, timer, swing and a dozen switches) into
the 70-symbol frame a Gree infrared remote sends, and decodes such a frame
back. A frame is a run of `Code`s: the markers `Start`, `Continue` and
`End`, and the data symbols `Short` (bit 0) and `Long` (bit 1). Fields are
written least significant bit first. Three fixed "magic" blocks act as a
vendor fingerprint, and a 4-bit nibble-sum checksum protects the mode, power,
temperature, ventilation and horizontal swing.

This project models `src/lib.rs` in Dafny:

- `codes.dfy` (module `Codes`): the symbol alphabet and its conversions to
  and from `bool` and `u8`; the decode errors; and a `Cursor` class standing
  for the `&mut impl Iterator<Item = Code>` that every decoder advances.
- `bits.dfy` (module `BitFields`): LSB-first bit fields over `u8`, modelled
  as `bv8`.
  - `Bits` spells a value as `n` symbols.
  - `ReadBits` is the `a |= t << i` loop the decoders share. `NextBits` is
    that loop as a method on the cursor.
- `attributes.dfy` (module `Attributes`): the six field types `Mode`, `Fan`,
  `Temperature`, `TimerSetting`, `SwingMode` and `TemperatureDisplay`.
  - Each has an encoder, a pure decoder `Parse*` and a cursor method
    `Decode*` proved equal to it.
  - Lemmas state exactly which symbol strings decode to a given value, which
    errors can occur and which symbols a decoder reads.
- `frame.dfy` (module `Frame`): `Controller`, the magic blocks, the checksum
  (`checksum` and `checksum_block`), `encode`, and `decode` as a pure
  function `ParseFrame` plus the cursor method `Decode`.
- `frame_properties.dfy` (module `FrameProperties`): the frame-level lemmas.
  - The layout of an encoded frame.
  - Exactly which frames decode to a given controller, and hence the round
    trip `decode(encode(c)) == c` for timers up to 59 half hours.
  - The closed form of the checksum and what it depends on.
  - The reserved positions the decoder ignores.
  - The complete list of errors a 70-symbol frame can produce.
  - Single corruptions of an encoded frame and the error each one gets: a
    wrong magic block gives `InvalidMagic` of that block, a wrong checksum
    nibble gives `Checksum`, and a marker at any data position gives
    `UnexpectedMarker`.

## Model

The pure decoders `ParseMode`, `ParseFan`, `ParseTemperature`, `ParseTimer`,
`ParseSwing`, `ParseDisplay`, `MagicBlock1`-`3`, `ParseSettings`, `ParseToggles`,
`ParseFeatures` and `ParseFrame` are the specifications of the cursor methods.
Each is covered by the row of the method proved equal to it (`DecodeMode` ...
`Decode`, `CheckMagic1`-`3`) and by the lemmas about it.

| member | source | states |
|---|---|---|
| Codes.FromBool | src/lib.rs:18-26 | a boolean becomes a data symbol, never a marker; `Long` exactly for `true` |
| Codes.ToBit | src/lib.rs:28-38 | fails with `UnexpectedMarker` exactly on the three markers; otherwise yields 0 or 1 and is the inverse of `FromBool` |
| Codes.ToBool | src/lib.rs:40-50 | fails with `UnexpectedMarker` exactly on markers; otherwise is the inverse of `FromBool` |
| Codes.FromBoolRoundTrip | src/lib.rs:18-50 | both conversions undo `From<bool>` |
| Codes.BitAt | src/lib.rs:245-247 | `next().ok_or(Eof)?.try_into::<u8>()` yields `Eof` exactly past the end and `UnexpectedMarker` exactly on a marker; otherwise a bit whose symbol is the one read |
| Codes.BoolAt | src/lib.rs:120 | the same for `try_into::<bool>()` |
| Codes.Cursor.constructor | src/lib.rs:115 | a fresh iterator over the frame starts at position 0 |
| Codes.Cursor.Next | src/lib.rs:116 | `next()` yields the current symbol and advances by one, or `None` at the end without moving |
| Codes.Cursor.Nth | src/lib.rs:144 | `nth(n)` skips `n` symbols and yields the next one, or exhausts the iterator |
| Codes.NextBit | src/lib.rs:245 | reading one bit from the cursor is `BitAt` at its position; it advances by one unless at the end |
| Codes.NextBool | src/lib.rs:120 | reading one boolean from the cursor is `BoolAt` at its position |
| BitFields.ShiftForms | src/lib.rs:337-349 | for every bit index `i` below 8, `Weight`, `Placed`, `Bit` and `Mask` are `1 << i`, `t << i`, `a >> i & 1 != 0` and `(1 << i) - 1` |
| BitFields.Bits | src/lib.rs:337-340 | the `n`-symbol LSB-first spelling of a byte: symbol `i` is bit `i` |
| BitFields.ReadBits | src/lib.rs:342-349 | the `a \|= t << i` loop, written out the same way for the temperature (src/lib.rs:311-315), the swing (src/lib.rs:409-412) and the checksum nibble (src/lib.rs:169-172), can only fail with `Eof` or `UnexpectedMarker` |
| BitFields.ReadBitsSpec | src/lib.rs:342-349 | the shared `a \|= t << i` loop succeeds exactly when all `n` symbols are present and none is a marker; the value fits in `n` bits and spells back to the symbols read; otherwise the error is `Eof` exactly when fewer than `n` symbols remain and none of those that remain is a marker (the `ok_or(Eof)?` comes before `try_into()?` for each symbol), and `UnexpectedMarker` in every other case |
| BitFields.ReadBitsSucceeds | src/lib.rs:342-349 | when the loop succeeds: all `n` symbols present and none a marker |
| BitFields.ReadBitsSpells | src/lib.rs:342-349 | the loop's value fits in `n` bits and `Bits` of it is the symbol run read |
| BitFields.ReadBitsErrors | src/lib.rs:342-349 | the loop fails only with `Eof` or `UnexpectedMarker`, and never with `Eof` when all `n` symbols are present; `ReadBitsEof` states when `Eof` is the one |
| BitFields.ReadBitsEof | src/lib.rs:344-347 | the loop fails with `Eof` if and only if fewer than `n` symbols remain and none of those that remain is a marker: each symbol's `ok_or(Eof)?` runs before its `try_into()?`, so a marker met first wins |
| BitFields.ReadBitsOfBits | src/lib.rs:337-349 | decoding the spelling of `a` yields `a` masked to `n` bits: decode undoes encode |
| BitFields.ReadBitsLocal | src/lib.rs:342-349 | the loop reads only its own `n` positions |
| BitFields.ReadBitsFailsEarly | src/lib.rs:345 | once a bit fails, the `?` returns that failure and no later symbol matters |
| BitFields.NextBits | src/lib.rs:342-349 | the loop on the cursor returns `ReadBits` at its position and consumes exactly `n` symbols on success |
| Attributes.ModeValue | src/lib.rs:226-233 | a mode's discriminant is at most 4 |
| Attributes.ModeOf | src/lib.rs:248-255 | the `match` accepts exactly 0..4 and inverts `ModeValue`; 5..7 give `InvalidMode` |
| Attributes.EncodeMode | src/lib.rs:236-242 | a mode is three symbols |
| Attributes.DecodeMode | src/lib.rs:244-256 | `Mode::decode` equals `ParseMode` and consumes exactly 3 symbols on success |
| Attributes.ModeWindow | src/lib.rs:236-256 | a 3-symbol run decodes to `m` exactly when it is `m`'s encoding |
| Attributes.ModeRange | src/lib.rs:248-255 | on marker-free symbols, decoding fails exactly when the value is 5..7, and then with `InvalidMode` |
| Attributes.ModeErrors | src/lib.rs:244-256 | within bounds the only errors are `UnexpectedMarker` and `InvalidMode` |
| Attributes.ModeLocal | src/lib.rs:244-247 | the decoder reads only its 3 symbols |
| Attributes.FanValue | src/lib.rs:259-265 | a fan level's discriminant is at most 3 |
| Attributes.FanOf | src/lib.rs:279-285 | the `match` accepts exactly 0..3 and inverts `FanValue` |
| Attributes.EncodeFan | src/lib.rs:268-274 | a fan level is two symbols |
| Attributes.DecodeFan | src/lib.rs:276-286 | `Fan::decode` equals `ParseFan` and consumes exactly 2 symbols on success |
| Attributes.FanWindow | src/lib.rs:268-286 | a 2-symbol run decodes to `f` exactly when it is `f`'s encoding |
| Attributes.FanTotal | src/lib.rs:279-285 | two marker-free symbols always decode: the `InvalidFan` arm is unreachable |
| Attributes.FanErrors | src/lib.rs:276-286 | within bounds the only error is `UnexpectedMarker` |
| Attributes.FanLocal | src/lib.rs:277-278 | the decoder reads only its 2 symbols |
| Attributes.FromCentigrade | src/lib.rs:293-299 | `None` exactly when the degrees are below 16 or above 30; otherwise keeps the degrees |
| Attributes.TemperatureOffset | src/lib.rs:302 | `degrees - 16` is at most 14 and is the exact difference, with no wrap-around |
| Attributes.EncodeTemperature | src/lib.rs:301-307 | a temperature is four symbols |
| Attributes.TemperatureOf | src/lib.rs:316-320 | accepts exactly offsets 0..14, adds 16 back and inverts `TemperatureOffset`; otherwise `InvalidTemperature` |
| Attributes.DecodeTemperature | src/lib.rs:309-321 | `Temperature::decode` equals `ParseTemperature` and consumes exactly 4 symbols on success |
| Attributes.TemperatureWindow | src/lib.rs:301-321 | a 4-symbol run decodes to `t` exactly when it is `t`'s encoding |
| Attributes.TemperatureRange | src/lib.rs:316-320 | on marker-free symbols, `InvalidTemperature` exactly when the value is above 14; otherwise the degrees are the value plus 16 |
| Attributes.TemperatureErrors | src/lib.rs:309-321 | within bounds the only errors are `UnexpectedMarker` and `InvalidTemperature` |
| Attributes.TemperatureLocal | src/lib.rs:311-315 | the decoder reads only its 4 symbols |
| Attributes.TimerFromByte | src/lib.rs:355-368 | `try_from` fails exactly when tens > 2 or units > 9, with `InvalidTimerSetting`; on success the half hours are at most 59 and packing gives the byte back |
| Attributes.TimerToByte | src/lib.rs:371-379 | up to 59 half hours, `into` packs the half in bit 0, the tens of hours in bits 1-2, `enabled` in bit 3 and the units of hours in bits 4-7; 60..79 are packed without spilling and rejected on decode with `InvalidTimerSetting` (`TimerTensThree`); from 80 on the tens reach bit 3 and above (`TimerSpillsIntoEnabled`) |
| Attributes.TimerByteRoundTrip | src/lib.rs:352-379 | `try_from(into(t)) == t` for every timer of at most 59 half hours |
| Attributes.TimerTensThree | src/lib.rs:355-379 | from 60 to 79 half hours every packed field stays in its own bits, with the tens of hours equal to 3, and `try_from` rejects that byte with `InvalidTimerSetting` |
| Attributes.TimerSpillsIntoEnabled | src/lib.rs:371-378 | packing 80 half hours spills into the enabled bit: a disabled 40-hour timer reads back as an enabled zero timer |
| Attributes.EncodeTimer | src/lib.rs:337-340 | a timer is eight symbols |
| Attributes.DecodeTimer | src/lib.rs:342-349 | `TimerSetting::decode` equals `ParseTimer` and consumes exactly 8 symbols on success |
| Attributes.TimerWindow | src/lib.rs:337-368 | an 8-symbol run decodes to `t` exactly when `t` has at most 59 half hours and the run is `t`'s encoding |
| Attributes.TimerErrors | src/lib.rs:342-349 | within bounds the only errors are `UnexpectedMarker` and `InvalidTimerSetting` |
| Attributes.TimerLocal | src/lib.rs:344-347 | the decoder reads only its 8 symbols |
| Attributes.SwingValue | src/lib.rs:381-399 | a swing mode's discriminant is at most 15 |
| Attributes.SwingOf | src/lib.rs:413-430 | the `match` inverts `SwingValue` on 0..15, and anything else is `Off` |
| Attributes.SwingValueInverse | src/lib.rs:401-431 | every swing mode survives the value-and-back |
| Attributes.EncodeSwing | src/lib.rs:402-405 | a swing mode is four symbols |
| Attributes.DecodeSwing | src/lib.rs:407-431 | `SwingMode::decode` equals `ParseSwing` and consumes exactly 4 symbols on success |
| Attributes.SwingWindow | src/lib.rs:402-431 | a 4-symbol run decodes to `s` exactly when it is `s`'s encoding |
| Attributes.SwingTotal | src/lib.rs:413-430 | four marker-free symbols always decode: `InvalidSwingMode` is never produced |
| Attributes.SwingErrors | src/lib.rs:407-431 | within bounds the only error is `UnexpectedMarker` |
| Attributes.SwingLocal | src/lib.rs:408-412 | the decoder reads only its 4 symbols |
| Attributes.DisplayValue | src/lib.rs:434-440 | a display setting's discriminant is at most 3 |
| Attributes.EncodeDisplay | src/lib.rs:443-446 | a display setting is two symbols |
| Attributes.DisplayOf | src/lib.rs:451-456 | the `match` on two booleans picks the setting whose bits 0 and 1 are those booleans |
| Attributes.DecodeDisplay | src/lib.rs:448-457 | `TemperatureDisplay::decode` equals `ParseDisplay` and consumes exactly 2 symbols on success |
| Attributes.DisplayWindow | src/lib.rs:443-457 | a 2-symbol run decodes to `d` exactly when it is `d`'s encoding |
| Attributes.DisplayTotal | src/lib.rs:451-456 | two marker-free symbols always decode |
| Attributes.DisplayErrors | src/lib.rs:448-457 | within bounds the only error is `UnexpectedMarker` |
| Frame.BoolByte | src/lib.rs:186 | `b as u8` is 1 exactly for `true`, else 0 |
| Frame.ChecksumBlocks | src/lib.rs:185-193 | the checksum is computed over seven bytes |
| Frame.LowNibbleSum | src/lib.rs:199-202 | a sum of low nibbles lies between 0 and 15 per byte |
| Frame.HighNibbleSum | src/lib.rs:203-206 | a sum of high nibbles lies between 0 and 15 per byte |
| Frame.NibbleSum | src/lib.rs:197-206 | the `checksum_block` accumulator stays within 10..115, so the `u8` sum never overflows |
| Frame.BlockChecksum | src/lib.rs:197-209 | the checksum is below 16 and is the accumulator modulo 16 |
| Frame.ChecksumBlock | src/lib.rs:197-209 | the two loops of `checksum_block` compute `BlockChecksum` |
| Frame.ControllerChecksum | src/lib.rs:184-195 | a controller's checksum fits in four bits |
| Frame.EncodeSettings | src/lib.rs:77-83 | the settings run is 20 symbols |
| Frame.EncodeToggles | src/lib.rs:84-88 | the five switches are 5 symbols |
| Frame.SegmentA | src/lib.rs:77-90 | `code35` is 35 symbols |
| Frame.EncodeAirflow | src/lib.rs:91-94 | swing, display and `i_feel` are 11 symbols |
| Frame.SegmentB | src/lib.rs:91-103 | `code32` is 32 symbols |
| Frame.Encode | src/lib.rs:76-109 | an encoded frame has 70 symbols |
| Frame.BlockAt | src/lib.rs:482-485 | filling the magic array succeeds exactly when enough symbols remain, yielding them; otherwise `Eof` |
| Frame.NextBlock | src/lib.rs:482-485 | the fill loop on the cursor computes `BlockAt` and consumes the block |
| Frame.CheckMagic1 | src/lib.rs:481-490 | `check_magic_code1` on the cursor equals `MagicBlock1` and consumes 7 symbols on success |
| Frame.CheckMagic2 | src/lib.rs:492-501 | `check_magic_code2` equals `MagicBlock2` and consumes 3 symbols on success |
| Frame.CheckMagic3 | src/lib.rs:503-512 | `check_magic_code3` equals `MagicBlock3` and consumes 3 symbols on success |
| Frame.DecodeSettings | src/lib.rs:119-125 | the cursor walk from `mode` to `timing` equals `ParseSettings` and ends at position 21 |
| Frame.DecodeToggles | src/lib.rs:126-132 | the cursor walk from `humidification` to the second magic block equals `ParseToggles` and ends at 36 |
| Frame.DecodeFeatures | src/lib.rs:137-145 | the cursor walk after `Continue`, including `nth(11)` and the skipped symbol, equals `ParseFeatures` and ends at 65 |
| Frame.Decode | src/lib.rs:111-182 | `Controller::decode` equals `ParseFrame` |
| FrameProperties.SettingsParts | src/lib.rs:77-83 | where each settings field sits in its run |
| FrameProperties.AirflowParts | src/lib.rs:91-94 | where each swing, display and `i_feel` field sits in its run |
| FrameProperties.FrameFront | src/lib.rs:76-106 | an encoded frame has `Start` at 0, the settings at 1..20, the switches at 21..25, `MAGIC_1` and `MAGIC_3` at 26..35, `Continue` at 36 and the airflow run from 37 |
| FrameProperties.EncodeOnlyData | src/lib.rs:76-109 | an encoded frame holds markers only at 0, 36 and 69; every other symbol is `Short` or `Long` |
| FrameProperties.FrameBack | src/lib.rs:95-108 | `MAGIC_4` at 48..50, `wifi` at 51, `Short` at 52..62 and 64, `econo` at 63, the checksum LSB first at 65..68 and `End` at 69 |
| FrameProperties.BoolWindow | src/lib.rs:120 | a boolean field decodes to `b` exactly when its symbol is `b`'s |
| FrameProperties.SettingsRun | src/lib.rs:77-83 | positions 1..20 hold a settings run exactly when each field's positions hold that field |
| FrameProperties.SettingsSteps | src/lib.rs:119-125 | the settings decode to `s` exactly when each field decoder yields `s`'s field |
| FrameProperties.SettingsFields | src/lib.rs:119-123 | mode, `on`, fan, `swing` and `sleep` decode to `s`'s values exactly when their symbols spell them |
| FrameProperties.SettingsWideFields | src/lib.rs:124-125 | temperature and timer decode to `s`'s values exactly when their symbols spell them and the timer is at most 59 |
| FrameProperties.SettingsWindow | src/lib.rs:119-125 | positions 1..20 decode to `s` exactly when they hold `s`'s encoding and `s`'s timer is at most 59 |
| FrameProperties.MagicWindows | src/lib.rs:481-512 | each magic check passes exactly on its accepted fingerprints (`MAGIC_1` or `MAGIC_2` first, then `MAGIC_3`, then `MAGIC_4`) and otherwise fails with `InvalidMagic` of its own block number 1, 2 or 3 |
| FrameProperties.TogglesSteps | src/lib.rs:126-132 | the switches decode to `t` exactly when each switch does and both magic blocks pass |
| FrameProperties.TogglesWindow | src/lib.rs:126-132 | positions 21..35 decode to `t` exactly when they hold `t`'s switches and the first two magic blocks |
| FrameProperties.AirflowRun | src/lib.rs:91-94 | positions 37..47 hold the airflow run exactly when each of its fields does |
| FrameProperties.FeaturesSteps | src/lib.rs:137-144 | the run after `Continue` decodes to `b` exactly when each field does and the third magic block passes |
| FrameProperties.FeaturesWindow | src/lib.rs:137-144 | positions 37..63 decode to `b` exactly when they hold `b`'s fields and `MAGIC_4`, whatever 52..62 hold |
| FrameProperties.ChecksumWindow | src/lib.rs:168-172 | the checksum loop reads `k` exactly when positions 65..68 spell `k` |
| FrameProperties.FrameSteps | src/lib.rs:111-182 | a frame decodes to `c` exactly when the markers are right, each run decodes to `c`'s part and the transmitted nibble is `c`'s checksum |
| FrameProperties.FrameChecked | src/lib.rs:168-181 | with the markers and runs in place, decoding yields `c` when the nibble matches, and otherwise `Checksum(transmitted << 4 \| computed)` |
| FrameProperties.FrameParsed | src/lib.rs:111-182 | a frame that decodes to `c` has the markers, `c`'s runs and `c`'s checksum |
| FrameProperties.DecodeExactly | src/lib.rs:111-182 | a 70-symbol frame decodes to `c` if and only if it carries `c` in every field and `c`'s timer is at most 59 half hours |
| FrameProperties.EncodeIsFrame | src/lib.rs:76-109 | every encoded frame carries its controller |
| FrameProperties.RoundTrip | src/lib.rs:76-182 | `decode(encode(c)) == c` if and only if `c`'s timer is at most 59 half hours |
| FrameProperties.LowNibbleSum4 | src/lib.rs:199-202 | the first loop adds the low nibbles of four bytes |
| FrameProperties.HighNibbleSum3 | src/lib.rs:203-206 | the second loop adds the high nibbles of three bytes |
| FrameProperties.NibbleSum7 | src/lib.rs:197-206 | on seven bytes the accumulator is 10, plus the low nibbles of bytes 0..3, plus the high nibbles of bytes 4..6 |
| FrameProperties.ChecksumTerms | src/lib.rs:185-193 | each byte's contribution: mode plus 8 if on, the temperature offset, 0, 1 if ventilating, the horizontal swing, 2, 0 |
| FrameProperties.ChecksumFormula | src/lib.rs:184-209 | the checksum is `(12 + mode + 8·on + offset + ventilate + h_swing) mod 16` |
| FrameProperties.ChecksumDependsOnly | src/lib.rs:184-195 | controllers that agree on mode, power, temperature, ventilation and horizontal swing have the same checksum |
| FrameProperties.ChecksumMismatch | src/lib.rs:173-176 | an encoded frame with a wrong checksum nibble `t` is rejected with `Checksum(t << 4 \| computed)` |
| FrameProperties.SettingsLocal | src/lib.rs:119-125 | the settings run reads only positions 1..20 |
| FrameProperties.SettingsFromFields | src/lib.rs:119-125 | the settings result depends only on its seven field results |
| FrameProperties.TogglesLocal | src/lib.rs:126-132 | the switches and first two magic blocks read only positions 21..35 |
| FrameProperties.FeaturesLocal | src/lib.rs:137-144 | the run after `Continue` reads only positions 37..51 and 63 |
| FrameProperties.FeaturesFromFields | src/lib.rs:137-144 | that run's result depends only on its field results and the third magic check |
| FrameProperties.FrameFromParts | src/lib.rs:111-182 | the frame result depends only on the markers, the three runs and the checksum nibble |
| FrameProperties.WindowsAgree | src/lib.rs:111-182 | frames that agree on positions 0..51, 63 and 65..69 decode alike |
| FrameProperties.ReservedIgnored | src/lib.rs:144-145 | frames that differ only at positions 52..62 and 64 decode alike |
| FrameProperties.SettingsErrors | src/lib.rs:119-125 | the settings fail only with `UnexpectedMarker`, `InvalidMode`, `InvalidTemperature` or `InvalidTimerSetting` |
| FrameProperties.TogglesErrors | src/lib.rs:126-132 | the switches fail only with `UnexpectedMarker` or `InvalidMagic` 1 or 2 |
| FrameProperties.FeaturesErrors | src/lib.rs:137-144 | the run after `Continue` fails only with `UnexpectedMarker` or `InvalidMagic(3)` |
| FrameProperties.FrameErrors | src/lib.rs:111-182 | `InvalidMarker` exactly when a marker is misplaced; `InvalidMagic` only for blocks 1..3; never `Eof`, `InvalidFan` or `InvalidSwingMode` |
| FrameProperties.ChecksumReport | src/lib.rs:173-176 | a checksum report's two nibbles always differ |
| FrameProperties.NibblesSplit | src/lib.rs:175 | `t << 4 \| c` keeps both 4-bit values recoverable |
| FrameProperties.NoStrayMarkers | src/lib.rs:111-182 | a frame whose only markers are at 0, 36 and 69 never fails with `UnexpectedMarker` |
| FrameProperties.SettingsClean | src/lib.rs:119-125 | without markers in 1..20 the settings never fail with `UnexpectedMarker` |
| FrameProperties.TogglesClean | src/lib.rs:126-130 | without markers in 21..25 the switches never fail with `UnexpectedMarker` |
| FrameProperties.FeaturesClean | src/lib.rs:137-144 | without markers in 37..51 and at 63 the run after `Continue` never fails with `UnexpectedMarker` |
| FrameProperties.SettingsFailureFirst | src/lib.rs:111-125 | with the markers in place, a failing settings run is the frame's error: nothing after it is looked at |
| FrameProperties.TogglesFailureFirst | src/lib.rs:111-132 | after good settings, a failing switches run is the frame's error |
| FrameProperties.FeaturesFailureFirst | src/lib.rs:111-145 | after good settings and switches, a failing run after `Continue` is the frame's error |
| FrameProperties.ChecksumFailureLast | src/lib.rs:111-172 | after three good runs, a failing checksum read is the frame's error |
| FrameProperties.Magic1Rejected | src/lib.rs:481-490 | with good settings and marker-free switches, a first block that is neither `MAGIC_1` nor `MAGIC_2` rejects the frame with `InvalidMagic(1)` |
| FrameProperties.Magic2Rejected | src/lib.rs:492-501 | with everything before it accepted, a second block other than `MAGIC_3` rejects the frame with `InvalidMagic(2)` |
| FrameProperties.Magic3Rejected | src/lib.rs:503-512 | with everything before it accepted and marker-free fields at 37..47, a third block other than `MAGIC_4` rejects the frame with `InvalidMagic(3)` |
| FrameProperties.Splice1Rejected | src/lib.rs:481-490 | a frame with good settings and only data symbols, whose positions 26..32 are replaced by a wrong block, is rejected with `InvalidMagic(1)` |
| FrameProperties.Splice2Rejected | src/lib.rs:492-501 | the same for positions 33..35 and `InvalidMagic(2)` |
| FrameProperties.Splice3Rejected | src/lib.rs:503-512 | the same for positions 48..50 and `InvalidMagic(3)` |
| FrameProperties.MagicMismatch1 | src/lib.rs:481-490 | an encoded frame whose first magic block is replaced by anything but `MAGIC_1` or `MAGIC_2` decodes to `InvalidMagic(1)` |
| FrameProperties.MagicMismatch2 | src/lib.rs:492-501 | an encoded frame whose second magic block is not `MAGIC_3` decodes to `InvalidMagic(2)` |
| FrameProperties.MagicMismatch3 | src/lib.rs:503-512 | an encoded frame whose third magic block is not `MAGIC_4` decodes to `InvalidMagic(3)` |
| FrameProperties.ReadBitsHit | src/lib.rs:342-349 | a marker inside an `n`-bit field makes the bit loop fail with `UnexpectedMarker` |
| FrameProperties.SettingsHit | src/lib.rs:119-125 | a marker put at any of positions 1..20 of a good settings run makes it fail with `UnexpectedMarker` |
| FrameProperties.FrontSettingsHit | src/lib.rs:119-123 | the same for mode, `on`, fan, `swing` and `sleep` at 1..8 |
| FrameProperties.BackSettingsHit | src/lib.rs:124-125 | the same for temperature and timer at 9..20 |
| FrameProperties.TogglesHit | src/lib.rs:126-130 | a marker among the switches at 21..25 makes a good run fail with `UnexpectedMarker` |
| FrameProperties.FeaturesHit | src/lib.rs:137-145 | a marker in a field at 37..47, at 51 or at 63 makes a good run after `Continue` fail with `UnexpectedMarker` |
| FrameProperties.FrontStray | src/lib.rs:111-132 | a marker put at 1..25 of an accepted frame makes it decode to `UnexpectedMarker` |
| FrameProperties.BackStray | src/lib.rs:137-172 | a marker put at 37..47, 51, 63 or 65..68 of an accepted frame makes it decode to `UnexpectedMarker` |
| FrameProperties.ChecksumStray | src/lib.rs:168-172 | a marker in the checksum nibble of an otherwise good frame is its error, `UnexpectedMarker` |
| FrameProperties.StrayMarkerRejected | src/lib.rs:111-182 | a marker put at any position read as field data turns an accepted frame into one rejected with `UnexpectedMarker` |
| FrameProperties.StrayMarker | src/lib.rs:76-182 | an encoded frame with a marker put at any position read as field data decodes to `UnexpectedMarker`: the converse of `NoStrayMarkers` |

## Left out

- The `Debug` implementation of `Temperature` (text formatting) is not modelled.
- Laziness of the iterator chains is not modelled. `encode` yields its symbols as one sequence.
- TimerSetting: the round trip is stated only for timers of at most 59 half hours. 60..79 are packed without spilling and rejected on decode with `InvalidTimerSetting` (`TimerTensThree`); from 80 on the tens reach bit 3 and above (`TimerSpillsIntoEnabled`). This is the crate's own behaviour and is kept.
- Frame.NibbleSum: the `checksum_block` accumulator is an unbounded integer rather than a `u8`. It is proved to stay within 10..115, so no wrap-around can occur.
- Frame.Decode: the second checks of `Start`, `Continue` and `End` inside `decode` always pass once the up-front marker check has passed. The model asserts this instead of keeping separate `InvalidMarker` returns for them.
- `Eof` at the frame level cannot arise, because `decode` takes exactly 70 symbols. `ParseFrame` requires that length, and `FrameErrors` proves `Eof` never occurs.
- `InvalidFan`'s arm (`FanOf`) is modelled and proved unreachable (`FanTotal`, `FanErrors`). `InvalidSwingMode` is declared but never produced; `SwingTotal` and `SwingErrors` show that `SwingMode::decode` never fails on data symbols.
- Shifts by a bit index are written through `Weight` (bit weights by doubling), `Placed` and `Mask` rather than as `<<` on a variable amount. `ShiftForms` proves them equal to the shift expressions.
- Infrared timings, carrier modulation and any packed-byte form of the frame lie outside `src/lib.rs` and are not part of this model.
- The `Decode*` methods, `NextBits`, `NextBlock` and the `CheckMagic*` methods do not state where the cursor stands after a failed read. In the source the iterator has consumed the failing symbol, or is exhausted on `Eof`, but `Controller::decode` returns the error at once, so that position is never observed.
