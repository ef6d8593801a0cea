# Right keyboard half: scan, debounce and report engine

This project models the firmware of the right half of a split keyboard. It
covers `Core/Src/right_side_keyboard.c` and the constants in
`Core/Inc/right_side_keyboard.h`, and proves properties of the model.

The firmware behaves as follows:

- **RightKeyboardScan6KRO.** Each scan reads the two GPIO input registers
  once. It samples 24 keys through fixed port and pin tables, keys 0-11 on
  GPIOA and 12-23 on GPIOB.
- **Debounce.** Each key uses accept-then-mute debounce. A sample that
  differs from the debounced level is taken at once when
  `now >= lockout_until[i]`, and this starts a lockout of
  `DEBOUNCE_TIME_MS` = 10 ms.
- **Report.** The scan writes a 3-byte active-low report, starting from
  0xFF. Key i is bit `i & 7` of byte `i >> 3`.
- **Rollover cap.** The scan can stop early once `max_keys` pressed keys are
  counted. A cap of 0 means no cap.
- **Bus events.** Initialisation, once `HAL_I2C_Init` succeeds, and the I2C
  callbacks (TX complete, RX complete, error) each run one scan with cap 6.
  Each then hands the 3-byte buffer to the I2C slave transmitter.

The project has three modules:

- `KeyboardConfig` (`keyboard_config.dfy`) holds the constants, the value
  types and the pin wiring. `KEY_PINS` and `KEY_PORTS` appear as the
  functions `KeyPin` and `KeyPort`.
- `ScanSpec` (`scan_spec.dfy`) is the scan as pure functions of the
  debounce tables, the tick and the two register snapshots, with the
  properties of a scan. It covers sampling, the one-key debounce step, the
  rollover cap, the report encoding and whole-scan properties.
- `RightSideKeyboard` (`right_side_keyboard.dfy`) is the firmware's state and
  its operations. The class `RightKeyboard` holds the arrays
  `debounced_state`, `lockout_until` and `key_states`, which the methods
  update in place. `Scan6KRO` resets the report and runs the key loop
  `ScanLoop`, with its running count of pressed keys and its early exit. Its contract says it leaves
  exactly the tables and report that `ScanSpec.Scan` describes.

The model's inputs and outputs:

- The tick (`HAL_GetTick`) and the two input registers (`GPIOA->IDR`,
  `GPIOB->IDR`) are method parameters.
- The answers of `HAL_I2C_Init` and `HAL_I2C_Slave_Transmit_IT` are boolean
  parameters.
- The `hi2c->Instance == I2C1` test of each callback is a boolean parameter.
- The transmitter is the field `published`. It lists the buffers the
  transmitter accepted, oldest first.

Sizes and arithmetic:

- Ticks are `uint32_t`. The lockout end `now + 10` is taken modulo 2^32
  (`LockoutEnd`), and the lockout test is the plain unsigned `>=` of the
  code.
- Port words are 32 bits wide. Pin masks are 16 bits wide and are widened
  as in C.
- Report bytes are 8-bit bit-vectors.

Behaviour of the code worth noting:

- The lockout test compares the tick with the stored lockout end directly,
  and that end wraps, so the test is not wrap-safe.
  `ScanSpec.LockoutWrapsAtTickOverflow` shows a bounce taken one
  millisecond after an accepted edge near the wrap, and
  `ScanSpec.WrappedLockoutWindow` shows that, after an edge whose lockout
  end wraps, every differing sample from the edge's tick up to 2^32 - 1 is
  taken at once; only once the tick counter itself has wrapped are ticks
  below the wrapped end muted.
- `debounced_state` is initialised with `{GPIO_PIN_SET}`. Under C's rules
  for partial initialisers only key 0 starts SET, and keys 1-23 start
  RESET, which means pressed. The model keeps this in
  `INITIAL_LEVELS`. `BootStepsReadPins` shows that every lockout has
  expired at reset, so the first scan replaces the levels of the keys it
  examines with their raw pins (`FirstScanReportsPins`). When that scan
  stops early at its cap of 6, a key after the cut keeps its initial RESET
  level until a later scan reaches it; it is reported released meanwhile.
- A header comment speaks of 16 keys in 2 bytes. The code has 24 keys and
  a 3-byte `key_states`, and the model follows the code.
- `Scan6KRO` runs its key loop in `ScanLoop`. The C `break` becomes a
  `return` there, since nothing follows the loop in the C function.

## Model

| member | source | states |
|---|---|---|
| KeyboardConfig.KeyPinIsSingleBit | Core/Src/right_side_keyboard.c:15-22 | every key's entry in KEY_PINS is a single pin bit |
| KeyboardConfig.WiringIsOneToOne | Core/Src/right_side_keyboard.c:15-31 | no two keys share the same port and pin |
| KeyboardConfig.KeyPin | Core/Src/right_side_keyboard.c:15-22 | KEY_PINS as the single-bit mask GPIO_PIN_n: keys 0-11 use pins 0-11 in order, keys 12-23 use pins 0, 1, 2, 15, 4, 5, 8, 9, 10, 12, 13, 14 |
| KeyboardConfig.KeyPort | Core/Src/right_side_keyboard.c:24-31 | KEY_PORTS: keys 0-11 are on GPIOA, keys 12-23 on GPIOB |
| ScanSpec.PortWord | Core/Src/right_side_keyboard.c:103-111 | the key's port selects the GPIOA or the GPIOB snapshot cached before the loop |
| ScanSpec.PinLevel | Core/Src/right_side_keyboard.c:112-114 | a pin is SET when its bit in the word is 1 and RESET otherwise |
| ScanSpec.Sample | Core/Src/right_side_keyboard.c:109-115 | a key's raw level is its own pin bit in its own port's snapshot |
| ScanSpec.SampleReadsOwnPort | Core/Src/right_side_keyboard.c:24-31 | keys 0-11 read GPIOA and keys 12-23 read GPIOB; the raw level is SET exactly when the key's pin bit is 1 in that word |
| ScanSpec.SampleReadsOnePin | Core/Src/right_side_keyboard.c:108-115 | flipping snapshot bits other than the key's own pin leaves its raw level unchanged |
| ScanSpec.PinLevelIgnoresNoise | Core/Src/right_side_keyboard.c:112 | `(word & pin) ? SET : RESET` ignores every bit outside the pin mask |
| ScanSpec.PortWordXor | Core/Src/right_side_keyboard.c:111-115 | selecting the cached port word commutes with flipping bits in both snapshots |
| ScanSpec.Samples | Core/Src/right_side_keyboard.c:103-115 | one raw level per key, all taken from the same pair of snapshots |
| ScanSpec.LockoutEnd | Core/Src/right_side_keyboard.c:122 | `now + DEBOUNCE_TIME_MS` in uint32_t: exact below 2^32, reduced by 2^32 above |
| ScanSpec.Debounce | Core/Src/right_side_keyboard.c:120-123 | a key's record changes exactly when the sample differs and `now >= lockout_until`; it then takes the sample and the wrapped lockout end |
| ScanSpec.DebounceIdempotent | Core/Src/right_side_keyboard.c:120-123 | a second step with the same sample and tick changes nothing |
| ScanSpec.AcceptThenMute | Core/Src/right_side_keyboard.c:117-123 | an accepted edge sets lockout to now + 10; any sample inside the window is ignored; a new edge at or after its end is taken at once |
| ScanSpec.LockoutWrapsAtTickOverflow | Core/Src/right_side_keyboard.c:120-122 | near 2^32 the lockout end wraps to a small value and the plain `>=` then takes a bounce right away |
| ScanSpec.WrappedLockoutWindow | Core/Src/right_side_keyboard.c:120-122 | after an accepted edge whose lockout end wraps past 2^32, every differing sample from the edge's tick up to 2^32 - 1 is taken at once with a new lockout; after the counter wraps, ticks below the wrapped end are still muted |
| ScanSpec.CountPressed | Core/Src/right_side_keyboard.c:133 | the count of pressed levels is at most the number of levels |
| ScanSpec.CountPressedCons | Core/Src/right_side_keyboard.c:133 | the count splits into the first level plus the count of the rest |
| ScanSpec.PrefixWithPressed | Core/Src/right_side_keyboard.c:137-139 | where a cap of k stops: never past the end of the keys |
| ScanSpec.PrefixWithPressedIff | Core/Src/right_side_keyboard.c:135-139 | under a cap k > 0, key j is examined exactly when fewer than k of the keys before it are pressed |
| ScanSpec.PrefixWithPressedCount | Core/Src/right_side_keyboard.c:133-139 | the examined keys hold min(k, pressed) pressed keys |
| ScanSpec.Examined | Core/Src/right_side_keyboard.c:133-139 | a cap of 0 examines all 24 keys; no cap examines more than 24 |
| ScanSpec.ExaminedStep | Core/Src/right_side_keyboard.c:133-139 | a key reached with fewer than max_keys presses counted is examined and adds its own press, and the loop breaks right after it exactly when the count reaches the cap |
| ScanSpec.KeyBit | Core/Src/right_side_keyboard.c:128-130 | key i's report bit is bit i & 7 of byte i >> 3, and 1 means released |
| ScanSpec.ByteFromBits | Core/Src/right_side_keyboard.c:130 | a byte is determined by its eight bits |
| ScanSpec.ReportFromKeyBits | Core/Inc/right_side_keyboard.h:17 | two 3-byte reports with the same 24 key bits are equal |
| ScanSpec.KeyBitAfterClear | Core/Src/right_side_keyboard.c:126-130 | clearing key i's bit makes that bit 0 and touches no other key's bit |
| ScanSpec.ReleasedKeyBits | Core/Src/right_side_keyboard.c:100 | after the memset to 0xFF every key reads released |
| ScanSpec.ReportOf | Core/Src/right_side_keyboard.c:100-130 | after n keys, key i's bit is 0 exactly when i < n and key i's level is RESET |
| ScanSpec.Stepped | Core/Src/right_side_keyboard.c:120-123 | the record a key takes when the scan reaches it: its debounce step on its own sample, the tick and its own level and lockout |
| ScanSpec.SteppedLevels | Core/Src/right_side_keyboard.c:108-123 | one debounced level per key |
| ScanSpec.LevelsUpTo | Core/Src/right_side_keyboard.c:120-121 | debounced_state keeps one entry per key while the loop writes it |
| ScanSpec.LockoutsUpTo | Core/Src/right_side_keyboard.c:120-122 | lockout_until keeps one entry per key while the loop writes it |
| ScanSpec.UpToStep | Core/Src/right_side_keyboard.c:120-123 | before the loop the tables are untouched; examining key i writes key i's step into both tables and changes no other entry |
| ScanSpec.Scan | Core/Src/right_side_keyboard.c:93-142 | the tables keep one entry per key and the report is 3 bytes |
| ScanSpec.ScanKey | Core/Src/right_side_keyboard.c:108-141 | a key before the cut is debounced against the snapshot and reported by its new level; a key after the cut keeps its level and lockout and is reported released |
| ScanSpec.UncappedScanShowsEveryKey | Core/Src/right_side_keyboard.c:100-141 | with cap 0 every key is debounced and its bit is 0 exactly when its new level is RESET |
| ScanSpec.CappedScanReportsFirstPressed | Core/Src/right_side_keyboard.c:133-139 | with cap k > 0 a key is reported pressed exactly when it is pressed after debounce and fewer than k of the keys before it are |
| ScanSpec.ReportLevels | Core/Src/right_side_keyboard.c:125-130 | a report decodes to one level per key |
| ScanSpec.DecodeReportOf | Core/Src/right_side_keyboard.c:126-130 | decoding the report of all 24 keys gives back their levels |
| ScanSpec.EncodeReportLevels | Core/Inc/right_side_keyboard.h:14-17 | every report bit belongs to a key: re-encoding a decoded report gives the same bytes |
| ScanSpec.Truncated | Core/Src/right_side_keyboard.c:138 | the levels with those after the cut read as released keep their length |
| ScanSpec.CountPressedTruncated | Core/Src/right_side_keyboard.c:133-139 | levels cut at n count only the pressed keys before n |
| ScanSpec.ScanReportDecodes | Core/Src/right_side_keyboard.c:100-139 | the report decodes to the new levels of the examined keys, with the rest released |
| ScanSpec.ScanReportsAtMostCap | Core/Src/right_side_keyboard.c:133-139 | the report shows min(k, pressed) pressed keys under a cap k > 0 and all pressed keys without one, so never more than k |
| ScanSpec.KeyUpdateIsLocal | Core/Src/right_side_keyboard.c:120-123 | key i's step depends only on its own sample, the tick and its own level and lockout |
| ScanSpec.SteppedAfterScan | Core/Src/right_side_keyboard.c:120-123 | stepping a key again after a scan, with the same tick and snapshots, gives the record the first scan gave it |
| ScanSpec.SameStepsSameLevels | Core/Src/right_side_keyboard.c:108-123 | tables that give every key the same step give the same levels |
| ScanSpec.ScanAgainKeepsKey | Core/Src/right_side_keyboard.c:120-139 | a second scan leaves each key's level and lockout where the first scan put them |
| ScanSpec.ScanIdempotent | Core/Src/right_side_keyboard.c:100-139 | scanning twice with the same tick, snapshots and cap gives the same report and the same tables |
| RightSideKeyboard.BootStepsReadPins | Core/Src/right_side_keyboard.c:34-35 | from the static initial tables each key's debounce step yields its raw pin at any tick |
| RightSideKeyboard.FirstScanReportsPins | Core/Src/right_side_keyboard.c:34-35 | the first scan after reset reports every key it examines by that key's raw pin level |
| RightSideKeyboard.RightKeyboard.constructor | Core/Src/right_side_keyboard.c:34-35 | at reset debounced_state is SET for key 0 and RESET for keys 1-23, lockout_until is all 0, key_states is zero and nothing is published |
| RightSideKeyboard.RightKeyboard.DebounceKey | Core/Src/right_side_keyboard.c:109-123 | samples key i from the cached word and applies the debounce step to key i alone |
| RightSideKeyboard.RightKeyboard.ClearKeyBit | Core/Src/right_side_keyboard.c:126-130 | clears a pressed key's bit, moving the report from n to n + 1 keys |
| RightSideKeyboard.RightKeyboard.ProcessKey | Core/Src/right_side_keyboard.c:109-130 | steps 1 to 3 for key i: the tables and the report advance from i to i + 1 keys, and the result says whether key i is pressed after debounce |
| RightSideKeyboard.RightKeyboard.ScanLoop | Core/Src/right_side_keyboard.c:97-141 | the loop stops exactly where a scan capped at maxKeys stops (0: after all 24 keys), with those keys debounced in the tables and reported |
| RightSideKeyboard.RightKeyboard.Scan6KRO | Core/Src/right_side_keyboard.c:93-142 | a null state changes nothing; otherwise the report is reset to 0xFF and the loop runs to the cap's cut, and the tables and the report are exactly ScanSpec.Scan of the old tables |
| RightSideKeyboard.RightKeyboard.ScanAll | Core/Src/right_side_keyboard.c:81-85 | the scan with cap 0 |
| RightSideKeyboard.RightKeyboard.ArmTransmit | Core/Src/right_side_keyboard.c:152 | hands the whole 3-byte buffer to the transmitter, which records it when it accepts it |
| RightSideKeyboard.RightKeyboard.ReleaseAll | Core/Src/right_side_keyboard.c:44-47 | every report byte is 0xFF |
| RightSideKeyboard.RightKeyboard.Init | Core/Src/right_side_keyboard.c:40-76 | the buffer is released; a failed bus init returns false with no scan and nothing armed; otherwise one scan with cap 6 and one arm; true exactly when both HAL calls succeed |
| RightSideKeyboard.RightKeyboard.I2CTransmit | Core/Src/right_side_keyboard.c:146-153 | exactly one scan with cap 6, then the buffer is armed |
| RightSideKeyboard.RightKeyboard.SlaveTxCpltCallback | Core/Src/right_side_keyboard.c:156-163 | on I2C1, one scan with cap 6 then the buffer is armed; on any other instance nothing changes |
| RightSideKeyboard.RightKeyboard.SlaveRxCpltCallback | Core/Src/right_side_keyboard.c:165-171 | on I2C1, RightKeyboardI2CTransmit; on any other instance nothing changes |
| RightSideKeyboard.RightKeyboard.ErrorCallback | Core/Src/right_side_keyboard.c:173-180 | on I2C1, one scan with cap 6 then the buffer is armed; on any other instance nothing changes |

## Left out

- Pin configuration is not modelled (the `HAL_GPIO_Init` loop, lines 49-56). It is hardware setup that changes no modelled state.
- The slave address written to `hi2c1.Init.OwnAddress1` (line 61) is not modelled. It is peripheral configuration.
- Inside the HAL, `HAL_I2C_Init` and `HAL_I2C_Slave_Transmit_IT` are not modelled. Only their success or failure enters the model, as boolean parameters.
- The tick and the input registers are not modelled. `HAL_GetTick` and `GPIOA->IDR` / `GPIOB->IDR` are parameters of each scan.
- Interrupts, preemption and reentrancy are not modelled. Callbacks are sequential events.
- RightSideKeyboard.RightKeyboard.ArmTransmit: the transmitter is handed the buffer's address and reads the bytes later. The model records a copy of the buffer at the moment it is armed, so it does not capture a transfer that sees a later scan's bytes.
- Only the buffer that `HAL_I2C_Slave_Transmit_IT` is given is recorded. What the bus master then receives is not modelled.
