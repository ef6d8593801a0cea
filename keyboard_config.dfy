/** Constants, value types and the fixed key-to-pin wiring of the right
    keyboard half (right_side_keyboard.h and the two pin tables at the top of
    right_side_keyboard.c). */
module KeyboardConfig {

  /** NUM_KEYS: keys on the right half. */
  const NUM_KEYS: nat := 24

  /** Size of RightKeyboardState.key_states, one bit per key. */
  const REPORT_BYTES: nat := 3

  /** DEBOUNCE_TIME_MS: length of the lockout after an accepted edge. */
  const DEBOUNCE_TIME_MS: nat := 10

  /** The rollover cap every bus event passes to the scan. */
  const BUS_ROLLOVER_CAP: nat := 6

  /** uint32_t arithmetic wraps modulo this. */
  const TICK_MODULUS: int := 0x1_0000_0000

  /** A uint32_t millisecond timestamp. */
  type Tick = t: int | 0 <= t < TICK_MODULUS

  /** A uint8_t. */
  type U8 = x: int | 0 <= x < 256

  /** A key index. */
  type Key = i: int | 0 <= i < NUM_KEYS

  /** GPIO_PinState. Keys are wired with pull-ups: Reset is a pressed key,
      Set a released one. */
  datatype PinState = Reset | Set

  /** The two GPIO ports the keys are spread over. */
  datatype Port = GpioA | GpioB

  /** KEY_PINS[i]: the pin mask of key i, GPIO_PIN_n being the single
      bit n. */
  function KeyPin(i: Key): bv16
  {
    match i
    case 0 => 0x0001   // GPIO_PIN_0
    case 1 => 0x0002   // GPIO_PIN_1
    case 2 => 0x0004   // GPIO_PIN_2
    case 3 => 0x0008   // GPIO_PIN_3
    case 4 => 0x0010   // GPIO_PIN_4
    case 5 => 0x0020   // GPIO_PIN_5
    case 6 => 0x0040   // GPIO_PIN_6
    case 7 => 0x0080   // GPIO_PIN_7
    case 8 => 0x0100   // GPIO_PIN_8
    case 9 => 0x0200   // GPIO_PIN_9
    case 10 => 0x0400  // GPIO_PIN_10
    case 11 => 0x0800  // GPIO_PIN_11
    case 12 => 0x0001  // GPIO_PIN_0
    case 13 => 0x0002  // GPIO_PIN_1
    case 14 => 0x0004  // GPIO_PIN_2
    case 15 => 0x8000  // GPIO_PIN_15
    case 16 => 0x0010  // GPIO_PIN_4
    case 17 => 0x0020  // GPIO_PIN_5
    case 18 => 0x0100  // GPIO_PIN_8
    case 19 => 0x0200  // GPIO_PIN_9
    case 20 => 0x0400  // GPIO_PIN_10
    case 21 => 0x1000  // GPIO_PIN_12
    case 22 => 0x2000  // GPIO_PIN_13
    case 23 => 0x4000  // GPIO_PIN_14
  }

  /** KEY_PORTS[i]: keys 0-11 sit on GPIOA, keys 12-23 on GPIOB. */
  function KeyPort(i: Key): Port
  {
    if i < 12 then GpioA else GpioB
  }

  /** Every key's mask is a single pin bit. */
  lemma KeyPinIsSingleBit(i: Key)
    ensures KeyPin(i) != 0 && KeyPin(i) & (KeyPin(i) - 1) == 0
  {
  }

  /** No two keys share a pin: the wiring is one-to-one. */
  lemma WiringIsOneToOne(i: Key, j: Key)
    requires i != j
    ensures KeyPort(i) != KeyPort(j) || KeyPin(i) != KeyPin(j)
  {
  }
}
