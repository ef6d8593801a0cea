/** The keyboard's mutable state and its operations, as in
    right_side_keyboard.c: the debounce tables and the report buffer are
    module-level arrays that RightKeyboardScan6KRO updates in place, and every
    bus event rescans with a cap of six keys and re-arms the transmitter with
    the whole report buffer. The clock (HAL_GetTick) and the two input
    registers (GPIOA->IDR, GPIOB->IDR) are parameters; the transmitter is the
    sequence of buffers handed to it. */
module RightSideKeyboard {
  import opened KeyboardConfig
  import opened ScanSpec

  /** debounced_state's static initialiser {GPIO_PIN_SET}: only element 0
      is SET, the other elements are zero, which is GPIO_PIN_RESET. */
  const INITIAL_LEVELS: seq<PinState> := seq(NUM_KEYS, (i: int) => if i == 0 then Set else Reset)

  /** lockout_until's static initialiser {0}. */
  const INITIAL_LOCKOUTS: seq<Tick> := seq(NUM_KEYS, (i: int) => 0)

  /** From the static tables every lockout has expired, so the first scan
      accepts every key's raw level whatever the tick: the RESET entries the
      partial initialiser leaves never outlive the first time a key is
      examined. */
  lemma BootStepsReadPins(now: Tick, gpioA: bv32, gpioB: bv32)
    ensures SteppedLevels(INITIAL_LEVELS, INITIAL_LOCKOUTS, now, gpioA, gpioB) == Samples(gpioA, gpioB)
  {
  }

  /** The first scan after reset reports, for each key it examines, the
      key's raw pin level. */
  lemma FirstScanReportsPins(now: Tick, gpioA: bv32, gpioB: bv32, maxKeys: U8, i: Key)
    ensures var r := Scan(INITIAL_LEVELS, INITIAL_LOCKOUTS, now, gpioA, gpioB, maxKeys);
            i < Examined(Samples(gpioA, gpioB), maxKeys) ==>
              r.levels[i] == Sample(i, gpioA, gpioB) && (KeyBit(r.report, i) <==> Sample(i, gpioA, gpioB) == Set)
  {
    BootStepsReadPins(now, gpioA, gpioB);
    ScanKey(INITIAL_LEVELS, INITIAL_LOCKOUTS, now, gpioA, gpioB, maxKeys, i);
  }

  /** Proof step for Scan6KRO: Scan spelled out at its cut n, the form
      ScanLoop's postcondition takes. */
  lemma ScanStopsAt(levels: seq<PinState>, lockouts: seq<Tick>, now: Tick, gpioA: bv32, gpioB: bv32, maxKeys: U8, n: nat)
    requires WellFormed(levels, lockouts)
    requires n == Examined(SteppedLevels(levels, lockouts, now, gpioA, gpioB), maxKeys)
    ensures var post := SteppedLevels(levels, lockouts, now, gpioA, gpioB);
            Scan(levels, lockouts, now, gpioA, gpioB, maxKeys)
              == ScanResult(LevelsUpTo(levels, lockouts, now, gpioA, gpioB, n),
                            LockoutsUpTo(levels, lockouts, now, gpioA, gpioB, n),
                            ReportOf(post, n))
  {
  }

  class RightKeyboard {
    /** debounced_state[]: the last accepted level of every key. */
    var debouncedState: array<PinState>
    /** lockout_until[]: per key, the tick before which edges are ignored. */
    var lockoutUntil: array<Tick>
    /** keyboard_state.key_states[]: the report the transmitter sends. */
    var keyStates: array<bv8>
    /** The buffers handed to HAL_I2C_Slave_Transmit_IT, oldest first. */
    var published: seq<seq<bv8>>

    ghost predicate Valid()
      reads this
    {
      debouncedState.Length == NUM_KEYS && lockoutUntil.Length == NUM_KEYS && keyStates.Length == REPORT_BYTES
    }

    /** The static storage at reset, before RightKeyboardInit runs:
        keyboard_state is zero-initialised. */
    constructor ()
      ensures Valid() && fresh(debouncedState) && fresh(lockoutUntil) && fresh(keyStates)
      ensures debouncedState[..] == INITIAL_LEVELS && lockoutUntil[..] == INITIAL_LOCKOUTS
      ensures keyStates[..] == [0, 0, 0] && published == []
    {
      debouncedState := new PinState[NUM_KEYS]((i: int) => if i == 0 then Set else Reset);
      lockoutUntil := new Tick[NUM_KEYS]((i: int) => 0);
      keyStates := new bv8[REPORT_BYTES]((i: int) => 0);
      published := [];
      new;
      assert keyStates[..] == [0, 0, 0];
    }

    /** Steps 1 and 2 of the loop body of RightKeyboardScan6KRO for key i,
        once keys 0 to i - 1 have taken theirs: sample the raw level from
        the cached port word, and accept it at once when it differs from the
        debounced level and the lockout has expired, starting a new
        lockout. */
    method DebounceKey(ghost levels: seq<PinState>, ghost lockouts: seq<Tick>, i: Key, now: Tick, gpioA: bv32, gpioB: bv32)
      requires Valid() && WellFormed(levels, lockouts)
      requires debouncedState[..] == LevelsUpTo(levels, lockouts, now, gpioA, gpioB, i)
      requires lockoutUntil[..] == LockoutsUpTo(levels, lockouts, now, gpioA, gpioB, i)
      modifies debouncedState, lockoutUntil
      ensures debouncedState[..] == LevelsUpTo(levels, lockouts, now, gpioA, gpioB, i + 1)
      ensures lockoutUntil[..] == LockoutsUpTo(levels, lockouts, now, gpioA, gpioB, i + 1)
      ensures debouncedState[i] == SteppedLevels(levels, lockouts, now, gpioA, gpioB)[i]
    {
      UpToStep(levels, lockouts, now, gpioA, gpioB, i);
      var raw := Sample(i, gpioA, gpioB);
      if raw != debouncedState[i] && now >= lockoutUntil[i] {
        debouncedState[i] := raw;
        lockoutUntil[i] := (now + DEBOUNCE_TIME_MS) % TICK_MODULUS;
      } else {
        assert debouncedState[..] == old(debouncedState[..])[i := debouncedState[i]];
        assert lockoutUntil[..] == old(lockoutUntil[..])[i := lockoutUntil[i]];
      }
    }

    /** Step 3 for a pressed key: &= ~(1u << (i & 7)) on byte i >> 3. */
    static method ClearKeyBit(state: array<bv8>, ghost post: seq<PinState>, i: Key)
      requires state.Length == REPORT_BYTES && |post| == NUM_KEYS
      requires post[i] == Reset && state[..] == ReportOf(post, i)
      modifies state
      ensures state[..] == ReportOf(post, i + 1)
    {
      state[i / 8] := state[i / 8] & !Mask(i % 8);
    }

    /** Steps 1 to 3 of the loop body for key i: debounce the key and, when
        it is then pressed, clear its bit; the result says whether it is. */
    method ProcessKey(state: array<bv8>, ghost levels: seq<PinState>, ghost lockouts: seq<Tick>, ghost post: seq<PinState>,
                   i: Key, now: Tick, gpioA: bv32, gpioB: bv32) returns (pressed: bool)
      requires Valid() && WellFormed(levels, lockouts) && state.Length == REPORT_BYTES && |post| == NUM_KEYS
      requires post[i] == Stepped(levels, lockouts, now, gpioA, gpioB, i).level
      requires debouncedState[..] == LevelsUpTo(levels, lockouts, now, gpioA, gpioB, i)
      requires lockoutUntil[..] == LockoutsUpTo(levels, lockouts, now, gpioA, gpioB, i)
      requires state[..] == ReportOf(post, i)
      modifies state, debouncedState, lockoutUntil
      ensures debouncedState[..] == LevelsUpTo(levels, lockouts, now, gpioA, gpioB, i + 1)
      ensures lockoutUntil[..] == LockoutsUpTo(levels, lockouts, now, gpioA, gpioB, i + 1)
      ensures state[..] == ReportOf(post, i + 1)
      ensures pressed <==> post[i] == Reset
    {
      DebounceKey(levels, lockouts, i, now, gpioA, gpioB);
      pressed := debouncedState[i] == Reset;
      if pressed {
        ClearKeyBit(state, post, i);
      }
    }

    /** The key loop of RightKeyboardScan6KRO, from the released report: keys
        are stepped in index order, pressed keys are counted, and the loop
        breaks once maxKeys of them are (0: no cap). post holds the level
        each key takes when examined. */
    method ScanLoop(state: array<bv8>, maxKeys: U8, ghost levels: seq<PinState>, ghost lockouts: seq<Tick>, ghost post: seq<PinState>,
                    now: Tick, gpioA: bv32, gpioB: bv32) returns (ghost n: nat)
      requires Valid() && WellFormed(levels, lockouts) && state.Length == REPORT_BYTES && |post| == NUM_KEYS
      requires forall j: Key {:trigger Stepped(levels, lockouts, now, gpioA, gpioB, j)} ::
                 post[j] == Stepped(levels, lockouts, now, gpioA, gpioB, j).level
      requires debouncedState[..] == levels && lockoutUntil[..] == lockouts && state[..] == ReportOf(post, 0)
      modifies state, debouncedState, lockoutUntil
      ensures n == Examined(post, maxKeys)
      ensures debouncedState[..] == LevelsUpTo(levels, lockouts, now, gpioA, gpioB, n)
      ensures lockoutUntil[..] == LockoutsUpTo(levels, lockouts, now, gpioA, gpioB, n)
      ensures state[..] == ReportOf(post, n)
    {
      UpToStep(levels, lockouts, now, gpioA, gpioB, 0);
      var pressedCount: U8 := 0;
      var i := 0;
      while i < NUM_KEYS
        invariant 0 <= i <= Examined(post, maxKeys)
        invariant pressedCount == CountPressed(post[..i]) && pressedCount <= i
        invariant maxKeys > 0 ==> pressedCount < maxKeys
        invariant debouncedState[..] == LevelsUpTo(levels, lockouts, now, gpioA, gpioB, i)
        invariant lockoutUntil[..] == LockoutsUpTo(levels, lockouts, now, gpioA, gpioB, i)
        invariant state[..] == ReportOf(post, i)
      {
        ExaminedStep(post, maxKeys, i);
        assert post[i] == Stepped(levels, lockouts, now, gpioA, gpioB, i).level;
        var pressed := ProcessKey(state, levels, lockouts, post, i, now, gpioA, gpioB);
        if pressed {
          pressedCount := pressedCount + 1;
          if maxKeys > 0 && pressedCount >= maxKeys {
            return i + 1;
          }
        }
        i := i + 1;
      }
      return NUM_KEYS;
    }

    /** RightKeyboardScan6KRO: a null state returns at once; otherwise the
        buffer is reset to all released, every key is sampled from the one
        snapshot, debounced and, when pressed, cleared in the buffer, and the
        loop stops once maxKeys pressed keys are counted (0: no cap). */
    method Scan6KRO(state: array?<bv8>, maxKeys: U8, now: Tick, gpioA: bv32, gpioB: bv32)
      requires Valid()
      requires state != null ==> state.Length == REPORT_BYTES
      modifies state, debouncedState, lockoutUntil
      ensures Valid()
      ensures state == null ==>
                debouncedState[..] == old(debouncedState[..]) && lockoutUntil[..] == old(lockoutUntil[..])
      ensures state != null ==>
                ScanResult(debouncedState[..], lockoutUntil[..], state[..])
                  == Scan(old(debouncedState[..]), old(lockoutUntil[..]), now, gpioA, gpioB, maxKeys)
    {
      if state == null {
        return;
      }
      ghost var levels := debouncedState[..];
      ghost var lockouts := lockoutUntil[..];
      ghost var post := SteppedLevels(levels, lockouts, now, gpioA, gpioB);
      state[0], state[1], state[2] := RELEASED_REPORT[0], RELEASED_REPORT[1], RELEASED_REPORT[2];
      ghost var n := ScanLoop(state, maxKeys, levels, lockouts, post, now, gpioA, gpioB);
      ScanStopsAt(levels, lockouts, now, gpioA, gpioB, maxKeys, n);
    }

    /** RightKeyboardScan: the scan without a cap. */
    method ScanAll(state: array?<bv8>, now: Tick, gpioA: bv32, gpioB: bv32)
      requires Valid()
      requires state != null ==> state.Length == REPORT_BYTES
      modifies state, debouncedState, lockoutUntil
      ensures Valid()
      ensures state == null ==>
                debouncedState[..] == old(debouncedState[..]) && lockoutUntil[..] == old(lockoutUntil[..])
      ensures state != null ==>
                ScanResult(debouncedState[..], lockoutUntil[..], state[..])
                  == Scan(old(debouncedState[..]), old(lockoutUntil[..]), now, gpioA, gpioB, 0)
    {
      Scan6KRO(state, 0, now, gpioA, gpioB);
    }

    /** HAL_I2C_Slave_Transmit_IT on the whole keyboard_state buffer; the
        HAL's answer is a parameter, and only an accepted buffer is armed. */
    method ArmTransmit(accepted: bool)
      requires Valid()
      modifies this`published
      ensures Valid()
      ensures published == old(published) + if accepted then [keyStates[..]] else []
    {
      if accepted {
        published := published + [keyStates[..]];
      }
    }

    /** The for loop at the top of RightKeyboardInit: every report byte set
        to 0xFF, all keys released. */
    static method ReleaseAll(buffer: array<bv8>)
      requires buffer.Length == REPORT_BYTES
      modifies buffer
      ensures buffer[..] == RELEASED_REPORT
    {
      for i := 0 to REPORT_BYTES
        invariant forall j :: 0 <= j < i ==> buffer[j] == 0xFF
      {
        buffer[i] := 0xFF;
      }
      assert buffer[..] == RELEASED_REPORT;
    }

    /** RightKeyboardInit past the pin configuration, with the HAL_I2C_Init
        and HAL_I2C_Slave_Transmit_IT answers as parameters: the buffer is
        released; a failed bus init returns false before any scan; otherwise
        the buffer is scanned with the bus cap and armed, and the result is
        whether the transmitter accepted it. */
    method Init(busInitOk: bool, transmitOk: bool, now: Tick, gpioA: bv32, gpioB: bv32) returns (ok: bool)
      requires Valid()
      modifies keyStates, debouncedState, lockoutUntil, this`published
      ensures Valid()
      ensures ok <==> busInitOk && transmitOk
      ensures !busInitOk ==>
                && keyStates[..] == RELEASED_REPORT
                && debouncedState[..] == old(debouncedState[..]) && lockoutUntil[..] == old(lockoutUntil[..])
                && published == old(published)
      ensures busInitOk ==>
                && ScanResult(debouncedState[..], lockoutUntil[..], keyStates[..])
                     == Scan(old(debouncedState[..]), old(lockoutUntil[..]), now, gpioA, gpioB, BUS_ROLLOVER_CAP)
                && published == old(published) + if transmitOk then [keyStates[..]] else []
    {
      ReleaseAll(keyStates);
      if !busInitOk {
        return false;
      }
      Scan6KRO(keyStates, BUS_ROLLOVER_CAP, now, gpioA, gpioB);
      ArmTransmit(transmitOk);
      return transmitOk;
    }

    /** The scan-and-re-arm every bus event performs: RightKeyboardScan6KRO
        with the bus cap, then HAL_I2C_Slave_Transmit_IT, whose answer
        (ignored by the firmware) decides whether the buffer is armed. */
    method I2CTransmit(armed: bool, now: Tick, gpioA: bv32, gpioB: bv32)
      requires Valid()
      modifies keyStates, debouncedState, lockoutUntil, this`published
      ensures Valid()
      ensures ScanResult(debouncedState[..], lockoutUntil[..], keyStates[..])
                == Scan(old(debouncedState[..]), old(lockoutUntil[..]), now, gpioA, gpioB, BUS_ROLLOVER_CAP)
      ensures published == old(published) + if armed then [keyStates[..]] else []
    {
      Scan6KRO(keyStates, BUS_ROLLOVER_CAP, now, gpioA, gpioB);
      ArmTransmit(armed);
    }

    /** HAL_I2C_SlaveTxCpltCallback: on I2C1, a report went out; rescan and
        re-arm. Events of another bus instance change nothing. */
    method SlaveTxCpltCallback(isI2C1: bool, armed: bool, now: Tick, gpioA: bv32, gpioB: bv32)
      requires Valid()
      modifies keyStates, debouncedState, lockoutUntil, this`published
      ensures Valid()
      ensures !isI2C1 ==>
                && keyStates[..] == old(keyStates[..])
                && debouncedState[..] == old(debouncedState[..]) && lockoutUntil[..] == old(lockoutUntil[..])
                && published == old(published)
      ensures isI2C1 ==>
                && ScanResult(debouncedState[..], lockoutUntil[..], keyStates[..])
                     == Scan(old(debouncedState[..]), old(lockoutUntil[..]), now, gpioA, gpioB, BUS_ROLLOVER_CAP)
                && published == old(published) + if armed then [keyStates[..]] else []
    {
      if isI2C1 {
        Scan6KRO(keyStates, BUS_ROLLOVER_CAP, now, gpioA, gpioB);
        ArmTransmit(armed);
      }
    }

    /** HAL_I2C_SlaveRxCpltCallback: on I2C1, answered through
        RightKeyboardI2CTransmit. */
    method SlaveRxCpltCallback(isI2C1: bool, armed: bool, now: Tick, gpioA: bv32, gpioB: bv32)
      requires Valid()
      modifies keyStates, debouncedState, lockoutUntil, this`published
      ensures Valid()
      ensures !isI2C1 ==>
                && keyStates[..] == old(keyStates[..])
                && debouncedState[..] == old(debouncedState[..]) && lockoutUntil[..] == old(lockoutUntil[..])
                && published == old(published)
      ensures isI2C1 ==>
                && ScanResult(debouncedState[..], lockoutUntil[..], keyStates[..])
                     == Scan(old(debouncedState[..]), old(lockoutUntil[..]), now, gpioA, gpioB, BUS_ROLLOVER_CAP)
                && published == old(published) + if armed then [keyStates[..]] else []
    {
      if isI2C1 {
        I2CTransmit(armed, now, gpioA, gpioB);
      }
    }

    /** HAL_I2C_ErrorCallback: on I2C1, drop the failed transfer, rescan and
        re-arm. */
    method ErrorCallback(isI2C1: bool, armed: bool, now: Tick, gpioA: bv32, gpioB: bv32)
      requires Valid()
      modifies keyStates, debouncedState, lockoutUntil, this`published
      ensures Valid()
      ensures !isI2C1 ==>
                && keyStates[..] == old(keyStates[..])
                && debouncedState[..] == old(debouncedState[..]) && lockoutUntil[..] == old(lockoutUntil[..])
                && published == old(published)
      ensures isI2C1 ==>
                && ScanResult(debouncedState[..], lockoutUntil[..], keyStates[..])
                     == Scan(old(debouncedState[..]), old(lockoutUntil[..]), now, gpioA, gpioB, BUS_ROLLOVER_CAP)
                && published == old(published) + if armed then [keyStates[..]] else []
    {
      if isI2C1 {
        Scan6KRO(keyStates, BUS_ROLLOVER_CAP, now, gpioA, gpioB);
        ArmTransmit(armed);
      }
    }
  }
}
