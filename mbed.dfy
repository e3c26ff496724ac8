/** The sampling state machine of the mbed prototype (`ultrasound_mbed/ultrasound.c`).

    Each cycle, the main loop resets the sample index, arms the transmit
    counter, switches the transmitter on and starts both timers.  Timer 0
    ticks every 10 microseconds and counts the burst down.  Timer 1 ticks
    every 12.5 microseconds and stores one ADC reading per tick, until the
    sample array is full.  Each interrupt handler is one atomic method.
    The ADC reading is a parameter, and the hardware lines are booleans. */
module Mbed {
  import opened Bytes

  const TRANSMIT_TIME_US: nat := 100
  const RECEIVE_TIME_US: nat := 4000

  /** `DATA_SIZE`: the receive window divided by the sample period.  Both
      are counted in tenths of a microsecond (the 80 kHz period is 125
      tenths) and the quotient is multiplied back by 10. */
  const DATA_SIZE: nat := (RECEIVE_TIME_US / ((1000000 * 10) / 80000)) * 10

  /** The number of timer 0 ticks a burst lasts. */
  const TX_TICKS: nat := TRANSMIT_TIME_US / 10

  /** The volatile globals the two handlers share with the main loop, and
      the on/off state of the hardware they switch. */
  class Sampler {
    var txCounter: byte
    const samples: array<u16>
    var sampleIndex: u16
    var sampleComplete: bool

    /** The PWM output driving the transducer. */
    var pwmEnabled: bool
    /** The TX enable line. */
    var txEnable: bool
    var timer0Running: bool
    var timer1Running: bool

    /** Timer 1 runs only while there is a free slot, and the complete
        flag says the array is full.  The transmitter is on exactly while
        timer 0 runs, and then the burst has between 1 and 10 ticks left. */
    ghost predicate Valid()
      reads this
    {
      && samples.Length == DATA_SIZE
      && sampleIndex <= DATA_SIZE
      && (sampleComplete <==> sampleIndex == DATA_SIZE)
      && (timer1Running ==> sampleIndex < DATA_SIZE)
      && pwmEnabled == timer0Running && txEnable == timer0Running
      && (timer0Running ==> 0 < txCounter <= TX_TICKS)
    }

    /** The zero-initialised globals and the lines `main` clears, before
        the first cycle. */
    constructor ()
      ensures Valid()
      ensures txCounter == 0 && sampleIndex == 0 && !sampleComplete
      ensures samples[..] == seq(DATA_SIZE, _ => 0)
      ensures !pwmEnabled && !txEnable && !timer0Running && !timer1Running
    {
      txCounter, sampleIndex, sampleComplete := 0, 0, false;
      samples := new u16[DATA_SIZE](_ => 0);
      pwmEnabled, txEnable, timer0Running, timer1Running := false, false, false, false;
    }

    /** The start of one cycle of the main loop.  The loop only gets here
        once the previous cycle's samples are complete, so timer 1 is
        stopped. */
    method StartCycle()
      requires Valid() && !timer1Running
      modifies this`sampleIndex, this`sampleComplete, this`txCounter,
               this`txEnable, this`pwmEnabled, this`timer0Running, this`timer1Running
      ensures Valid()
      ensures sampleIndex == 0 && !sampleComplete
      ensures txCounter == TX_TICKS
      ensures txEnable && pwmEnabled && timer0Running && timer1Running
    {
      sampleIndex := 0;
      sampleComplete := false;
      txCounter := TX_TICKS;
      txEnable := true;
      pwmEnabled := true;
      timer1Running := true;
      timer0Running := true;
    }

    /** `TIMER0_IRQHandler`: one tick of the burst.  The `unsigned char`
        counter wraps from 0 to 255.  The tick that brings the counter to 0
        switches the PWM, the TX enable line and timer 0 off. */
    method Timer0Irq()
      requires Valid()
      modifies this`txCounter, this`pwmEnabled, this`txEnable, this`timer0Running
      ensures Valid()
      ensures txCounter == (old(txCounter) - 1) % 0x100
      ensures txCounter == 0 ==> !pwmEnabled && !txEnable && !timer0Running
      ensures txCounter != 0 ==>
                pwmEnabled == old(pwmEnabled) && txEnable == old(txEnable)
                && timer0Running == old(timer0Running)
      ensures old(timer0Running) ==> (timer0Running <==> txCounter != 0)
    {
      txCounter := if txCounter == 0 then 0xFF else txCounter - 1;
      if txCounter == 0 {
        pwmEnabled := false;
        txEnable := false;
        timer0Running := false;
      }
    }

    /** `TIMER1_IRQHandler` with the ADC returning `reading`.  The store
        into `samples` is unchecked.  It stays within the array only
        because the interrupt comes while timer 1 runs, and timer 1 is
        stopped on the tick that fills the last slot. */
    method Timer1Irq(reading: u16)
      requires Valid() && timer1Running
      modifies this`sampleIndex, this`sampleComplete, this`timer1Running, samples
      ensures Valid()
      ensures sampleIndex == old(sampleIndex) + 1
      ensures samples[..sampleIndex] == old(samples[..])[..old(sampleIndex)] + [reading]
      ensures samples[sampleIndex..] == old(samples[..])[sampleIndex..]
      ensures sampleComplete == (sampleIndex == DATA_SIZE)
      ensures timer1Running == !sampleComplete
    {
      ghost var before := samples[..];
      samples[sampleIndex] := reading;
      assert samples[..] == before[sampleIndex := reading];
      assert samples[..sampleIndex + 1] == before[..sampleIndex] + [reading];
      sampleIndex := sampleIndex + 1;
      if sampleIndex == DATA_SIZE {
        sampleComplete := true;
        timer1Running := false;
      }
    }
  }

  /** One pass of `main`'s loop as far as the samples go: the per-cycle
      reset, then one timer 1 interrupt per ADC reading, in arrival order.
      Timer 0's ticks touch none of the sample state, so where they fall
      between these does not matter.  With all 320 readings in, the flag
      `main` waits on is set and timer 1 has stopped. */
  method Cycle(s: Sampler, readings: seq<u16>)
    requires s.Valid() && !s.timer1Running && |readings| <= DATA_SIZE
    modifies s, s.samples
    ensures s.Valid()
    ensures s.sampleIndex as int == |readings|
    ensures s.samples[..|readings|] == readings
    ensures s.sampleComplete == (|readings| == DATA_SIZE)
    ensures s.timer1Running == !s.sampleComplete
  {
    s.StartCycle();
    var k := 0;
    while k < |readings|
      invariant s.Valid()
      invariant k <= |readings| && s.sampleIndex as int == k && s.samples[..k] == readings[..k]
      invariant s.timer1Running == (k < DATA_SIZE)
      invariant s.sampleComplete == (k == DATA_SIZE)
    {
      s.Timer1Irq(readings[k]);
      k := k + 1;
    }
  }

  /** The array holds 320 samples: 4000 microseconds at one sample every
      12.5 microseconds. */
  lemma DataSizeIs320()
    ensures DATA_SIZE == 320 && DATA_SIZE * 125 == RECEIVE_TIME_US * 10
    ensures TX_TICKS == 10
  {
  }
}
