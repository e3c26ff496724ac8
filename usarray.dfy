/** The ultrasound array (`usarray.c`): unit conversions, the scan that
    fills the waveform table from the receiver's reply words, and the
    time-of-flight extraction that turns each waveform into a range.

    The FSL transport is not modelled: the words the scan sends are
    returned and the words it reads are parameters. */
module UsArray {
  import opened Bytes
  import opened UsReceiver
  import opened PulseGen

  const US_SENSOR_COUNT: nat := 10
  const US_SENSOR_MAP: seq<bv8> := [9, 10, 11, 1, 2, 3, 4, 5, 6, 8]
  const US_SAMPLE_RATE: nat := 35000
  const US_RX_COUNT: nat := 5000
  const US_TX_COUNT: bv16 := 8
  const US_ADC_MAX: nat := 1023       // (1 << USADCPrecision) - 1
  const US_ADC_REFERENCE: nat := 330  // volts, in hundredths
  const SAMPLE_PERIOD_X10: nat := 285 // (1000000 * 10) / US_SAMPLE_RATE, truncated
  const SAMPLE_REQUEST_PERIOD: bv16 := 1250

  // ---------------------------------------------------------------------
  // Conversion macros.  Their arguments are at most 16 bits wide at every
  // use, so the 32-bit unsigned products never overflow; the final cast to
  // `unsigned short` is the `% 0x1_0000`.

  /** `USVoltageToTriggerLevel`: a voltage in hundredths to an ADC code. */
  function VoltageToTriggerLevel(v: u16): (r: u16)
    ensures v <= 21140 ==> r * US_ADC_REFERENCE <= v * US_ADC_MAX < r * US_ADC_REFERENCE + US_ADC_REFERENCE
  {
    (v * US_ADC_MAX / US_ADC_REFERENCE) % 0x1_0000
  }

  /** The conversion keeps the order of voltages up to 21140 hundredths. */
  lemma VoltageToTriggerLevelMonotone(v: u16, w: u16)
    requires v <= w <= 21140
    ensures VoltageToTriggerLevel(v) <= VoltageToTriggerLevel(w)
  {
    var a, b := VoltageToTriggerLevel(v), VoltageToTriggerLevel(w);
    assert a * US_ADC_REFERENCE <= v * US_ADC_MAX <= w * US_ADC_MAX < b * US_ADC_REFERENCE + US_ADC_REFERENCE;
  }

  /** Above that the 16-bit truncation wraps and the order breaks. */
  lemma VoltageToTriggerLevelWraps()
    ensures VoltageToTriggerLevel(21140) == 65534
    ensures VoltageToTriggerLevel(21141) == 1
  {
  }

  /** `USSampleIndexToTime`: microseconds at the end of sample `i`. */
  function SampleIndexToTime(i: u16): (t: u16)
    ensures i <= 2298 ==> t * 10 <= SAMPLE_PERIOD_X10 * (i + 1) < t * 10 + 10
  {
    (SAMPLE_PERIOD_X10 * (i + 1) / 10) % 0x1_0000
  }

  /** From sample 2299 on the time no longer fits 16 bits and wraps. */
  lemma SampleIndexToTimeWraps()
    ensures SampleIndexToTime(2298) == 65521
    ensures SampleIndexToTime(2299) == 14
  {
  }

  /** `USTimeToSampleIndex`: the sample a time in microseconds falls in.
      Below one sample period the unsigned `- 1` wraps to 65535. */
  function TimeToSampleIndex(t: u16): (i: u16)
    ensures t >= 29 ==> (i + 1) * SAMPLE_PERIOD_X10 <= t * 10 < (i + 2) * SAMPLE_PERIOD_X10
    ensures t < 29 ==> i == 65535
  {
    (t * 10 / SAMPLE_PERIOD_X10 - 1) % 0x1_0000
  }

  /** Converting a sample index to a time and back returns the index when
      `i + 1` is even and the one before it (wrapped, for `i == 0`) when
      it is odd, as long as the time does not wrap. */
  lemma {:induction false} SampleIndexRoundTrip(i: u16)
    requires i <= 2298
    ensures TimeToSampleIndex(SampleIndexToTime(i))
         == if (i + 1) % 2 == 0 then i else (i - 1) % 0x1_0000
  {
    var m := (i + 1) / 2;
    if (i + 1) % 2 == 0 {
      assert i + 1 == 2 * m;
      assert SampleIndexToTime(i) == 57 * m;
      assert 57 * m * 10 / SAMPLE_PERIOD_X10 == 2 * m;
    } else {
      assert i + 1 == 2 * m + 1;
      assert SAMPLE_PERIOD_X10 * (i + 1) == 570 * m + 285;
      assert SampleIndexToTime(i) == 57 * m + 28;
      assert (57 * m + 28) * 10 == 570 * m + 280;
      assert (570 * m + 280) / SAMPLE_PERIOD_X10 == 2 * m;
    }
  }

  /** The speed of sound in thousandths of a millimetre per microsecond at
      `temperature` tenths of a degree: `(3313000 + 606 * T) / 10000` in
      `int` arithmetic, stored as `unsigned int`. */
  function SpeedOfSound(temperature: int16): (s: u32)
    ensures 0 <= temperature ==> s * 10000 <= 3313000 + 606 * temperature < s * 10000 + 10000
    ensures 0 <= temperature <= 1000 ==> 331 <= s <= 391
  {
    ToU32(CDiv(3313000 + 606 * temperature, 10000))
  }

  /** The range a trigger at sample `i` stands for: the echo time times the
      speed, in unsigned 32-bit arithmetic, halved and scaled to
      millimetres, less 20 mm, stored in a `signed short`. */
  function RangeFromIndex(i: u16, speed: u32): int16 {
    ToInt16((SampleIndexToTime(i) * speed) % 0x1_0000_0000 / 2000 - 20)
  }

  /** At 21.0 degrees sound travels 344 thousandths of a millimetre per
      microsecond, and an echo at sample 100 reads 475 mm. */
  lemma RangeExample()
    ensures SpeedOfSound(210) == 344
    ensures SampleIndexToTime(100) == 2878
    ensures RangeFromIndex(100, SpeedOfSound(210)) == 475
  {
  }

  /** `usarray_measure_temp`'s conversion of the ADC result: times 1250 in
      32-bit `int`, divided by 1000, stored in a `signed short`.  Above
      1717986 the product overflows `int`; the model takes the
      two's-complement wrap. */
  function MeasuredTemperature(adc: bv32): int16 {
    ToInt16(CDiv(ToInt32(ToInt32(adc as int) * 1250), 1000))
  }

  /** For ADC results small enough that the temperature fits a `short`,
      it is 1.25 times the result, rounded down. */
  lemma MeasuredTemperatureScale(adc: bv32)
    requires adc as int <= 26214
    ensures MeasuredTemperature(adc) == 5 * (adc as int) / 4
  {
    var a := adc as int;
    ToInt32InRange(a);
    ToInt32InRange(a * 1250);
    ScaleByDivision(a);
    ToInt16InRange(5 * a / 4);
  }

  /** Multiplying by 1250 and dividing by 1000 is multiplying by 5 and
      dividing by 4. */
  lemma ScaleByDivision(a: nat)
    ensures CDiv(a * 1250, 1000) == 5 * a / 4
  {
    var q, r := 5 * a / 4, 5 * a % 4;
    assert 5 * a == 4 * q + r;
    assert a * 1250 == 1000 * q + 250 * r;
    assert 0 <= 250 * r < 1000;
  }

  // ---------------------------------------------------------------------
  // Echo extraction

  /** The five trigger settings: samples up to `changeIndex` are compared
      with the near band, later ones with the far band. */
  datatype Triggers = Triggers(changeIndex: u16, nearLower: u16, nearUpper: u16,
                               farLower: u16, farUpper: u16)

  /** Sample `i` of value `v` lies outside its band. */
  predicate Triggered(tr: Triggers, i: nat, v: u16) {
    if i <= tr.changeIndex then v <= tr.nearLower || v >= tr.nearUpper
    else v <= tr.farLower || v >= tr.farUpper
  }

  /** The first sample at or after `from` that triggers. */
  function FirstTrigger(row: seq<u16>, tr: Triggers, from: nat): (r: Option<nat>)
    requires from <= |row|
    ensures r.Some? ==> from <= r.value < |row| && Triggered(tr, r.value, row[r.value])
                        && forall j :: from <= j < r.value ==> !Triggered(tr, j, row[j])
    ensures r.None? ==> forall j :: from <= j < |row| ==> !Triggered(tr, j, row[j])
    decreases |row| - from
  {
    if from == |row| then None
    else if Triggered(tr, from, row[from]) then Some(from)
    else FirstTrigger(row, tr, from + 1)
  }

  /** A sample that does not trigger passes the search on to the next one. */
  lemma FirstTriggerSkip(row: seq<u16>, tr: Triggers, i: nat)
    requires i < |row| && !Triggered(tr, i, row[i])
    ensures FirstTrigger(row, tr, i) == FirstTrigger(row, tr, i + 1)
  {
  }

  /** The far levels as `usarray_set_triggers` stores them, crosswise:
      when the PC sends a far lower level no higher than the far upper
      one, the stored band is inverted and every sample after the
      changeover triggers, whatever its value. */
  lemma FarBandCrosswise(changeover: u16, nl: u16, nu: u16, fl: u16, fu: u16, i: nat, v: u16)
    requires fl <= fu <= 21140
    requires i > TimeToSampleIndex(changeover)
    ensures Triggered(Triggers(TimeToSampleIndex(changeover), VoltageToTriggerLevel(nl), VoltageToTriggerLevel(nu),
                               VoltageToTriggerLevel(fu), VoltageToTriggerLevel(fl)), i, v)
  {
    VoltageToTriggerLevelMonotone(fl, fu);
  }

  /** The range reading of one waveform: -1 when no sample triggers,
      otherwise the range of the first triggering sample. */
  function RangeReading(row: seq<u16>, tr: Triggers, temperature: int16): int16
    requires |row| <= 0x1_0000
  {
    match FirstTrigger(row, tr, 0)
    case None => -1
    case Some(i) => RangeFromIndex(i, SpeedOfSound(temperature))
  }

  /** The reading is -1 exactly when no sample triggers; otherwise it is the
      range of the first sample that does. */
  lemma RangeReadingMeaning(row: seq<u16>, tr: Triggers, temperature: int16)
    requires |row| <= 0x1_0000
    ensures (forall j :: 0 <= j < |row| ==> !Triggered(tr, j, row[j]))
            ==> RangeReading(row, tr, temperature) == -1
    ensures forall i :: 0 <= i < |row| && Triggered(tr, i, row[i])
                        && (forall j :: 0 <= j < i ==> !Triggered(tr, j, row[j])) ==>
              RangeReading(row, tr, temperature) == RangeFromIndex(i, SpeedOfSound(temperature))
  {
  }

  /** A waveform sample: the data field of a reply word, truncated to the
      `unsigned short` of the waveform table. */
  function Sample(word: bv32): u16 {
    ReadUSData(word).data as int % 0x1_0000
  }

  // ---------------------------------------------------------------------
  // The array state

  /** The pulse register words a scan of positions `lo` to `hi - 1`
      writes, one burst per position at its mapped transducer address. */
  function ScanPulses(lo: nat, hi: nat): (words: seq<bv32>)
    requires lo <= hi <= US_SENSOR_COUNT
    ensures |words| == hi - lo
    decreases hi - lo
  {
    if lo == hi then [] else ScanPulses(lo, hi - 1) + [PulseWord(1, US_SENSOR_MAP[hi - 1], US_TX_COUNT)]
  }

  /** The sample requests of the same scan: 5000 samples (sent as 392, see
      `SampleCountTruncated`) at period 1250 from each mapped address. */
  function ScanRequests(lo: nat, hi: nat): (words: seq<bv32>)
    requires lo <= hi <= US_SENSOR_COUNT
    ensures |words| == hi - lo
    decreases hi - lo
  {
    if lo == hi then []
    else ScanRequests(lo, hi - 1) + [SendUSSampleRequest(US_SENSOR_MAP[hi - 1], US_RX_COUNT as bv16, SAMPLE_REQUEST_PERIOD)]
  }

  /** Every burst of a scan is the enabled eight-cycle pulse at the
      position's transducer address. */
  lemma {:induction false} ScanPulsesWords(lo: nat, hi: nat)
    requires lo <= hi <= US_SENSOR_COUNT
    ensures forall j :: 0 <= j < hi - lo ==> ScanPulses(lo, hi)[j] == 0x10080 | US_SENSOR_MAP[lo + j] as bv32
    decreases hi - lo
  {
    if lo < hi {
      ScanPulsesWords(lo, hi - 1);
      ScanBurstWord(US_SENSOR_MAP[hi - 1]);
    }
  }

  /** The sample request for transducer address `address`: command 2,
      the address, the count 392 (5000 masked to 9 bits) and the period
      1250. */
  lemma ScanRequestWord(address: bv8)
    requires address < 16
    ensures SendUSSampleRequest(address, US_RX_COUNT as bv16, SAMPLE_REQUEST_PERIOD)
         == 0x1389_8802 | ((address as bv32) << 4)
  {
  }

  /** Every sample request of a scan is that word for the position's
      transducer address. */
  lemma {:induction false} ScanRequestsWords(lo: nat, hi: nat)
    requires lo <= hi <= US_SENSOR_COUNT
    ensures forall j :: 0 <= j < hi - lo ==>
              ScanRequests(lo, hi)[j] == 0x1389_8802 | ((US_SENSOR_MAP[lo + j] as bv32) << 4)
    decreases hi - lo
  {
    if lo < hi {
      ScanRequestsWords(lo, hi - 1);
      ScanRequestWord(US_SENSOR_MAP[hi - 1]);
    }
  }

  datatype UsMode = Single | Complete

  /** First sensor position a scan covers. */
  function SensorStart(mode: UsMode, index: byte): nat {
    if mode == Single then index else 0
  }

  /** One past the last sensor position a scan covers. */
  function SensorEnd(mode: UsMode, index: byte): nat {
    if mode == Single then index + 1 else US_SENSOR_COUNT
  }

  /** The globals of `usarray.c`. */
  class UsArray {
    var usMode: UsMode
    var usSensorIndex: byte
    var usSampleIndex: u16
    const usWaveformData: array2<u16>
    const usRangeReadings: array<int16>
    var usTriggerChangeIndex: u16
    var usTriggerNearUpper: u16
    var usTriggerNearLower: u16
    var usTriggerFarUpper: u16
    var usTriggerFarLower: u16
    var usTemperature: int16

    ghost predicate Valid()
      reads this
    {
      && usWaveformData.Length0 == US_SENSOR_COUNT
      && usWaveformData.Length1 == US_RX_COUNT
      && usRangeReadings.Length == US_SENSOR_COUNT
    }

    /** The sensors a scan or a range update covers lie in the table: the
        code indexes the table with `usSensorIndex` unchecked. */
    ghost predicate SensorInRange()
      reads this
    {
      usMode == Complete || usSensorIndex < US_SENSOR_COUNT
    }

    ghost function CurrentTriggers(): Triggers
      reads this
    {
      Triggers(usTriggerChangeIndex, usTriggerNearLower, usTriggerNearUpper,
               usTriggerFarLower, usTriggerFarUpper)
    }

    /** The waveform of sensor position `s`. */
    ghost function Row(s: nat): (row: seq<u16>)
      requires Valid() && s < US_SENSOR_COUNT
      reads this, usWaveformData
      ensures |row| == US_RX_COUNT
      ensures forall k :: 0 <= k < US_RX_COUNT ==> row[k] == usWaveformData[s, k]
    {
      seq(US_RX_COUNT, k requires 0 <= k < US_RX_COUNT reads usWaveformData => usWaveformData[s, k])
    }

    /** The static initialisers.  The `TRIGGER_*` defaults are parameters:
        `changeover` is the near/far changeover time and the four levels
        are the voltages `TRIGGER_BASE` plus or minus the near and far
        offsets. */
    constructor (changeover: u16, nearUpper: u16, nearLower: u16, farUpper: u16, farLower: u16)
      ensures Valid() && fresh(usWaveformData) && fresh(usRangeReadings)
      ensures usMode == Single && usSensorIndex == 0 && usSampleIndex == 0
      ensures usTemperature == 210
      ensures CurrentTriggers()
           == Triggers(TimeToSampleIndex(changeover),
                       VoltageToTriggerLevel(nearLower), VoltageToTriggerLevel(nearUpper),
                       VoltageToTriggerLevel(farLower), VoltageToTriggerLevel(farUpper))
      ensures forall s, k :: 0 <= s < US_SENSOR_COUNT && 0 <= k < US_RX_COUNT ==> usWaveformData[s, k] == 0
      ensures forall s :: 0 <= s < US_SENSOR_COUNT ==> usRangeReadings[s] == 0
    {
      usMode := Single;
      usSensorIndex := 0;
      usSampleIndex := 0;
      usWaveformData := new u16[US_SENSOR_COUNT, US_RX_COUNT]((s, k) => 0);
      usRangeReadings := new int16[US_SENSOR_COUNT](s => 0);
      usTriggerChangeIndex := TimeToSampleIndex(changeover);
      usTriggerNearUpper := VoltageToTriggerLevel(nearUpper);
      usTriggerNearLower := VoltageToTriggerLevel(nearLower);
      usTriggerFarUpper := VoltageToTriggerLevel(farUpper);
      usTriggerFarLower := VoltageToTriggerLevel(farLower);
      usTemperature := 210;
    }

    /** `init_usarray`: every range reading becomes -1, the init command is
        sent, and the reply `reply` must be an OK with no data. */
    method Init(reply: bv32) returns (command: bv32, ok: bool)
      requires Valid()
      modifies usRangeReadings
      ensures forall s :: 0 <= s < US_SENSOR_COUNT ==> usRangeReadings[s] == -1
      ensures command == SendUSInit()
      ensures ok <==> ReadUSData(reply).status == US_STATUS_OK && ReadUSData(reply).kind == US_RESP_NONE
    {
      for i := 0 to US_SENSOR_COUNT
        invariant forall s :: 0 <= s < i ==> usRangeReadings[s] == -1
      {
        usRangeReadings[i] := -1;
      }
      command := SendUSInit();
      var r := ReadUSData(reply);
      ok := r.status == US_STATUS_OK && r.kind == US_RESP_NONE;
    }

    /** `usarray_set_mode`. */
    method SetMode(newMode: UsMode)
      modifies this`usMode
      ensures usMode == newMode
    {
      usMode := newMode;
    }

    /** `usarray_get_mode`. */
    method GetMode() returns (mode: UsMode)
      ensures mode == usMode
    {
      mode := usMode;
    }

    /** `usarray_set_sensor`: any byte is accepted; a scan then requires it
        to name a sensor (`SensorInRange`). */
    method SetSensor(newSensor: byte)
      modifies this`usSensorIndex
      ensures usSensorIndex == newSensor
    {
      usSensorIndex := newSensor;
    }

    /** `usarray_get_sensor`. */
    method GetSensor() returns (sensor: byte)
      ensures sensor == usSensorIndex
    {
      sensor := usSensorIndex;
    }

    /** `usarray_get_temperature`. */
    method GetTemperature() returns (temperature: int16)
      ensures temperature == usTemperature
    {
      temperature := usTemperature;
    }

    /** `usarray_set_triggers`: the changeover goes through the time
        conversion and the levels through the voltage conversion.  The far
        pair is stored crosswise: `farLower` becomes the far upper level and
        `farUpper` the far lower one. */
    method SetTriggers(changeover: u16, nearLower: u16, nearUpper: u16, farLower: u16, farUpper: u16)
      modifies this`usTriggerChangeIndex, this`usTriggerNearLower, this`usTriggerNearUpper,
               this`usTriggerFarUpper, this`usTriggerFarLower
      ensures CurrentTriggers()
           == Triggers(TimeToSampleIndex(changeover),
                       VoltageToTriggerLevel(nearLower), VoltageToTriggerLevel(nearUpper),
                       VoltageToTriggerLevel(farUpper), VoltageToTriggerLevel(farLower))
    {
      usTriggerChangeIndex := TimeToSampleIndex(changeover);
      usTriggerNearLower := VoltageToTriggerLevel(nearLower);
      usTriggerNearUpper := VoltageToTriggerLevel(nearUpper);
      usTriggerFarUpper := VoltageToTriggerLevel(farLower);
      usTriggerFarLower := VoltageToTriggerLevel(farUpper);
    }

    /** `usarray_measure_temp`: send the temperature request and convert the
        data of the reply `reply`. */
    method MeasureTemp(reply: bv32) returns (command: bv32)
      modifies this`usTemperature
      ensures command == SendUSTempRequest()
      ensures usTemperature == MeasuredTemperature(ReadUSData(reply).data)
    {
      command := SendUSTempRequest();
      var r := ReadUSData(reply);
      usTemperature := MeasuredTemperature(r.data);
    }

    /** `usarray_scan`: for each covered sensor position, fire its
        transducer, request 5000 samples and store the data of the 5000
        reply words `replies[j]` (for the `j`-th covered position) in its
        row.  Returns the pulse register words and sample requests sent. */
    method Scan(replies: seq<seq<bv32>>) returns (pulses: seq<bv32>, requests: seq<bv32>)
      requires Valid() && SensorInRange()
      requires |replies| == SensorEnd(usMode, usSensorIndex) - SensorStart(usMode, usSensorIndex)
      requires forall j :: 0 <= j < |replies| ==> |replies[j]| == US_RX_COUNT
      modifies this`usSampleIndex, usWaveformData
      ensures usSampleIndex == 0
      ensures var lo, hi := SensorStart(usMode, usSensorIndex), SensorEnd(usMode, usSensorIndex);
              pulses == ScanPulses(lo, hi) && requests == ScanRequests(lo, hi)
      ensures Scanned(replies)
    {
      var lo, hi := SensorStart(usMode, usSensorIndex), SensorEnd(usMode, usSensorIndex);
      pulses, requests := ScanSensors(lo, hi, replies);
      usSampleIndex := 0;
    }

    /** The sensor loop of `usarray_scan` over positions `lo` to `hi - 1`. */
    method ScanSensors(lo: nat, hi: nat, replies: seq<seq<bv32>>) returns (pulses: seq<bv32>, requests: seq<bv32>)
      requires Valid() && lo <= hi <= US_SENSOR_COUNT && |replies| == hi - lo
      requires forall j :: 0 <= j < |replies| ==> |replies[j]| == US_RX_COUNT
      modifies usWaveformData
      ensures pulses == ScanPulses(lo, hi) && requests == ScanRequests(lo, hi)
      ensures Filled(lo, hi, replies)
    {
      pulses, requests := [], [];
      for sensor := lo to hi
        invariant pulses == ScanPulses(lo, sensor) && requests == ScanRequests(lo, sensor)
        invariant forall s, k :: 0 <= s < US_SENSOR_COUNT && 0 <= k < US_RX_COUNT ==>
                    usWaveformData[s, k] == if lo <= s < sensor then Sample(replies[s - lo][k]) else old(usWaveformData[s, k])
      {
        pulses := pulses + [PulseWord(1, US_SENSOR_MAP[sensor], US_TX_COUNT)];
        requests := requests + [SendUSSampleRequest(US_SENSOR_MAP[sensor], US_RX_COUNT as bv16, SAMPLE_REQUEST_PERIOD)];
        ScanRow(sensor, replies[sensor - lo]);
      }
    }

    /** The sample loop of `usarray_scan` for one sensor position. */
    method ScanRow(sensor: nat, words: seq<bv32>)
      requires Valid() && sensor < US_SENSOR_COUNT && |words| == US_RX_COUNT
      modifies usWaveformData
      ensures forall s, k :: 0 <= s < US_SENSOR_COUNT && 0 <= k < US_RX_COUNT ==>
                usWaveformData[s, k] == if s == sensor then Sample(words[k]) else old(usWaveformData[s, k])
    {
      for sample := 0 to US_RX_COUNT
        invariant forall k :: 0 <= k < sample ==> usWaveformData[sensor, k] == Sample(words[k])
        invariant forall s, k :: 0 <= s < US_SENSOR_COUNT && 0 <= k < US_RX_COUNT && (s != sensor || k >= sample)
                    ==> usWaveformData[s, k] == old(usWaveformData[s, k])
      {
        var r := ReadUSData(words[sample]);
        usWaveformData[sensor, sample] := r.data as int % 0x1_0000;
      }
    }

    /** `usarray_update_ranges`: every covered sensor position gets the
        range reading of its waveform under the current triggers and
        temperature; the other readings are untouched. */
    method UpdateRanges()
      requires Valid() && SensorInRange()
      modifies usRangeReadings
      ensures var lo, hi := SensorStart(usMode, usSensorIndex), SensorEnd(usMode, usSensorIndex);
              forall s :: lo <= s < hi ==>
                usRangeReadings[s] == RangeReading(Row(s), CurrentTriggers(), usTemperature)
      ensures var lo, hi := SensorStart(usMode, usSensorIndex), SensorEnd(usMode, usSensorIndex);
              forall s :: 0 <= s < US_SENSOR_COUNT && !(lo <= s < hi) ==>
                usRangeReadings[s] == old(usRangeReadings[s])
    {
      var speedOfSound := SpeedOfSound(usTemperature);
      var lo, hi := SensorStart(usMode, usSensorIndex), SensorEnd(usMode, usSensorIndex);
      for iSensor := lo to hi
        invariant forall s :: lo <= s < iSensor ==>
                    usRangeReadings[s] == RangeReading(Row(s), CurrentTriggers(), usTemperature)
        invariant forall s :: 0 <= s < US_SENSOR_COUNT && !(lo <= s < iSensor) ==>
                    usRangeReadings[s] == old(usRangeReadings[s])
      {
        var reading := SensorRange(iSensor, speedOfSound);
        usRangeReadings[iSensor] := reading;
      }
    }

    /** Between the two states, the covered positions' rows have come to
        hold the samples of `replies`; every other row is as it was. */
    twostate predicate Scanned(replies: seq<seq<bv32>>)
      requires Valid()
      requires |replies| == SensorEnd(usMode, usSensorIndex) - SensorStart(usMode, usSensorIndex)
      requires forall j :: 0 <= j < |replies| ==> |replies[j]| == US_RX_COUNT
      reads this, usWaveformData
    {
      Filled(SensorStart(usMode, usSensorIndex), SensorEnd(usMode, usSensorIndex), replies)
    }

    /** Between the two states, the rows of positions `lo` to `hi - 1`
        have come to hold the data of their reply words; every other
        sample is as it was. */
    twostate predicate Filled(lo: nat, hi: nat, replies: seq<seq<bv32>>)
      requires usWaveformData.Length0 == US_SENSOR_COUNT && usWaveformData.Length1 == US_RX_COUNT
      requires lo <= hi && |replies| == hi - lo
      requires forall j :: 0 <= j < |replies| ==> |replies[j]| == US_RX_COUNT
      reads usWaveformData
    {
      forall s, k :: 0 <= s < US_SENSOR_COUNT && 0 <= k < US_RX_COUNT ==>
        usWaveformData[s, k] == if lo <= s < hi then Sample(replies[s - lo][k]) else old(usWaveformData[s, k])
    }

    /** Between the two states, the ranges of the covered positions have
        come to be computed from their rows; every other range is as it
        was. */
    twostate predicate Ranged()
      requires Valid()
      reads this, usWaveformData, usRangeReadings
    {
      var lo, hi := SensorStart(usMode, usSensorIndex), SensorEnd(usMode, usSensorIndex);
      forall s :: 0 <= s < US_SENSOR_COUNT ==>
        usRangeReadings[s]
        == if lo <= s < hi then RangeReading(Row(s), CurrentTriggers(), usTemperature) else old(usRangeReadings[s])
    }

    /** A scan followed by the range update, as one cycle of the array
        runs them. */
    method ScanAndRange(replies: seq<seq<bv32>>) returns (pulses: seq<bv32>, requests: seq<bv32>)
      requires Valid() && SensorInRange()
      requires |replies| == SensorEnd(usMode, usSensorIndex) - SensorStart(usMode, usSensorIndex)
      requires forall j :: 0 <= j < |replies| ==> |replies[j]| == US_RX_COUNT
      modifies this`usSampleIndex, usWaveformData, usRangeReadings
      ensures usSampleIndex == 0
      ensures var lo, hi := SensorStart(usMode, usSensorIndex), SensorEnd(usMode, usSensorIndex);
              pulses == ScanPulses(lo, hi) && requests == ScanRequests(lo, hi)
      ensures Scanned(replies) && Ranged()
    {
      pulses, requests := Scan(replies);
      UpdateRanges();
    }

    /** The sample loop of `usarray_update_ranges` for one sensor: scan
        until the first sample outside its band. */
    method SensorRange(iSensor: nat, speedOfSound: u32) returns (reading: int16)
      requires Valid() && iSensor < US_SENSOR_COUNT && speedOfSound == SpeedOfSound(usTemperature)
      ensures reading == RangeReading(Row(iSensor), CurrentTriggers(), usTemperature)
    {
      ghost var row := Row(iSensor);
      ghost var tr := CurrentTriggers();
      reading := -1;
      var iSample := 0;
      while iSample < US_RX_COUNT
        invariant 0 <= iSample <= US_RX_COUNT
        invariant FirstTrigger(row, tr, 0) == FirstTrigger(row, tr, iSample)
      {
        var triggerUpper, triggerLower;
        if iSample <= usTriggerChangeIndex {
          triggerUpper, triggerLower := usTriggerNearUpper, usTriggerNearLower;
        } else {
          triggerUpper, triggerLower := usTriggerFarUpper, usTriggerFarLower;
        }
        var sample := usWaveformData[iSensor, iSample];
        assert sample == row[iSample];
        if sample <= triggerLower || sample >= triggerUpper {
          assert FirstTrigger(row, tr, iSample) == Some(iSample);
          reading := ToInt16((SampleIndexToTime(iSample) * speedOfSound) % 0x1_0000_0000 / 2000 - 20);
          return;
        }
        FirstTriggerSkip(row, tr, iSample);
        iSample := iSample + 1;
      }
      assert FirstTrigger(row, tr, 0) == None;
    }
  }
}
