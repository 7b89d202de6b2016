/**
 * The DAQ client: a mirror of the instrument's configuration whose setters
 * validate their argument and send one command word (4096 for the generator
 * spectrum), and the two readers of the acquisition stream.
 *
 * The TCP socket is replaced by two fields of the controller: `sent`, every
 * command word written so far (each travels as its 8 little-endian bytes,
 * `Encode`), and `incoming`, the bytes the instrument has yet to deliver.
 * One receive call hands over any number of bytes between one and the
 * number asked for.
 */
module Daq {
  import opened CommandCodec
  import opened Framing

  datatype Option<T> = None | Some(value: T)

  /** What a setter ends in: normal return, or the exception it raises. */
  datatype Outcome = Ok | ValueError(reason: Reason) | NotImplementedError

  /** Why a setter raised ValueError; one constructor per distinct message. */
  datatype Reason =
    | InvalidSampleRate      // "Invalid sample rate"
    | InvalidChannel         // "Invalid channel"
    | InvalidSlope           // "Invalid slope"
    | InvalidMode            // "Invalid mode"
    | LevelNotInteger        // "Invalid level (must be integer)"
    | LevelOutOfRange        // "Invalid level (out of range)"
    | NumberNotInteger       // "Invalid number (must be integer)"
    | NumberOutOfRange       // "Invalid number (out of range)"
    | AboveTotal             // "Invalid number (must be less than total number of samples)"
    | BelowPreTrigger        // "Invalid number (must be greater than number of samples before trigger)"
    | InvalidDistribution    // "Invalid distribution"
    | InvalidSpectrum        // "Invalid spectrum"

  /** A setter argument that is, or is not, a Python `int` (what `isinstance(x, int)` decides). */
  datatype Number = Integer(value: int) | NonInteger

  /** A spectrum bin weight. */
  type uint32 = w: nat | w < 0x1_0000_0000

  const TWO_TO_THE_32: nat := 0x1_0000_0000

  // Command codes used by the client (code -> meaning, as in the protocol's command table).
  const RESET_OSCILLOSCOPE: nat := 2
  const SET_SAMPLE_RATE: nat := 4
  const SET_NEGATOR_MODE: nat := 5
  const SET_TRIGGER_SOURCE: nat := 13
  const SET_TRIGGER_SLOPE: nat := 14
  const SET_TRIGGER_MODE: nat := 15
  const SET_TRIGGER_LEVEL: nat := 16
  const SET_SAMPLES_BEFORE_TRIGGER: nat := 17
  const SET_TOTAL_SAMPLES: nat := 18
  const START_OSCILLOSCOPE: nat := 19
  const SET_FALL_TIME: nat := 21
  const SET_RISE_TIME: nat := 22
  const SET_RATE: nat := 25
  const SET_DISTRIBUTION: nat := 26
  const RESET_SPECTRUM: nat := 27
  const SET_SPECTRUM_BIN: nat := 28
  const START_GENERATOR: nat := 29
  const STOP_GENERATOR: nat := 30
  const START_DAQ: nat := 31

  // Validation tables and limits.
  const SAMPLE_RATES: seq<int> := [1, 4, 8, 16, 32, 54, 128, 256]
  const INPUTS: map<string, nat> := map["IN1" := 0, "IN2" := 1]
  const TRIGGER_SLOPES: map<string, nat> := map["rising" := 0, "falling" := 1]
  const TRIGGER_MODES: map<string, nat> := map["normal" := 0, "auto" := 1]
  const MAXIMUM_SAMPLES: int := 8388607
  const MIN_ADC_VALUE: int := -4096
  const MAX_ADC_VALUE: int := 4095
  const NUMBER_OF_GENERATOR_BINS: nat := 4096
  const DISTRIBUTIONS: map<string, nat> := map["uniform" := 0, "poisson" := 1]

  /** The value sent for spectrum bin i: `i << 32 | weight`, the bin index above the 32-bit weight. */
  function BinValue(i: nat, weight: uint32): (v: nat)
    ensures v / TWO_TO_THE_32 == i && v % TWO_TO_THE_32 == weight
    ensures i < NUMBER_OF_GENERATOR_BINS ==> v < VALUE_MODULUS
  {
    DivModUnique(i * TWO_TO_THE_32 + weight, TWO_TO_THE_32, i, weight);
    i * TWO_TO_THE_32 + weight
  }

  /** The command words `set_generator_spectrum` sends, one per bin in ascending bin order. */
  function SpectrumWords(spectrum: seq<uint32>): (ws: seq<nat>)
    ensures |ws| == |spectrum|
  {
    seq(|spectrum|, i requires 0 <= i < |spectrum| => Word(SET_SPECTRUM_BIN, 0, BinValue(i, spectrum[i])))
  }

  /**
   * Word i of a full spectrum is a "set spectrum bin" command whose value
   * field carries bin index i above the bin's 32-bit weight, unmasked.
   */
  lemma SpectrumWordAt(spectrum: seq<uint32>, i: nat)
    requires |spectrum| == NUMBER_OF_GENERATOR_BINS && i < |spectrum|
    ensures FieldsOf(SpectrumWords(spectrum)[i]).code == SET_SPECTRUM_BIN
    ensures FieldsOf(SpectrumWords(spectrum)[i]).number == 0
    ensures FieldsOf(SpectrumWords(spectrum)[i]).field / TWO_TO_THE_32 == i
    ensures FieldsOf(SpectrumWords(spectrum)[i]).field % TWO_TO_THE_32 == spectrum[i]
  {
    WordFields(SET_SPECTRUM_BIN, 0, BinValue(i, spectrum[i]));
  }

  /** ⌈k / s⌉: the number of bursts of s events needed to deliver k events. */
  function Bursts(k: nat, s: nat): nat
    requires s >= 1
  {
    (k + s - 1) / s
  }

  /** Bursts(k, s) is the least number of s-event bursts that holds k events. */
  lemma BurstsBounds(k: nat, s: nat)
    requires s >= 1
    ensures k <= s * Bursts(k, s)
    ensures Bursts(k, s) > 0 ==> s * (Bursts(k, s) - 1) < k
  {
    var q, r := k / s, k % s;
    BurstsOf(k, s, q, r);
  }

  /** ⌈k / s⌉ from the quotient and remainder of k by s. */
  lemma BurstsOf(k: nat, s: nat, q: nat, r: nat)
    requires s >= 1 && r < s && k == s * q + r
    ensures Bursts(k, s) == if r == 0 then q else q + 1
  {
    if r == 0 {
      DivModUnique(k + s - 1, s, q, s - 1);
    } else {
      DivModUnique(k + s - 1, s, q + 1, r - 1);
    }
  }

  /** Pulling one more event starts a new burst exactly when the events so far fill whole bursts. */
  lemma BurstsStep(k: nat, s: nat)
    requires s >= 1
    ensures Bursts(k + 1, s) == Bursts(k, s) + (if k % s == 0 then 1 else 0)
    ensures (k + 1) % s == (k % s + 1) % s
  {
    var q, r := k / s, k % s;
    BurstsOf(k, s, q, r);
    if r + 1 < s {
      BurstsOf(k + 1, s, q, r + 1);
      DivModUnique(k + 1, s, q, r + 1);
      DivModUnique(r + 1, s, 0, r + 1);
    } else {
      assert k + 1 == s * (q + 1);
      BurstsOf(k + 1, s, q + 1, 0);
      DivModUnique(k + 1, s, q + 1, 0);
      DivModUnique(r + 1, s, 1, 0);
    }
  }

  /** The "start daq" commands of `count` bursts of `setSize` events. */
  function StartCommands(count: nat, setSize: nat): seq<nat> {
    seq(count, _ => Word(START_DAQ, 0, setSize))
  }

  /** The commands of a bursts followed by those of b bursts are those of a + b bursts. */
  lemma StartCommandsAdd(a: nat, b: nat, setSize: nat)
    ensures StartCommands(a, setSize) + StartCommands(b, setSize) == StartCommands(a + b, setSize)
  {
  }

  /** Byte offsets of event i + 1 follow from those of event i, and stay within `amount` events. */
  lemma NextEvent(i: nat, amount: nat, osc: nat, cut: nat)
    requires i < amount
    ensures 0 <= i * osc && 0 <= i * (osc + cut)
    ensures (i + 1) * (osc + cut) == i * (osc + cut) + osc + cut <= amount * (osc + cut)
    ensures (i + 1) * osc == i * osc + osc <= amount * osc
  {
    MulMonotone(osc + cut, 0, i);
    MulMonotone(osc, 0, i);
    MulMonotone(osc + cut, i + 1, amount);
    MulMonotone(osc, i + 1, amount);
  }

  /**
   * One step of the batch loop: when the first i sample regions are in place
   * and event i's sample region is written right after them, the first i + 1
   * regions are in place.
   */
  lemma EventAppended(wire: seq<byte>, i: nat, osc: nat, cut: nat, before: seq<byte>, after: seq<byte>)
    requires (i + 1) * (osc + cut) <= |wire|
    requires (i + 1) * osc <= |before| == |after|
    requires before[..i * osc] == SampleRegions(wire, i, osc, cut)
    requires after[..i * osc] == before[..i * osc]
    requires after[i * osc..i * osc + osc] == wire[i * (osc + cut)..][..osc]
    ensures after[..(i + 1) * osc] == SampleRegions(wire, i + 1, osc, cut)
  {
    var off, start := i * osc, i * (osc + cut);
    SampleRegionsSnoc(wire, i, osc, cut);
    assert (i + 1) * osc == off + osc;
    assert wire[start..][..osc] == wire[start..start + osc];
    assert after[..off + osc] == after[..off] + after[off..off + osc];
  }

  /** One negator entry per input, each unset or a mode 0 / 1. */
  ghost predicate NegatorsValid(negators: map<string, Option<nat>>) {
    negators.Keys == INPUTS.Keys &&
    forall ch :: ch in negators && negators[ch].Some? ==> negators[ch].value < 2
  }

  /** Setting one input's negator mode keeps the table well formed. */
  lemma NegatorUpdate(negators: map<string, Option<nat>>, channel: string, value: nat)
    requires NegatorsValid(negators) && channel in INPUTS && value < 2
    ensures NegatorsValid(negators[channel := Some(value)])
  {
  }

  /** The client object: configuration mirror plus the session's socket. */
  class Controller {
    var sampleRate: Option<int>
    var negators: map<string, Option<nat>>
    var triggerSource: Option<string>
    var triggerSlope: Option<string>
    var triggerMode: Option<string>
    var triggerLevel: Option<int>
    var samplesBeforeTrigger: Option<nat>
    var totalSamples: Option<nat>

    var fallTime: Option<int>
    var riseTime: Option<int>
    var generatorRate: Option<int>
    var distribution: Option<string>
    var spectrum: Option<seq<uint32>>

    // Derived from the total number of samples; absent until it is first set.
    var oscBytes: Option<nat>
    var cutBytes: Option<nat>
    var cutView: array?<byte>       // scratch buffer the padding of every event is read into

    // The socket.
    var sent: seq<nat>
    var incoming: seq<byte>

    /** Every mirror field holds a value its setter accepts, and the derived sizes follow the total. */
    ghost predicate Valid()
      reads this`sampleRate, this`negators, this`triggerSource, this`triggerSlope, this`triggerMode,
            this`triggerLevel, this`distribution, this`spectrum, this`samplesBeforeTrigger,
            this`totalSamples, this`oscBytes, this`cutBytes, this`cutView
    {
      ChoicesValid() && SampleCountsValid() && SizesValid()
    }

    /** Each table-checked or range-checked field holds an accepted value. */
    ghost predicate ChoicesValid()
      reads this`sampleRate, this`negators, this`triggerSource, this`triggerSlope, this`triggerMode,
            this`triggerLevel, this`distribution, this`spectrum
    {
      (sampleRate.Some? ==> sampleRate.value in SAMPLE_RATES) &&
      NegatorsValid(negators) &&
      (triggerSource.Some? ==> triggerSource.value in INPUTS) &&
      (triggerSlope.Some? ==> triggerSlope.value in TRIGGER_SLOPES) &&
      (triggerMode.Some? ==> triggerMode.value in TRIGGER_MODES) &&
      (triggerLevel.Some? ==> MIN_ADC_VALUE <= triggerLevel.value <= MAX_ADC_VALUE) &&
      (distribution.Some? ==> distribution.value in DISTRIBUTIONS) &&
      (spectrum.Some? ==> |spectrum.value| == NUMBER_OF_GENERATOR_BINS)
    }

    /** Both sample counts are in range, and the pre-trigger count never exceeds the total when both are set. */
    ghost predicate SampleCountsValid()
      reads this`samplesBeforeTrigger, this`totalSamples
    {
      (samplesBeforeTrigger.Some? ==> samplesBeforeTrigger.value <= MAXIMUM_SAMPLES) &&
      (totalSamples.Some? ==> totalSamples.value <= MAXIMUM_SAMPLES) &&
      (samplesBeforeTrigger.Some? && totalSamples.Some? ==>
         samplesBeforeTrigger.value <= totalSamples.value)
    }

    /** The byte sizes of an event's regions and the padding scratch buffer exist exactly when the total is set. */
    ghost predicate SizesValid()
      reads this`totalSamples, this`oscBytes, this`cutBytes, this`cutView
    {
      (totalSamples.None? ==> oscBytes.None? && cutBytes.None? && cutView == null) &&
      (totalSamples.Some? ==>
         oscBytes == Some(SampleBytes(totalSamples.value)) &&
         cutBytes == Some(SampleBytes(CUT_OFF)) &&
         cutView != null && cutView.Length == SampleBytes(CUT_OFF))
    }

    /** A fresh client: nothing configured, nothing sent; `deviceOutput` is what the instrument will stream. */
    constructor (deviceOutput: seq<byte>)
      ensures Valid()
      ensures sampleRate.None? && triggerSource.None? && triggerSlope.None? && triggerMode.None?
      ensures triggerLevel.None? && samplesBeforeTrigger.None? && totalSamples.None?
      ensures fallTime.None? && riseTime.None? && generatorRate.None? && distribution.None? && spectrum.None?
      ensures negators == map["IN1" := None, "IN2" := None]
      ensures sent == [] && incoming == deviceOutput
    {
      sampleRate := None;
      negators := map["IN1" := None, "IN2" := None];
      triggerSource, triggerSlope, triggerMode, triggerLevel := None, None, None, None;
      samplesBeforeTrigger, totalSamples := None, None;
      fallTime, riseTime, generatorRate, distribution, spectrum := None, None, None, None, None;
      oscBytes, cutBytes, cutView := None, None, null;
      sent, incoming := [], deviceOutput;
    }

    /** Sends one command: its word goes out on the socket as the 8 bytes `Encode(code, number, value)`. */
    method Command(code: nat, number: nat, value: int)
      requires code < 32 && number < 16
      modifies this`sent
      ensures sent == old(sent) + [Word(code, number, value)]
    {
      sent := sent + [Word(code, number, value)];
    }

    // -------------------------------------------------------------------
    // Setters

    method SetSampleRate(rate: int) returns (r: Outcome)
      requires Valid()
      modifies this`sampleRate, this`sent
      ensures Valid()
      ensures r != Ok ==> unchanged(this)
      ensures rate !in SAMPLE_RATES ==> r == ValueError(InvalidSampleRate)
      ensures rate in SAMPLE_RATES ==>
                r == Ok && sampleRate == Some(rate) && sent == old(sent) + [Word(SET_SAMPLE_RATE, 0, rate)]
    {
      if rate !in SAMPLE_RATES {
        return ValueError(InvalidSampleRate);
      }
      sampleRate := Some(rate);
      Command(SET_SAMPLE_RATE, 0, rate);
      r := Ok;
    }

    method SetNegator(negated: bool, channel: string) returns (r: Outcome)
      requires Valid()
      modifies this`negators, this`sent
      ensures Valid()
      ensures r != Ok ==> unchanged(this)
      ensures channel !in INPUTS ==> r == ValueError(InvalidChannel)
      ensures channel in INPUTS ==>
                var value := if negated then 1 else 0;
                r == Ok && negators == old(negators)[channel := Some(value)] &&
                sent == old(sent) + [Word(SET_NEGATOR_MODE, INPUTS[channel], value)]
    {
      var value := if negated then 1 else 0;
      if channel !in INPUTS {
        return ValueError(InvalidChannel);
      }
      NegatorUpdate(negators, channel, value);
      negators := negators[channel := Some(value)];
      Command(SET_NEGATOR_MODE, INPUTS[channel], value);
      r := Ok;
    }

    method SetTriggerSource(channel: string) returns (r: Outcome)
      requires Valid()
      modifies this`triggerSource, this`sent
      ensures Valid()
      ensures r != Ok ==> unchanged(this)
      ensures channel !in INPUTS ==> r == ValueError(InvalidChannel)
      ensures channel in INPUTS ==>
                r == Ok && triggerSource == Some(channel) &&
                sent == old(sent) + [Word(SET_TRIGGER_SOURCE, INPUTS[channel], 0)]
    {
      if channel !in INPUTS {
        return ValueError(InvalidChannel);
      }
      triggerSource := Some(channel);
      Command(SET_TRIGGER_SOURCE, INPUTS[channel], 0);
      r := Ok;
    }

    method SetTriggerSlope(slope: string) returns (r: Outcome)
      requires Valid()
      modifies this`triggerSlope, this`sent
      ensures Valid()
      ensures r != Ok ==> unchanged(this)
      ensures slope !in TRIGGER_SLOPES ==> r == ValueError(InvalidSlope)
      ensures slope in TRIGGER_SLOPES ==>
                r == Ok && triggerSlope == Some(slope) &&
                sent == old(sent) + [Word(SET_TRIGGER_SLOPE, 0, TRIGGER_SLOPES[slope])]
    {
      if slope !in TRIGGER_SLOPES {
        return ValueError(InvalidSlope);
      }
      triggerSlope := Some(slope);
      Command(SET_TRIGGER_SLOPE, 0, TRIGGER_SLOPES[slope]);
      r := Ok;
    }

    method SetTriggerMode(mode: string) returns (r: Outcome)
      requires Valid()
      modifies this`triggerMode, this`sent
      ensures Valid()
      ensures r != Ok ==> unchanged(this)
      ensures mode !in TRIGGER_MODES ==> r == ValueError(InvalidMode)
      ensures mode in TRIGGER_MODES ==>
                r == Ok && triggerMode == Some(mode) &&
                sent == old(sent) + [Word(SET_TRIGGER_MODE, 0, TRIGGER_MODES[mode])]
    {
      if mode !in TRIGGER_MODES {
        return ValueError(InvalidMode);
      }
      triggerMode := Some(mode);
      Command(SET_TRIGGER_MODE, 0, TRIGGER_MODES[mode]);
      r := Ok;
    }

    /** A level may be negative; it goes on the wire as its 52-bit two's complement (see DecodeEncode). */
    method SetTriggerLevel(level: Number) returns (r: Outcome)
      requires Valid()
      modifies this`triggerLevel, this`sent
      ensures Valid()
      ensures r != Ok ==> unchanged(this)
      ensures level.NonInteger? ==> r == ValueError(LevelNotInteger)
      ensures level.Integer? && !(MIN_ADC_VALUE <= level.value <= MAX_ADC_VALUE) ==>
                r == ValueError(LevelOutOfRange)
      ensures level.Integer? && MIN_ADC_VALUE <= level.value <= MAX_ADC_VALUE ==>
                r == Ok && triggerLevel == Some(level.value) &&
                sent == old(sent) + [Word(SET_TRIGGER_LEVEL, 0, level.value)]
    {
      if level.NonInteger? {
        return ValueError(LevelNotInteger);
      }
      if level.value < MIN_ADC_VALUE || level.value > MAX_ADC_VALUE {
        return ValueError(LevelOutOfRange);
      }
      triggerLevel := Some(level.value);
      Command(SET_TRIGGER_LEVEL, 0, level.value);
      r := Ok;
    }

    /** The pre-trigger count may not exceed a total that is already set; an unset total is not checked. */
    method SetSamplesBeforeTrigger(number: Number) returns (r: Outcome)
      requires Valid()
      modifies this`samplesBeforeTrigger, this`sent
      ensures Valid()
      ensures r != Ok ==> unchanged(this)
      ensures number.NonInteger? ==> r == ValueError(NumberNotInteger)
      ensures number.Integer? && !(0 <= number.value <= MAXIMUM_SAMPLES) ==>
                r == ValueError(NumberOutOfRange)
      ensures number.Integer? && 0 <= number.value <= MAXIMUM_SAMPLES &&
              old(totalSamples).Some? && number.value > old(totalSamples).value ==>
                r == ValueError(AboveTotal)
      ensures number.Integer? && 0 <= number.value <= MAXIMUM_SAMPLES &&
              (old(totalSamples).None? || number.value <= old(totalSamples).value) ==>
                r == Ok && samplesBeforeTrigger == Some(number.value) &&
                sent == old(sent) + [Word(SET_SAMPLES_BEFORE_TRIGGER, 0, number.value)]
    {
      if number.NonInteger? {
        return ValueError(NumberNotInteger);
      }
      if number.value < 0 || number.value > MAXIMUM_SAMPLES {
        return ValueError(NumberOutOfRange);
      }
      if totalSamples.Some? && number.value > totalSamples.value {
        return ValueError(AboveTotal);
      }
      samplesBeforeTrigger := Some(number.value);
      Command(SET_SAMPLES_BEFORE_TRIGGER, 0, number.value);
      r := Ok;
    }

    /**
     * The total may not fall below a pre-trigger count that is already set.
     * It fixes the byte sizes of an event's sample and padding regions, and
     * the instrument is asked for CUT_OFF samples more than the total.
     */
    method SetTotalNumberOfSamples(number: Number) returns (r: Outcome)
      requires Valid()
      modifies this`oscBytes, this`cutBytes, this`cutView, this`totalSamples, this`sent
      ensures Valid()
      ensures r != Ok ==> unchanged(this)
      ensures number.NonInteger? ==> r == ValueError(NumberNotInteger)
      ensures number.Integer? && !(0 <= number.value <= MAXIMUM_SAMPLES) ==>
                r == ValueError(NumberOutOfRange)
      ensures number.Integer? && 0 <= number.value <= MAXIMUM_SAMPLES &&
              old(samplesBeforeTrigger).Some? && number.value < old(samplesBeforeTrigger).value ==>
                r == ValueError(BelowPreTrigger)
      ensures number.Integer? && 0 <= number.value <= MAXIMUM_SAMPLES &&
              (old(samplesBeforeTrigger).None? || number.value >= old(samplesBeforeTrigger).value) ==>
                r == Ok && totalSamples == Some(number.value) &&
                oscBytes == Some(4 * number.value) && cutBytes == Some(4 * CUT_OFF) &&
                fresh(cutView) &&
                sent == old(sent) + [Word(SET_TOTAL_SAMPLES, 0, number.value + CUT_OFF)]
    {
      if number.NonInteger? {
        return ValueError(NumberNotInteger);
      }
      if number.value < 0 || number.value > MAXIMUM_SAMPLES {
        return ValueError(NumberOutOfRange);
      }
      if samplesBeforeTrigger.Some? && number.value < samplesBeforeTrigger.value {
        return ValueError(BelowPreTrigger);
      }
      oscBytes := Some(SampleBytes(number.value));
      cutBytes := Some(SampleBytes(CUT_OFF));
      cutView := new byte[SampleBytes(CUT_OFF)];
      totalSamples := Some(number.value);
      Command(SET_TOTAL_SAMPLES, 0, number.value + CUT_OFF);
      r := Ok;
    }

    /** Not validated: any value is stored and sent. */
    method SetGeneratorFallTime(time: int)
      requires Valid()
      modifies this`fallTime, this`sent
      ensures Valid()
      ensures fallTime == Some(time) && sent == old(sent) + [Word(SET_FALL_TIME, 0, time)]
    {
      fallTime := Some(time);
      Command(SET_FALL_TIME, 0, time);
    }

    /** Not validated: any value is stored and sent. */
    method SetGeneratorRiseTime(time: int)
      requires Valid()
      modifies this`riseTime, this`sent
      ensures Valid()
      ensures riseTime == Some(time) && sent == old(sent) + [Word(SET_RISE_TIME, 0, time)]
    {
      riseTime := Some(time);
      Command(SET_RISE_TIME, 0, time);
    }

    /** Not validated: any value is stored and sent. */
    method SetGeneratorRate(rate: int)
      requires Valid()
      modifies this`generatorRate, this`sent
      ensures Valid()
      ensures generatorRate == Some(rate) && sent == old(sent) + [Word(SET_RATE, 0, rate)]
    {
      generatorRate := Some(rate);
      Command(SET_RATE, 0, rate);
    }

    method SetGeneratorDistribution(dist: string) returns (r: Outcome)
      requires Valid()
      modifies this`distribution, this`sent
      ensures Valid()
      ensures r != Ok ==> unchanged(this)
      ensures dist !in DISTRIBUTIONS ==> r == ValueError(InvalidDistribution)
      ensures dist in DISTRIBUTIONS ==>
                r == Ok && distribution == Some(dist) &&
                sent == old(sent) + [Word(SET_DISTRIBUTION, 0, DISTRIBUTIONS[dist])]
    {
      if dist !in DISTRIBUTIONS {
        return ValueError(InvalidDistribution);
      }
      distribution := Some(dist);
      Command(SET_DISTRIBUTION, 0, DISTRIBUTIONS[dist]);
      r := Ok;
    }

    /** Sends all 4096 bins, in ascending bin order, after storing the spectrum. */
    method SetGeneratorSpectrum(weights: seq<uint32>) returns (r: Outcome)
      requires Valid()
      modifies this`spectrum, this`sent
      ensures Valid()
      ensures r != Ok ==> unchanged(this)
      ensures |weights| != NUMBER_OF_GENERATOR_BINS ==> r == ValueError(InvalidSpectrum)
      ensures |weights| == NUMBER_OF_GENERATOR_BINS ==>
                r == Ok && spectrum == Some(weights) && sent == old(sent) + SpectrumWords(weights)
    {
      if |weights| != NUMBER_OF_GENERATOR_BINS {
        return ValueError(InvalidSpectrum);
      }
      spectrum := Some(weights);
      for i := 0 to NUMBER_OF_GENERATOR_BINS
        invariant Valid() && spectrum == Some(weights)
        invariant sent == old(sent) + SpectrumWords(weights)[..i]
      {
        Command(SET_SPECTRUM_BIN, 0, BinValue(i, weights[i]));
        assert SpectrumWords(weights)[..i + 1] == SpectrumWords(weights)[..i] + [SpectrumWords(weights)[i]];
      }
      assert SpectrumWords(weights)[..NUMBER_OF_GENERATOR_BINS] == SpectrumWords(weights);
      r := Ok;
    }

    /** The generic spectrum command is not supported: it raises and sends nothing. */
    method SetSpectrum() returns (r: Outcome)
      ensures r == NotImplementedError
    {
      r := NotImplementedError;
    }

    method ResetSpectrum()
      modifies this`sent
      ensures sent == old(sent) + [Word(RESET_SPECTRUM, 0, 0)]
    {
      Command(RESET_SPECTRUM, 0, 0);
    }

    method StartGenerator()
      modifies this`sent
      ensures sent == old(sent) + [Word(START_GENERATOR, 0, 0)]
    {
      Command(START_GENERATOR, 0, 0);
    }

    method StopGenerator()
      modifies this`sent
      ensures sent == old(sent) + [Word(STOP_GENERATOR, 0, 0)]
    {
      Command(STOP_GENERATOR, 0, 0);
    }

    method ResetOscilloscope()
      modifies this`sent
      ensures sent == old(sent) + [Word(RESET_OSCILLOSCOPE, 0, 0)]
    {
      Command(RESET_OSCILLOSCOPE, 0, 0);
    }

    method StartOscilloscope()
      modifies this`sent
      ensures sent == old(sent) + [Word(START_OSCILLOSCOPE, 0, 0)]
    {
      Command(START_OSCILLOSCOPE, 0, 0);
    }

    // -------------------------------------------------------------------
    // Reading the acquisition stream

    /**
     * One `recv_into(buf[offset:], nbytes)`: the socket delivers between one
     * and nbytes bytes, stores them from `offset` on, and touches nothing else.
     */
    method RecvInto(buf: array<byte>, offset: nat, nbytes: nat) returns (got: nat)
      requires 0 < nbytes <= |incoming| && offset + nbytes <= buf.Length
      modifies this`incoming, buf
      ensures 0 < got <= nbytes
      ensures incoming == old(incoming)[got..]
      ensures buf[..offset] == old(buf[..offset])
      ensures buf[offset..offset + got] == old(incoming)[..got]
      ensures buf[offset + got..] == old(buf[offset + got..])
    {
      got :| 0 < got <= nbytes;
      forall k | offset <= k < offset + got {
        buf[k] := incoming[k - offset];
      }
      incoming := incoming[got..];
    }

    /**
     * The `while bytes_received < count` loop around `recv_into`: it fills
     * exactly buf[offset .. offset + count) with the next `count` bytes of the
     * stream, however the socket splits them.
     */
    method ReceiveExact(buf: array<byte>, offset: nat, count: nat)
      requires count <= |incoming| && offset + count <= buf.Length
      modifies this`incoming, buf
      ensures incoming == old(incoming)[count..]
      ensures buf[..offset] == old(buf[..offset])
      ensures buf[offset..offset + count] == old(incoming)[..count]
      ensures buf[offset + count..] == old(buf[offset + count..])
    {
      var received := 0;
      while received < count
        invariant 0 <= received <= count
        invariant incoming == old(incoming)[received..]
        invariant buf[..offset] == old(buf[..offset])
        invariant buf[offset..offset + received] == old(incoming)[..received]
        invariant buf[offset + received..] == old(buf[offset + received..])
        decreases count - received
      {
        ghost var before := buf[..];
        var got := RecvInto(buf, offset + received, count - received);
        assert buf[offset..offset + received] == before[offset..offset + received];
        assert buf[offset..offset + received + got]
            == buf[offset..offset + received] + buf[offset + received..offset + received + got];
        assert old(incoming)[..received + got] == old(incoming)[..received] + old(incoming)[received..received + got];
        assert buf[offset + received + got..] == before[offset + received + got..];
        assert before[offset + received + got..] == before[offset + received..][got..];
        received := received + got;
      }
    }

    /**
     * The two receive loops for one event: its sample region into
     * buf[offset .. offset + osc), then its padding into the scratch buffer.
     * Nothing else in buf changes.
     */
    method ReceiveEvent(buf: array<byte>, offset: nat)
      requires SizesValid() && totalSamples.Some? && buf != cutView
      requires offset + oscBytes.value <= buf.Length
      requires oscBytes.value + cutBytes.value <= |incoming|
      modifies this`incoming, buf, cutView
      ensures incoming == old(incoming)[oscBytes.value + cutBytes.value..]
      ensures buf[..offset] == old(buf[..offset])
      ensures buf[offset..offset + oscBytes.value] == old(incoming)[..oscBytes.value]
      ensures buf[offset + oscBytes.value..] == old(buf[offset + oscBytes.value..])
    {
      var osc, cut := oscBytes.value, cutBytes.value;
      ReceiveExact(buf, offset, osc);
      ghost var afterSamples := buf[..];
      ReceiveExact(cutView, 0, cut);
      assert buf[..] == afterSamples;
    }

    /**
     * `acquire_set(amount)`: starts an acquisition of `amount` events and
     * returns them as an (amount, 2, N) array; every padding region is read
     * into the scratch buffer and dropped.
     */
    method AcquireSet(amount: nat) returns (result: seq<seq<seq<int>>>)
      requires SizesValid() && totalSamples.Some?
      requires amount * (oscBytes.value + cutBytes.value) <= |incoming|
      modifies this`incoming, this`sent, cutView
      ensures sent == old(sent) + [Word(START_DAQ, 0, amount)]
      ensures incoming == old(incoming)[amount * (oscBytes.value + cutBytes.value)..]
      ensures result == EventArray(SampleRegions(old(incoming), amount, oscBytes.value, cutBytes.value),
                                   totalSamples.value, amount)
    {
      var n := totalSamples.value;
      var view := new byte[2 * (amount * 2 * n)];
      Command(START_DAQ, 0, amount);
      ReceiveSampleRegions(view, amount);
      result := EventArray(view[..], n, amount);
    }

    /**
     * The loop of `acquire_set`: reads `amount` events, placing event i's
     * sample region at byte i·osc of `view` and dropping every padding region.
     */
    method ReceiveSampleRegions(view: array<byte>, amount: nat)
      requires SizesValid() && totalSamples.Some? && view != cutView
      requires view.Length == amount * oscBytes.value
      requires amount * (oscBytes.value + cutBytes.value) <= |incoming|
      modifies this`incoming, view, cutView
      ensures incoming == old(incoming)[amount * (oscBytes.value + cutBytes.value)..]
      ensures view[..] == SampleRegions(old(incoming), amount, oscBytes.value, cutBytes.value)
    {
      var osc, cut := oscBytes.value, cutBytes.value;
      ghost var wire := incoming;
      var offset: nat := 0;
      ghost var start: nat := 0;
      for i := 0 to amount
        invariant offset == i * osc <= view.Length
        invariant start == i * (osc + cut) <= amount * (osc + cut) <= |wire|
        invariant incoming == wire[start..]
        invariant view[..offset] == SampleRegions(wire, i, osc, cut)
      {
        NextEvent(i, amount, osc, cut);
        ghost var before := view[..];
        ReceiveEvent(view, offset);
        DropDrop(wire, start, osc + cut);
        EventAppended(wire, i, osc, cut, before, view[..]);
        offset, start := offset + osc, start + (osc + cut);
      }
      assert view[..] == view[..offset];
    }

    /** `acquire_single(set_size)`: creates the generator; nothing is sent until the first event is pulled. */
    method AcquireSingle(setSize: nat) returns (g: SingleAcquisition)
      requires setSize >= 1
      ensures fresh(g) && g.Valid() && g.daq == this && g.setSize == setSize
      ensures g.pulled == 0 && g.started == 0 && g.pos == 0 && g.buffer == null
    {
      g := new SingleAcquisition(this, setSize);
    }

    /**
     * `list(itertools.islice(acquire_single(set_size), k))`: the first k
     * frames of a new generator. Exactly ⌈k / set_size⌉ "start daq" commands
     * go out, and the frames are those of the next k events of the stream.
     */
    method AcquireFrames(setSize: nat, k: nat) returns (frames: seq<seq<seq<int>>>)
      requires setSize >= 1 && SizesValid() && totalSamples.Some?
      requires k * (oscBytes.value + cutBytes.value) <= |incoming|
      modifies this`incoming, this`sent, cutView
      ensures sent == old(sent) + StartCommands(Bursts(k, setSize), setSize)
      ensures incoming == old(incoming)[k * (oscBytes.value + cutBytes.value)..]
      ensures frames == Frames(old(incoming), k, totalSamples.value, cutBytes.value)
    {
      var g := AcquireSingle(setSize);
      frames := g.Take(k, totalSamples.value, cutBytes.value);
    }
  }

  /**
   * The endless generator returned by `acquire_single`: each pull yields one
   * event as a (2, N) frame, and every `setSize` pulls begin with a fresh
   * "start daq" command for the next burst.
   */
  class SingleAcquisition {
    const daq: Controller
    const setSize: nat
    var pos: nat                 // events already yielded in the current burst
    var buffer: array?<byte>     // the current burst's sample buffer
    ghost var pulled: nat        // events yielded so far
    ghost var started: nat       // "start daq" commands sent so far

    ghost predicate Valid()
      reads this
    {
      setSize >= 1 && pos < setSize && pos == pulled % setSize &&
      started == Bursts(pulled, setSize) &&
      (pos > 0 ==> buffer != null)
    }

    constructor (daq: Controller, setSize: nat)
      requires setSize >= 1
      ensures Valid() && this.daq == daq && this.setSize == setSize
      ensures pulled == 0 && started == 0 && pos == 0 && buffer == null
    {
      this.daq := daq;
      this.setSize := setSize;
      pos, buffer := 0, null;
      pulled, started := 0, 0;
    }

    /**
     * `next(generator)`. The frame is a value, independent of the buffer it
     * was read through. Within a burst the total number of samples must not
     * change, since the buffer was sized when the burst began.
     */
    method Next(ghost n: nat, ghost cut: nat) returns (frame: seq<seq<int>>)
      requires Valid() && daq.SizesValid() && daq.totalSamples == Some(n) && daq.cutBytes == Some(cut)
      requires pos > 0 ==> buffer.Length == SampleBytes(n) && buffer != daq.cutView
      requires SampleBytes(n) + cut <= |daq.incoming|
      modifies this`pos, this`buffer, this`pulled, this`started, buffer, daq`incoming, daq`sent, daq.cutView
      ensures Valid() && pulled == old(pulled) + 1
      ensures started == old(started) + (if old(pos) == 0 then 1 else 0)
      ensures old(pos) == 0 ==> fresh(buffer)
      ensures old(pos) > 0 ==> buffer == old(buffer)
      ensures daq.sent == old(daq.sent) + StartCommands(started - old(started), setSize)
      ensures daq.incoming == old(daq.incoming)[SampleBytes(n) + cut..]
      ensures frame == Frame(old(daq.incoming)[..SampleBytes(n)], n)
      ensures pos > 0 ==> buffer.Length == SampleBytes(n) && buffer != daq.cutView
    {
      var total := daq.totalSamples.value;
      var osc := daq.oscBytes.value;
      if pos == 0 {
        buffer := new byte[2 * (2 * total)];
        daq.Command(START_DAQ, 0, setSize);
        started := started + 1;
        assert StartCommands(1, setSize) == [Word(START_DAQ, 0, setSize)];
      } else {
        assert StartCommands(0, setSize) == [];
      }
      ghost var wire := daq.incoming;
      daq.ReceiveEvent(buffer, 0);
      assert buffer[..] == wire[..osc];
      frame := Frame(buffer[..], total);
      BurstsStep(pulled, setSize);
      pos := (pos + 1) % setSize;
      pulled := pulled + 1;
    }

    /**
     * k pulls in a row. Every burst that begins on the way sends its own
     * "start daq" command, and the frames are those of the next k events.
     */
    method Take(k: nat, ghost n: nat, ghost cut: nat) returns (frames: seq<seq<seq<int>>>)
      requires Valid() && daq.SizesValid() && daq.totalSamples == Some(n) && daq.cutBytes == Some(cut)
      requires pos > 0 ==> buffer.Length == SampleBytes(n) && buffer != daq.cutView
      requires k * (SampleBytes(n) + cut) <= |daq.incoming|
      modifies this`pos, this`buffer, this`pulled, this`started, buffer, daq`incoming, daq`sent, daq.cutView
      ensures Valid() && pulled == old(pulled) + k && started >= old(started)
      ensures daq.sent == old(daq.sent) + StartCommands(started - old(started), setSize)
      ensures daq.incoming == old(daq.incoming)[k * (SampleBytes(n) + cut)..]
      ensures frames == Frames(old(daq.incoming), k, n, cut)
      ensures pos > 0 ==> buffer.Length == SampleBytes(n) && buffer != daq.cutView
      decreases k
    {
      ghost var stride := SampleBytes(n) + cut;
      if k == 0 {
        assert k * stride == 0;
        return [];
      }
      ghost var wire := daq.incoming;
      ghost var started0 := started;
      FramesStep(wire, k, n, cut);
      DropEvents(wire, k, stride);
      var frame := Next(n, cut);
      ghost var started1 := started;
      var rest := Take(k - 1, n, cut);
      frames := [frame] + rest;
      StartCommandsAdd(started1 - started0, started - started1, setSize);
    }
  }
}
