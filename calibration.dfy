/**
 * From ADC codes to physical quantities (Core/Src/calibration.c, with the
 * per-instance moving average declared in Core/Inc/calibration.h): linear
 * calibration per channel, the moving-average filter on the anode current,
 * the pump duty map and the debug offset accumulator.
 */
module Calibration {
  import opened Typedefs
  import Communication
  import Pwm

  /** tsCoeff: a channel's gain and offset code. */
  datatype Coeff = Coeff(gain: real, offset: int)

  /** The pump's coefficients, whose offset is a float. */
  datatype PumpCoeff = PumpCoeff(gain: real, offset: real)

  /** 2^23, the full scale of a 24-bit code. */
  const FullScale: real := 8388608.0

  /** Default gains derived from the divider and shunt values (calibration.c:23-27). */
  const UcDefault: real := 1.2 * (100000.0 / 50000.0) * (500000000.0 / 180000.0) / FullScale
  const UeDefault: real := 1.2 * (100000.0 / 24000.0) * (100000000.0 / 76744.2) / FullScale
  const UfDefault: real := 1.2 * (100000.0 / 24000.0) * (100000000.0 / 76744.2) / FullScale
  const IaDefault: real := (-1.0) * 1.2 * (100000.0 / 47000.0) * (1.0 / 51000.0) / FullScale
  const UpDefault: real := 1.0 / Pwm.VoltsPerDuty

  /** A calibrated value: `gain * (raw - offset)`. */
  function Calibrate(raw: int, c: Coeff): (v: real)
  {
    c.gain * ((raw - c.offset) as real)
  }

  /**
   * Calibration is affine: the offset code reads as zero, and a difference of
   * codes scales by the gain.
   */
  lemma CalibrationAffine(c: Coeff, a: int, b: int)
    ensures Calibrate(c.offset, c) == 0.0
    ensures Calibrate(a, c) - Calibrate(b, c) == c.gain * ((a - b) as real)
  {
  }

  /** getPumpDuty(): the duty for a pump voltage, `(v - offset) * gain`. */
  function PumpDuty(v: real, c: PumpCoeff): (d: real)
    ensures c.offset == 0.0 && c.gain == UpDefault ==> d * Pwm.VoltsPerDuty == v
  {
    (v - c.offset) * c.gain
  }

  /** Sum of a sequence of reals, last element last. */
  function Sum(s: seq<real>): real
    decreases |s|
  {
    if |s| == 0 then 0.0 else Sum(s[..|s| - 1]) + s[|s| - 1]
  }

  /** The sum also peels off the first element. */
  lemma {:induction false} SumFront(s: seq<real>)
    requires |s| > 0
    ensures Sum(s) == s[0] + Sum(s[1..])
    decreases |s|
  {
    if |s| > 1 {
      SumFront(s[..|s| - 1]);
      assert s[..|s| - 1][1..] == s[1..][..|s| - 2];
    }
  }

  /** Replacing one element changes the sum by the difference. */
  lemma {:induction false} SumUpdate(s: seq<real>, i: nat, x: real)
    requires i < |s|
    ensures Sum(s[i := x]) == Sum(s) - s[i] + x
    decreases |s|
  {
    if i < |s| - 1 {
      SumUpdate(s[..|s| - 1], i, x);
      assert s[i := x][..|s| - 1] == s[..|s| - 1][i := x];
    } else {
      assert s[i := x][..|s| - 1] == s[..|s| - 1];
    }
  }

  /** A window of equal samples sums to their count times the value. */
  lemma {:induction false} SumConstant(s: seq<real>, c: real)
    requires forall k :: 0 <= k < |s| ==> s[k] == c
    ensures Sum(s) == (|s| as real) * c
    decreases |s|
  {
    if |s| > 0 {
      SumConstant(s[..|s| - 1], c);
    }
  }

  /** Age of buffer slot `j` when the next write goes to `index`: 0 for the oldest sample. */
  function Age(j: nat, index: nat, n: nat): nat
    requires j < n && index < n
  {
    if j >= index then j - index else j - index + n
  }

  /** The last `n` samples of a history. */
  function Window(samples: seq<real>, n: nat): seq<real>
    requires n <= |samples|
  {
    samples[|samples| - n..]
  }

  /** Sliding the window by one sample. */
  lemma SlideWindow(samples: seq<real>, n: nat, x: real)
    requires 0 < n <= |samples|
    ensures Sum(Window(samples + [x], n)) == Sum(Window(samples, n)) - samples[|samples| - n] + x
  {
    var w := Window(samples, n);
    var w2 := Window(samples + [x], n);
    assert w2 == w[1..] + [x];
    assert (w[1..] + [x])[..n - 1] == w[1..];
    SumFront(w);
  }

  /**
   * struct sMovAvg with movAvgInit()/movAvgAddSample(): a circular buffer of
   * the last `size` samples with a running sum, recomputed from the buffer
   * each time the index wraps.
   */
  class MovAvg {
    const size: nat
    const buff: array<real>
    var sum: real
    var index: nat
    /** Every sample since the last init, preceded by `size` zeros. */
    ghost var samples: seq<real>

    ghost predicate Valid()
      reads this, buff
    {
      && size > 0 && buff.Length == size
      && sum == Sum(buff[..])
      && Tracks(buff[..], samples, index)
    }

    /** The filter's output: the mean of the last `size` samples, counting the initial zeros. */
    ghost function Mean(): real
      requires Valid()
      reads this, buff
    {
      Sum(Window(samples, size)) / (size as real)
    }

    constructor (size: nat)
      requires size > 0
      ensures Valid() && this.size == size && fresh(buff)
      ensures sum == 0.0 && index == 0 && buff[..] == seq(size, _ => 0.0)
    {
      this.size := size;
      buff := new real[size](_ => 0.0);
      sum := 0.0;
      index := 0;
      samples := seq(size, _ => 0.0);
      new;
      SumConstant(buff[..], 0.0);
      SumConstant(seq(size, _ => 0.0), 0.0);
    }

    /** movAvgInit(): sum, index and every slot back to zero. */
    method Init()
      requires buff.Length == size && size > 0
      modifies this, buff
      ensures Valid()
      ensures sum == 0.0 && index == 0 && buff[..] == seq(size, _ => 0.0)
    {
      var i := 0;
      while i < size
        invariant 0 <= i <= size
        invariant forall k :: 0 <= k < i ==> buff[k] == 0.0
      {
        buff[i] := 0.0;
        i := i + 1;
      }
      sum := 0.0;
      index := 0;
      samples := seq(size, _ => 0.0);
      assert buff[..] == seq(size, _ => 0.0);
      SumConstant(buff[..], 0.0);
    }

    /**
     * movAvgAddSample(): overwrites the oldest slot with `x`, advances the index
     * modulo the size and returns the mean of the last `size` samples.
     */
    method AddSample(x: real) returns (avg: real)
      requires Valid()
      modifies this, buff
      ensures Valid()
      ensures buff[..] == old(buff[..])[old(index) := x]
      ensures index == if old(index) + 1 < size then old(index) + 1 else 0
      ensures samples == old(samples) + [x]
      ensures avg == Sum(buff[..]) / (size as real)
      ensures avg == Mean()
    {
      TracksStep(buff[..], samples, index, x);
      sum := sum - buff[index];
      buff[index] := x;
      sum := sum + buff[index];
      assert buff[..] == old(buff[..])[old(index) := x];
      samples := samples + [x];
      index := index + 1;
      if index >= size {
        Resum();
        index := 0;
      }
      avg := sum / (size as real);
    }

    /** The recomputation of the running sum from the buffer when the index wraps. */
    method Resum()
      requires buff.Length == size
      modifies this`sum
      ensures sum == Sum(buff[..])
    {
      sum := 0.0;
      var i := 0;
      while i < size
        invariant 0 <= i <= size
        invariant sum == Sum(buff[..i])
      {
        assert buff[..i + 1][..i] == buff[..i];
        sum := sum + buff[i];
        i := i + 1;
      }
      assert buff[..size] == buff[..];
    }
  }

  /**
   * The filter's invariant on a buffer: every slot holds the sample of its
   * age in the history (the oldest at `index`), and the slots sum to the
   * last `|buff|` samples.
   */
  ghost predicate Tracks(buff: seq<real>, samples: seq<real>, index: nat)
  {
    && 0 < |buff| <= |samples| && index < |buff|
    && (forall j :: 0 <= j < |buff| ==> buff[j] == samples[|samples| - |buff| + Age(j, index, |buff|)])
    && Sum(buff) == Sum(Window(samples, |buff|))
  }

  /**
   * Writing sample `x` into the oldest slot and advancing the index keeps the
   * invariant, and changes the sum by the new sample less the oldest one.
   */
  lemma TracksStep(buff: seq<real>, samples: seq<real>, index: nat, x: real)
    requires Tracks(buff, samples, index)
    ensures Tracks(buff[index := x], samples + [x], if index + 1 < |buff| then index + 1 else 0)
    ensures Sum(buff[index := x]) == Sum(buff) - buff[index] + x
  {
    var n := |buff|;
    var after := buff[index := x];
    var next := if index + 1 < n then index + 1 else 0;
    SumUpdate(buff, index, x);
    assert buff[index] == samples[|samples| - n + Age(index, index, n)];
    SlideWindow(samples, n, x);
    forall j | 0 <= j < n
      ensures after[j] == (samples + [x])[|samples| + 1 - n + Age(j, next, n)]
    {
      if j != index {
        assert Age(j, next, n) == Age(j, index, n) - 1;
      }
    }
  }

  /** After `size` equal samples in a row the filter outputs exactly that value. */
  lemma MeanSettles(samples: seq<real>, n: nat, c: real)
    requires 0 < n <= |samples|
    requires forall k :: |samples| - n <= k < |samples| ==> samples[k] == c
    ensures Sum(Window(samples, n)) / (n as real) == c
  {
    SumConstant(Window(samples, n), c);
  }

  /** The coefficient set the sampling routine uses (static variables of calibration.c). */
  class Sampler {
    const side: Side
    var ia: Coeff
    var uc: Coeff
    var ue: Coeff
    var uf: Coeff
    var up: PumpCoeff

    /** The static initialisers of the coefficient variables. */
    constructor (side: Side)
      ensures this.side == side
      ensures uc == Coeff(0.000794728636, 0) && ue == Coeff(0.000776666449, 0) && uf == Coeff(0.000776666449, 0)
      ensures ia == Coeff(-0.00000000000596792451, 0) && up == PumpCoeff(0.000159881019, 0.0)
    {
      this.side := side;
      uc := Coeff(0.000794728636, 0);
      ue := Coeff(0.000776666449, 0);
      uf := Coeff(0.000776666449, 0);
      ia := Coeff(-0.00000000000596792451, 0);
      up := PumpCoeff(0.000159881019, 0.0);
    }

    /** initCoefficients(): the defaults corrected by the measured ratios, and the offset codes. */
    method InitCoefficients()
      modifies this
      ensures ia == Coeff(IaDefault * (10.0 / 9.62), -37850)
      ensures uc == Coeff(UcDefault * (935.0 / 900.0), -29325)
      ensures ue == Coeff(UeDefault * (759.6 / 735.4), -48034)
      ensures uf == Coeff(UfDefault * (734.0 / 708.2), -39380)
      ensures up == PumpCoeff(UpDefault, 0.0)
    {
      ia := Coeff(IaDefault * (10.0 / 9.62), -37850);
      uc := Coeff(UcDefault * (935.0 / 900.0), -29325);
      ue := Coeff(UeDefault * (759.6 / 735.4), -48034);
      uf := Coeff(UfDefault * (734.0 / 708.2), -39380);
      up := PumpCoeff(UpDefault, 0.0);
    }

    /**
     * calcualteSamples(): on the high side channel 0 becomes Ue and channel 1
     * Uf, and the frame is sent when the link is idle; on the low side
     * channel 0 becomes Ia through the moving average and channel 1 Uc.
     */
    method CalculateSamples(sys: SystemState, filter: MovAvg, link: Communication.Link, txOk: bool)
      requires filter.Valid() && link.Valid() && link.side == side
      requires filter.buff as object != link.frame  // two distinct static buffers
      modifies sys`meas, sys`redLed, filter, filter.buff
      modifies link`idle, link`ledSetByComm, link`sent, link.frame
      ensures filter.Valid() && link.Valid()
      ensures side == High ==> sys.meas == old(sys.meas).(
        extractVolt := Some(Calibrate(sys.adsData.channel0, ue)),
        focusVolt := Some(Calibrate(sys.adsData.channel1, uf)))
      ensures side == High ==> filter.samples == old(filter.samples)
      ensures side == High ==> (link.sent == old(link.sent) <==> !old(link.idle) || !txOk)
      ensures side == High && old(link.idle) ==>
        !link.idle && link.frame[0..4] == link.single(sys.meas.extractVolt)
        && link.frame[4..8] == link.single(sys.meas.focusVolt)
      ensures side == High && !old(link.idle) ==> link.frame[..] == old(link.frame[..]) && !link.idle
      ensures side == Low ==> filter.samples == old(filter.samples) + [Calibrate(sys.adsData.channel0, ia)]
      ensures side == Low ==> sys.meas == old(sys.meas).(
        anodeCurrent := Some(filter.Mean()),
        cathodeVolt := Some(Calibrate(sys.adsData.channel1, uc)))
      ensures side == Low ==> link.sent == old(link.sent) && link.frame[..] == old(link.frame[..])
    {
      if side == High {
        sys.meas := sys.meas.(extractVolt := Some(Calibrate(sys.adsData.channel0, ue)),
                              focusVolt := Some(Calibrate(sys.adsData.channel1, uf)));
        var idle := link.IsIdle();
        if idle {
          link.SendResults(sys, txOk);
        }
      } else {
        var avg := filter.AddSample(Calibrate(sys.adsData.channel0, ia));
        sys.meas := sys.meas.(anodeCurrent := Some(avg),
                              cathodeVolt := Some(Calibrate(sys.adsData.channel1, uc)));
      }
    }
  }

  /** After initCoefficients the pump map is the inverse of the pump's divider. */
  lemma PumpDutyAfterInit(v: real)
    ensures PumpDuty(v, PumpCoeff(UpDefault, 0.0)) == v / Pwm.VoltsPerDuty
  {
  }

  /**
   * C's `/` on int32: the quotient truncated toward zero, so the remainder
   * takes the sign of the dividend and is smaller than the divisor.
   */
  function TruncDiv(a: int, b: int): (q: int)
    requires b > 0
    ensures a >= 0 ==> 0 <= a - q * b < b
    ensures a < 0 ==> -b < a - q * b <= 0
  {
    if a >= 0 then a / b else -((-a) / b)
  }

  /** Sum of a sequence of codes. */
  function SumInt(s: seq<int>): int
    decreases |s|
  {
    if |s| == 0 then 0 else SumInt(s[..|s| - 1]) + s[|s| - 1]
  }

  lemma {:induction false} SumIntConstant(n: nat, c: int)
    ensures SumInt(seq(n, _ => c)) == n * c
  {
    if n > 0 {
      assert seq(n, _ => c)[..n - 1] == seq(n - 1, _ => c);
      SumIntConstant(n - 1, c);
    }
  }

  /** The largest int32 value. */
  const Int32Max: int := 0x7FFF_FFFF

  /** A sum of codes whose magnitude is at most m is at most |s| * m in magnitude. */
  lemma {:induction false} SumIntBounded(s: seq<int>, m: nat)
    requires forall k :: 0 <= k < |s| ==> -(m as int) <= s[k] <= m
    ensures -(|s| * m) <= SumInt(s) <= |s| * m
    decreases |s|
  {
    if |s| > 0 {
      SumIntBounded(s[..|s| - 1], m);
      assert |s| * m == (|s| - 1) * m + m;
    }
  }

  /**
   * The int32 sums of calibOffset() stay in range over 10001 samples exactly
   * when the codes are bounded as here: a code magnitude of at most 214726
   * cannot overflow, and 10001 samples of 214727 would.
   */
  lemma OffsetSumsFit(s: seq<int>)
    requires |s| <= SamplesNo + 1
    requires forall k :: 0 <= k < |s| ==> -214726 <= s[k] <= 214726
    ensures -Int32Max <= SumInt(s) <= Int32Max
  {
    SumIntBounded(s, 214726);
    assert |s| * 214726 <= (SamplesNo + 1) * 214726;
  }

  /** 10001 equal codes of 214727 overflow an int32 sum. */
  lemma OffsetSumOverflows()
    ensures SumInt(seq(SamplesNo + 1, _ => 214727)) > Int32Max
  {
    SumIntConstant(SamplesNo + 1, 214727);
  }

  /** samplesNo in calibOffset(). */
  const SamplesNo: nat := 10000

  /** The report of calibOffset() as written: the sum of the 10001 samples seen, divided by 10000. */
  function ReportAsWritten(seen: seq<int>): (avg: int)
    requires |seen| == SamplesNo + 1
  {
    TruncDiv(SumInt(seen), SamplesNo)
  }

  /** The report with the count and the divisor in agreement: the truncated mean of 10000 samples. */
  function ReportCorrected(seen: seq<int>): (avg: int)
    requires |seen| == SamplesNo
  {
    TruncDiv(SumInt(seen), SamplesNo)
  }

  /** As written, a constant offset of 10000 codes is reported as 10001. */
  lemma ConstantOffsetMisreported()
    ensures ReportAsWritten(seq(SamplesNo + 1, _ => 10000)) == 10001
  {
    SumIntConstant(SamplesNo + 1, 10000);
  }

  /** With the corrected count a constant offset is reported exactly, for every code. */
  lemma ConstantOffsetReported(c: int)
    ensures ReportCorrected(seq(SamplesNo, _ => c)) == c
  {
    SumIntConstant(SamplesNo, c);
    if c < 0 {
      assert -(SamplesNo * c) == SamplesNo * (-c);
    }
  }

  /**
   * calibOffset(): accumulates channels 0 and 1; once the counter passes
   * samplesNo both sums are divided by samplesNo, reported and reset.
   */
  class OffsetCalibrator {
    var sum0: int
    var sum1: int
    var index: nat
    /** The samples accumulated since the last report. */
    ghost var seen0: seq<int>
    ghost var seen1: seq<int>

    ghost predicate Valid()
      reads this
    {
      sum0 == SumInt(seen0) && sum1 == SumInt(seen1) && index == |seen0| == |seen1| && index <= SamplesNo
    }

    constructor ()
      ensures Valid() && seen0 == [] && seen1 == []
    {
      sum0, sum1, index := 0, 0, 0;
      seen0, seen1 := [], [];
    }

    /** The routine as written: it reports after samplesNo + 1 samples. */
    method Accumulate(ch0: int, ch1: int) returns (report: Option<(int, int)>)
      requires Valid()
      modifies this
      ensures Valid()
      ensures report.Some? <==> |old(seen0)| == SamplesNo
      ensures report.Some? ==> report.value == (ReportAsWritten(old(seen0) + [ch0]), ReportAsWritten(old(seen1) + [ch1]))
                               && seen0 == [] && seen1 == []
      ensures report.None? ==> seen0 == old(seen0) + [ch0] && seen1 == old(seen1) + [ch1]
    {
      sum0 := sum0 + ch0;
      sum1 := sum1 + ch1;
      index := index + 1;
      seen0 := seen0 + [ch0];
      seen1 := seen1 + [ch1];
      assert seen0[..|seen0| - 1] == old(seen0) && seen1[..|seen1| - 1] == old(seen1);
      if index > SamplesNo {
        report := Some((TruncDiv(sum0, SamplesNo), TruncDiv(sum1, SamplesNo)));
        sum0, sum1, index := 0, 0, 0;
        seen0, seen1 := [], [];
      } else {
        report := None;
      }
    }

    /** The same routine reporting after exactly samplesNo samples. */
    method AccumulateCorrected(ch0: int, ch1: int) returns (report: Option<(int, int)>)
      requires Valid() && index < SamplesNo
      modifies this
      ensures Valid() && index < SamplesNo
      ensures report.Some? <==> |old(seen0)| == SamplesNo - 1
      ensures report.Some? ==> report.value == (ReportCorrected(old(seen0) + [ch0]), ReportCorrected(old(seen1) + [ch1]))
                               && seen0 == [] && seen1 == []
      ensures report.None? ==> seen0 == old(seen0) + [ch0] && seen1 == old(seen1) + [ch1]
    {
      sum0 := sum0 + ch0;
      sum1 := sum1 + ch1;
      index := index + 1;
      seen0 := seen0 + [ch0];
      seen1 := seen1 + [ch1];
      assert seen0[..|seen0| - 1] == old(seen0) && seen1[..|seen1| - 1] == old(seen1);
      if index >= SamplesNo {
        report := Some((TruncDiv(sum0, SamplesNo), TruncDiv(sum1, SamplesNo)));
        sum0, sum1, index := 0, 0, 0;
        seen0, seen1 := [], [];
      } else {
        report := None;
      }
    }
  }
}
