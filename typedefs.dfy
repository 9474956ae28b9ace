/**
 * Shared types of the firmware (Core/Inc/typedefs.h): the record of regulated
 * quantities and the global `System` structure that the interrupt handlers,
 * the logger, the regulator and the link all read and update in place.
 */
module Typedefs {

  datatype Option<+T> = None | Some(value: T)

  /**
   * A single-precision quantity: `Some(v)` for a finite value `v`, `None` for
   * NaN (the infinities are folded into `None`). Rounding to single precision
   * is not modelled; arithmetic is exact.
   */
  type Float = Option<real>

  /** C's `a > b` on floats: false as soon as one operand is NaN. */
  predicate Greater(a: Float, b: Float)
  {
    a.Some? && b.Some? && a.value > b.value
  }

  /** C's `a < b` on floats: false as soon as one operand is NaN. */
  predicate Less(a: Float, b: Float)
  {
    a.Some? && b.Some? && a.value < b.value
  }

  /** C's `a * k` for a finite constant `k`; NaN propagates. */
  function Scale(a: Float, k: real): Float
  {
    if a.Some? then Some(a.value * k) else None
  }

  /** C's `a + d` for a finite constant `d`; NaN propagates. */
  function Shift(a: Float, d: real): Float
  {
    if a.Some? then Some(a.value + d) else None
  }

  /** enum eExtMode: how the extractor voltage is regulated. */
  datatype ExtMode = RegulateIa | Steady | Sweep

  /** enum eLoggerMode (Core/Inc/logger.h): what the data logger records. */
  datatype LoggerMode = IaUeUf | HfUcSteady | HfUcStartup

  /** tsRegulatedVal: one set of measured or reference quantities. */
  datatype Regulated = Regulated(
    anodeCurrent: Float,
    cathodeVolt: Float,
    focusVolt: Float,
    pumpVolt: Float,
    extractVolt: Float,
    extractVoltUserRef: Float,
    extractVoltIaRef: Float,
    extractVoltLimit: Float,
    anodeCurrentCode: nat,
    extMode: ExtMode,
    loggerMode: LoggerMode)

  /** adsChannelData_t: one decoded ADS131M06 data frame. */
  datatype ChannelData = ChannelData(
    response: bv16,
    channel0: int, channel1: int, channel2: int,
    channel3: int, channel4: int, channel5: int,
    crc: bv16)

  /** Which of the two controllers a build targets (MCU_HIGH or MCU_LOW). */
  datatype Side = High | Low

  /**
   * struct sSystem. `highSideOk` is read by the regulator (regulator.c:86) but
   * is not declared in typedefs.h; here it is the gate that flag stands for.
   */
  class SystemState {
    var meas: Regulated
    var ref: Regulated
    var sweepResult: Regulated
    var communicationOk: bool
    var highSidePowered: bool
    var highSideOk: bool
    var lowBatt: bool
    var sweepOn: bool
    var loggerOn: bool
    var adsReady: bool
    var adsError: bool
    var adsData: ChannelData
    /** The red LED's output pin, shared by the link and the SPI handlers as an error indicator. */
    var redLed: bool

    constructor (meas0: Regulated, ref0: Regulated)
      ensures meas == meas0 && ref == ref0 && sweepResult == meas0
      ensures !communicationOk && !highSidePowered && !highSideOk && !lowBatt
      ensures !sweepOn && !loggerOn && !adsReady && !adsError && !redLed
    {
      meas := meas0;
      ref := ref0;
      sweepResult := meas0;
      communicationOk := false;
      highSidePowered := false;
      highSideOk := false;
      lowBatt := false;
      sweepOn := false;
      loggerOn := false;
      adsReady := false;
      adsError := false;
      adsData := ChannelData(0, 0, 0, 0, 0, 0, 0, 0);
      redLed := false;
    }
  }
}
