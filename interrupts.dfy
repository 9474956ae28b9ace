/**
 * The interrupt handlers of Core/Src/stm32l4xx_it.c, each one atomic step on
 * the system state: the SysTick link watchdog, the 10 ms timer dispatch, the
 * EXTI routing, and the SPI completion and error callbacks of the interrupt
 * and DMA builds with the `bLedSetBySPI` latch.
 */
module Interrupts {
  import opened Typedefs
  import Pwm
  import Regulator
  import Logger
  import Calibration
  import Communication
  import Ads131

  // ---------------------------------------------------------------- SysTick watchdog

  /** One SysTick on the link watchdog `commWatchdog` and `bCommunicationOk`. */
  function Tick(watchdog: int, ok: bool): (int, bool)
  {
    if watchdog > 0 then (watchdog - 1, ok) else (watchdog, false)
  }

  /** The watchdog and the link flag after `n` SysTicks with no reload. */
  function AfterTicks(watchdog: int, ok: bool, n: nat): (int, bool)
    decreases n
  {
    if n == 0 then (watchdog, ok)
    else
      var next := Tick(watchdog, ok);
      AfterTicks(next.0, next.1, n - 1)
  }

  /**
   * Counting down from a non-negative `watchdog`, the counter never goes
   * below 0 and reaches it after `watchdog` ticks; the link is reported
   * lost on the first tick that finds the counter at 0 and stays lost.
   */
  lemma {:induction false} WatchdogCountdown(watchdog: int, ok: bool, n: nat)
    requires watchdog >= 0
    ensures AfterTicks(watchdog, ok, n).0 == if n <= watchdog then watchdog - n else 0
    ensures AfterTicks(watchdog, ok, n).1 == (ok && n <= watchdog)
    decreases n
  {
    if n > 0 {
      var next := Tick(watchdog, ok);
      WatchdogCountdown(next.0, next.1, n - 1);
    }
  }

  // ---------------------------------------------------------------- EXTI routing

  /** The EXTI lines of main.h: GPIO_PIN_4, GPIO_PIN_0 and GPIO_PIN_2. */
  const DrdyPin: nat := 0x0010
  const EncChaPin: nat := 0x0001
  const EncSwPin: nat := 0x0004

  /** What HAL_GPIO_EXTI_Callback() sets off for a pin. */
  datatype ExtiAction = StartAdsRead | KnobTurn | KnobPress | NoAction

  /**
   * HAL_GPIO_EXTI_Callback() in the interrupt and DMA builds: data-ready
   * starts the converter read only while the converter is ready; the encoder
   * pins reach their callbacks; any other pin does nothing.
   */
  function Route(pin: nat, adsReady: bool): (a: ExtiAction)
    ensures a == StartAdsRead <==> pin == DrdyPin && adsReady
    ensures a == KnobTurn <==> pin == EncChaPin
    ensures a == KnobPress <==> pin == EncSwPin
  {
    if pin == DrdyPin then (if adsReady then StartAdsRead else NoAction)
    else if pin == EncChaPin then KnobTurn
    else if pin == EncSwPin then KnobPress
    else NoAction
  }

  // ---------------------------------------------------------------- 10 ms timer

  /** Which of the two state machines a timer tick runs. */
  datatype TickTask = SweepTask | LoggerTask | NoTask

  /** The sweep runs while it is on; otherwise the periodic logger runs in its own logger mode. */
  function TickDispatch(sweepOn: bool, loggerMode: LoggerMode): (t: TickTask)
    ensures t == SweepTask <==> sweepOn
    ensures t == LoggerTask <==> !sweepOn && loggerMode == IaUeUf
  {
    if sweepOn then SweepTask
    else if loggerMode == IaUeUf then LoggerTask
    else NoTask
  }

  /** The handlers' own state and the modules they drive. */
  class Handlers {
    const side: Side
    /** commWatchdog: the SysTick count left until the link is declared lost. */
    var commWatchdog: int
    /** bLedSetBySPI: the red LED was switched on by a failed converter read. */
    var ledSetBySpi: bool
    const ads: Ads131.Ads
    const sampler: Calibration.Sampler
    const filter: Calibration.MovAvg
    const link: Communication.Link
    const logger: Logger.Logger
    const regulator: Regulator.Regulator
    const tim: Pwm.Tim1

    constructor (side: Side, ads: Ads131.Ads, sampler: Calibration.Sampler, filter: Calibration.MovAvg,
                 link: Communication.Link, logger: Logger.Logger, regulator: Regulator.Regulator, tim: Pwm.Tim1)
      ensures this.side == side && this.ads == ads && this.sampler == sampler && this.filter == filter
      ensures this.link == link && this.logger == logger && this.regulator == regulator && this.tim == tim
      ensures commWatchdog == 0 && !ledSetBySpi
    {
      this.side := side;
      this.ads := ads;
      this.sampler := sampler;
      this.filter := filter;
      this.link := link;
      this.logger := logger;
      this.regulator := regulator;
      this.tim := tim;
      commWatchdog := 0;
      ledSetBySpi := false;
    }

    /**
     * SysTick_Handler(): counts the watchdog down while it is positive;
     * once it is not, the link is marked lost.
     */
    method SysTick(sys: SystemState)
      modifies this`commWatchdog, sys`communicationOk
      ensures (commWatchdog, sys.communicationOk) == Tick(old(commWatchdog), old(sys.communicationOk))
      ensures old(commWatchdog) >= 0 ==> commWatchdog >= 0
    {
      if commWatchdog > 0 {
        commWatchdog := commWatchdog - 1;
      } else {
        sys.communicationOk := false;
      }
    }

    /**
     * HAL_TIM_PeriodElapsedCallback(): the sweep or else the periodic logger
     * (never both), then the regulators, which see the reference as the
     * sweep left it.
     */
    method TimerTick(sys: SystemState) returns (task: TickTask)
      requires logger.Valid()
      modifies logger`index, logger`fallingCnt, logger`peakCurr, logger`peakVolt, logger`intervalCnt
      modifies logger.logIa, logger.logUc, logger.logUe, logger.logUf
      modifies sys`ref, sys`sweepResult, sys`sweepOn, sys`loggerOn, regulator, tim
      ensures logger.Valid()
      ensures task == TickDispatch(old(sys.sweepOn), old(sys.ref.loggerMode))
      ensures task != SweepTask ==>
        && sys.ref == old(sys.ref) && sys.sweepResult == old(sys.sweepResult) && sys.sweepOn == old(sys.sweepOn)
        && logger.peakCurr == old(logger.peakCurr) && logger.fallingCnt == old(logger.fallingCnt)
      ensures task != LoggerTask ==> logger.intervalCnt == old(logger.intervalCnt) && sys.loggerOn == old(sys.loggerOn)
      ensures task == NoTask ==> logger.index == old(logger.index) && logger.Logs() == old(logger.Logs())
      ensures task == SweepTask ==> logger.SweptOnce(sys)
      ensures task == LoggerTask ==> logger.LoggedOnce(sys)
      ensures regulator.calls == old(regulator.calls) + Regulator.TickCalls(sys.meas, sys.ref, sys.highSideOk)
      ensures tim.Register(Pwm.Pump) == old(tim.Register(Pwm.Pump))
    {
      task := TickDispatch(sys.sweepOn, sys.ref.loggerMode);
      if sys.sweepOn {
        logger.SweepPeriod(sys);
      } else if sys.ref.loggerMode == IaUeUf {
        logger.LoggerPeriod(sys);
      }
      regulator.PeriodCallback(sys, tim);
    }

    /**
     * The success branch of HAL_SPI_TxRxCpltCallback(): the samples are
     * computed (on the high side, calcualteSamples also sends them when the
     * link is idle, which leaves it busy, so the handler's own idle check
     * after it never sends a second frame) and a latched red LED is switched
     * off.
     */
    method Processed(sys: SystemState, txOk: bool)
      requires filter.Valid() && link.Valid() && sampler.side == side && link.side == side
      requires filter.buff as object != link.frame
      modifies this`ledSetBySpi, sys`meas, sys`redLed, filter, filter.buff
      modifies link`idle, link`ledSetByComm, link`sent, link.frame
      ensures filter.Valid() && link.Valid()
      ensures !ledSetBySpi && (old(ledSetBySpi) ==> !sys.redLed)
      ensures side == High ==>
        && sys.meas == old(sys.meas).(extractVolt := Some(Calibration.Calibrate(sys.adsData.channel0, sampler.ue)),
                                      focusVolt := Some(Calibration.Calibrate(sys.adsData.channel1, sampler.uf)))
        && (link.sent == old(link.sent) <==> !old(link.idle) || !txOk) && !link.idle
      ensures side == Low ==>
        && filter.samples == old(filter.samples) + [Calibration.Calibrate(sys.adsData.channel0, sampler.ia)]
        && sys.meas == old(sys.meas).(anodeCurrent := Some(filter.Mean()),
                                      cathodeVolt := Some(Calibration.Calibrate(sys.adsData.channel1, sampler.uc)))
        && link.sent == old(link.sent)
    {
      sampler.CalculateSamples(sys, filter, link, txOk);
      if ledSetBySpi {
        sys.redLed := false;
        ledSetBySpi := false;
      }
    }

    /**
     * The failure branch: the high side switches the red LED on and latches
     * it; the low side only reports the error.
     */
    method Failed(sys: SystemState)
      modifies this`ledSetBySpi, sys`redLed
      ensures side == High ==> ledSetBySpi && sys.redLed
      ensures side == Low ==> ledSetBySpi == old(ledSetBySpi) && sys.redLed == old(sys.redLed)
    {
      if side == High {
        sys.redLed := true;
        ledSetBySpi := true;
      }
    }

    /** The branch of HAL_SPI_TxRxCpltCallback() on the outcome of the read. */
    method AfterRead(sys: SystemState, txOk: bool, success: bool)
      requires filter.Valid() && link.Valid() && sampler.side == side && link.side == side
      requires filter.buff as object != link.frame
      modifies this`ledSetBySpi, sys`meas, sys`redLed, filter, filter.buff
      modifies link`idle, link`ledSetByComm, link`sent, link.frame
      ensures filter.Valid() && link.Valid()
      ensures success ==> !ledSetBySpi && (old(ledSetBySpi) ==> !sys.redLed)
      ensures success && side == High ==>
        && sys.meas == old(sys.meas).(extractVolt := Some(Calibration.Calibrate(sys.adsData.channel0, sampler.ue)),
                                      focusVolt := Some(Calibration.Calibrate(sys.adsData.channel1, sampler.uf)))
        && (link.sent == old(link.sent) <==> !old(link.idle) || !txOk)
      ensures success && side == Low ==>
        && filter.samples == old(filter.samples) + [Calibration.Calibrate(sys.adsData.channel0, sampler.ia)]
        && sys.meas == old(sys.meas).(anodeCurrent := Some(filter.Mean()),
                                      cathodeVolt := Some(Calibration.Calibrate(sys.adsData.channel1, sampler.uc)))
      ensures !success ==>
        && sys.meas == old(sys.meas) && filter.samples == old(filter.samples) && link.sent == old(link.sent)
        && (side == High ==> ledSetBySpi && sys.redLed)
        && (side == Low ==> ledSetBySpi == old(ledSetBySpi) && sys.redLed == old(sys.redLed))
    {
      if success {
        Processed(sys, txOk);
      } else {
        Failed(sys);
      }
    }

    /**
     * HAL_SPI_TxRxCpltCallback() as written: the data frame is decoded, then
     * the callback's result, which is true on a CRC error, is taken as
     * success. The callback always returns false, so the samples are never
     * computed, and on the high side every read switches the red LED on.
     */
    method SpiTxRxCompleteAsWritten(sys: SystemState, txOk: bool)
      requires ads.Valid() && filter.Valid() && link.Valid() && sampler.side == side && link.side == side
      requires filter.buff as object != link.frame && ads.dataRx != link.frame && ads.dataRx as object != filter.buff
      modifies this`ledSetBySpi, sys`adsData, sys`meas, sys`redLed, filter, filter.buff
      modifies link`idle, link`ledSetByComm, link`sent, link.frame
      ensures sys.adsData == Ads131.Parse(ads.dataRx[..])
      ensures sys.meas == Ads131.DriverReadings(old(sys.meas), sys.adsData)
      ensures filter.samples == old(filter.samples) && link.sent == old(link.sent)
      ensures side == High ==> ledSetBySpi && sys.redLed
    {
      var crcError := ads.ReadDataCallback(sys);
      ghost var data := sys.adsData;
      ghost var meas := sys.meas;
      ghost var rx := ads.dataRx[..];
      assert data == Ads131.Parse(rx);
      // `true == adsReadDataITcallback(...)` is the success test
      AfterRead(sys, txOk, crcError);
      assert sys.adsData == data && sys.meas == meas;
      assert ads.dataRx[..] == rx;
    }

    /**
     * HAL_SPI_TxRxCpltCallback() with the callback's result read as the CRC
     * error it reports: every decoded frame is turned into samples and a
     * latched red LED is cleared.
     */
    method SpiTxRxComplete(sys: SystemState, txOk: bool)
      requires ads.Valid() && filter.Valid() && link.Valid() && sampler.side == side && link.side == side
      requires filter.buff as object != link.frame && ads.dataRx != link.frame && ads.dataRx as object != filter.buff
      modifies this`ledSetBySpi, sys`adsData, sys`meas, sys`redLed, filter, filter.buff
      modifies link`idle, link`ledSetByComm, link`sent, link.frame
      ensures filter.Valid() && link.Valid()
      ensures sys.adsData == Ads131.Parse(ads.dataRx[..])
      ensures !ledSetBySpi && (old(ledSetBySpi) ==> !sys.redLed)
      ensures side == High ==>
        && sys.meas.extractVolt == Some(Calibration.Calibrate(sys.adsData.channel0, sampler.ue))
        && sys.meas.focusVolt == Some(Calibration.Calibrate(sys.adsData.channel1, sampler.uf))
        && sys.meas.anodeCurrent == Some(Ads131.DriverIaGain * (sys.adsData.channel0 as real))
        && (link.sent == old(link.sent) <==> !old(link.idle) || !txOk)
      ensures side == Low ==>
        && filter.samples == old(filter.samples) + [Calibration.Calibrate(sys.adsData.channel0, sampler.ia)]
        && sys.meas.anodeCurrent == Some(filter.Mean())
        && sys.meas.cathodeVolt == Some(Calibration.Calibrate(sys.adsData.channel1, sampler.uc))
    {
      var crcError := ads.ReadDataCallback(sys);
      ghost var data := sys.adsData;
      ghost var meas := sys.meas;
      ghost var rx := ads.dataRx[..];
      assert data == Ads131.Parse(rx);
      AfterRead(sys, txOk, !crcError);
      assert ads.dataRx[..] == rx;
      assert sys.adsData == data && (side == High ==> sys.meas.anodeCurrent == meas.anodeCurrent);
    }

    /**
     * HAL_SPI_ErrorCallback(): the red LED is switched on and latched as set
     * by the SPI path.
     */
    method SpiError(sys: SystemState)
      modifies this`ledSetBySpi, sys`redLed
      ensures ledSetBySpi && sys.redLed
    {
      sys.redLed := true;
      ledSetBySpi := true;
    }
  }
}
