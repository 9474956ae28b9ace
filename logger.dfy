/**
 * The extractor-voltage sweep and the data loggers (Core/Src/logger.c): four
 * fixed logs of LOGGER_BUFF_SIZE entries filled by a ramp of the user
 * reference, by a periodic logger and by a high-frequency logger.
 */
module Logger {
  import opened Typedefs

  /** LOGGER_BUFF_SIZE. */
  const BuffSize: nat := 2000
  /** uLogInterval for LOGGER_250ms: one record every 25 ticks of 10 ms. */
  const LogInterval: nat := 25
  /** fStepVolt: the ramp step of the user reference per tick. */
  const StepVolt: real := 0.25
  /** The ramp stops once the user reference reaches this multiple of the limit. */
  const Overdrive: real := 1.1
  /** Number of logs the high-frequency logger fills in turn. */
  const HighFreqBuffers: nat := 4

  /** One ramp step: +0.25 while the reference is below 1.1 times the limit (false with NaN). */
  function Ramp(user: Float, limit: Float): (r: Float)
    ensures Less(user, Scale(limit, Overdrive)) ==> r.Some? && r.value == user.value + StepVolt
    ensures !Less(user, Scale(limit, Overdrive)) ==> r == user
  {
    if Less(user, Scale(limit, Overdrive)) then Shift(user, StepVolt) else user
  }

  /** `n` ramp steps. */
  function RampSteps(user: Float, limit: Float, n: nat): Float
    decreases n
  {
    if n == 0 then user else RampSteps(Ramp(user, limit), limit, n - 1)
  }

  /**
   * Starting from 0 (as sweepUeInit leaves it) the user reference never goes
   * negative and never passes 1.1 times the limit by a full step, however
   * long the sweep lasts.
   */
  lemma {:induction false} RampBounded(user: real, limit: real, n: nat)
    requires 0.0 <= user <= limit * Overdrive + StepVolt
    ensures RampSteps(Some(user), Some(limit), n).Some?
    ensures 0.0 <= RampSteps(Some(user), Some(limit), n).value <= limit * Overdrive + StepVolt
    decreases n
  {
    if n > 0 {
      var next := Ramp(Some(user), Some(limit));
      RampBounded(next.value, limit, n - 1);
    }
  }

  /** With a NaN limit the reference never moves. */
  lemma {:induction false} RampStuckOnNaN(user: Float, n: nat)
    ensures RampSteps(user, None, n) == user
    decreases n
  {
    if n > 0 {
      RampStuckOnNaN(Ramp(user, None), n - 1);
    }
  }

  /** The static state of logger.c. */
  class Logger {
    const logIa: array<Float>
    const logUc: array<Float>
    const logUe: array<Float>
    const logUf: array<Float>
    var index: nat
    var fallingCnt: nat
    var peakCurr: Float
    var peakVolt: Float
    var highFreqBuffNo: nat
    var userBackup: Float
    var intervalCnt: nat

    ghost predicate Valid()
      reads this
    {
      && logIa.Length == BuffSize && logUc.Length == BuffSize
      && logUe.Length == BuffSize && logUf.Length == BuffSize
      && logIa != logUc && logIa != logUe && logIa != logUf
      && logUc != logUe && logUc != logUf && logUe != logUf
      && index <= BuffSize && intervalCnt < LogInterval && peakCurr.Some?
    }

    /** The four logs as values. */
    ghost function Logs(): (seq<Float>, seq<Float>, seq<Float>, seq<Float>)
      reads this, logIa, logUc, logUe, logUf
    {
      (logIa[..], logUc[..], logUe[..], logUf[..])
    }

    /** Zero-initialised static storage. */
    constructor ()
      ensures Valid() && fresh(logIa) && fresh(logUc) && fresh(logUe) && fresh(logUf)
      ensures index == 0 && fallingCnt == 0 && highFreqBuffNo == 0 && intervalCnt == 0
      ensures peakCurr == Some(0.0) && peakVolt == Some(0.0) && userBackup == Some(0.0)
    {
      logIa := new Float[BuffSize](_ => Some(0.0));
      logUc := new Float[BuffSize](_ => Some(0.0));
      logUe := new Float[BuffSize](_ => Some(0.0));
      logUf := new Float[BuffSize](_ => Some(0.0));
      index, fallingCnt, highFreqBuffNo, intervalCnt := 0, 0, 0, 0;
      peakCurr, peakVolt, userBackup := Some(0.0), Some(0.0), Some(0.0);
    }

    /** memset of one log. */
    method Clear(log: array<Float>)
      modifies log
      ensures log[..] == seq(log.Length, _ => Some(0.0))
    {
      var i := 0;
      while i < log.Length
        invariant 0 <= i <= log.Length
        invariant forall k :: 0 <= k < i ==> log[k] == Some(0.0)
      {
        log[i] := Some(0.0);
        i := i + 1;
      }
    }

    /** One record of the four measured quantities at the current index. */
    method Record(m: Regulated)
      requires Valid() && index < BuffSize
      modifies this`index, logIa, logUc, logUe, logUf
      ensures Valid() && index == old(index) + 1
      ensures Logs() == (old(logIa[..])[old(index) := m.anodeCurrent], old(logUc[..])[old(index) := m.cathodeVolt],
                         old(logUe[..])[old(index) := m.extractVolt], old(logUf[..])[old(index) := m.focusVolt])
    {
      logIa[index] := m.anodeCurrent;
      logUc[index] := m.cathodeVolt;
      logUe[index] := m.extractVolt;
      logUf[index] := m.focusVolt;
      index := index + 1;
    }

    /**
     * sweepUeInit(): clears the Ia and Ue logs, saves and zeroes the user
     * reference, zeroes the peaks, the falling count and the index, and
     * starts the sweep.
     */
    method SweepInit(sys: SystemState)
      requires Valid()
      modifies this`index, this`fallingCnt, this`peakCurr, this`peakVolt, this`userBackup
      modifies logIa, logUe, sys`ref, sys`sweepOn
      ensures Valid()
      ensures logIa[..] == seq(BuffSize, _ => Some(0.0)) && logUe[..] == seq(BuffSize, _ => Some(0.0))
      ensures userBackup == old(sys.ref.extractVoltUserRef)
      ensures sys.ref == old(sys.ref).(extractVoltUserRef := Some(0.0))
      ensures fallingCnt == 0 && index == 0 && peakCurr == Some(0.0) && peakVolt == Some(0.0)
      ensures sys.sweepOn
    {
      Clear(logIa);
      Clear(logUe);
      userBackup := sys.ref.extractVoltUserRef;
      sys.ref := sys.ref.(extractVoltUserRef := Some(0.0));
      fallingCnt := 0;
      index := 0;
      peakCurr := Some(0.0);
      peakVolt := Some(0.0);
      sys.sweepOn := true;
    }

    /** loggerInit(): clears the four logs, the index and the high-frequency buffer number. */
    method LoggerInit()
      requires Valid()
      modifies this`index, this`highFreqBuffNo, logIa, logUc, logUe, logUf
      ensures Valid() && index == 0 && highFreqBuffNo == 0
      ensures Logs() == (seq(BuffSize, _ => Some(0.0)), seq(BuffSize, _ => Some(0.0)),
                         seq(BuffSize, _ => Some(0.0)), seq(BuffSize, _ => Some(0.0)))
    {
      Clear(logIa);
      Clear(logUc);
      Clear(logUe);
      Clear(logUf);
      index := 0;
      highFreqBuffNo := 0;
    }

    /**
     * sweepUeExit(): the sweep result is the current measurement with Ia and
     * Ue replaced by the peak on success and by NaN otherwise; the user
     * reference is restored and the sweep stops.
     */
    method SweepExit(sys: SystemState, success: bool)
      modifies sys`sweepResult, sys`ref, sys`sweepOn
      ensures success ==> sys.sweepResult == sys.meas.(anodeCurrent := peakCurr, extractVolt := peakVolt)
      ensures !success ==> sys.sweepResult == sys.meas.(anodeCurrent := None, extractVolt := None)
      ensures sys.ref == old(sys.ref).(extractVoltUserRef := userBackup)
      ensures !sys.sweepOn
    {
      sys.sweepResult := sys.meas;
      if success {
        sys.sweepResult := sys.sweepResult.(anodeCurrent := peakCurr, extractVolt := peakVolt);
      } else {
        sys.sweepResult := sys.sweepResult.(anodeCurrent := None, extractVolt := None);
      }
      sys.ref := sys.ref.(extractVoltUserRef := userBackup);
      sys.sweepOn := false;
    }

    /** What one sweepUePeriod() call does to the logger and the system state. */
    twostate predicate SweptOnce(sys: SystemState)
      requires old(Valid())
      reads this, logIa, logUc, logUe, logUf, sys
    {
      && Valid()
      && peakCurr.value >= old(peakCurr.value)  // the peak never decreases
      && (!(old(sys.sweepOn) && old(sys.ref.extMode) == Sweep) ==>
        && index == old(index) && Logs() == old(Logs()) && sys.ref == old(sys.ref)
        && sys.sweepOn == old(sys.sweepOn) && sys.sweepResult == old(sys.sweepResult)
        && peakCurr == old(peakCurr) && peakVolt == old(peakVolt) && fallingCnt == old(fallingCnt))
      && (old(sys.sweepOn) && old(sys.ref.extMode) == Sweep ==>
        && (old(index) < BuffSize ==>
              && index == old(index) + 1
              && Logs() == (old(logIa[..])[old(index) := sys.meas.anodeCurrent], old(logUc[..])[old(index) := sys.meas.cathodeVolt],
                            old(logUe[..])[old(index) := sys.meas.extractVolt], old(logUf[..])[old(index) := sys.meas.focusVolt]))
        && (old(index) == BuffSize ==> index == old(index) && Logs() == old(Logs()))
        && (Greater(sys.meas.anodeCurrent, old(peakCurr)) ==>
              peakCurr == sys.meas.anodeCurrent && peakVolt == sys.meas.extractVolt && fallingCnt == 0)
        && (!Greater(sys.meas.anodeCurrent, old(peakCurr)) ==>
              peakCurr == old(peakCurr) && peakVolt == old(peakVolt) && fallingCnt == old(fallingCnt) + 1)
        && (Greater(sys.meas.extractVolt, old(sys.ref.extractVoltLimit)) ==>
              !sys.sweepOn && sys.ref == old(sys.ref).(extractVoltUserRef := userBackup)
              && sys.sweepResult == sys.meas.(anodeCurrent := peakCurr, extractVolt := peakVolt))
        && (!Greater(sys.meas.extractVolt, old(sys.ref.extractVoltLimit)) ==>
              sys.sweepOn && sys.sweepResult == old(sys.sweepResult)
              && sys.ref == old(sys.ref).(extractVoltUserRef :=
                   Ramp(old(sys.ref.extractVoltUserRef), old(sys.ref.extractVoltLimit)))))
    }

    /** What one loggerPeriod() call does to the logger and the system state. */
    twostate predicate LoggedOnce(sys: SystemState)
      requires old(Valid())
      reads this, logIa, logUc, logUe, logUf, sys
    {
      && (!old(sys.loggerOn) ==> index == old(index) && intervalCnt == old(intervalCnt)
                                     && Logs() == old(Logs()) && !sys.loggerOn)
      && (old(sys.loggerOn) && old(intervalCnt) + 1 < LogInterval ==>
        intervalCnt == old(intervalCnt) + 1 && index == old(index) && Logs() == old(Logs()) && sys.loggerOn)
      && (old(sys.loggerOn) && old(intervalCnt) + 1 == LogInterval ==> intervalCnt == 0)
      && (old(sys.loggerOn) && old(intervalCnt) + 1 == LogInterval && old(index) < BuffSize ==>
        sys.loggerOn && index == old(index) + 1 && Logs() ==
          (old(logIa[..])[old(index) := sys.meas.anodeCurrent], old(logUc[..])[old(index) := sys.meas.cathodeVolt],
           old(logUe[..])[old(index) := sys.meas.extractVolt], old(logUf[..])[old(index) := sys.meas.focusVolt]))
      && (old(sys.loggerOn) && old(intervalCnt) + 1 == LogInterval && old(index) == BuffSize ==>
        !sys.loggerOn && index == old(index) && Logs() == old(Logs()))
    }

    /**
     * sweepUePeriod(): while a sweep is on in EXT_SWEEP mode, records the
     * measurement if there is room, ramps the user reference, tracks the peak
     * current with the extractor voltage at which it occurred, and ends the
     * sweep successfully once Ue exceeds its limit. Otherwise nothing changes.
     */
    method SweepPeriod(sys: SystemState)
      requires Valid()
      modifies this`index, this`fallingCnt, this`peakCurr, this`peakVolt
      modifies logIa, logUc, logUe, logUf, sys`ref, sys`sweepResult, sys`sweepOn
      ensures Valid()
      ensures SweptOnce(sys)
    {
      if sys.sweepOn && sys.ref.extMode == Sweep {
        if index < BuffSize {
          Record(sys.meas);
        }
        if Less(sys.ref.extractVoltUserRef, Scale(sys.ref.extractVoltLimit, Overdrive)) {
          sys.ref := sys.ref.(extractVoltUserRef := Shift(sys.ref.extractVoltUserRef, StepVolt));
        }
        if Greater(sys.meas.anodeCurrent, peakCurr) {
          peakCurr := sys.meas.anodeCurrent;
          peakVolt := sys.meas.extractVolt;
          fallingCnt := 0;
        } else {
          fallingCnt := fallingCnt + 1;
        }
        if Greater(sys.meas.extractVolt, sys.ref.extractVoltLimit) {
          SweepExit(sys, true);
        }
      }
    }

    /**
     * loggerPeriod(): while logging, every LogInterval-th call records the
     * measurement, or stops the logger once the logs are full.
     */
    method LoggerPeriod(sys: SystemState)
      requires Valid()
      modifies this`index, this`intervalCnt, logIa, logUc, logUe, logUf, sys`loggerOn
      ensures Valid()
      ensures LoggedOnce(sys)
    {
      if sys.loggerOn {
        var cnt := intervalCnt + 1;
        if cnt >= LogInterval {
          intervalCnt := 0;
          if index < BuffSize {
            Record(sys.meas);
          } else {
            sys.loggerOn := false;
          }
        } else {
          intervalCnt := cnt;
        }
      }
    }

    /**
     * loggerHighFreqSample() as built for the low side (LOGGER_LOG_HF_UC):
     * while logging, each call stores Uc into log number highFreqBuffNo; a
     * full log moves on to the next one, and after the fourth the logger stops.
     */
    method HighFreqSample(sys: SystemState)
      requires Valid()
      modifies this`index, this`highFreqBuffNo, logIa, logUc, logUe, logUf, sys`loggerOn
      ensures Valid()
      ensures !old(sys.loggerOn) ==> index == old(index) && highFreqBuffNo == old(highFreqBuffNo)
                                     && Logs() == old(Logs()) && !sys.loggerOn
      ensures old(sys.loggerOn) && old(index) < BuffSize ==> highFreqBuffNo == old(highFreqBuffNo) && sys.loggerOn
      ensures old(sys.loggerOn) && old(index) < BuffSize && old(highFreqBuffNo) < HighFreqBuffers ==>
        index == old(index) + 1 &&
        Logs() == (if old(highFreqBuffNo) == 0 then old(logIa[..])[old(index) := sys.meas.cathodeVolt] else old(logIa[..]),
                   if old(highFreqBuffNo) == 1 then old(logUc[..])[old(index) := sys.meas.cathodeVolt] else old(logUc[..]),
                   if old(highFreqBuffNo) == 2 then old(logUe[..])[old(index) := sys.meas.cathodeVolt] else old(logUe[..]),
                   if old(highFreqBuffNo) == 3 then old(logUf[..])[old(index) := sys.meas.cathodeVolt] else old(logUf[..]))
      ensures old(sys.loggerOn) && old(index) < BuffSize && old(highFreqBuffNo) >= HighFreqBuffers ==>
        index == old(index) && Logs() == old(Logs())
      ensures old(sys.loggerOn) && old(index) == BuffSize ==>
        index == 0 && highFreqBuffNo == old(highFreqBuffNo) + 1 && Logs() == old(Logs())
        && (sys.loggerOn <==> highFreqBuffNo < HighFreqBuffers)
    {
      if sys.loggerOn {
        if index < BuffSize {
          var v := sys.meas.cathodeVolt;
          if highFreqBuffNo == 0 {
            logIa[index] := v;
            index := index + 1;
          } else if highFreqBuffNo == 1 {
            logUc[index] := v;
            index := index + 1;
          } else if highFreqBuffNo == 2 {
            logUe[index] := v;
            index := index + 1;
          } else if highFreqBuffNo == 3 {
            logUf[index] := v;
            index := index + 1;
          }
        } else {
          highFreqBuffNo := highFreqBuffNo + 1;
          index := 0;
          if highFreqBuffNo >= HighFreqBuffers {
            sys.loggerOn := false;
            index := 0;
          }
        }
      }
    }
  }
}
