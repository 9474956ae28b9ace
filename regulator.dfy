/**
 * The voltage regulators (Core/Src/regulator.c): three PID loops driven every
 * 10 ms. The PID library itself is not part of this model: each loop is
 * represented by the calls made on it, and the library's output is an
 * arbitrary function of those calls.
 */
module Regulator {
  import opened Typedefs
  import Pwm

  /** The three loops of regulator.c: pidUc, pidUe, pidUf. */
  datatype Loop = LoopUc | LoopUe | LoopUf

  datatype Mode = Manual | Automatic
  datatype Direction = Direct | Reverse

  /** The arguments of PIDInit. */
  datatype PidParams = PidParams(kp: real, ki: real, kd: real, period: real,
                                 outMin: real, outMax: real, mode: Mode, direction: Direction)

  /** One call into the PID library. */
  datatype PidCall =
    | PidInit(loop: Loop, params: PidParams)
    | PidInputSet(loop: Loop, value: Float)
    | PidSetpointSet(loop: Loop, value: Float)
    | PidCompute(loop: Loop)

  /** PID_PERIOD: 10 ms. */
  const Period: real := 0.01
  /** PID_OUT_MIN. */
  const OutMin: real := 0.0

  const UcParams: PidParams := PidParams(0.00002025, 0.009, 0.0, Period, OutMin, 0.9, Automatic, Reverse)
  const UeParams: PidParams := PidParams(0.01, 0.01, 0.0, Period, OutMin, 0.5, Manual, Direct)
  const UfParams: PidParams := PidParams(0.01, 0.01, 0.0, Period, OutMin, 0.9, Manual, Direct)

  /** The PWM channel a loop drives. */
  function ChannelOf(loop: Loop): Pwm.Channel
  {
    match loop
    case LoopUc => Pwm.Uc
    case LoopUe => Pwm.Ue
    case LoopUf => Pwm.Uf
  }

  /** The three calls that run one loop for one tick, ending in its computation. */
  function LoopStep(loop: Loop, input: Float, setpoint: Float): (r: seq<PidCall>)
    ensures |r| == 3
    ensures r[0] == PidInputSet(loop, input) && r[1] == PidSetpointSet(loop, setpoint) && r[2] == PidCompute(loop)
    ensures forall c :: c in r ==> c.loop == loop
  {
    [PidInputSet(loop, input), PidSetpointSet(loop, setpoint), PidCompute(loop)]
  }

  /**
   * The calls of one regulatorPeriodCallback(): the cathode loop always, then
   * the extractor and focus loops only when the high side is ok, in that order.
   */
  function TickCalls(meas: Regulated, ref: Regulated, highSideOk: bool): (r: seq<PidCall>)
    ensures |r| == if highSideOk then 9 else 3
    ensures r[2] == PidCompute(LoopUc)
    ensures highSideOk ==> r[5] == PidCompute(LoopUe) && r[8] == PidCompute(LoopUf)
    ensures forall i :: 0 <= i < |r| ==> (r[i].loop == LoopUc <==> i < 3)
    ensures highSideOk ==> forall i :: 3 <= i < |r| ==> (r[i].loop == LoopUe <==> i < 6)
    ensures r[..3] == [PidInputSet(LoopUc, meas.cathodeVolt), PidSetpointSet(LoopUc, ref.cathodeVolt), PidCompute(LoopUc)]
  {
    LoopStep(LoopUc, meas.cathodeVolt, ref.cathodeVolt)
    + if highSideOk
      then LoopStep(LoopUe, meas.extractVolt, ref.extractVolt) + LoopStep(LoopUf, meas.focusVolt, ref.focusVolt)
      else []
  }

  /** The calls of regulatorInit(). */
  function InitCalls(ref: Regulated): (r: seq<PidCall>)
    ensures |r| == 6
    ensures forall i :: 0 <= i < 3 ==> r[i].PidInit?
    ensures r[3..] == [PidSetpointSet(LoopUc, ref.cathodeVolt), PidSetpointSet(LoopUe, ref.extractVolt),
                       PidSetpointSet(LoopUf, ref.focusVolt)]
  {
    [PidInit(LoopUc, UcParams), PidInit(LoopUe, UeParams), PidInit(LoopUf, UfParams),
     PidSetpointSet(LoopUc, ref.cathodeVolt), PidSetpointSet(LoopUe, ref.extractVolt), PidSetpointSet(LoopUf, ref.focusVolt)]
  }

  /**
   * The three PID objects. `output(loop, calls)` stands for PIDOutputGet: the
   * library's output after the calls made so far.
   */
  class Regulator {
    const output: (Loop, seq<PidCall>) -> Float
    var calls: seq<PidCall>

    constructor (output: (Loop, seq<PidCall>) -> Float)
      ensures this.output == output && calls == []
    {
      this.output := output;
      calls := [];
    }

    /** The parameters a loop was last initialised with. */
    function Params(loop: Loop): (p: Option<PidParams>)
      reads this
    {
      LastInit(calls, loop)
    }

    /**
     * regulatorInit(): initialises the three loops with their gains, limits,
     * mode and direction, then takes each setpoint from the reference.
     */
    method Init(sys: SystemState)
      modifies this
      ensures calls == old(calls) + InitCalls(sys.ref)
      ensures Params(LoopUc) == Some(UcParams) && Params(LoopUe) == Some(UeParams) && Params(LoopUf) == Some(UfParams)
    {
      calls := calls + InitCalls(sys.ref);
      var p1 := old(calls) + [PidInit(LoopUc, UcParams)];
      var p2 := p1 + [PidInit(LoopUe, UeParams)];
      var p3 := p2 + [PidInit(LoopUf, UfParams)];
      assert p3[..|p3| - 1] == p2 && p2[..|p2| - 1] == p1;
      assert LastInit(p2, LoopUc) == LastInit(p1, LoopUc) == Some(UcParams);
      assert LastInit(p3, LoopUc) == LastInit(p2, LoopUc);
      assert LastInit(p3, LoopUe) == LastInit(p2, LoopUe) == Some(UeParams);
      assert calls == p3 + InitCalls(sys.ref)[3..];
      LastInitSkips(p3, InitCalls(sys.ref)[3..]);
    }

    /**
     * regulatorPeriodCallback(): runs the loops in the order of TickCalls and
     * writes each loop's output to its PWM channel right after computing it;
     * without the high side the Ue and Uf channels are untouched.
     */
    method PeriodCallback(sys: SystemState, tim: Pwm.Tim1)
      modifies this, tim
      ensures calls == old(calls) + TickCalls(sys.meas, sys.ref, sys.highSideOk)
      ensures Params(LoopUc) == old(Params(LoopUc)) && Params(LoopUe) == old(Params(LoopUe))
      ensures Params(LoopUf) == old(Params(LoopUf))
      ensures tim.Register(Pwm.Uc) ==
              Pwm.Written(old(tim.Register(Pwm.Uc)), output(LoopUc, old(calls) + TickCalls(sys.meas, sys.ref, false)))
      ensures !sys.highSideOk ==>
              tim.Register(Pwm.Ue) == old(tim.Register(Pwm.Ue)) && tim.Register(Pwm.Uf) == old(tim.Register(Pwm.Uf))
      ensures sys.highSideOk ==>
              && tim.Register(Pwm.Ue) == Pwm.Written(old(tim.Register(Pwm.Ue)),
                                                     output(LoopUe, old(calls) + TickCalls(sys.meas, sys.ref, true)[..6]))
              && tim.Register(Pwm.Uf) == Pwm.Written(old(tim.Register(Pwm.Uf)),
                                                     output(LoopUf, old(calls) + TickCalls(sys.meas, sys.ref, true)))
      ensures tim.Register(Pwm.Pump) == old(tim.Register(Pwm.Pump))
    {
      ghost var start := calls;
      RunLoop(LoopUc, sys.meas.cathodeVolt, sys.ref.cathodeVolt, tim);
      assert TickCalls(sys.meas, sys.ref, false) == LoopStep(LoopUc, sys.meas.cathodeVolt, sys.ref.cathodeVolt) + [];
      if sys.highSideOk {
        RunLoop(LoopUe, sys.meas.extractVolt, sys.ref.extractVolt, tim);
        RunLoop(LoopUf, sys.meas.focusVolt, sys.ref.focusVolt, tim);
        assert start + TickCalls(sys.meas, sys.ref, true)[..6]
            == start + LoopStep(LoopUc, sys.meas.cathodeVolt, sys.ref.cathodeVolt)
                     + LoopStep(LoopUe, sys.meas.extractVolt, sys.ref.extractVolt);
        assert calls == start + TickCalls(sys.meas, sys.ref, true);
      } else {
        assert calls == start + TickCalls(sys.meas, sys.ref, false);
      }
    }

    /** One loop's input, setpoint, computation and PWM write. */
    method RunLoop(loop: Loop, input: Float, setpoint: Float, tim: Pwm.Tim1)
      modifies this, tim
      ensures calls == old(calls) + LoopStep(loop, input, setpoint)
      ensures forall l :: Params(l) == old(Params(l))
      ensures forall c :: c != Pwm.RegIa ==>
        tim.Register(c) == if c == ChannelOf(loop) then Pwm.Written(old(tim.Register(c)), output(loop, calls))
                           else old(tim.Register(c))
    {
      calls := calls + LoopStep(loop, input, setpoint);
      forall l
        ensures Params(l) == old(Params(l))
      {
        LastInitSkips(old(calls), LoopStep(loop, input, setpoint));
      }
      tim.SetDuty(ChannelOf(loop), output(loop, calls));
    }
  }

  /** The parameters of the last Init call on a loop, if any. */
  function LastInit(calls: seq<PidCall>, loop: Loop): Option<PidParams>
    decreases |calls|
  {
    if |calls| == 0 then None
    else if calls[|calls| - 1].PidInit? && calls[|calls| - 1].loop == loop then Some(calls[|calls| - 1].params)
    else LastInit(calls[..|calls| - 1], loop)
  }

  /** Calls other than Init leave every loop's parameters as they were. */
  lemma {:induction false} LastInitSkips(calls: seq<PidCall>, more: seq<PidCall>)
    requires forall c :: c in more ==> !c.PidInit?
    ensures forall l :: LastInit(calls + more, l) == LastInit(calls, l)
    decreases |more|
  {
    if |more| > 0 {
      var front := more[..|more| - 1];
      assert (calls + more)[..|calls + more| - 1] == calls + front;
      LastInitSkips(calls, front);
    } else {
      assert calls + more == calls;
    }
  }
}
