/**
 * The PWM output stage (Core/Inc/regulator.h): `pwmSetDuty` turns a duty
 * cycle into a TIM1 compare value and writes it to the register of the
 * selected channel.
 */
module Pwm {
  import opened Typedefs

  /** enum ePwmChannel: the four TIM1 channels and the current loop's pseudo-channel. */
  datatype Channel = Uc | Ue | Uf | Pump | RegIa

  /** The timer's period in counts: full duty. */
  const FullCount: nat := 65535

  /**
   * Output volts per unit of duty of a high-voltage stage: the converter's
   * ratio times the feedback divider times the 3.3 V reference (the fGain of
   * regulator.c).
   */
  const VoltsPerDuty: real := (6000.0 / 12.0) * (16300.0 / 4300.0) * 3.3

  /**
   * `(uint32_t)(65535.0 * duty)`: truncation toward zero for a positive duty;
   * the double-to-unsigned conversion of the Cortex-M4 runtime gives 0 for
   * negative values and NaN.
   */
  function CompareValue(duty: Float): (r: nat)
    requires !Greater(duty, Some(1.0))
    ensures r <= FullCount
    ensures duty.Some? && duty.value > 0.0 ==>
      (r as real) <= (FullCount as real) * duty.value < (r as real) + 1.0
    ensures duty.None? || duty.value <= 0.0 ==> r == 0
  {
    if duty.None? || duty.value <= 0.0 then 0 else ((FullCount as real) * duty.value).Floor
  }

  /** A larger duty never gives a smaller compare value. */
  lemma CompareMonotone(d1: real, d2: real)
    requires d1 <= d2 <= 1.0
    ensures CompareValue(Some(d1)) <= CompareValue(Some(d2))
  {
    if d1 > 0.0 {
      assert (FullCount as real) * d1 <= (FullCount as real) * d2;
    }
  }

  /** The TIM1 capture/compare registers. */
  class Tim1 {
    var ccr1: nat
    var ccr2: nat
    var ccr3: nat
    var ccr4: nat

    constructor ()
      ensures ccr1 == 0 && ccr2 == 0 && ccr3 == 0 && ccr4 == 0
    {
      ccr1, ccr2, ccr3, ccr4 := 0, 0, 0, 0;
    }

    /** The compare register of a channel: UC→CCR1, UE→CCR2, UF→CCR3, PUMP→CCR4. */
    function Register(ch: Channel): nat
      requires ch != RegIa
      reads this
    {
      match ch
      case Uc => ccr1
      case Ue => ccr2
      case Uf => ccr3
      case Pump => ccr4
    }

    /**
     * pwmSetDuty(): the register of the channel receives Written(old, duty),
     * every other register keeps its value. REG_IA writes nothing.
     */
    method SetDuty(ch: Channel, duty: Float)
      modifies this
      ensures forall c :: c != RegIa ==>
        Register(c) == if c == ch then Written(old(Register(c)), duty) else old(Register(c))
    {
      if Greater(duty, Some(1.0)) {
        return;
      }
      match ch {
        case Uc => ccr1 := CompareValue(duty);
        case Ue => ccr2 := CompareValue(duty);
        case Uf => ccr3 := CompareValue(duty);
        case Pump => ccr4 := CompareValue(duty);
        case RegIa =>
      }
    }

    /**
     * pwmSetVoltManual(): the duty for an output voltage is the voltage over
     * VoltsPerDuty. A voltage in range is reproduced by the register to within
     * one count; a voltage above full scale leaves every register unchanged;
     * the other registers are never touched.
     */
    method SetVoltManual(ch: Channel, voltage: Float)
      modifies this
      ensures forall c :: c != RegIa && c != ch ==> Register(c) == old(Register(c))
      ensures ch != RegIa && voltage.Some? && voltage.value > VoltsPerDuty ==> Register(ch) == old(Register(ch))
      ensures ch != RegIa && voltage.Some? && 0.0 < voltage.value <= VoltsPerDuty ==>
        var r := Register(ch);
        (r as real) * VoltsPerDuty <= (FullCount as real) * voltage.value < ((r + 1) as real) * VoltsPerDuty
      ensures ch != RegIa && (voltage.None? || voltage.value <= 0.0) ==> Register(ch) == 0
    {
      var duty := Scale(voltage, 1.0 / VoltsPerDuty);
      SetDuty(ch, duty);
      if ch != RegIa && voltage.Some? && 0.0 < voltage.value <= VoltsPerDuty {
        ScaledBounds(voltage.value, CompareValue(duty));
      }
    }
  }

  /**
   * A compare register after pwmSetDuty: a duty above 1 is ignored and the
   * register keeps its value; otherwise it receives the duty's compare value.
   */
  function Written(previous: nat, duty: Float): (r: nat)
    ensures r == previous || r <= FullCount
  {
    if Greater(duty, Some(1.0)) then previous else CompareValue(duty)
  }

  /** Multiplying the floor bounds of `65535 * v / VoltsPerDuty` back by VoltsPerDuty. */
  lemma ScaledBounds(v: real, r: nat)
    requires (r as real) <= (FullCount as real) * (v * (1.0 / VoltsPerDuty)) < (r as real) + 1.0
    ensures (r as real) * VoltsPerDuty <= (FullCount as real) * v < ((r + 1) as real) * VoltsPerDuty
  {
    var k := VoltsPerDuty;
    var x := (FullCount as real) * (v * (1.0 / k));
    assert x * k == (FullCount as real) * v;
    assert (r as real) * k <= x * k;
    assert x * k < ((r as real) + 1.0) * k;
  }
}
