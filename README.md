# uScope high-voltage supply firmware — a Dafny model

The uScope high-voltage supply is controlled by two STM32L4 controllers.
MCU_LOW sits on the grounded side. It drives the cathode and the anode-current
loop. MCU_HIGH floats at high voltage and measures the extractor and focus
voltages. Each one reads an ADS131M06 converter over SPI. The high side sends
its two readings to the low side over a UART, in a frame protected by a CRC-8.
The low side runs PID regulators every 10 ms. It also runs a sweep of the
extractor voltage and data loggers, keeps its configuration in flash (guarded
by the same CRC-8), and shows its state on an HD44780 character LCD through a
PCF8574 I2C backpack.

This project models the logic of that firmware, one Dafny module per source
file:

- `Typedefs` holds `tsRegulatedVal` and the global `System` record, as a class
  whose fields the handlers update. A measured quantity is an `Option<real>`,
  where `None` stands for NaN.
- `Crc8` is the Dallas/Maxim CRC-8 of `communication.c` and `utilities.c`.
- `Communication` models the frame sender, the byte-accumulating receiver
  with its CRC gate, and the abort/restart rule.
- `Calibration` models the linear calibration, the per-instance moving
  average, the sampling routine and the offset averager.
- `Logger` models the extractor sweep and the two loggers.
- `Pwm` models `pwmSetDuty` and `pwmSetVoltManual`.
- `Regulator` models the wiring of the three PID loops. The PID library is
  represented only by the calls made on it.
- `Utilities` models the flash configuration store.
- `Interrupts` models the SysTick watchdog, the timer dispatch, the EXTI
  routing, and the SPI completion and error callbacks with the red-LED latch.
- `Ads131` is the codec part of the converter driver: bytes and words, 24-bit
  sign extension, the MSB-first CRC-16, the SPI frame builder, the MODE
  register enforcement, the register shadow map and the data-frame parser.
- `Hd44780` holds what the two LCD drivers share: the 4-byte nibble encoding,
  DDRAM addresses, cursor clamping, `Puts` and the control flags.
- `LcdI2c` models the interrupt-driven driver, with its ring buffer.
- `LcdDma` models the DMA driver, with its append buffer.

Each interrupt handler is one atomic step on the objects it touches.
Hardware outcomes are method parameters: HAL return codes, the bytes the
converter sends, and what the flash HAL does.

## Model

| member | source | states |
|---|---|---|
| Crc8.Compute | Core/Src/communication.c:46-66 | the byte loop with its 8-step inner loop returns Checksum(data): seed 0, LSB first, 0x8C applied when the low bit of crc^data is 1 (the same routine as Core/Src/utilities.c:201-221) |
| Crc8.UpdateAppend | Core/Src/communication.c:52-64 | feeding a then b is feeding a+b, so the CRC can be continued across blocks |
| Crc8.Residue | Core/Src/communication.c:260 | data followed by its own CRC-8 checks to 0 |
| Crc8.UpdateInjective | Core/Src/communication.c:52-64 | distinct registers stay distinct over the same bytes: each step is a bijection |
| Crc8.SingleByteErrorDetected | Core/Src/utilities.c:289-291 | changing any one byte of a block changes its CRC-8 |
| Float32.Decode | Core/Src/communication.c:278-284 | the float a little-endian binary32 image holds: None exactly for exponent 255 (NaN or infinity); a negative value has the sign bit set and a positive one has it clear |
| Float32.Magnitude | Core/Src/communication.c:278-284 | the magnitude of a binary32 image is never negative, and it is 0 exactly when exponent and fraction are 0 |
| Float32.DecodeZero | Core/Src/communication.c:204 | the zeroed frame's values read as 0.0 |
| Communication.Marked | Core/Src/communication.c:166-188 | each of PE, FE, NE and ORE sets its own error flag byte to 1; a flag not raised keeps its byte, and the values are untouched |
| Communication.StoredAllPrefix | Core/Src/communication.c:191-198 | a burst received from index i is laid down in order at i, i+1, ... and the bytes before i are kept |
| Communication.SentFrameAccepted | Core/Src/communication.c:77-79 | the 8 payload bytes followed by their CRC-8, received into a cleared buffer, pass the receiver's CRC check |
| Communication.Received | Core/Src/communication.c:260-289 | a frame that fails the CRC leaves the measurements unchanged; one that passes replaces exactly the extractor and focus voltages with the two decoded floats |
| Communication.ReceivedSentFrame | Core/Src/communication.c:260-289 | a frame laid out as sendResults() builds it (two float images, their CRC-8, then anything) updates exactly the extractor and focus voltages to the floats those images hold |
| Communication.ReceivedCorruptedFrame | Core/Src/communication.c:260-289 | changing any single one of the nine image and CRC bytes of such a frame leaves the measurements unchanged |
| Communication.Link.constructor | Core/Src/communication.c:19-28 | a cleared frame, index 0, idle, reception running, the LED latch clear and nothing sent |
| Communication.Link.SendResults | Core/Src/communication.c:70-101 | high side: not idle from the start; the two values go into the frame; the CRC byte is Checksum of exactly the first 8 bytes; the rest of the frame is kept; a successful start records one 12-byte transmission and releases the LED latch; a failed start sends nothing and latches the red LED; the low side changes nothing |
| Communication.Link.TxComplete | Core/Src/communication.c:213-228 | the high side becomes idle; the low side keeps its flag |
| Communication.Link.IsIdle | Core/Src/communication.c:362-365 | returns exactly the idle flag |
| Communication.Link.RxComplete | Core/Src/communication.c:232-297 | low side: communicationOk becomes exactly Accepts(frame), and the measurements follow Received; a CRC mismatch latches the red LED; a match switches off a red LED the link itself had switched on; the error flags never block acceptance; the high side changes nothing |
| Communication.Link.ReceiveIrq | Core/Src/communication.c:159-208 | without IDLE: flags recorded, the byte stored only while rxIndex < 16, and rxIndex advances only then, so it never exceeds 16; with IDLE: the frame is processed (Received) and then buffer, flags and index are cleared |
| Communication.Link.Collect | Core/Src/communication.c:166-198 | the flag and byte handling of one interrupt, with the rxIndex bound |
| Communication.Link.Flush | Core/Src/communication.c:203-204 | index 0 and a zeroed frame, flags included |
| Communication.Link.ErrorCallback | Core/Src/communication.c:327-330 | reception stops when the error code is FE (0x04) or above; a lower code leaves it as it was |
| Communication.Link.AbortComplete | Core/Src/communication.c:340-356 | after an abort, reception restarts only when the high side is powered and the restart succeeds |
| Calibration.CalibrationAffine | Core/Src/calibration.c:156-170 | gain*(raw-offset) is 0 at the offset and scales differences by the gain |
| Calibration.PumpDuty | Core/Src/calibration.c:182-185 | with the default coefficients, (v-offset)*gain is the duty whose output voltage is v |
| Calibration.PumpDutyAfterInit | Core/Src/calibration.c:63-64 | after initCoefficients, the pump duty is v over the converter's volts per duty |
| Calibration.SumUpdate | Core/Src/calibration.c:129-133 | replacing one slot changes the sum by the new sample minus the old one |
| Calibration.SlideWindow | Core/Src/calibration.c:126-149 | appending a sample slides the window of the last n samples by one |
| Calibration.TracksStep | Core/Src/calibration.c:129-146 | one addSample keeps the invariant: each slot holds the sample of its age, and the sum is the sum of the last n samples |
| Calibration.MeanSettles | Core/Src/calibration.c:148 | after n equal samples the average is that sample |
| Calibration.MovAvg.constructor | Core/Inc/calibration.h:41-46 | a filter of the given size: sum 0, index 0, every slot 0.0 |
| Calibration.MovAvg.Init | Core/Src/calibration.c:115-124 | sum 0, index 0, every slot 0.0 |
| Calibration.MovAvg.AddSample | Core/Src/calibration.c:126-149 | only the slot at the old index is overwritten; the index advances by one modulo the size; sum == Sum(buffer) holds after every call; the result is sum/size, the mean of the last `size` samples counting the initial zeros |
| Calibration.MovAvg.Resum | Core/Src/calibration.c:140-142 | the recomputed sum is the sum of the buffer |
| Calibration.Sampler.constructor | Core/Src/calibration.c:30-38 | the static coefficients before initCoefficients |
| Calibration.Sampler.InitCoefficients | Core/Src/calibration.c:45-65 | the five gains and offsets initCoefficients loads |
| Calibration.Sampler.CalculateSamples | Core/Src/calibration.c:152-175 | high side: channel 0 gives Ue and channel 1 gives Uf; a frame is sent exactly when the link was idle and the transmit start succeeds, and a busy link keeps its frame; low side: channel 0 gives Ia through the moving average, channel 1 gives Uc, and nothing is sent |
| Calibration.TruncDiv | Core/Src/calibration.c:85-86 | C's int32 division: for a non-negative dividend the remainder is in [0, divisor), for a negative one in (-divisor, 0], so the quotient is truncated toward zero |
| Calibration.OffsetSumsFit | Core/Src/calibration.c:72-79 | up to 10001 samples whose codes are at most 214726 in magnitude keep both int32 sums in range |
| Calibration.OffsetSumOverflows | Core/Src/calibration.c:72-79 | 10001 samples of the code 214727 push the sum past INT32_MAX |
| Calibration.SumIntConstant | Core/Src/calibration.c:78-79 | n equal samples add up to n times the sample |
| Calibration.ConstantOffsetMisreported | Core/Src/calibration.c:82-86 | as written: 10001 samples of 10000 are reported as 10001 |
| Calibration.ConstantOffsetReported | Core/Src/calibration.c:82-86 | corrected: 10000 equal samples are reported as that sample |
| Calibration.OffsetCalibrator.constructor | Core/Src/calibration.c:74-75 | empty sums |
| Calibration.OffsetCalibrator.Accumulate | Core/Src/calibration.c:72-99 | as written: both channels accumulate; the report comes on the call that makes 10001 samples and is each sum of 10001 samples divided by 10000; then everything resets |
| Calibration.OffsetCalibrator.AccumulateCorrected | Core/Src/calibration.c:72-99 | the same with the report on the 10000th sample, each sum divided by the number of samples |
| Logger.Ramp | Core/Src/logger.c:101-102 | the user reference grows by 0.25 exactly while it is below 1.1 times the limit |
| Logger.RampBounded | Core/Src/logger.c:87-102 | from a reference in range, any number of ramp steps stays within [0, 1.1*limit + 0.25] |
| Logger.RampStuckOnNaN | Core/Src/logger.c:101 | with a NaN limit the comparison is false and the reference never moves |
| Logger.Logger.constructor | Core/Src/logger.c:26-40 | the static logger state: indices, counters and peaks 0 |
| Logger.Logger.Clear | Core/Src/logger.c:48-50 | every entry of the log becomes 0 |
| Logger.Logger.Record | Core/Src/logger.c:91-98 | the four measurements go into the four logs at the index, which advances by one |
| Logger.Logger.SweepInit | Core/Src/logger.c:44-57 | saves the user reference, sets it to 0, zeroes peaks, falling count and index, and sets sweepOn |
| Logger.Logger.LoggerInit | Core/Src/logger.c:61-75 | four cleared logs, index 0, buffer number 0 |
| Logger.Logger.SweepPeriod | Core/Src/logger.c:84-126 | nothing changes unless sweepOn and EXT_SWEEP; then: append only while index < 2000; ramp the reference; a new peak current records (Ia, Ue) and resets the falling count, otherwise the count increments; Ue above the limit ends the sweep through sweepUeExit(true); the peak current never decreases |
| Logger.Logger.SweepExit | Core/Src/logger.c:239-257 | the result is meas with Ia and Ue replaced by the peaks on success or by NaN on failure; the saved reference is restored; sweepOn is cleared |
| Logger.Logger.LoggerPeriod | Core/Src/logger.c:130-172 | records only on every uLogInterval-th call while logging; a full log clears loggerOn and records nothing |
| Logger.Logger.HighFreqSample | Core/Src/logger.c:180-235 | while logging, the cathode voltage goes into buffer number highFreqBuffNo at the index, which advances; a full buffer moves on to the next one with the index 0; logging stops after the fourth buffer; nothing changes while not logging |
| Pwm.CompareValue | Core/Inc/regulator.h:50-59 | (uint32_t)(65535*duty) is within [0, 65535]: the truncation of 65535*duty for a positive duty, 0 for a negative duty or NaN |
| Pwm.CompareMonotone | Core/Inc/regulator.h:50-59 | a larger duty never gives a smaller compare value |
| Pwm.Tim1.SetDuty | Core/Inc/regulator.h:40-64 | the selected channel's register (UC→CCR1, UE→CCR2, UF→CCR3, PUMP→CCR4) receives Written(old, duty); every other register is unchanged; REG_IA writes nothing |
| Pwm.Tim1.SetVoltManual | Core/Src/regulator.c:105-112 | the register reproduces the voltage to within one count of 65535*v/fGain; a voltage above fGain writes nothing; other channels are untouched |
| Pwm.ScaledBounds | Core/Src/regulator.c:107-109 | the floor bounds of 65535*v/fGain, multiplied back by fGain |
| Regulator.LoopStep | Core/Src/regulator.c:81-84 | one loop's tick sets the input to the measurement, then the setpoint to the reference, then computes, all on that loop |
| Regulator.TickCalls | Core/Src/regulator.c:79-98 | the cathode loop always runs first, with meas.fCathodeVolt and ref.fCathodeVolt; Ue then Uf run only when the high side is ok; 3 or 9 calls in that fixed order |
| Regulator.InitCalls | Core/Src/regulator.c:43-71 | three PIDInit calls, then the three setpoints from the reference |
| Regulator.Regulator.constructor | Core/Src/regulator.c:41 | no calls made yet |
| Regulator.Regulator.Init | Core/Src/regulator.c:43-71 | Uc [0, 0.9] AUTOMATIC REVERSE, Ue [0, 0.5] MANUAL DIRECT, Uf [0, 0.9] MANUAL DIRECT, all with period 0.01, and each setpoint taken from ref |
| Regulator.Regulator.PeriodCallback | Core/Src/regulator.c:79-98 | the calls are TickCalls; CCR1 gets the Uc output; CCR2 and CCR3 get the Ue and Uf outputs only when the high side is ok and are untouched otherwise; the pump register and the loops' parameters are unchanged |
| Regulator.Regulator.RunLoop | Core/Src/regulator.c:81-84 | one loop's three calls, then its output written to its own PWM channel only |
| Regulator.LastInitSkips | Core/Src/regulator.c:79-98 | calls other than PIDInit never change a loop's parameters |
| Typedefs.SystemState.constructor | Core/Inc/typedefs.h:42-71 | the given measurements and reference, with every flag false |
| Utilities.ErasePage | Core/Src/utilities.c:80-85 | an address names a page exactly when it is FLASHSTORAGE1 or FLASHSTORAGE2, and it names the second page exactly for FLASHSTORAGE2 |
| Utilities.SavedAccepted | Core/Src/utilities.c:265-300 | round trip: a saved image passes the read check and carries the saved bytes |
| Utilities.CorruptionRejected | Core/Src/utilities.c:289-291 | an image with one data or CRC byte changed fails the check |
| Utilities.FirstFailure | Core/Src/utilities.c:241-249 | the parts programmed before the first failure |
| Utilities.AllProgrammed | Core/Src/utilities.c:241-254 | with every part succeeding, all parts are programmed |
| Utilities.ConfigStore.constructor | Core/Src/utilities.c:283-287 | the storage page holds the given bytes |
| Utilities.ConfigStore.Erase | Core/Src/utilities.c:69-116 | error exactly for an unknown address or a failed HAL step; the page reads all 0xFF exactly when the address is FLASHSTORAGE2 and the unlock and the page erase succeed, whatever the lock afterwards reports, and is unchanged otherwise |
| Utilities.LockFailureErases | Core/Src/utilities.c:95-104 | a failing HAL_FLASH_Lock after a successful erase reports an error although the page was erased |
| Utilities.ConfigStore.ProgramParts | Core/Src/utilities.c:228-261 | the double-words up to the first failure are programmed at consecutive 8-byte offsets; the rest is untouched; an error is reported exactly on a failed unlock or a failed part |
| Utilities.ConfigStore.SaveConfig | Core/Src/utilities.c:265-275 | when the erase reports an error nothing is programmed and flashData is unchanged, while the page is erased or unchanged as Erase left it; otherwise the data and CRC image is built and programmed over the erased page |
| Utilities.ConfigStore.ReadConfig | Core/Src/utilities.c:283-300 | returns false and copies the page iff the stored CRC matches the recomputed one; otherwise returns true and leaves uFlashData unchanged |
| Utilities.SaveAndRead | Core/Src/utilities.c:265-300 | with ideal flash, save followed by read succeeds and yields the saved bytes |
| Interrupts.WatchdogCountdown | Core/Src/stm32l4xx_it.c:200-206 | from a non-negative counter, n ticks leave max(c-n, 0), never below 0; the link is reported lost from the first tick that finds 0 |
| Interrupts.Route | Core/Src/stm32l4xx_it.c:424-493 | DRDY starts a read only when the converter is ready; the two encoder pins go to their callbacks |
| Interrupts.TickDispatch | Core/Src/stm32l4xx_it.c:622-625 | the sweep runs iff sweepOn; the logger runs iff not sweeping and the mode is LOGGER_IA_UE_UF; never both |
| Interrupts.Handlers.constructor | Core/Src/stm32l4xx_it.c:37 | the SPI LED latch clear and the link watchdog at 0 |
| Interrupts.Handlers.SysTick | Core/Src/stm32l4xx_it.c:196-213 | the counter decrements while positive; at 0 the link flag is forced false; the counter never goes negative |
| Interrupts.Handlers.TimerTick | Core/Src/stm32l4xx_it.c:618-629 | the dispatched task follows TickDispatch; the sweep task leaves the logger and system state as one sweepUePeriod() does (Logger.SweptOnce), the logger task as one loggerPeriod() does (Logger.LoggedOnce); a task not run changes none of its state; the regulators then run with the reference as the sweep left it |
| Interrupts.Handlers.Processed | Core/Src/stm32l4xx_it.c:507-524 | the samples are computed, and a latched red LED is switched off and released |
| Interrupts.Handlers.Failed | Core/Src/stm32l4xx_it.c:526-531 | the high side latches the red LED; the low side only reports |
| Interrupts.Handlers.AfterRead | Core/Src/stm32l4xx_it.c:507-556 | a failed read computes nothing and sends nothing; a successful one computes and clears the latch |
| Interrupts.Handlers.SpiTxRxCompleteAsWritten | Core/Src/stm32l4xx_it.c:507 | as written: the callback's false is taken as failure, so samples are never computed, and on the high side every read latches the red LED |
| Interrupts.Handlers.SpiTxRxComplete | Core/Src/stm32l4xx_it.c:497-561 | corrected: every decoded frame is calibrated and the latch is cleared |
| Interrupts.Handlers.SpiError | Core/Src/stm32l4xx_it.c:570-610 | the red LED is switched on and latched |
| Ads131.Combine | Drivers/ADS131M0x/ads131m0x.c:950-953 | combineBytes yields a word whose upper and lower bytes are the arguments |
| Ads131.CombineSplit | Drivers/ADS131M0x/ads131m0x.c:928-953 | combineBytes(upperByte(w), lowerByte(w)) == w for every 16-bit w |
| Ads131.SignExtendValue | Drivers/ADS131M0x/ads131m0x.c:962-971 | the shift-and-arithmetic-shift of signExtend is the 24-bit two's-complement value of the bytes, MSB first, so it lies in [-2^23, 2^23) |
| Ads131.TwosComplement24 | Drivers/ADS131M0x/ads131m0x.c:962-971 | the two's-complement value of three bytes is in [-2^23, 2^23) |
| Ads131.SignExtendEncode | Drivers/ADS131M0x/ads131m0x.c:962-971 | every 24-bit code, sent MSB first, is read back by signExtend |
| Ads131.CrcAppend | Drivers/ADS131M0x/ads131m0x.c:766-781 | chaining: CRC(a+b, s) == CRC(b, CRC(a, s)) |
| Ads131.ZeroCrc | Drivers/ADS131M0x/ads131m0x.c:798-821 | zero bytes keep a zero register at zero |
| Ads131.Residue | Drivers/ADS131M0x/ads131m0x.c:378-379 | continuing the CRC over the CRC bytes (upper, then lower) and any zero padding yields 0 |
| Ads131.BitStep | Drivers/ADS131M0x/ads131m0x.c:804-820 | one pass of the bit loop (MSB test, shift, XOR on disagreement) is one step of the CRC |
| Ads131.CalculateCrc | Drivers/ADS131M0x/ads131m0x.c:766-824 | the nested loops return Crc of the first numberBytes bytes from the given initial value, with no final XOR |
| Ads131.CrcByte | Drivers/ADS131M0x/ads131m0x.c:801-820 | the bit loop over 0x80..0x01 is eight MSB-first steps |
| Ads131.OpcodeFields | Drivers/ADS131M0x/ads131m0x.c:167 | the address (below NUM_REGISTERS) and the RREG/WREG command can be read back from OPCODE \| address<<7 |
| Ads131.EnforceFields | Drivers/ADS131M0x/ads131m0x.c:1061-1110 | RX_CRC_EN, WLENGTH, DRDY_FMT and CRC_TYPE take the build's values, and every other bit is preserved |
| Ads131.EnforceCrcEn | Drivers/ADS131M0x/ads131m0x.c:1064-1070 | RX_CRC_EN is set exactly when the build enables the input CRC |
| Ads131.EnforceWlength | Drivers/ADS131M0x/ads131m0x.c:1074-1076 | WLENGTH is 24 bits |
| Ads131.EnforceDrdy | Drivers/ADS131M0x/ads131m0x.c:1090-1096 | DRDY_FMT is the pulse or the logic level, as built |
| Ads131.EnforceCrcType | Drivers/ADS131M0x/ads131m0x.c:1100-1106 | CRC_TYPE is ANSI or CCITT, as built |
| Ads131.EnforceRest | Drivers/ADS131M0x/ads131m0x.c:1061-1110 | the bits outside the four fields pass unchanged |
| Ads131.EnforceIdempotent | Drivers/ADS131M0x/ads131m0x.c:1061-1110 | enforcing twice is enforcing once |
| Ads131.WordByteLength | Drivers/ADS131M0x/ads131m0x.c:1125-1128 | the word length MODE selects is 2, 3 or 4 bytes |
| Ads131.EnforcedMode | Drivers/ADS131M0x/ads131m0x.c:1025-1027 | after an enforced MODE write, words are 3 bytes and the frame has a CRC word exactly when the build enables one |
| Ads131.Place | Drivers/ADS131M0x/ads131m0x.c:1030-1037 | writing opcodes keeps the buffer length |
| Ads131.PlaceWord | Drivers/ADS131M0x/ads131m0x.c:1035-1036 | opcode i sits MSB first at offset i*bytesPerWord |
| Ads131.PlaceBeyond | Drivers/ADS131M0x/ads131m0x.c:1030-1037 | the bytes after the last opcode word are left as they were |
| Ads131.FrameAsWritten | Drivers/ADS131M0x/ads131m0x.c:1016-1047 | as written: the CRC over numberOfBytes bytes, its own slot included, in the slot after the opcodes; the length is kept |
| Ads131.FrameCorrected | Drivers/ADS131M0x/ads131m0x.c:1016-1047 | the CRC over the opcode words that precede it |
| Ads131.AsWrittenFrameRejected | Drivers/ADS131M0x/ads131m0x.c:1041 | the RREG of MODE built as written, with a CCITT input CRC, does not check: its CRC residue is 0x4187, not 0 |
| Ads131.CorrectedFrameChecks | Drivers/ADS131M0x/ads131m0x.c:1039-1044 | with the CRC over the preceding words, every frame checks to 0 over numberOfBytes |
| Ads131.Parse | Drivers/ADS131M0x/ads131m0x.c:506-523 | the response from bytes 0-1, channels from offsets 3, 6, ..., 18 and the CRC from bytes 21-22; every channel is in [-2^23, 2^23) |
| Ads131.FrameOf | Drivers/ADS131M0x/ads131m0x.c:506-523 | the converter's 24-byte frame: 8 words of 3 bytes |
| Ads131.ParseFrameOf | Drivers/ADS131M0x/ads131m0x.c:506-523 | every frame the converter can send is parsed into the data it carries |
| Ads131.Ads.constructor | Drivers/ADS131M0x/ads131m0x.c:48 | a zeroed shadow map of NUM_REGISTERS words |
| Ads131.Ads.BuildSpiArray | Drivers/ADS131M0x/ads131m0x.c:1016-1047 | as written: returns (opcodes + crc?1:0)*bytesPerWord and leaves FrameAsWritten in the array |
| Ads131.Ads.BuildSpiArrayCorrected | Drivers/ADS131M0x/ads131m0x.c:1016-1047 | the same count, and FrameCorrected in the array |
| Ads131.Ads.BuildFrame | Drivers/ADS131M0x/ads131m0x.c:1025-1046 | the body of buildSPIarray for a given MODE value |
| Ads131.Ads.BuildFrameCorrected | Drivers/ADS131M0x/ads131m0x.c:1025-1046 | the corrected body for a given MODE value |
| Ads131.Ads.AppendCrc | Drivers/ADS131M0x/ads131m0x.c:1041-1043 | writes the CRC of the first `count` bytes, MSB first, at the slot, and changes nothing else |
| Ads131.Ads.PlaceOpcodes | Drivers/ADS131M0x/ads131m0x.c:1030-1037 | the opcode loop leaves Place in the array |
| Ads131.Ads.ReadSingleRegister | Drivers/ADS131M0x/ads131m0x.c:154-177 | sends the RREG frame for the address built by the corrected BuildSpiArrayCorrected (FrameCorrected; the source sends FrameAsWritten, see Findings); the device's answer is stored in the shadow map at that address only and returned |
| Ads131.Ads.WriteSingleRegister | Drivers/ADS131M0x/ads131m0x.c:195-230 | a MODE write is enforced first; the WREG frame carries opcode and data, and it and the read-back RREG frame are built by the corrected BuildSpiArrayCorrected (FrameCorrected; the source sends FrameAsWritten, see Findings); the map then holds the read-back value at that address only |
| Ads131.Ads.ReadDataCallback | Drivers/ADS131M0x/ads131m0x.c:506-547 | the data is Parse of the receive buffer; Ia and Uc are stored at the driver's default gains; the result is always false |
| Hd44780.Encode | Modules/hd44780_i2c.c:187-208 | the 4-byte frame decodes back to the command; EN is set in bytes 0 and 2 and clear in 1 and 3; backlight on, RW 0, RS set exactly for data |
| Hd44780.Frames | Modules/hd44780_i2c.c:210-213 | four bytes per command |
| Hd44780.FramesDecode | Modules/hd44780_i2c.c:187-213 | the LCD reads back exactly the commands whose frames were sent |
| Hd44780.FramesAppend | Modules/hd44780_i2c.c:210-213 | the frames of a concatenation are the concatenated frames |
| Hd44780.Address | Modules/hd44780_i2c.c:258 | the command for any cell, truncated to 8 bits, always carries the Set DDRAM Address bit |
| Hd44780.AddressesDistinct | Modules/hd44780_i2c.c:89 | on a 20x4 display every cell has its own DDRAM address |
| Hd44780.CursorSet | Modules/hd44780_i2c.c:250-261 | an out-of-range row or column is reset to 0, and the command is the address of the clamped cell |
| Hd44780.PutsFromPrefix | Modules/hd44780_i2c.c:336-357 | the layout of a string does not depend on the commands sent before it |
| Hd44780.PutsFromFacts | Modules/hd44780_i2c.c:336-357 | the loop keeps: count is the number of printable characters, data bytes are those characters in order, instructions are cursor moves, and the cursor stays on the display |
| Hd44780.PutsFacts | Modules/hd44780_i2c.c:332-359 | Puts returns the count of characters other than '\n' and '\r', writes exactly those in order, sends no instruction other than cursor moves, and leaves the cursor on the display |
| Hd44780.PutsCharPlacement | Modules/hd44780_i2c.c:337-354 | a printable character with the cursor inside the row is written and the cursor moves one column; with currentX >= Cols a move to column 0 of the next row (row 0 after the last) comes first and the character lands in column 0 there |
| Hd44780.DataBytesAppend | Modules/hd44780_i2c.c:352 | the data bytes of a concatenation are concatenated |
| Hd44780.ApplyControl | Modules/hd44780_i2c.c:363-407 | each setter sets or clears its own bit of DisplayControl and keeps the others |
| Hd44780.ControlIndependent | Modules/hd44780_i2c.c:363-407 | setters of different flags commute, and repeating a setter changes nothing |
| Hd44780.ControlCommand | Modules/hd44780_i2c.c:366 | the Display Control instruction carries the current flags |
| Hd44780.ScrollCommand | Modules/hd44780_i2c.c:411-421 | a display shift, to the right exactly for ScrollRight |
| Hd44780.CreateCharLayout | Modules/hd44780_i2c.c:425-435 | nine commands: Set CGRAM address with the location masked to 0..7, times 8, then the eight rows as data |
| Hd44780.DataCommands | Modules/hd44780_i2c.c:432-434 | one data command per byte, in order |
| Hd44780.PutCustom | Modules/hd44780_i2c.c:439-443 | a cursor move, then the location as data |
| Hd44780.FunctionFlags | Modules/hd44780_i2c.c:302-305 | 4-bit, 5x8 dots, and two lines exactly when rows > 1 |
| LcdI2c.Next | Modules/hd44780_i2c.c:49-51 | the index advances modulo HD44780_BUFF_SIZE |
| LcdI2c.Queued | Modules/hd44780_i2c.c:70 | the ring is empty exactly when head == tail |
| LcdI2c.FreeIsRoom | Modules/hd44780_i2c.c:38-42 | SIZE-head+tail (head >= tail) or tail-head is the capacity minus what is waiting, and never 0 |
| LcdI2c.QueuedPush | Modules/hd44780_i2c.c:49-51 | storing at head and advancing it appends the byte |
| LcdI2c.QueuedPop | Modules/hd44780_i2c.c:76-81 | advancing tail removes the oldest byte, the one at tail: FIFO order |
| LcdI2c.Stored | Modules/hd44780_i2c.c:44 | of a frame, buffAdd keeps none when fewer than 10 bytes are free and all four only from 13 free bytes up |
| LcdI2c.FillFrame | Modules/hd44780_i2c.c:210-213 | the four buffAdd calls keep the first Stored(free) bytes of the frame |
| LcdI2c.Queue.constructor | Modules/hd44780_i2c.c:273-277 | zeroed ring, idle |
| LcdI2c.Queue.Add | Modules/hd44780_i2c.c:31-62 | below 10 free bytes the byte is dropped and head is unchanged; otherwise it is appended; the ring never looks empty when it is not, and nothing accepted is lost |
| LcdI2c.Queue.Get | Modules/hd44780_i2c.c:66-85 | an empty ring returns -1 and changes nothing; otherwise returns the oldest byte and removes it |
| LcdI2c.Queue.TxComplete | Modules/hd44780_i2c.c:233-246 | an empty ring sets idle; otherwise the oldest byte goes on the wire |
| LcdI2c.Queue.AddFrame | Modules/hd44780_i2c.c:210-213 | the first Stored(free) bytes of the frame go in |
| LcdI2c.Queue.AddNext | Modules/hd44780_i2c.c:210-213 | the k-th buffAdd of a frame |
| LcdI2c.Queue.Kick | Modules/hd44780_i2c.c:215-219 | transmission is started only when idle, and idle is then cleared |
| LcdI2c.Queue.Send | Modules/hd44780_i2c.c:183-229 | as written: the bytes accepted are the frame cut at Stored(free), and transmission starts only when idle |
| LcdI2c.SendSplitsFrame | Modules/hd44780_i2c.c:44 | as written: with 11 or 12 bytes free, the first two or three bytes of the frame are accepted, EN rises and falls once among them, and the stream ends mid-frame; with 10 free only the rising edge goes in |
| LcdI2c.Queue.SendWhole | Modules/hd44780_i2c.c:183-229 | corrected: the frame goes in whole or not at all, so the bytes accepted stay whole frames |
| LcdI2c.Queue.AddWhole | Modules/hd44780_i2c.c:210-213 | the whole frame goes in from 13 free bytes up and nothing below |
| LcdI2c.WholeDecodes | Modules/hd44780_i2c.c:187-246 | what the LCD reads from the wire and the waiting bytes is exactly the framed commands |
| LcdI2c.Queue.Post | Modules/hd44780_i2c.c:183-229 | one more command requested, through the corrected SendWhole (the contract also holds of the as-written Send) |
| LcdI2c.Display.Init | Modules/hd44780_i2c.c:267-317 | cols and rows stored, cursor at (0, 0), and the commands are the 4-bit reset, Function Set, display on, clear and entry mode |
| LcdI2c.Display.Configure | Modules/hd44780_i2c.c:302-313 | Function Set, display on, clear, entry mode left |
| LcdI2c.Display.SetFunction | Modules/hd44780_i2c.c:302-307 | Function Set with FunctionFlags(rows) |
| LcdI2c.Display.Reset | Modules/hd44780_i2c.c:292-299 | 0x03 three times, then 0x02 |
| LcdI2c.Display.Clear | Modules/hd44780_i2c.c:321-328 | Clear Display, then the wait until the ring is drained and idle |
| LcdI2c.Display.CursorSet | Modules/hd44780_i2c.c:250-261 | the cursor is the clamped cell, and its address command is requested |
| LcdI2c.Display.PutChar | Modules/hd44780_i2c.c:338-356 | one pass of Puts' loop follows Hd44780.PutsChar |
| LcdI2c.Display.Puts | Modules/hd44780_i2c.c:332-359 | the cursor, the commands and the returned count follow Hd44780.Puts |
| LcdI2c.Display.Control | Modules/hd44780_i2c.c:363-407 | one flag changes, then Display Control is sent |
| LcdI2c.Display.Scroll | Modules/hd44780_i2c.c:411-421 | one display-shift command |
| LcdI2c.Display.CreateChar | Modules/hd44780_i2c.c:425-435 | the commands of Hd44780.CreateChar |
| LcdI2c.Display.SendRows | Modules/hd44780_i2c.c:432-434 | the eight rows as data commands, in order |
| LcdI2c.Display.PutCustom | Modules/hd44780_i2c.c:439-443 | the cursor and commands of Hd44780.PutCustom |
| LcdDma.GuardIsCapacity | Modules/hd44780_i2c_DMA.c:152 | index+4 >= 255 refuses a frame exactly when 63 frames are loaded |
| LcdDma.TransferDecodes | Modules/hd44780_i2c_DMA.c:150-178 | the loaded bytes fit the buffer; up to 63 commands are read back in full, and beyond that only the first 63 |
| LcdDma.SinglesDecode | Modules/hd44780_i2c_DMA.c:184-213 | each blocking transfer reads back as its command |
| LcdDma.SinglesAppend | Modules/hd44780_i2c_DMA.c:184-213 | blocking transfers of a concatenation are concatenated |
| LcdDma.Bus.Send | Modules/hd44780_i2c_DMA.c:184-213 | one frame in one blocking transfer |
| LcdDma.Bus.SendAll | Modules/hd44780_i2c_DMA.c:269-283 | one transfer per command |
| LcdDma.DmaData.constructor | Modules/hd44780_i2c_DMA.c:254 | nothing loaded, not busy |
| LcdDma.DmaData.TransferEnd | Modules/hd44780_i2c_DMA.c:241-244 | busy is cleared and nothing else changes |
| LcdDma.DmaData.DmaInit | Modules/hd44780_i2c_DMA.c:137-140 | busy set, index 0 |
| LcdDma.DmaData.Load | Modules/hd44780_i2c_DMA.c:150-178 | nothing is appended when index+4 >= 255; otherwise exactly 4 bytes and index += 4; the index stays a multiple of 4 within the buffer |
| LcdDma.DmaData.WriteFrame | Modules/hd44780_i2c_DMA.c:155-175 | the same nibble encoding as send at the index, the bytes before it kept |
| LcdDma.DmaData.Transmit | Modules/hd44780_i2c_DMA.c:150-178 | the loaded frames go out in one transfer |
| LcdDma.Lcd.Init | Modules/hd44780_i2c_DMA.c:251-325 | cols and rows stored, cursor (0, 0); the 4-bit reset twice, Function Set and the entry mode, each in a blocking transfer of its own; then Display On twice and Clear as DMA transfers, leaving the DMA busy |
| LcdDma.Lcd.Configure | Modules/hd44780_i2c_DMA.c:263-292 | the blocking part of Init: 4-bit reset twice, Function Set, entry mode |
| LcdDma.Lcd.Start | Modules/hd44780_i2c_DMA.c:307-308 | two Display Control transfers with the display on |
| LcdDma.Lcd.CursorSet | Modules/hd44780_i2c_DMA.c:221-230 | the clamped cursor, and its address command loaded |
| LcdDma.Lcd.PutChar | Modules/hd44780_i2c_DMA.c:340-360 | one pass of Puts' loop follows Hd44780.PutsChar |
| LcdDma.Lcd.WrapCursor | Modules/hd44780_i2c_DMA.c:340-360 | past the last column, the cursor goes to the start of the next row |
| LcdDma.Lcd.PlaceChar | Modules/hd44780_i2c_DMA.c:340-360 | a cursor move for '\n' and '\r', otherwise the character as data |
| LcdDma.Lcd.Puts | Modules/hd44780_i2c_DMA.c:334-362 | the cursor and the loaded commands follow Hd44780.Puts, truncated silently when the buffer fills |
| LcdDma.Lcd.Clear | Modules/hd44780_i2c_DMA.c:369-375 | Clear Display in a transfer of its own |
| LcdDma.Lcd.Control | Modules/hd44780_i2c_DMA.c:377-423 | one flag changes, then Display Control goes out in its own transfer |
| LcdDma.Lcd.Scroll | Modules/hd44780_i2c_DMA.c:425-437 | one display-shift transfer |

## Left out

- Peripheral I/O is not modelled: the UART, SPI and I2C transfers, GPIO, LEDs other than the red LED latch, delays and timing. The HAL's outcomes are parameters (txOk, startOk, the EraseHal record, programOk, the converter's reply bytes).
- The PID algorithm (pid_controller.h) is not part of this model. A loop is represented by the calls made on it, and PIDOutputGet is an arbitrary function of those calls.
- Floating point is modelled as real arithmetic with NaN as None. Infinities are folded into None. Rounding to single precision is not modelled. The sender's float-to-bytes conversion is a parameter of the link.
- Calibration.OffsetCalibrator.Accumulate: the int32 sums are unbounded integers. They stay within int32 when every code is at most 214726 in magnitude (OffsetSumsFit); full-scale 24-bit codes can overflow them (OffsetSumOverflows), which is undefined in C and not modelled.
- Calibration.OffsetCalibrator.AccumulateCorrected: the same unbounded sums, over 10000 samples; OffsetSumsFit gives the same range, and the overflow beyond it is not modelled.
- Pwm.Tim1.SetDuty: a +infinity duty, which pwmSetDuty ignores because it exceeds 1, is None in the model and writes 0 (Pwm.CompareValue). The conversion of NaN or a negative duty to uint32_t, undefined in C, is modelled as 0.
- Concurrency is not modelled. The race between buffAdd in the main loop and buffGet in the I2C interrupt is left out, and each handler is one atomic step.
- ads131m0x.h is not part of this model. The register addresses, opcodes and MODE field masks come from the converter's register map. NUM_REGISTERS is 64, and the build options are a Config value.
- Ads131.Ads.ReadSingleRegister: sends FrameCorrected, the CRC over the opcode words only. adsReadSingleRegister (ads131m0x.c:168) sends buildSPIarray's as-written frame, whose CRC also covers its own zeroed slot; with the input CRC enabled the two frames differ in the CRC word (Ads131.AsWrittenFrameRejected), and the model does not send the as-written one.
- Ads131.Ads.WriteSingleRegister: the WREG frame and the read-back RREG frame are FrameCorrected. adsWriteSingleRegister (ads131m0x.c:218) sends the as-written frames; with the input CRC enabled they differ in the CRC word, and the model does not send the as-written ones.
- The SPI transfer routines of the converter driver are left out (adsReadData, adsReadDataOptimized, adsReadDataIT, adsSendCommand, adsResetSoft, adsStartup, lockRegisters, adsUnlockRegisters). What the converter answers is a parameter of ReadSingleRegister and WriteSingleRegister.
- The polling EXTI build (the `#else` branches of HAL_GPIO_EXTI_Callback) is left out. Interrupts.Route records which pin starts a read.
- The battery ADC, the UI (ui.c), init.c and the demo routine HD44780_demo are left out.
- The flash HAL is not modelled. The storage page is a 48-byte array, an erase fills it with 0xFF, and a programmed double-word is copied in.
- dma_init's wait for a previous transfer, and its peripheral reset after 50 ticks, are left out: LcdDma.DmaData.DmaInit starts from the state after the wait.
- The 8-bit branch of both HD44780_Init functions is dead (FunctionSet is zeroed just before) and is not modelled.
- LcdDma.Lcd.Puts: the DMA buffer keeps at most 63 commands (LcdDma.Keep); commands beyond that are dropped, as the load guard does.
- LcdI2c.Display.Clear: the busy-wait for the idle flag is modelled as the interrupt draining the whole ring; the delay is left out.
- The stale struct sSystem of main.h is not modelled; Core/Inc/typedefs.h is followed.
- Ads131.Ads.BuildSpiArray: requires fewer than 63 opcodes, so that the uint8_t byte count cannot wrap. The driver's callers pass one or two.
- The fixed 24-bit word length (bytesPerWord = 3) is assumed. signExtend's other word-length branches are not modelled.
- The source's calibration.c keeps globals and MOVAVG_SIZE 10. The model follows the per-instance sMovAvg of calibration.h, with the size as a parameter.
- Communication.Link.RxComplete: the received values are copied as they are (the memcpy build). The USE_MOVAVG_UE_MCULOW and USE_MOVAVG_UF_MCULOW builds, which pass them through a moving average, are not modelled.
- Calibration.Sampler.CalculateSamples: on the low side the anode current goes through the moving average (the USE_MOVAVG_IA_FILTER build); the unfiltered build is not modelled.

## Findings

| source | as written | input that shows it | evidently intended | confidence | as-written member | corrected member |
|---|---|---|---|---|---|---|
| Core/Src/calibration.c:82-86 | the report comes when index exceeds 10000, so 10001 samples are summed and divided by 10000 | 10001 samples of 10000 are reported as 10001 | the mean of 10000 samples | high, not executed | Calibration.ConstantOffsetMisreported | Calibration.ConstantOffsetReported |
| Core/Src/stm32l4xx_it.c:507 | `true == adsReadDataITcallback(...)` is the success test, but the callback always returns false (Drivers/ADS131M0x/ads131m0x.c:546) | any frame: the samples are never computed, and on the high side every read switches the red LED on | the callback's result read as the error it reports, so every frame is calibrated | medium, not executed | Interrupts.Handlers.SpiTxRxCompleteAsWritten | Interrupts.Handlers.SpiTxRxComplete |
| Modules/hd44780_i2c.c:44 | send() checks the 10-byte margin per byte, so 1 to 3 bytes of a 4-byte frame can go in | a ring with exactly 11 bytes free: bytes 0 (EN high) and 1 (EN low) of the frame are accepted, so the LCD latches an upper nibble whose lower nibble never comes and pairs every later nibble wrongly | a frame enqueued whole or not at all | medium, not executed | LcdI2c.SendSplitsFrame | LcdI2c.WholeDecodes |
| Drivers/ADS131M0x/ads131m0x.c:1041 | the input CRC is computed over numberOfBytes, which includes the CRC word's own zeroed slot | RREG of MODE with CCITT CRC and 24-bit words: the frame A1 00 00 AA 98 00 leaves CRC residue 0x4187, not 0, at the converter | the CRC over the i*bytesPerWord opcode bytes before it | medium, not executed | Ads131.AsWrittenFrameRejected | Ads131.CorrectedFrameChecks |

The model builds on the corrected definitions:
- register reads and writes send FrameCorrected (Ads131.Ads.ReadSingleRegister, Ads131.Ads.WriteSingleRegister);
- the SPI handler is SpiTxRxComplete;
- the LCD's whole-frame send is LcdI2c.Queue.SendWhole.
