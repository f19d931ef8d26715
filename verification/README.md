# SGM: driver, sensor and uplink

A model of the parts of SGM where state and arithmetic are delicate, with proofs of what they keep.
`dafny verify dfyconfig.toml` verifies all of it.

## What is modelled

**The BME280 driver.** `Registers` has the bit fields of the three control registers. `Bus` is the chip
behind its bus: a soft reset clears the registers, a config write counts only in sleep mode, `ctrl_hum`
takes effect with the next `ctrl_meas` write, and a forced conversion may end by itself before any
transaction (BME280 datasheet, sections 5.4.3, 5.4.5 and 5.4.6). Everything the outside world will do
(conversions ending, transfers failing, buffers full of garbage, measurement data) is an environment
`nat -> Tick`, fixed before the run and quantified over. `Protocol` says on values what a setter and a
forced reading do to chip and shadow; `Runs` strings operations together; `Refinement` proves that the
driver implements seven independent variables over every run, and what happens from incoherent states.
`WaitTime` compares the delay of a forced reading with the conversion it waits for. `Driver` is the driver
as a class whose methods change shadow and chip transaction by transaction; each is proved against its
value-level specification, and its return code against the transactions that failed. `FailingBus` says what
the return codes miss and when a config write reaches an awake chip, `Recovery` what failures leave behind and how the
driver recovers once the bus works again.

**Calibration and compensation.** `Calibration` parses the calibration memory and the burst and proves
both directions of the round trip. `Temperature`, `Pressure` and `Humidity` are the fixed-point formulas with
every s32, u32 and s64 step wrapping explicitly (`Machine`); inside stated envelopes no signed step wraps. `>>` is floor
division. `PressureAccuracy`, `PressureAccuracy32` and `HumidityAccuracy`, and `Temperature` itself, bound
the results against the floating-point variants read as exact real arithmetic (`Reals` holds inequalities
between products). `SensorAccuracy` puts the bounds together for the records of one acquisition.

**The sensor.** `Sensor` has the constructor's configuration sequence and the acquisition loop, `SensorToSink` what
becomes of its records.

**The uplink.** `Historical` is the two-slot change detector, `PowerManager` the modem's power state
machine, `PppConnection` the link with its monitor, `MqttProtocol` topics, payloads and the ready flag,
`MessageQueue` and `SgmSink` the sink loop, `Uplink` all of them from modem power to publication. Each has its state machine on values, theorems over all runs
of it, and a class whose methods are proved to move as on values. One tick, poll or event is one atomic
step; modem, monitor, PPP daemon, MQTT server and sockets are inputs.

## Where the code falls short of what one would expect

- The delay is computed from the raw oversampling values, shifted and cut to a byte. The documentation of the
  setters (bme280.c:789-796) allows 6 and 7 as 16 samples; for those the delay is too short exactly when the shifted
  values sum to 112..144 (`WaitTime.DelaySuffices`, `WaitTime.DelayCanFallShort`).
- A config setter that finds an incoherent chip asleep does not make the humidity setting effective; a failed write is
  enough to get there (`Refinement.SetterStabilises` has the exact condition, `Recovery.StaleLatch` the run).
- The temperature, pressure and power-mode setters overwrite their return code before the closing reads, and the config
  setters overwrite the status of a mode query that reports sleep. `FailingBus.CodeCountsAll` says exactly when a code
  counts all failures; `FailingBus.LostWrite` and `FailingBus.LostQuery` are failures reported as 0.
- On a failing bus a config write can reach an awake chip: `FailingBus.InstallRogue` and `FailingBus.RunRogue` say exactly
  when, `FailingBus.LostQuery` and `FailingBus.LostReset` are inputs.
- A failed write leaves a raw oversampling copy that the chip does not have, and with it a delay that is too short, until
  that oversampling is set or got (`Recovery.CopyRecovers`, `Recovery.StaleCopy`).
- The s32 pressure converts a negative offset to u32 and subtracts it, wrapping twice; within the envelope exactly then,
  and harmlessly (`Pressure.Pressure32Exact`, `Pressure.NegativeOffsetWraps`).
- The s32 temperature wraps for some calibration words: `Temperature.WrapsExactly` says exactly when no step does,
  `Temperature.FullRangeWraps` is an input.
- The double humidity variant takes a t_fine of exactly 76800, 15 degrees, for invalid data and returns 0; the integer
  variant has no such case (`HumidityAccuracy.AgreesWithDouble`, `HumidityAccuracy.DisagreesAt15Degrees`).
- If the modem's power state is undefined when the power manager starts, it never reacts to anything
  (`PowerManager.GuardNeverMasks`).
- If the CMUX flag goes off and on between two polls of the monitor, and a connect notices the loss, the link stays
  lost until somebody disconnects, or the flag changes again (`PppConnection.StaysLostExactly`,
  `PppConnection.MissedEdgeReachable`).
- A disconnect that closes a connection returns CONNECTION_ERROR (`PppConnection.DisconnectMisreports`).
- A socket whose queue met a bad packet or lost the client is left open (`MessageQueue.DrainedExactly`,
  `SgmSink.SocketsLeftOpen`).
- The sink's loop counts idle polls across broken sockets, so its end is preceded by four idle polls but not always by
  four in a row (`SgmSink.ExitConsecutive`, `SgmSink.BrokenSocketInBetween`).
- A received size equal to EAGAIN (11) is taken for "no data" (`MessageQueue.ShortPacketReported`,
  `SgmSink.ShortPacketCounts`).

## Model

| member | source | states |
|---|---|---|
| `Registers.SetSliceIsolated` | 3rdparty/BME280_driver/bme280.h:428-432 | the bit-slice macros act as independent fields: after writing field f, f reads the value cut to its width, every other field of the register and every spare bit reads as before |
| `Registers.FieldsDetermineRegister` | 3rdparty/BME280_driver/bme280.h:699-755 | the fields and spare bits of a control register cover it: two bytes that agree on all of them are the same byte |
| `Registers.RegistersSpelledOut` | 3rdparty/BME280_driver/bme280.h:699-755 | the addresses of the three control registers, and each register as a number: the sum of its fields at their positions and its spare bits |
| `Protocol.ReplayEffect` | 3rdparty/BME280_driver/bme280.c:827-848 | soft reset, config, ctrl_hum, ctrl_meas: from any chip state the three registers come out as written, the humidity setting in effect, no config write having reached an awake chip |
| `Protocol.InstallEffect` | 3rdparty/BME280_driver/bme280.c:821-854 | the write phase of every operation, awake and asleep: which registers change, to what, and that no config write arrives outside sleep |
| `Protocol.ReadBackEffect` | 3rdparty/BME280_driver/bme280.c:856-871 | the closing reads make the shadow agree with the chip whatever it held before, except that it may still say forced after the chip went to sleep |
| `Protocol.ReadBackOrder` | 3rdparty/BME280_driver/bme280.c:856-1900 | the order of the three closing reads of a setter and of a forced reading, by which byte of the shadow a failed one spoils |
| `Protocol.SetFieldTime` | 3rdparty/BME280_driver/bme280.c:808-1723 | a setter takes eight transactions, or to a sleeping chip five, and six for humidity |
| `Protocol.ConversionStarted` | 3rdparty/BME280_driver/bme280.c:1834-1876 | before a forced reading fetches, the wanted ctrl_meas is on the chip in forced mode, and the humidity setting of the shadow in effect, whatever the chip was like |
| `Refinement.SetFieldRefines` | 3rdparty/BME280_driver/bme280.c:808-874 | a setter, whatever conversions end meanwhile, acts on chip and shadow as one assignment to one of seven independent variables |
| `Refinement.ForcedReadRefines` | 3rdparty/BME280_driver/bme280.c:1819-1902 | a forced reading changes nothing but the mode |
| `Refinement.RunRefines` | 3rdparty/BME280_driver/bme280.c:808-1902 | every run of setters, getters, forced readings and idle moments refines the same run on seven independent variables, under every timing of the chip |
| `Refinement.AbstractRunIsLastAsked` | 3rdparty/BME280_driver/bme280.c:808-1902 | the variables are independent: each holds the last value asked for it, and nothing else matters |
| `Refinement.RunKeepsLastAsked` | 3rdparty/BME280_driver/bme280.c:762-1902 | from a coherent state, after every run, every non-mode field of the chip, and its getter, give exactly the last value set, cut to its width; shadow and chip agree |
| `Refinement.RunKeepsMode` | 3rdparty/BME280_driver/bme280.c:1192-1303 | after every run the chip is in the mode last asked for, or asleep after a forced one |
| `Refinement.TimingIrrelevant` | 3rdparty/BME280_driver/bme280.c:808-1902 | two runs of the same calls under any two timings end with the same registers, up to the mode bits |
| `Refinement.SetterStabilises` | 3rdparty/BME280_driver/bme280.c:808-1723 | from any shadow and any chip, whatever failed before, one setter on a bus that works from then on makes them agree and sets its field; the humidity setting comes out in effect exactly when the setter writes ctrl_meas, or found the chip awake, or it was in effect before |
| `Refinement.ForcedReadStabilises` | 3rdparty/BME280_driver/bme280.c:1819-1902 | from any shadow and any chip, whatever failed before, a forced reading ends coherent |
| `Refinement.RunFromAnywhere` | 3rdparty/BME280_driver/bme280.c:826-1876 | over every run from every state, on a bus that works from its start: no config write reaches an awake chip, and one setter of a non-config field, or one forced reading, anywhere in the run makes its end coherent |
| `Recovery.RecoversAfterFailures` | 3rdparty/BME280_driver/bme280.c:808-1902 | after any run on a bus that fails in any way, once it works again, one such operation makes driver and chip coherent, and after any further run every non-mode field, and its getter, give the last value asked since |
| `Recovery.StaleLatch` | 3rdparty/BME280_driver/bme280.c:1139-1170 | the failed ctrl_meas write of a humidity setter leaves the setting not in effect, though shadow and chip agree and the getter reports it; a following config setter leaves it so |
| `Recovery.CopyRecovers` | 3rdparty/BME280_driver/bme280.c:762-1155 | from a coherent state, after any run on a working bus, the raw copy of an oversampling value agrees with the chip if and only if it did before, or some operation sets or gets that value |
| `Recovery.DelayRecovers` | 3rdparty/BME280_driver/bme280.c:1877-1880 | once all three copies agree with a coherent chip, at settings up to 5, the delay is again the exact ceiling of the conversion time |
| `Recovery.StaleCopy` | 3rdparty/BME280_driver/bme280.c:849-871 | a failed write of the temperature setting: all is coherent and the code is 0, but the next forced reading waits 4 ms for a conversion of 38.25 |
| `FailingBus.InstallRogue` | 3rdparty/BME280_driver/bme280.c:821-854 | on any bus an operation lets exactly one config write reach an awake chip if the query reports awake, the reset does not arrive, the config write does, and the chip is awake throughout; or the query reports sleep, a config setter writes, the write arrives, and the chip is awake throughout; otherwise none |
| `FailingBus.RunRogue` | 3rdparty/BME280_driver/bme280.c:808-1902 | on any bus, over every run, the config writes that reached an awake chip are counted by the operations of which that condition holds |
| `FailingBus.RunSafe` | 3rdparty/BME280_driver/bme280.c:808-1902 | a run is safe if and only if that condition holds of none of its operations; each operation of which it holds had a failed mode query or soft reset |
| `FailingBus.RogueNeedsFailedGuard` | 3rdparty/BME280_driver/bme280.c:821-854 | one operation lets a config write reach an awake chip only if its own mode query or soft reset failed, whatever else failed |
| `FailingBus.FailedGuardNotEnough` | 3rdparty/BME280_driver/bme280.c:1677-1707 | a soft reset reported as failed that has arrived lets no config write through, for any setter and value |
| `FailingBus.LostReset` | 3rdparty/BME280_driver/bme280.c:1522-1585 | a failed soft reset in normal mode: the filter setting is written to an awake chip and lost, with code -1 |
| `FailingBus.CodeCountsAll` | 3rdparty/BME280_driver/bme280.c:808-1723 | the return code of a setter lies between minus its failures and 0, and is minus its failures if and only if none comes before the three closing reads (temperature, pressure, mode), or the mode query did not fail while reporting sleep (config); always for humidity |
| `FailingBus.LostWrite` | 3rdparty/BME280_driver/bme280.c:849-871 | a failed write of the temperature setting: the setting is not reached, and the code is 0 |
| `FailingBus.LostQuery` | 3rdparty/BME280_driver/bme280.c:1522-1585 | a failed mode query: the filter setting is written to an awake chip and lost, and the code is 0 |
| `WaitTime.DelayIsCeiling` | 3rdparty/BME280_driver/bme280.c:2192-2212 | for settings up to 5 the delay is exactly the ceiling, in milliseconds, of the conversion time, at most 114, so never cut to its byte |
| `WaitTime.DelaySuffices` | 3rdparty/BME280_driver/bme280.c:2192-2212 | for all settings 0..7: the delay covers the conversion if and only if the shifted settings do not sum to 112..144 |
| `WaitTime.DelayCanFallShort` | 3rdparty/BME280_driver/bme280.c:2192-2212 | settings 7, 7, 0 give 42 ms for a conversion of up to 76 |
| `WaitTime.CoversDatasheet` | 3rdparty/BME280_driver/bme280.h:552-560 | the conversion time from the driver's constants covers the maximum of the BME280 datasheet, section 9.1, and exceeds it by at most 0.7 ms, for all settings |
| `WaitTime.DelaysSpelledOut` | 3rdparty/BME280_driver/bme280.c:2192-2212 | the delays and conversion times of seven combinations of settings, as numbers |
| `WaitTime.RunKeepsCache` | 3rdparty/BME280_driver/bme280.c:856-1155 | in every run the raw oversampling copies are the settings asked for |
| `WaitTime.ForcedDelayIsExact` | 3rdparty/BME280_driver/bme280.c:1877-1880 | after every run a forced reading waits exactly the ceiling of the time its conversion takes with the settings then in effect on the chip |
| `Driver.Bme280.SetOversampTemperature` | 3rdparty/BME280_driver/bme280.c:808-874 | refines the value-level setter; the return code is exactly minus the failures among the last three transactions |
| `Driver.Bme280.SetOversampPressure` | 3rdparty/BME280_driver/bme280.c:947-1013 | the same for pressure |
| `Driver.Bme280.SetOversampHumidity` | 3rdparty/BME280_driver/bme280.c:1100-1172 | refines the value-level setter; the return code is exactly minus all failed transactions of the call, without s8 wrap |
| `Driver.Bme280.SetPowerMode` | 3rdparty/BME280_driver/bme280.c:1229-1303 | a mode above 3 is refused with -2 and no effect; otherwise as the temperature setter |
| `Driver.Bme280.SetSpi3` | 3rdparty/BME280_driver/bme280.c:1394-1459 | refines the value-level setter; the return code is exactly minus the failures of the call, leaving out the mode query when it reports sleep |
| `Driver.Bme280.SetFilter` | 3rdparty/BME280_driver/bme280.c:1522-1585 | the same for the filter |
| `Driver.Bme280.SetStandbyDurn` | 3rdparty/BME280_driver/bme280.c:1660-1723 | the same for the standby time |
| `Driver.Bme280.GetField` | 3rdparty/BME280_driver/bme280.c:762-782 | a getter returns the field as the chip holds it, refreshes the raw oversampling copy, and changes no register |
| `Driver.Bme280.GetForcedUncomp` | 3rdparty/BME280_driver/bme280.c:1819-1902 | refines the value-level forced reading; the delay is requested after the conversion has been started and right before the burst, which is the fourth transaction from the end; returns that burst, and counts all failures without s8 wrap |
| `Driver.Bme280.ReadUncompTemperature` | 3rdparty/BME280_driver/bme280.c:117-147 | a successful separate read gives what the burst gives for the same registers |
| `Driver.Bme280.ReadUncompPressure` | 3rdparty/BME280_driver/bme280.c:236-265 | the same for pressure |
| `Driver.Bme280.ReadUncompHumidity` | 3rdparty/BME280_driver/bme280.c:371-396 | the same for humidity |
| `Driver.Bme280.ReadPressureTemperatureHumidity` | 3rdparty/BME280_driver/bme280.c:565-593 | one burst, all three results from the t_fine of that burst |
| `Driver.Bme280.GetCalibParam` | 3rdparty/BME280_driver/bme280.c:622-736 | the record is the parse of the two blocks, although the second read overwrites the buffer of the first |
| `Driver.Bme280.CompensateTemperatureInt32` | 3rdparty/BME280_driver/bme280.c:161-190 | the step-by-step code computes the specified t_fine and temperature |
| `Driver.Bme280.CompensateTemperatureInt32Sixteen` | 3rdparty/BME280_driver/bme280.c:204-216 | the same for the 16-bit variant |
| `Driver.Bme280.CompensatePressureInt32` | 3rdparty/BME280_driver/bme280.c:281-352 | the step-by-step code computes the specified s32 pressure |
| `Driver.Bme280.CompensatePressureInt64` | 3rdparty/BME280_driver/bme280.c:2102-2153 | the step-by-step code computes the specified s64 pressure |
| `Driver.Bme280.CompensateHumidityInt32` | 3rdparty/BME280_driver/bme280.c:411-441 | the step-by-step code computes the specified humidity |
| `Calibration.ParseOfLayout` | 3rdparty/BME280_driver/bme280.c:622-736 | parsing the 26 + 7 bytes of any record with 16-bit words and 12-bit H4, H5 gives back the record |
| `Calibration.LayoutOfParse` | 3rdparty/BME280_driver/bme280.c:622-736 | laying out what was parsed gives back every byte but the spare one: no other byte is ignored or misplaced |
| `Calibration.ParseSpelledOut` | 3rdparty/BME280_driver/bme280.c:622-736 | where each of the 18 words lies in the two blocks, as numbers modulo 2^16, 2^12 and 2^8 |
| `Calibration.BurstRoundTrip` | 3rdparty/BME280_driver/bme280.c:485-547 | the burst decodes readings laid out in the measurement registers to those readings |
| `Calibration.BurstSpelledOut` | 3rdparty/BME280_driver/bme280.c:485-547 | each reading is the upper 20 or all 16 bits of its bytes, high byte first |
| `Temperature.WrapsExactly` | 3rdparty/BME280_driver/bme280.c:161-190 | for all calibration words and readings: no s32 step wraps if and only if three products of the inputs fit s32, and then the result is the unbounded formula |
| `Temperature.NoWrap` | 3rdparty/BME280_driver/bme280.c:161-190 | a sufficient envelope: in it no step wraps, and t_fine is at most 1 180 000 in size |
| `Temperature.TemperatureAccurate` | 3rdparty/BME280_driver/bme280.c:1982-2001 | in the envelope the s32 temperature is within one unit of 0.01 degree of the exact formula |
| `Temperature.TemperatureMonotone` | 3rdparty/BME280_driver/bme280.c:168-189 | in the envelope, with T2 at least 16384, a larger reading never gives a smaller t_fine or temperature |
| `Temperature.SixteenAccurate` | 3rdparty/BME280_driver/bme280.c:204-216 | from -40 to 85 degrees the 16-bit variant does not wrap and is within half a unit |
| `Temperature.FullRangeWraps` | 3rdparty/BME280_driver/bme280.c:161-190 | full-range calibration words do wrap: a reading reported as -0.02 degrees where the exact formula gives over 400 |
| `Pressure.InvalidOnlyWithoutP1` | 3rdparty/BME280_driver/bme280.c:2118-2143 | in the temperature range, with P1 at most 46000, the invalid-data branch is taken exactly when P1 is 0 |
| `Pressure.NoPressureWithoutP1` | 3rdparty/BME280_driver/bme280.c:320-336 | with P1 0 the s32 and the s64 variant report 0, for any other words, temperature and reading |
| `Pressure.Pressure64Exact` | 3rdparty/BME280_driver/bme280.c:2102-2153 | in the envelope every s64 step gets a result that fits, the divisor is positive, and the result is the unbounded formula |
| `Pressure.MachineIsUnbounded64` | 3rdparty/BME280_driver/bme280.c:2102-2153 | for any words and reading: where every s64 step fits, the machine computes the unbounded formula |
| `PressureAccuracy.PressureAccurate` | 3rdparty/BME280_driver/bme280.c:2015-2047 | in the envelope the s64 pressure is within 49/256 pascal of the exact formula |
| `PressureAccuracy.HalfAccurate` | 3rdparty/BME280_driver/bme280.c:2168-2177 | the 24-bit variant is within 25/128 pascal |
| `Pressure.DivideLosesAtMostOne` | 3rdparty/BME280_driver/bme280.c:320-336 | the two-branch division is the floor of 2p/d, less one exactly when p has 32 bits and the remainder is at least half of d |
| `Pressure.Pressure32Exact` | 3rdparty/BME280_driver/bme280.c:281-352 | in the envelope every s32 step fits and the divisor is positive; of the u32 steps the conversion of the scaled offset and the difference that takes it wrap if and only if the offset is negative, and no other wraps; the quotient is the exact floor less that loss |
| `Pressure.NegativeOffsetWraps` | 3rdparty/BME280_driver/bme280.c:317-319 | words and a reading inside the envelope for which both wrap, and the result is right |
| `PressureAccuracy32.PressureAccurate32` | 3rdparty/BME280_driver/bme280.c:281-352 | in the envelope the s32 pressure is within 9 + 4*q/d pascal of the exact formula, at most 52 |
| `Humidity.HumidityExact` | 3rdparty/BME280_driver/bme280.c:411-441 | in the envelope every s32 step gets a result that fits, and the result is the integer formula clamped to 0..102400 |
| `Humidity.MachineIsUnbounded` | 3rdparty/BME280_driver/bme280.c:411-441 | for any words and reading: where every s32 step fits, the machine computes the clamped integer formula |
| `Humidity.OverflowCanCancel` | 3rdparty/BME280_driver/bme280.c:411-441 | the converse fails: a storable record and a reading for which a step overflows and the result is right |
| `Humidity.SixteenBitIsHalf` | 3rdparty/BME280_driver/bme280.c:456-465 | for any calibration words the result is 0..100 percent, and the 16-bit variant is its half, nothing cut off |
| `HumidityAccuracy.HumidityAccurate` | 3rdparty/BME280_driver/bme280.c:2060-2083 | in the envelope the s32 humidity is within 23/1024 percent of the exact formula |
| `HumidityAccuracy.AgreesWithDouble` | 3rdparty/BME280_driver/bme280.c:2060-2083 | in the envelope the s32 and the floating-point variant agree within 23/1024 percent if and only if t_fine is not 76800, or floor((adc - 64*H4 + 1) / 2) * H2 is below 768 |
| `HumidityAccuracy.LowAt15Degrees` | 3rdparty/BME280_driver/bme280.c:411-441 | at t_fine 76800 the result is at most 23/1024 percent exactly under that condition on the reading |
| `HumidityAccuracy.DisagreesAt15Degrees` | 3rdparty/BME280_driver/bme280.c:2060-2083 | an ordinary chip and reading at t_fine 76800: 27.3 percent from the s32 variant, 0 from the floating-point one |
| `Sensor.ConstructorOutcome` | SGMsensor/src/Bme280Sensor.cpp:22-47 | whatever chip and uninitialised driver structure held, construction ends coherent with ctrl_hum 0x01, config 0x00, ctrl_meas 0x69, or 0x68 once the conversion has ended |
| `Sensor.ConfiguredTransactions` | SGMsensor/src/Bme280Sensor.cpp:34-47 | on a working bus the configuration is one reset and six setters on a sleeping chip, 32 transactions |
| `Sensor.DelayExactAfterConstructor` | SGMsensor/src/Bme280Sensor.cpp:22-47 | after construction and any run with oversamplings up to 5, the forced-read delay is the exact ceiling |
| `Sensor.Bme280Sensor.constructor` | SGMsensor/src/Bme280Sensor.cpp:22-47 | the constructor reaches that outcome on a working bus, with the calibration parsed, in 35 transactions |
| `Sensor.Bme280Sensor.Measure` | SGMsensor/src/Bme280Sensor.cpp:84-111 | appends one record of its own conversion, or none for light, and moves driver and chip by one forced reading |
| `Sensor.Bme280Sensor.AcquireList` | SGMsensor/src/Bme280Sensor.cpp:65-72 | the loop appends the records of the listed quantities, in order, after the existing ones |
| `Sensor.Bme280Sensor.Acquire` | SGMsensor/src/Bme280Sensor.cpp:54-63 | appends the standard three |
| `Sensor.StandardAcquisition` | SGMsensor/src/Bme280Sensor.cpp:54-63 | exactly three records, field by field: point, quantity, unit, divider, time stamp at the end of its own forced conversion, pressure and humidity compensated by the t_fine of the temperature measured in the same call |
| `Sensor.RecordsMatch` | SGMsensor/src/Bme280Sensor.cpp:65-111 | any acquisition appends one record per quantity that the chip measures, in the order asked for and none for light, each with the point, unit and divider of its quantity |
| `Sensor.AcquisitionKeepsSettings` | SGMsensor/src/Bme280Sensor.cpp:54-72 | acquiring any quantities leaves every configuration field as it was |
| `SensorAccuracy.AcquisitionAccurate` | SGMsensor/src/Bme280Sensor.cpp:113-166 | value / divider of the three records is within 0.01 degree, 0.52 hPa and 0.0225 percent of the exact formulas for the readings they were made from |
| `SensorToSink.AirIsPublished` | SGMsink/src/MqttProtocol.cpp:28-66 | a standard acquisition in the air, delivered while client and network are ready, is published in full and in order under sgm/<id>/air/temp, .../air/press and .../air/humid |
| `SensorToSink.RecordsFit` | SGMsensor/src/Bme280Sensor.cpp:113-166 | every record of an acquisition fits the widths of its fields, so that a receiver recovers it |
| `SensorAccuracy.EnvelopesHoldOfExample` | 3rdparty/BME280_driver/bme280.c:161-352 | the envelopes hold of the calibration words and readings of the worked example in the BMP280 datasheet, which give 25.08 degrees and 100656 Pa |
| `SensorAccuracy.OthersOfExample` | 3rdparty/BME280_driver/bme280.c:2102-2153 | the s64 pressure and the humidity of the same example, bit by bit |
| `Historical.HistoricalValue.Set` | SGMutils/inc/HistoricalValue.h:31-35 | the newest value moves to the second slot |
| `PowerManager.GuardNeverMasks` | SGMpowermgr/src/PowerManager.cpp:141-210 | over every run the no-change guard masks no event and CMUX-ready holds exactly in MODEM_CMUX, if and only if the power state was defined at initialisation; otherwise nothing ever happens |
| `PowerManager.RunKeepsInv` | SGMpowermgr/src/PowerManager.cpp:92-187 | every run keeps the guard open and the flag in step with the device state |
| `PowerManager.FailedIsAbsorbing` | SGMpowermgr/src/PowerManager.cpp:92-187 | no run leaves MODEM_FAILED or changes the flag there |
| `PowerManager.BurstCoalesces` | SGMpowermgr/src/PowerManager.cpp:17-38 | a burst of power reports handled in one wake-up counts for the last only: disabled ends in MODEM_OFF, enabled turns CMUX on from MODEM_OFF and otherwise keeps the state |
| `PowerManager.BootsExactly` | SGMpowermgr/src/PowerManager.cpp:189-210 | from boot: MODEM_READY with power, MODEM_OFF without; and where a first burst of reports and one wake-up take it, with the flag |
| `PowerManager.PowerManager.WakeUp` | SGMpowermgr/src/PowerManager.cpp:73-83 | one turn of the main loop is one step of the state machine on values |
| `PowerManager.PowerManager.ComputeEvent` | SGMpowermgr/src/PowerManager.cpp:141-187 | the event is the one computed on values |
| `PowerManager.PowerManager.ProcessIncomingEvent` | SGMpowermgr/src/PowerManager.cpp:92-139 | flag and device state move as on values |
| `PowerManager.PowerManager.DetermineInitialConditions` | SGMpowermgr/src/PowerManager.cpp:189-210 | MODEM_READY if power is enabled, MODEM_OFF if it is disabled, unchanged otherwise; and the report is stored |
| `PppConnection.RunKeepsReady` | SGMsink/src/PppConnection.cpp:44-88 | in every run of connects, disconnects, polls and flag changes, the ready flag holds exactly when the link is CONNECTED |
| `PppConnection.ConnectsExactly` | SGMsink/src/PppConnection.cpp:44-65 | a connect leaves the link connected if and only if the device is there and the link was connected, or unconnected and the daemon starts; the other states, the monitor and the status likewise |
| `PppConnection.PollsExactly` | SGMsink/src/PppConnection.cpp:217-246 | a poll changes the link only on an edge of the flag: a falling one loses it, a rising one connects it if and only if the daemon starts |
| `PppConnection.DisconnectsExactly` | SGMsink/src/PppConnection.cpp:67-88 | a disconnect leaves a present device unconnected, and turns the monitor off where it closes something |
| `PppConnection.NeverConnected` | SGMsink/src/PppConnection.cpp:121-188 | in a run in which the daemon never starts, an unconnected link is never connected |
| `PppConnection.LostWhileCmuxOff` | SGMsink/src/PppConnection.cpp:121-188 | while the CMUX flag is off, once one event has been handled, no mix of steps leaves CONNECTION_LOST |
| `PppConnection.StaysLostExactly` | SGMsink/src/PppConnection.cpp:217-246 | with the flag on again and nobody disconnecting, a lost link is still lost after any run of connects and polls if and only if the last poll before it had seen the flag on, or the run has no poll |
| `PppConnection.MissedEdgeReachable` | SGMsink/src/PppConnection.cpp:44-65 | that state is reached by a connect, a loss noticed by a connect only, and the flag coming back |
| `PppConnection.PppConnection.StateMachineTick` | SGMsink/src/PppConnection.cpp:121-188 | the tick moves the state, and every listener learns of it, as on values; where the daemon is tried the state is CONNECTED exactly if it starts |
| `PppConnection.PppConnection.Connect` | SGMsink/src/PppConnection.cpp:44-65 | connecting moves the link, and returns the status, as on values |
| `PppConnection.PppConnection.Disconnect` | SGMsink/src/PppConnection.cpp:67-88 | disconnecting moves link, monitor and listeners, and returns the status, as on values |
| `PppConnection.DisconnectMisreports` | SGMsink/src/PppConnection.cpp:67-88 | after any run a disconnect leaves the link unconnected and the listeners told, but returns DISCONNECTED if and only if there was no device or no connection, and CONNECTION_ERROR where it closed one |
| `PppConnection.QueryAgrees` | SGMsink/src/PppConnection.cpp:44-114 | after any run a query says CONNECTED exactly if the listeners were told so, and agrees with what connect returned |
| `PppConnection.RunKeepsMonitor` | SGMsink/src/PppConnection.cpp:121-211 | in every run the monitor is on whenever the link is CONNECTED |
| `PppConnection.PppConnection.QueryStatus` | SGMsink/src/PppConnection.cpp:90-114 | for every listener in agreement with the link, the query says CONNECTED exactly if that listener is ready |
| `PppConnection.PppConnection.NotifyByCallback` | SGMsink/src/PppConnection.cpp:190-196 | every listener is told |
| `PppConnection.PppConnection.PowerMonitorTurn` | SGMsink/src/PppConnection.cpp:217-246 | one turn of the monitor after its wait, paused or not, moves link and history as on values, unless it has been told to terminate |
| `Uplink.RunKeepsInv` | SGMpowermgr/src/PowerManager.cpp:92-139 | in every run of power manager and link together, the flag the link reads is set exactly in MODEM_CMUX, and the network is ready exactly while the link is CONNECTED |
| `Uplink.DownIsSilent` | SGMsink/src/PppConnection.cpp:121-188 | once the modem is down and the link has handled one event, no run of either makes the network ready: for good after MODEM_FAILED, until power is reported enabled otherwise |
| `Uplink.PowerLossSilences` | SGMpowermgr/src/PowerManager.cpp:73-83 | from any state but MODEM_FAILED, a burst of power reports ending disabled, and one wake-up, silence the link in that way |
| `Uplink.PowerLossStopsPublishing` | SGMsink/src/SgmSink.cpp:114-186 | from modem power to publication: after such a burst, one wake-up and one handled event, the sink publishes nothing in any number of ticks, whatever manager, monitor, daemon, server and sensors do before ticks and between receives, until power is reported enabled |
| `Uplink.DownPublishesNothing` | SGMsink/src/SgmSink.cpp:114-186 | with the modem down and the link lost nothing is published: for good after MODEM_FAILED, until power is reported enabled otherwise |
| `MqttProtocol.TopicInjective` | SGMsink/src/MqttProtocol.cpp:105-128 | a topic determines point and quantity |
| `MqttProtocol.TopicsSpelledOut` | SGMutils/inc/SGMDataType.h:40-63 | which points and quantities have a topic, and the six topics letter by letter |
| `MqttProtocol.PayloadRoundTrip` | SGMsink/src/MqttProtocol.cpp:130-152 | value, divider, unit and timestamp can be recovered from the payload |
| `MqttProtocol.PayloadSpelledOut` | SGMsink/src/MqttProtocol.cpp:130-152 | each of the 14 bytes of the payload, as a number |
| `MqttProtocol.LittleEndianRoundTrip` | SGMsink/src/MqttProtocol.cpp:130-152 | bytes stored low first give back the number |
| `MqttProtocol.MessageInjective` | SGMsink/src/MqttProtocol.cpp:105-152 | two packets that one client publishes as the same message agree in point, quantity, value, divider, unit and timestamp |
| `MqttProtocol.ResultsExactly` | SGMsink/src/MqttProtocol.cpp:28-66 | when each of the four results is returned |
| `MqttProtocol.MqttProtocol.SendMessage` | SGMsink/src/MqttProtocol.cpp:28-66 | the result, and exactly what is published, for every packet and every state of client and network |
| `MqttProtocol.MqttProtocol.PrepareTopic` | SGMsink/src/MqttProtocol.cpp:105-128 | finds a mapping if and only if there is one, and then builds its topic |
| `MqttProtocol.MqttProtocol.PrepareMessage` | SGMsink/src/MqttProtocol.cpp:130-152 | writes the 14 bytes of the payload into the message buffer |
| `MqttProtocol.MqttProtocol.OnNetworkStatusChange` | SGMsink/src/MqttProtocol.cpp:74-90 | the flag is set by CONNECTED and cleared by every other status |
| `MessageQueue.PacketConservation` | SGMsink/src/SgmSink.cpp:147-184 | what one connection publishes is exactly, in order, its packets that are mapped and came while client and network were ready; each other packet is dropped as invalid or network-down, or is the one that ends the queue |
| `MessageQueue.QueueSendsConnected` | SGMsink/src/SgmSink.cpp:147-184 | every message of a connection leaves while the link is CONNECTED |
| `MessageQueue.ShortPacketReported` | SGMsink/src/SgmSink.cpp:147-159 | a receive of 1..31 bytes that ends a queue is reported as a bad packet if and only if it is not of 11 bytes, the value of EAGAIN |
| `SgmSink.RunKeepsInv` | SGMsink/src/SgmSink.cpp:34-128 | after every tick of every run the count is at most 5, positive only while listening, and ready matches CONNECTED |
| `SgmSink.AllSentConnected` | SGMsink/src/SgmSink.cpp:114-128 | nothing is ever published, in any run, while the link is not CONNECTED |
| `SgmSink.TickMoves` | SGMsink/src/SgmSink.cpp:34-112 | where a tick goes, by what is given: up if and only if device and daemon allow, to listening if and only if the client connects, back to the start if and only if the client is found gone, which is when it is disconnected |
| `SgmSink.TickLink` | SGMsink/src/SgmSink.cpp:34-112 | what a tick makes of the link |
| `SgmSink.PublishesWhatIsDue` | SGMsink/src/SgmSink.cpp:114-186 | over every run the sink publishes exactly the publishable packets of the accepted connections, in order |
| `SgmSink.ReconnectsBeforeAccepting` | SGMsink/src/SgmSink.cpp:79-112 | between a tick that finds the client gone and the next accepted connection, a tick brings the link up and a later one connects the client |
| `SgmSink.NeedsDaemon` | SGMsink/src/SgmSink.cpp:34-61 | in a run in which the daemon never starts, the sink never listens and publishes nothing |
| `SgmSink.ShortPacketCounts` | SGMsink/src/SgmSink.cpp:79-101 | a connection that starts with a short packet publishes nothing, and leaves the count at 0, except with 11 bytes, which count as an idle poll |
| `SgmSink.LostSinkIsSilent` | SGMsink/src/SgmSink.cpp:114-186 | once the link is lost and the flag off, and for as long as it stays off, also between receives, no run publishes anything |
| `MessageQueue.DrainedExactly` | SGMsink/src/SgmSink.cpp:147-184 | whether a queue is drained depends on what is received alone: unless the first receive that stops it is of 1..31 bytes other than 11, or a mapped packet without a client |
| `MessageQueue.ClientGoneExactly` | SGMsink/src/SgmSink.cpp:147-184 | the queue ends with the client gone if and only if the first receive that stops it is a mapped packet of at least 32 bytes without a client |
| `MessageQueue.SizesSpelledOut` | SGMsink/src/SgmSink.cpp:149-159 | which sizes are taken for no data, for a bad packet and for a packet, as numbers |
| `SgmSink.SocketsLeftOpen` | SGMsink/src/SgmSink.cpp:130-186 | over every run every accepted socket is counted, the client is disconnected once per time it is found gone and yields once per closed socket, and the accepted sockets left open are exactly those with such a first stopping receive |
| `SgmSink.LoopEnds` | SGMsink/src/SgmSink.cpp:114-128 | with at most b failed connects, accepted sockets and exceptions the loop ends within 8*b + 7 ticks |
| `SgmSink.CountIsIdlePolls` | SGMsink/src/SgmSink.cpp:79-101 | the count is the number of idle polls since the last other tick, broken sockets aside, plus one if and only if that tick drained a connection |
| `SgmSink.ExitAfterFourIdlePolls` | SGMsink/src/SgmSink.cpp:114-120 | the loop ends only after at least four idle polls |
| `SgmSink.ExitConsecutive` | SGMsink/src/SgmSink.cpp:79-120 | the last four ticks are idle polls if and only if none of them met a broken socket |
| `SgmSink.BrokenSocketInBetween` | SGMsink/src/SgmSink.cpp:96-100 | a run that ends with a broken socket among its last four ticks |
| `SgmSink.SgmSink.DoTick` | SGMsink/src/SgmSink.cpp:34-112 | the tick moves count, state and link, publishes, and calls socket and client library, as on values |
| `SgmSink.SgmSink.ProcessMessageQueue` | SGMsink/src/SgmSink.cpp:130-186 | resets the count for an accepted socket only, publishes what the queue on values publishes, and closes the socket and yields exactly if the queue was drained |
| `SgmSink.SgmSink.Operate` | SGMsink/src/SgmSink.cpp:114-128 | the loop ends within the bound, has published and called exactly what the run on values does, disconnects the client once more, and leaves the network not ready |

## Left out

- SensorAccuracy.AcquisitionAccurate: bounds the error for the raw readings as fetched, not the chip's own measuring error.
- PressureAccuracy32.PressureAccurate32: bounds the result as a signed integer; storing it as u32 changes nothing once the exact pressure is at least 52 Pa.
- The 16-bit humidity and 24-bit pressure variants are specified and related to the full ones, but have no method of their own.
- IEEE rounding: the floating-point variants appear only as exact formulas.
- Signed overflow, undefined in C, is modelled as two's-complement wrap-around; `Temperature.NoStepWraps`, `Humidity.NoStepWraps`, `Pressure.NoStepWraps64` and `Pressure.NoSignedStepWraps32` say, step by step, that it does not happen.
- Null-pointer tests of the driver, the stored chip id, the device address, and `bme280_support.c`.
- The bus adapter's own return values: the driver's documented 0 / -1 is used.
- Real time: the delays of 1 to 3 ms after a reset or around a read, sleeps, and the monitor's wait of at most a second, which being paused lengthens but does not prevent; only the delay before a forced reading is modelled, as a number.
- Locks, threads and liveness, in particular the nested lock of the monitor and the wait without predicate in the power manager.
- Sockets: one poll yields idle, broken or accepted, and an accepted socket a finite sequence of receives; `SinkSocket::connect` has no return statement on success.
- The sensor's destructor, which sets sleep mode, its unfinished single-quantity `acquire`, `queryCapabilities`.
- The records' fields hold unbounded integers; `MqttProtocol.FieldsInWidth` is where their widths matter.
- AT commands, modem pins, shared memory, device id, MQTT and PPP libraries, logging, `SensorHub` and `meteo`.
