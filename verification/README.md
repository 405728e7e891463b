# Verified model of the motion, storage and embroidery code of the ESP32 grblHAL driver

This project models seven parts of the firmware and of its kinematics scripts in Dafny and proves what they are for.
Code that changes state step by step is modelled by classes and methods with the same fields, branches and loops; each
method is proved against a function on values, and the theorems are about those functions, for every input, every run
or every reachable state. `dafny verify dfyconfig.toml` checks everything.

**Step streamer** (`DmaRing`, `StepTimeline`, `PulseShape`, `StepDriver`, `I2sOut`, `Pulser`, `CompletionQueue`,
`PassRing`, `PassRun`). A callback pushes step pulses as 4 microsecond samples and is paid for with a time credit;
five DMA buffers in a ring carry the samples. `StepTimeline` describes the stream without any buffer and shows that,
over any number of buffers, each pulse starts at the sum of the credits before it, rounded down to a sample, that no
pulse is split between buffers and that 500 samples are enough and needed, up to and including the buffer in which the
pulser is stopped or reset. `I2sOut` is the driver itself, on descriptors and arrays; its task fills, buffer by
buffer, exactly that stream. `PulseShape` says what its samples show on the port, bit by bit, in both modes. `Pulser`
is the same driver as a transition system whose events are the critical sections of the callback, the bitstream task,
the DMA interrupt and the other tasks, and `FillIsRun` ties the two. `PassRing` is the 12-node descriptor ring of the
passthrough mode, relinked in place, with the DMA engine as a walk along its links; `PassRun` interleaves the walk
with pin writes and commits.

**CRCs** (`Words`, `CrcCcitt`, `CrcCcittDetection`, `CrcModbus`). The shift trick of the CCITT CRC is polynomial long
division by x^16 + x^12 + x^5 + 1, the generator of ITU-T V.41. Error detection holds for messages of any length.

**Inverse kinematics** (`DhChain`, `InspectorIk`, `FirmwareIk`). Angles are reals; cosine, sine, two-argument arc
tangent and root are parameters that are known by their defining properties.

**EEPROM** (`Eeprom`, `LittleFs`). Block writes are split at the pages of a device that wraps inside a page, with the
checksum behind the block, and refine a copy on flat memory. The file system partition lies above the settings.
Transfers fail where an oracle says so.

**Bluetooth transmit path** (`BluetoothTx`, `BluetoothStream`, `BluetoothWriters`, `BluetoothLaws`). Lines become
chunks, chunks are queued and then coalesced into one write at a time. The machine interleaves the steps of a writer,
the poll task and the stack; `BluetoothWriters` has any number of writers on the one line buffer; `BluetoothLaws` says
how much one turn of the poll task sends and that everything queued can be sent.

**Embroidery** (`StitchRing`, `EmbroideryJob`, `EmbroideryLaws`, `EmbroideryRunner`). The stitch queue between the
file reader and the consumer that plans the moves, with needle triggers, machine states, trims, thread changes and
resets.

**Stitch files** (`Pec`, `PecReader`, `Tajima`, `TajimaReader`). The two decoders invert the encodings of their
formats. The files they read are the `file` of an embroidery job.

Where a property is false of the code, its exact condition is proved: the consumer of the stitch queue does not test
for an empty queue (`EmbroideryJob.FileOrder`, `UnderrunHappens`); a restart of the streamer with entries left in the
completion queue can queue a descriptor twice (`CompletionQueue.RestartKeeps`, `RestartCanDuplicate`); writers that
overlap lose and repeat bytes (`BluetoothWriters.ManyWriters`, `OverlapLoses`); a commit of more samples than the
passthrough ring has room for loses pulses (`PassRing.FitsExactly`, `CommitOverruns`); an empty block gets no checksum
but is read with one (`Eeprom.RoundTrip`); on the axis the base angle is lost (`InspectorIk.AutoRebuilds`,
`FirmwareIk.RoundTrip`). Two equivalences have a side that no setting reaches, and their corollaries say so: with a
32-bit frequency the pulse period is positive for every tick count wherever it is defined, that is from 1 MHz on
(`StepDriver.PeriodClamped`), and with a settings store of at most 4 KB the file system lies inside every device that
gets one (`LittleFs.AlwaysInside`).

## Model

| member | source | states |
|---|---|---|
| StepTimeline.Progress | fw/grblhal_esp32/main/i2s_out_s3.c:516-567 | every round of the fill loop pushes a sample or gains missing time credit, for any callback that keeps the period at 1 or more: the reason the loop ends |
| StepTimeline.FilledBound | fw/grblhal_esp32/main/i2s_out_s3.c:516-569 | from any position a fill only appends, ends at sample 495 to 500 (earlier only when a reset has put the pulser into passthrough) and never passes the buffer |
| StepTimeline.FilledTight | fw/grblhal_esp32/main/i2s_out_s3.c:516-519 | with the longest pulses a step with a direction change at position 494 ends exactly at sample 500 |
| StepTimeline.PulsesOrdered | fw/grblhal_esp32/main/i2s_out_s3.c:534-540 | the pulses of different callbacks, placed at the sums of the credits, keep their order and never overlap |
| StepTimeline.IdealPulse | fw/grblhal_esp32/main/i2s_out_s3.c:516-569 | in the ideal stream the pulse of callback c stands at its start index, whatever follows |
| StepTimeline.IdealRest | fw/grblhal_esp32/main/i2s_out_s3.c:561 | between two pulses the ideal stream is the port value the earlier callback left |
| StepTimeline.CallOnTime | fw/grblhal_esp32/main/i2s_out_s3.c:519-540 | a callback runs exactly at its start index, and the time account stays exact to the microsecond |
| StepTimeline.CallEnds | fw/grblhal_esp32/main/i2s_out_s3.c:542-556 | the pulse of a callback that stops or resets the pulser is complete and on time too |
| StepTimeline.NoDrift | fw/grblhal_esp32/main/i2s_out_s3.c:516-569 | after any number of rounds of a run, still stepping or not: while stepping, 4 times the samples plus the remaining credit is the initial credit plus all credits, and the samples are a prefix of the ideal stream; afterwards they are the ideal stream up to and including the last pulse, and then the port |
| StepTimeline.FilledShift | fw/grblhal_esp32/main/i2s_out_s3.c:504-516 | what was emitted before a buffer has no influence on how it is filled |
| StepTimeline.FilledIsRun | fw/grblhal_esp32/main/i2s_out_s3.c:516-569 | filling a buffer only runs the generator, for every way the loop ends: nothing is added, dropped or reordered; a reset only gives up the time credit |
| StepTimeline.BufferedNoDrift | fw/grblhal_esp32/main/i2s_out_s3.c:497-570 | any number of buffers, up to and including the one in which the pulser is stopped or reset, carries the ideal stream; each is published with 495 to 500 samples, exactly those written, or 500 when a reset cut it short; and no pulse of any callback is split between two |
| StepTimeline.BuffersNext | fw/grblhal_esp32/main/i2s_out_s3.c:504-569 | a session goes on by filling one more buffer on its own from position 0, and appending it |
| StepTimeline.BuffersFrom | fw/grblhal_esp32/main/i2s_out_s3.c:530 | a session that begins after earlier callbacks is the session of the callbacks from there on |
| StepTimeline.FilledWhenIdle | fw/grblhal_esp32/main/i2s_out_s3.c:560-566 | once the pulser has left Stepping no callback runs and the buffer is filled with the port alone |
| StepTimeline.CreditsArePeriods | fw/grblhal_esp32/main/i2s_out_s3.c:536-540 | the credits are never less than the programmed periods, and are equal to them exactly if no callback asks for less time than its own pulse takes |
| StepTimeline.Interval | fw/grblhal_esp32/main/i2s_out_s3.c:534-540 | from one callback to the next: one sample behind the pulse if the callback asked for less time than the pulse takes, otherwise its period to less than one sample of 4 microseconds |
| StepTimeline.CutShortByReset | fw/grblhal_esp32/main/i2s_out_s3.c:548-556 | a fill is cut short exactly if a callback leaves passthrough; then it ends with that callback's pulse and without time credit |
| PulseShape.SteppingPulse | fw/grblhal_esp32/main/driver.c:899-913 | bit by bit: delay samples with the new direction and the step outputs as they were, then step samples with the step image and that direction, none without a step; afterwards the step outputs are off and the direction stays; no other bit of the port ever changes |
| PulseShape.PortLooksAt | fw/grblhal_esp32/main/driver.c:899-913 | all along a run the port shows the last direction asked for, the step outputs off, and everything else as at first |
| PulseShape.PulseLooksAt | fw/grblhal_esp32/main/driver.c:899-913 | every sample of every pulse of a run shows the step image of its callback, or before it in the delay no step, the last direction asked for, and otherwise the port as at first |
| PulseShape.PassthroughPulse | fw/grblhal_esp32/main/driver.c:1670-1694 | the same in passthrough mode, where a change of direction without a step puts out the delay samples alone, and afterwards no step bit is on |
| StepDriver.PulseSettings.SettingsChanged | fw/grblhal_esp32/main/driver.c:2804-2824 | delay and pulse become the least number of samples that covers them, clamped to 1..2 and 1..4; the two timer limits are set from frequency and pulse length, for every frequency |
| StepDriver.PeriodClamped | fw/grblhal_esp32/main/driver.c:892-895 | for every 32-bit timer frequency and tick count the pulse period is defined exactly from 1 MHz on, otherwise the code divides by zero; then it is at least 1, and ticks below 2^18 get more than the pulse and half its off time |
| StepDriver.PeriodPositive | fw/grblhal_esp32/main/driver.c:892-895 | for any clock of 1 MHz or more, whole or not, the period is at least 1 exactly if the ticks or the clock are below 2^18 |
| StepDriver.PeriodOfTick | fw/grblhal_esp32/main/driver.c:892-895 | the period is, to less than one microsecond, the time of the tick's own cycles, of the minimum if they are fewer and of 2^18 - 1 if they are 2^18 or more |
| StepDriver.PeriodMonotone | fw/grblhal_esp32/main/driver.c:892-895 | slower ticks never get a shorter period, exactly if the minimum is not itself longer than the cut at 2^18 - 1 |
| I2sOut.Driver.constructor | fw/grblhal_esp32/main/i2s_out_s3.c:893-921 | five descriptors with buffers of their own, not yet started |
| I2sOut.Driver.Init | fw/grblhal_esp32/main/i2s_out_s3.c:915-918 | the full descriptor cycle, full lengths, position 0 and the preset port value |
| I2sOut.Driver.SetStepMask | fw/grblhal_esp32/main/i2s_out_s3.c:842-851 | remembers the step bits, clears them and starts in passthrough |
| I2sOut.Driver.PushSample | fw/grblhal_esp32/main/i2s_out_s3.c:752-765 | appends exactly the requested copies of the port, at least one, none above the safe count |
| I2sOut.Driver.PulseStart | fw/grblhal_esp32/main/driver.c:899-913 | appends the pulse of the tick, setup delay and step, and leaves the step outputs off |
| I2sOut.Driver.PulseFunc | fw/grblhal_esp32/main/i2s_out_s3.c:526-532 | one callback: the samples and the state of the generator's call |
| I2sOut.Driver.StepDue | fw/grblhal_esp32/main/i2s_out_s3.c:519-557 | credits the callback and cuts the ring behind this buffer exactly if the status has become Waiting |
| I2sOut.Driver.StepRest | fw/grblhal_esp32/main/i2s_out_s3.c:560-566 | one resting sample, as the generator emits it |
| I2sOut.Driver.FillOut | fw/grblhal_esp32/main/i2s_out_s3.c:497-570 | the buffer holds exactly the fill of the stream, the published length is exactly what was written, and the ring is cut exactly if the pulser went from Stepping to Waiting |
| I2sOut.Driver.ClearDmaBuffer | fw/grblhal_esp32/main/i2s_out_s3.c:221-231 | the whole buffer holds the value, at full length |
| I2sOut.Driver.ClearDmaBuffers | fw/grblhal_esp32/main/i2s_out_s3.c:233-249 | restores the cycle, all lengths and all buffers |
| I2sOut.Driver.Start | fw/grblhal_esp32/main/i2s_out_s3.c:328-412 | the status becomes the one asked for, passthrough without a callback, and nothing happens before the step mask is set; a fresh ring and the port value in every buffer on entry to stepping, the port value in the idle node on entry to passthrough |
| I2sOut.Driver.SetPassthrough | fw/grblhal_esp32/main/i2s_out_s3.c:778-788 | Stepping becomes Waiting, any other status stays |
| I2sOut.Driver.SetStepping | fw/grblhal_esp32/main/i2s_out_s3.c:790-814 | one look at the status: while it is Waiting nothing changes and the caller looks again; otherwise the driver steps, if it is initialized and has a callback |
| I2sOut.Driver.Reset | fw/grblhal_esp32/main/i2s_out_s3.c:826-840 | a wait ends in passthrough; while stepping it goes on stepping with the ring and the buffers restored; in passthrough nothing changes |
| I2sOut.Driver.StepGen | fw/grblhal_esp32/main/i2s_out_s3.c:576-621 | while stepping fills this buffer, with all other buffers and lengths unchanged; while waiting clears it and cuts the ring, and is in passthrough once the ring is cut here; otherwise clears it |
| I2sOut.Driver.OutTask | fw/grblhal_esp32/main/i2s_out_s3.c:656-668 | the task over any descriptors it takes in turn, from any time while stepping: what it writes, put together, and the lengths it publishes are those of the session of `StepTimeline.BufferedNoDrift`, which is over exactly when the status has left Stepping |
| I2sOut.Driver.IntrHandler | fw/grblhal_esp32/main/i2s_out_s3.c:417-495 | queues the finished descriptor, on overflow drops and clears the oldest and no other, and is in passthrough at the end of the chain |
| Pulser.InvNext | fw/grblhal_esp32/main/i2s_out_s3.c:328-412 | every critical section keeps the invariant: Stepping has the whole ring, lengths are 495 to 500 samples, the position is in the buffer |
| Pulser.PulserRuns | fw/grblhal_esp32/main/i2s_out_s3.c:778-840 | in every run callbacks start only in Stepping; Stepping is entered only from Passthrough or Stopped, always with the fresh ring; no descriptor is cut while the status stays Stepping |
| Pulser.EventEffect | fw/grblhal_esp32/main/i2s_out_s3.c:778-840 | what each critical section achieves: a start with a callback steps, a stop waits, a reset ends the wait or restores the ring, a fill publishes its length, a cut ring ends in passthrough, the DMA goes round the five descriptors |
| Pulser.EffectsInRuns | fw/grblhal_esp32/main/i2s_out_s3.c:778-840 | so for every event of every run |
| Pulser.WaitingEnds | fw/grblhal_esp32/main/i2s_out_s3.c:597-612 | while waiting the bitstream task takes at most five descriptors, and once one is cut the DMA completes at most four more |
| Pulser.CallIsRun | fw/grblhal_esp32/main/i2s_out_s3.c:526-557 | a callback with any status it may leave is a run of critical sections |
| Pulser.FillIsRun | fw/grblhal_esp32/main/i2s_out_s3.c:516-569 | every fill of a buffer is a run of the transition system with the same position, status, callbacks and cut |
| CompletionQueue.NoDuplicates | fw/grblhal_esp32/main/i2s_out_s3.c:469-485 | a contiguous queue holds no descriptor twice |
| CompletionQueue.OverflowEvictsFinished | fw/grblhal_esp32/main/i2s_out_s3.c:469-485 | the interrupt keeps the queue contiguous; it drops an entry exactly if five are queued, and the one it drops and clears is the descriptor that has just finished |
| CompletionQueue.RestartKeeps | fw/grblhal_esp32/main/i2s_out_s3.c:374-386 | a restart keeps the queue contiguous exactly if it is empty or ends with the last descriptor |
| CompletionQueue.RestartCanDuplicate | fw/grblhal_esp32/main/i2s_out_s3.c:374-386 | a run in which a restart leads to the same descriptor queued twice |
| CompletionQueue.RunsStayContiguous | fw/grblhal_esp32/main/i2s_out_s3.c:436-487 | in every run of interrupts, takes and such restarts the queue stays a contiguous run of the cycle that ends at the last finished descriptor |
| CompletionQueue.EnqueuedExactly | fw/grblhal_esp32/main/i2s_out_s3.c:469-485 | the finished descriptor is queued last, and the oldest goes exactly if five are queued |
| CompletionQueue.FirstInFirstOut | fw/grblhal_esp32/main/i2s_out_s3.c:436-487 | in every run the finished descriptors leave the queue once each and in the order in which they finished |
| PassRing.SentAt | fw/grblhal_esp32/main/i2s_out_s3.c:336-350 | the engine sends the nodes up to the idle node once each and then that one for ever |
| PassRing.CommitIsSent | fw/grblhal_esp32/main/i2s_out_s3.c:710-743 | a commit that fits behind a lagging engine is sent complete: what was committed earlier, then exactly the waveform, then the cleared port for ever |
| PassRing.CommitOverruns | fw/grblhal_esp32/main/i2s_out_s3.c:718-738 | what the engine sends when a commit does not fit: none of the samples still to be sent, only the last of the new ones, and then the cleared port for ever |
| PassRing.FitsExactly | fw/grblhal_esp32/main/i2s_out_s3.c:718-738 | commits of n samples are sent complete from the next engine step on, whatever they hold, exactly if lag and samples leave two nodes free |
| PassRun.StepSimulated | fw/grblhal_esp32/main/i2s_out_s3.c:692-743 | seen from the engine, every step that fits is one on a line of samples: a move takes the first or repeats the last, a pin write changes the last, a commit appends |
| PassRun.AllPulsesSent | fw/grblhal_esp32/main/i2s_out_s3.c:710-743 | in every interleaving of engine moves, pin writes and commits that fit, what is sent and still to be sent holds the waveforms of all commits, complete and in order, and no step bit between them |
| PassRun.FitsIsRoom | fw/grblhal_esp32/main/i2s_out_s3.c:710-738 | the condition on commits in these runs is the exact one: it holds if and only if the commit is sent complete, whatever it holds |
| PassRun.MovesSend | fw/grblhal_esp32/main/i2s_out_s3.c:336-350 | n steps of the engine send the n samples that the links lead to, one by one, and change nothing in the ring |
| PassRing.QuietBits | fw/grblhal_esp32/main/i2s_out_s3.c:705-731 | of the port value the step bits go and all others stay |
| PassRing.Ring.constructor | fw/grblhal_esp32/main/i2s_out_s3.c:336-350 | one cycle of twelve with the first node linked to itself |
| PassRing.Ring.Write | fw/grblhal_esp32/main/i2s_out_s3.c:692-708 | changes one port bit, and the idle node shows the port without step bits |
| PassRing.Ring.Commit | fw/grblhal_esp32/main/i2s_out_s3.c:710-743 | any commit keeps the single cycle and fills the nodes behind the idle one with delay and pulse, the next node becomes idle and all others are unchanged; what a full ring has no node for is lost |
| PassRing.Ring.PulseStart | fw/grblhal_esp32/main/driver.c:1670-1694 | commits setup delay and step pulse of a tick, or the delay alone for a direction change without a step |
| PassRing.ModesAgree | fw/grblhal_esp32/main/driver.c:1670-1694 | passthrough and stepping mode put out the same samples for a step and leave the same port, if no step output is inverted or on |
| CrcCcitt.FastByteIsSteps | fw/grblhal_esp32/main/grbl/crc.c:66-70 | the shift trick for one byte does what eight steps of the bitwise register do |
| CrcCcitt.FastCrcIsDivision | fw/grblhal_esp32/main/grbl/crc.c:62-73 | the CRC of every message is the remainder of its bits times x^16 under long division |
| CrcCcitt.CcittCrc16 | fw/grblhal_esp32/main/grbl/crc.c:62-73 | the loop returns that remainder |
| CrcCcittDetection.CrcLinear | fw/grblhal_esp32/main/grbl/crc.c:62-73 | the CRC of the difference of two bit strings is the difference of their CRCs |
| CrcCcittDetection.FastCrcLinear | fw/grblhal_esp32/main/grbl/crc.c:62-73 | the same for messages of bytes |
| CrcCcittDetection.BurstDetected | fw/grblhal_esp32/main/grbl/crc.c:62-73 | bit strings of any length that differ only within 16 consecutive bits have different CRCs |
| CrcCcittDetection.TwoBytesDetected | fw/grblhal_esp32/main/grbl/crc.c:62-73 | messages that differ only within two adjacent bytes have different CRCs |
| CrcCcittDetection.CheckWord | fw/grblhal_esp32/main/grbl/crc.c:62-73 | a message followed by its CRC, high byte first, has the CRC 0 |
| CrcCcitt.CheckValue | fw/grblhal_esp32/main/grbl/crc.c:62-73 | the published check value, started from 0: that of the digits 1 to 9 is 0x31C3 |
| CrcModbus.ModbusCrc16x | fw/grblhal_esp32/main/grbl/crc.c:38-56 | the loops compute the bitwise register on the whole message, from 0xFFFF |
| CrcModbus.TwoBytesDetected | fw/grblhal_esp32/main/grbl/crc.c:38-56 | messages that differ only within two adjacent bytes have different CRCs |
| CrcModbus.CheckWord | fw/grblhal_esp32/main/grbl/crc.c:38-56 | a message followed by its CRC, low byte first as section 2.5.1.2 of MODBUS over Serial Line V1.02 has it, has the CRC 0 |
| CrcModbus.CheckValue | fw/grblhal_esp32/main/grbl/crc.c:38-56 | the published check value: that of the digits 1 to 9 is 0x4B37 |
| CrcModbus.GrblCrc8 | fw/grblhal_esp32/main/grbl/crc.c:24-34 | the loop rotates and adds byte by byte, with 8-bit wrap-around |
| CrcModbus.OneByteDetected8 | fw/grblhal_esp32/main/grbl/crc.c:24-34 | a change of any single byte changes the 8-bit checksum |
| CrcModbus.RotatedBits | fw/grblhal_esp32/main/grbl/crc.c:24-34 | every bit moves up by one place and the top bit comes in at the bottom |
| CrcModbus.Checksum8Pair | fw/grblhal_esp32/main/grbl/crc.c:24-34 | a byte has been rotated once when the next is added: the order of the bytes matters |
| DhChain.ForwardClosed | kinematics/inspector_ikine.py:19-26 | the product of the six links has the closed form: r31 is cos q4, r33 is -sin q4, the position is gamma at the base angle |
| InspectorIk.IkineInspector | kinematics/inspector_ikine.py:41-70 | the branch asked for, or by the loop the one with the smaller error, the positive one on a tie |
| InspectorIk.ErrorIsSum | kinematics/inspector_ikine.py:64-70 | the error is the sum of the squared differences of all twelve entries |
| InspectorIk.BranchPose | kinematics/inspector_ikine.py:53-57 | the joints found for either sign of gamma from a pose of the chain, and the pose they make |
| InspectorIk.WrongError | kinematics/inspector_ikine.py:64-70 | the wrong sign misses the pose by a squared Frobenius error of exactly 8 |
| InspectorIk.AutoExact | kinematics/inspector_ikine.py:47-70 | off the axis the sign of gamma has error 0, the other error 8, and the automatic choice returns q2, q3 and the angles q1 and q4 of the configuration |
| InspectorIk.AutoRebuilds | kinematics/inspector_ikine.py:53-70 | the automatic choice rebuilds the pose exactly if gamma is at least 1e-12 in size or the base angle is a whole number of turns |
| FirmwareIk.SelectBranch | kinematics/ikine_debug.py:52-69 | the loop returns the minus branch, unless it breaks a limit and the plus branch does not |
| FirmwareIk.FkineIsForward | kinematics/ikine_debug.py:41-46 | the position of the firmware's closed formulas is that of the product of the six links, in millimetres |
| FirmwareIk.PitchInDegrees | kinematics/ikine_debug.py:41-46 | the pitch is the last joint angle in degrees |
| FirmwareIk.RoundTrip | kinematics/ikine_debug.py:41-69 | either branch hits the target exactly if it is 1e-9 or more off the axis, or on the x axis on its own side |
| FirmwareIk.ChoiceKeepsLimits | kinematics/ikine_debug.py:57-68 | the answer keeps the limits exactly if one of the branches does, and it is the plus branch only if minus breaks a limit and plus does not |
| FirmwareIk.ReachableInLimits | kinematics/ikine_debug.py:74-77 | every target reached by joints with q3 from -0.001 to 0.181 gets an answer in that range with q1 within half a turn and 0.001 |
| FirmwareIk.TargetComesBack | kinematics/ikine_debug.py:41-77 | a target comes back from the joints found for it exactly if it is off the axis, or on the x axis on the side of the branch taken |
| Eeprom.InPageIsFlat | fw/grblhal_esp32/main/eeprom/eeprom_24AAxxx.c:77-86 | a transfer that stays in its page is a plain copy on a device that wraps inside pages |
| Eeprom.StaysInPage | fw/grblhal_esp32/main/eeprom/eeprom_24AAxxx.c:77-86 | whatever a transfer holds, no cell of another page changes |
| Eeprom.WireBits | fw/grblhal_esp32/main/eeprom/eeprom_24LC16B.c:74-75 | the device address sent is 1010 and the upper three address bits, or 0x50 with a two-byte address behind it |
| Eeprom.ReadWraps | fw/grblhal_esp32/main/i2c.c:188-228 | a read goes on at the beginning of the device behind its end |
| Eeprom.EncodeFaithful | fw/grblhal_esp32/main/eeprom/eeprom_24LC16B.c:74-75 | the address split over device and word address selects the flat address |
| Eeprom.Chip.Write | fw/grblhal_esp32/main/i2c.c:188-228 | one write transfer: stores inside one page, or nothing when it fails |
| Eeprom.Chip.Read | fw/grblhal_esp32/main/i2c.c:188-228 | one read transfer from the selected cell |
| Eeprom.Nvs.PutByte | fw/grblhal_esp32/main/eeprom/eeprom_24AAxxx.c:59-67 | changes exactly the addressed cell, or nothing when the transfer fails |
| Eeprom.Nvs.GetByte | fw/grblhal_esp32/main/eeprom/eeprom_24AAxxx.c:45-57 | the addressed cell, or 0 when the transfer fails |
| Eeprom.Nvs.Count | fw/grblhal_esp32/main/eeprom/eeprom_24AAxxx.c:79-80 | a transfer never crosses a page, and takes all of the rest or all of the page |
| Eeprom.Nvs.WritePages | fw/grblhal_esp32/main/eeprom/eeprom_24AAxxx.c:75-90 | the page loop is a flat copy of the bytes it reports, all of them unless a transfer fails |
| Eeprom.Nvs.WriteBlock | fw/grblhal_esp32/main/eeprom/eeprom_24AAxxx.c:69-103 | without failed transfers memory changes by exactly the block and its checksum, low byte first; with them nothing outside changes, and the bytes counted are stored |
| Eeprom.Nvs.ReadBlock | fw/grblhal_esp32/main/eeprom/eeprom_24AAxxx.c:105-128 | without failed transfers the chunks of 255 bytes give the block, and the verdict is whether its checksum stands behind it |
| Eeprom.RoundTrip | fw/grblhal_esp32/main/eeprom/eeprom_24LC16B.c:66-125 | a block written is read back with a matching checksum, exactly unless it is empty and the cells at its address are not the checksum of nothing |
| Eeprom.CorruptionFound | fw/grblhal_esp32/main/eeprom/eeprom_24LC16B.c:66-125 | a block stored with its checksum is refused after any change within two neighbouring bytes of it |
| LittleFs.InsideDevice | fw/grblhal_esp32/main/eeprom/eeprom_lfs_hal.c:93-94 | all blocks lie inside the device exactly if the partition starts inside it; otherwise the 32-bit subtraction wraps |
| LittleFs.AlwaysInside | fw/grblhal_esp32/main/grbl/nvs_buffer.c:231-232 | with a settings store of at most 4 KB and a device of at least 4 KB every cell of the partition is inside the device and above the first 4 KB |
| LittleFs.BaseAbove | fw/grblhal_esp32/main/eeprom/eeprom_lfs_hal.c:93-94 | the partition begins where the settings store or the first 4 KB end, whichever is later |
| LittleFs.BlocksDisjoint | fw/grblhal_esp32/main/eeprom/eeprom_lfs_hal.c:46-55 | cells of the partition are the same only for the same block and offset |
| LittleFs.Covers | fw/grblhal_esp32/main/eeprom/eeprom_lfs_hal.c:93-94 | the blocks cover all cells above the settings up to the last whole block |
| LittleFs.Partition.constructor | fw/grblhal_esp32/main/eeprom/eeprom_lfs_hal.c:70-97 | start and size of the partition |
| LittleFs.Partition.Prog | fw/grblhal_esp32/main/eeprom/eeprom_lfs_hal.c:51-58 | changes its cells of its block to the data; failing or not it leaves the settings, the rest of the device and all other blocks unchanged, and reports success |
| LittleFs.Partition.Read | fw/grblhal_esp32/main/eeprom/eeprom_lfs_hal.c:41-49 | returns the cells of the block |
| LittleFs.LastProgramStays | fw/grblhal_esp32/main/eeprom/eeprom_lfs_hal.c:41-58 | after any programs before and any later ones that touch none of its cells, a program's cells hold its data |
| BluetoothTx.InvAlways | fw/grblhal_esp32/main/bluetooth.c:171-204 | in every run chunks are lines of at most 250 bytes or full buffers of one, a line feed only at their end, and the queue holds at most 32 |
| BluetoothTx.OneOutstanding | fw/grblhal_esp32/main/bluetooth.c:433-437 | in every run at most one write is outstanding, none while the buffer is filled, the 256-byte buffer is never filled to the end, and the oversized write is never taken |
| BluetoothTx.NextKeeps | fw/grblhal_esp32/main/bluetooth.c:485-527 | a step that loses nothing appends the byte it takes in and moves no other |
| BluetoothTx.NeverReordered | fw/grblhal_esp32/main/bluetooth.c:171-204 | in every run, whatever fails, no byte is duplicated or reordered, and bytes put are bytes accounted for plus bytes lost |
| BluetoothTx.Conservation | fw/grblhal_esp32/main/bluetooth.c:485-527 | sent, held, queued and gathered bytes are together all bytes put, in their order, exactly in the runs in which every chunk got memory and every write was accepted |
| BluetoothWriters.ManyWriters | fw/grblhal_esp32/main/bluetooth.c:171-204 | with any number of writers every byte stays accounted for, once and in order, all along a run exactly if no write is refused and no chunk is queued after the line it copied has changed |
| BluetoothWriters.NeverStale | fw/grblhal_esp32/main/bluetooth.c:171-204 | calls that come one at a time never leave a chunk stale |
| BluetoothWriters.OverlapLoses | fw/grblhal_esp32/main/bluetooth.c:191-201 | a run of two overlapping writers that loses a byte |
| BluetoothStream.PollIsRun | fw/grblhal_esp32/main/bluetooth.c:492-527 | an uninterrupted turn of the poll task is a run of the machine |
| BluetoothStream.CallsAreRun | fw/grblhal_esp32/main/bluetooth.c:189-220 | so are the calls of a write |
| BluetoothStream.Stream.EnqueueChunk | fw/grblhal_esp32/main/bluetooth.c:171-185 | queues the gathered bytes, or nothing without memory; holds the caller up exactly at a full queue |
| BluetoothStream.Stream.PutC | fw/grblhal_esp32/main/bluetooth.c:189-204 | one byte is gathered, full buffers and ended lines are queued, each chunk with or without memory of its own, as the machine's steps have it |
| BluetoothStream.Stream.Resume | fw/grblhal_esp32/main/bluetooth.c:191-201 | the rest of a call that was held up, each chunk with or without memory of its own |
| BluetoothStream.Stream.Write | fw/grblhal_esp32/main/bluetooth.c:214-220 | puts all bytes in turn, up to one that is held up, with any outcome of every allocation |
| BluetoothStream.Stream.Gather | fw/grblhal_esp32/main/bluetooth.c:503-519 | the buffer takes chunks as long as they fit, in bounds |
| BluetoothStream.Stream.PollTx | fw/grblhal_esp32/main/bluetooth.c:494-527 | one turn of the poll task, as the machine's steps have it |
| BluetoothStream.Stream.Written | fw/grblhal_esp32/main/bluetooth.c:433-437 | the semaphore is given back when the write is done |
| BluetoothLaws.ChunksAreLines | fw/grblhal_esp32/main/bluetooth.c:171-204 | in every run: at most 32 chunks, each a line of at most 250 bytes or 250 bytes of one, at most 255 bytes in the poll task's buffer |
| BluetoothLaws.PutStores | fw/grblhal_esp32/main/bluetooth.c:189-201 | a byte enters the line unless 250 stand there, a line feed ends it |
| BluetoothLaws.EnqueueMoves | fw/grblhal_esp32/main/bluetooth.c:171-201 | a waiting line gets its place exactly if fewer than 32 chunks are queued, and the byte that waited begins the next line |
| BluetoothLaws.LineIsOneChunk | fw/grblhal_esp32/main/bluetooth.c:189-220 | the bytes of a line that ends within 250 bytes become one chunk, the last of the queue |
| BluetoothLaws.TurnSends | fw/grblhal_esp32/main/bluetooth.c:492-527 | a turn of the poll task with something queued and no write outstanding writes the longest run of pending chunks below 256 bytes, at least one, and keeps the order of the others; it goes free again exactly if the write is refused |
| BluetoothLaws.TurnWaits | fw/grblhal_esp32/main/bluetooth.c:494-497 | without a connection, with an empty queue or with a write outstanding a turn does nothing |
| BluetoothLaws.CanDrain | fw/grblhal_esp32/main/bluetooth.c:433-527 | from every state in which the poll task waits there is a run of the poll task and the stack that empties the queue and loses nothing |
| BluetoothLaws.OneWriterIsMachine | fw/grblhal_esp32/main/bluetooth.c:171-204 | with one caller the buffers of `BluetoothWriters` go through the states of `BluetoothTx`: the two models tell the same runs |
| StitchRing.PutContents | fw/grblhal_esp32/main/embroidery/embroidery.c:430-457 | a stitch put into the ring stands behind all others |
| StitchRing.TakeContents | fw/grblhal_esp32/main/embroidery/embroidery.c:329-339 | the stitch taken is the oldest, and the others stay |
| EmbroideryJob.NextInOrder | fw/grblhal_esp32/main/embroidery/embroidery.c:296-463 | every step but an underrun keeps: consumed then queued stitches are those read, in file order, and the program end waits for the last |
| EmbroideryJob.UnderrunBreaks | fw/grblhal_esp32/main/embroidery/embroidery.c:313-329 | every underrun breaks that order |
| EmbroideryJob.FileOrder | fw/grblhal_esp32/main/embroidery/embroidery.c:296-463 | all along a run every stitch is consumed once, in file order, and the program end comes only behind the last, exactly if no step takes a stitch from an empty queue |
| EmbroideryJob.UnderrunHappens | fw/grblhal_esp32/main/embroidery/embroidery.c:313-329 | a consumer that runs before the reader does take a stitch from the empty queue |
| EmbroideryJob.AlwaysAccounted | fw/grblhal_esp32/main/embroidery/embroidery.c:250-269 | in every run the programmed counts are those of the stitches read and the executed ones those of the stitches consumed, trims and changes once their chore has run; in sync mode the machine is never more than one stitch ahead of the needle |
| EmbroideryJob.ProgrammedIsConsumedAndQueued | fw/grblhal_esp32/main/embroidery/embroidery.c:433-457 | without underrun programmed is executed, left to the foreground or queued, for each of the five kinds |
| EmbroideryJob.AlwaysPlaced | fw/grblhal_esp32/main/embroidery/embroidery.c:356-421 | in every run the position is the start plus all offsets of consumed stitches but sequins, and the planned moves are exactly those of the consumed stitches, each at the sum up to it |
| EmbroideryJob.PlansAtMostThree | fw/grblhal_esp32/main/embroidery/embroidery.c:326-403 | a step plans moves only if it saw room for three blocks and awaits nothing, and never more than three |
| EmbroideryJob.MotorStops | fw/grblhal_esp32/main/embroidery/embroidery.c:351-366 | without a stop delay the needle motor runs only while stitching, in every run that begins with it off |
| EmbroideryLaws.TakesExactly | fw/grblhal_esp32/main/embroidery/embroidery.c:310-339 | a stitch is taken exactly when the job is not over, nothing is awaited, three blocks are free and the queue is not known to be drained; the first stitch behind other moves also waits for the machine to be idle |
| EmbroideryLaws.FinishesExactly | fw/grblhal_esp32/main/embroidery/embroidery.c:310-324 | the program end is reported exactly when nothing is awaited and the queue has run empty behind the end of the file |
| EmbroideryLaws.ReadsExactly | fw/grblhal_esp32/main/embroidery/embroidery.c:426-463 | a poll of the reader queues the next stitch of the file last, exactly if fewer than seven wait, or notices the end of the file |
| EmbroideryLaws.ColorOfLastStop | fw/grblhal_esp32/main/embroidery/embroidery.c:405-416 | in every run the thread colour is that of the last stop consumed |
| EmbroideryLaws.WaitsExactly | fw/grblhal_esp32/main/embroidery/embroidery.c:209-269 | the waits for a hold to be left, for rest and for the needle begin with their stitches and with nothing else, end with their events and with nothing else, and keep every stitch from being taken |
| EmbroideryLaws.StitchesWait | fw/grblhal_esp32/main/embroidery/embroidery.c:296-424 | in every run: after a trim or thread change no stitch is taken until the machine has left its hold, after an accepted jump until it has come to rest, in sync mode after a stitch until the needle has come up |
| EmbroideryLaws.MotorAtRest | fw/grblhal_esp32/main/embroidery/embroidery.c:305-308 | between stitches only the stop delay, the foreground, the end and a reset stop the motor, the trigger alone sets its time, and coming to rest withdraws the jump output |
| EmbroideryLaws.MotorTaken | fw/grblhal_esp32/main/embroidery/embroidery.c:341-366 | what a taken stitch and the one behind it do to the motor, its stop delay and the jump output |
| EmbroideryLaws.NeedleCounted | fw/grblhal_esp32/main/embroidery/embroidery.c:250-269 | a needle trigger is counted, or during an awaited move an error and nothing else |
| EmbroideryLaws.CompletedIsOver | fw/grblhal_esp32/main/embroidery/embroidery.c:136-151 | once a job is completed nothing is read, taken or planned any more |
| EmbroideryLaws.ChoresInTurn | fw/grblhal_esp32/main/embroidery/embroidery.c:154-196 | trims and thread changes are run oldest first, each one once |
| EmbroideryLaws.ProgrammedByKind | fw/grblhal_esp32/main/embroidery/embroidery.c:433-457 | in every run each programmed count is the number of stitches of its kind that were read |
| EmbroideryLaws.CanFinish | fw/grblhal_esp32/main/embroidery/embroidery.c:296-463 | every job, of any file and in any mode, has a run that consumes the whole file and reports the end |
| EmbroideryRunner.Job.Open | fw/grblhal_esp32/main/embroidery/embroidery.c:503-519 | a job starts at the machine's position with nothing read, counted or awaited |
| EmbroideryRunner.Job.EndJob | fw/grblhal_esp32/main/embroidery/embroidery.c:136-151 | the job is completed, nothing more is read, and the motor is off |
| EmbroideryRunner.Job.SdcardRead | fw/grblhal_esp32/main/embroidery/embroidery.c:426-463 | the machine's reading step |
| EmbroideryRunner.Job.OnExecuteRealtime | fw/grblhal_esp32/main/embroidery/embroidery.c:296-424 | the machine's consuming step |
| EmbroideryRunner.Job.LookAhead | fw/grblhal_esp32/main/embroidery/embroidery.c:341-349 | while stitching, a jump or another stitch behind starts the jump output or the stop delay |
| EmbroideryRunner.Job.Perform | fw/grblhal_esp32/main/embroidery/embroidery.c:356-421 | position, moves, counts, waits and chores of a stitch, by kind |
| EmbroideryRunner.Job.SetNeedleTrigger | fw/grblhal_esp32/main/embroidery/embroidery.c:250-269 | a trigger during a move is an error; any other is counted and ends the wait for one |
| EmbroideryRunner.Job.OnStateChanged | fw/grblhal_esp32/main/embroidery/embroidery.c:209-248 | idle ends the wait for a jump, leaving a hold ends a pause |
| EmbroideryRunner.Job.RunNextChore | fw/grblhal_esp32/main/embroidery/embroidery.c:154-196 | a trim or thread change stops the motor and is counted once |
| Pec.ParseCoordinate | fw/grblhal_esp32/main/embroidery/brother.c:184-231 | either form of a coordinate is read back whatever follows, and no first byte is taken for a colour stop or the end |
| Pec.DecodesItem | fw/grblhal_esp32/main/embroidery/brother.c:162-238 | a call on an encoded stitch or colour stop returns it and stands behind it |
| Pec.RoundTrip | fw/grblhal_esp32/main/embroidery/brother.c:162-262 | a file yields the first colour, then for every list of stitches and stops, in every choice of forms, exactly these in order, then the end |
| Pec.MeaningAt | fw/grblhal_esp32/main/embroidery/brother.c:187-235 | every stitch keeps kind and offset, and the n-th colour stop selects entry n of the palette, for all stitches up to the next |
| Pec.MarkBytes | fw/grblhal_esp32/main/embroidery/brother.c:162-183 | 0xFF ends the stitches; 0xFE and two more bytes are a stop with the next colour of the palette |
| Pec.ShortBytes | fw/grblhal_esp32/main/embroidery/brother.c:184-231 | two bytes below 0x80 are a stitch with signed 7-bit offsets in tenths, y turned round |
| Pec.LongBytes | fw/grblhal_esp32/main/embroidery/brother.c:184-231 | two pairs from 0x80 on are signed 12-bit offsets; flag 0x20 of the second is a trim, otherwise 0x10 a jump |
| PecReader.PecFile.constructor | fw/grblhal_esp32/main/embroidery/brother.c:252-260 | the first colour of the palette is still to be announced |
| PecReader.PecFile.GetStitch | fw/grblhal_esp32/main/embroidery/brother.c:162-238 | the reader over the file cursor does what the decoding function says, behind the end of the file too |
| PecReader.PecFile.ReadAll | fw/grblhal_esp32/main/embroidery/embroidery.c:538-569 | the reading loop collects exactly the stitches the file yields |
| Tajima.TernaryExact | fw/grblhal_esp32/main/embroidery/tajima.c:40-66 | every offset from -121 to 121 has exactly one balanced ternary form |
| Tajima.SpreadDigits | fw/grblhal_esp32/main/embroidery/tajima.c:40-94 | x and y are read back from a record, undisturbed by each other and by the control bits |
| Tajima.SpreadKind | fw/grblhal_esp32/main/embroidery/tajima.c:113-126 | so is the kind, and no encoded record is taken for the end |
| Tajima.HasMask | fw/grblhal_esp32/main/embroidery/tajima.c:40-94 | the eight bits by their masks |
| Tajima.OffsetsByBit | fw/grblhal_esp32/main/embroidery/tajima.c:40-94 | both offsets as the sum of what each of their ten bits adds or takes away |
| Tajima.KindByBits | fw/grblhal_esp32/main/embroidery/tajima.c:96-126 | the kind by the control bits of the third byte |
| Tajima.GetX | fw/grblhal_esp32/main/embroidery/tajima.c:40-66 | the value of the x digits: the sum of plus or minus 1, 3, 9, 27 and 81 over ten bits, each by its byte and mask |
| Tajima.GetY | fw/grblhal_esp32/main/embroidery/tajima.c:68-94 | the value of the y digits: the sum of plus or minus 1, 3, 9, 27 and 81 over ten bits, each by its byte and mask |
| Tajima.EncodingInverse | fw/grblhal_esp32/main/embroidery/tajima.c:111-129 | stitches, jumps and stops with offsets in range come back from their records |
| Tajima.DecodingInverse | fw/grblhal_esp32/main/embroidery/tajima.c:111-129 | canonical records come back from what they decode to |
| Tajima.RoundTrip | fw/grblhal_esp32/main/embroidery/tajima.c:96-134 | a file of any list of them yields exactly that list and then the end |
| Tajima.NeverSequin | fw/grblhal_esp32/main/embroidery/tajima.c:96-124 | no call makes a stitch a sequin, since the sequin mode is forgotten between calls |
| TajimaReader.TajimaFile.GetStitch | fw/grblhal_esp32/main/embroidery/tajima.c:96-134 | the reader over the file cursor does what the decoding function says |
| TajimaReader.TajimaFile.ReadAll | fw/grblhal_esp32/main/embroidery/embroidery.c:538-569 | the reading loop collects exactly the stitches the file yields |

## Left out

- Registers and peripherals (GDMA, I2S, RMT, GPIO, UART): the DMA engine is a walk along descriptors.
- Locks and delays: every critical section is one atomic step, and `Pulser` interleaves these steps in any order.
- A pulse callback that passes through passthrough and back to stepping before it returns.
- Port writes and buffer clearing by other tasks while a callback runs: `I2sOut` sees only the status they leave.
- The second store of the buffer length behind the fill, which repeats the first.
- The local queue variant of the streamer, which the source switches off, and the inverted test of the interrupt allocation at i2s_out_s3.c:992.
- Pulser: a task may take any descriptor at any time; the completion queue's order is not used to restrict it. Nothing is said about stale buffers that are sent again on an underflow.
- StepTimeline.CreditsArePeriods: says nothing about the gap between step pulses for periods of 4n to 4n+3 microseconds, where the code keeps none.
- PulseShape.SteppingPulse: direction and step outputs are different port bits, as in every pin map; so in `PassthroughPulse`, `PortLooksAt` and `PulseLooksAt`.
- BluetoothLaws.CanDrain: a chunk held back for lack of room stays with the poll task when the queue is empty, as in the source.
- StepDriver.PulseSettings.SettingsChanged: reals instead of floats; pulse and delay below 2^32 microseconds; a least number of timer cycles above 32 bits, whose conversion the language leaves undefined, is not cut.
- PassRun: the engine stands still while a commit is made. A run with a commit that does not fit is told by `PassRing.CommitOverruns` for that commit only.
- Floating-point rounding in the kinematics, with the norm squared; the firmware's own inspector.c is not part of this model.
- FirmwareIk.ReachableInLimits: the limits of q2 and q4 are not part of the branch choice in the source, nor here.
- Eeprom: write delays, retries, devices above 64 KB. A failed transfer leaves the device, and a failed read the buffer, as it was. Calls stay inside the device, as the source demands.
- Eeprom.Nvs.ReadBlock: with failed transfers only the rest of the buffer is known to be unchanged.
- LittleFs: the file system above the block device; erase and sync do nothing in the source.
- Bluetooth: pairing, receiving, congestion as an event of its own (it is part of the condition under which the poll task begins), the flush on disconnect, and writers that are interrupted between two waits for the queue; `BluetoothWriters` leaves out chunks without memory, which `BluetoothTx` has. Prompt delivery is not claimed: the source leaves a held chunk until the queue is filled again.
- Embroidery: trigger intervals, the thread break input, messages, feed rates, the G-code listing, a change of settings during a job and nested calls of the consumer. The planner accepts or refuses a jump as it likes.
- EmbroideryJob.FileOrder: the source never tests for a queue that is empty before the end of the file, so the order rests on the stated condition.
- PecReader: file headers, thread names and truncated files beyond what a read behind the end does; entries of the palette from 256 on stand for the memory behind the table.
- Tajima: the first colour, which the source never sets, is modelled but never announced; file headers are not modelled.
- Wi-Fi, Ethernet, web, MQTT, BLE, settings tables, pin maps, spindle PWM and the receive rings.
