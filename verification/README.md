# Verification of the ZuBPM firmware and gateware

A Dafny model of six parts of a beam position monitor: C code of the server that runs on its
processor, and VHDL and Verilog of its programmable logic. For each source file a record of
registers or fields and a function from old to new values say what one call or one clock does, a class
with the source's own fields does it step by step and is proved equal to that function, and lemmas
state what holds over whole runs. `dafny verify dfyconfig.toml` checks everything.

- **TFTP server** (`Tftp`, `TftpSession`, `TftpNetwork`, `TftpRead`, `TftpReadRecover`, `TftpWrite`,
  `TftpWriteRecover`): the session record of `tftp_server.c` with the SD card callbacks, under arbitrary
  packets, timer calls, allocation failures and card errors; then whole transfers with a conforming RFC
  1350 peer over a network that loses, duplicates, delays and reorders datagrams, and their recovery
  from any loss.
- **CORDIC** (`Cordic`, `CordicPolar`, `CordicAngle`, `CordicPhase`, `SeqPolar`): `seqpolar.v` as a 33-step
  fold with its convergence, width, length, angle table and phase error, and as a clocked machine that
  computes that fold.
- **DMA triggers** (`DmaModules`, `DmaBursts`, `DmaSystem`, `DmaWait`): synchroniser, trigger logic and
  the three writers, alone and running together, and the handshake with software.
- **PSC protocol** (`PscMsg`, `PscRecv`, `PscSocket`, `Broadcast`, `BroadcastRuns`, `PscServer`,
  `SocketNumbers`): framing over partial sends and receives that may fail for good or for a while, the
  broadcast to several clients under its mutex, interrupted between any two socket sends, and the reuse
  of socket numbers.
- **Event link** (`EventLink`, `EvgTop`, `EvgLink`, `EventWire`, `EventChan`): the bit-serial timestamp
  link clock by clock, its seconds counter on another clock, and the delay and width counters of an
  event channel.
- **Down-converter** (`FirLpDdc`, `BeamRom`, `BeamDdc`, `BeamMagnitude`, `Averager`): filter, carrier
  tables, turn sums, the path from the ADC to the magnitude, and the fast and slow block averages.

`Words` and `Arith` hold fixed-width words and facts about floor division, `Resets` what one clock of
reset leaves.

Registers of a fixed width are integers with their bounds; every adder wraps explicitly, and it is
proved where it does not. Clocked processes take every new value from the old ones, and where a process
assigns a register twice the last assignment wins.

## Where the code and what is said of it differ

- TFTP transfers are safe only within bounds that the code does not check. A file of more than 65536
  blocks and data of 65536 blocks or more meet block numbers that have been used before: the last
  block's number belongs to an older block, and the ACK of the request carries the number of block
  65536. And when requests are duplicated and the buffer for a block cannot be allocated, old ACKs
  number the blocks of the new session one too high. `ReadSafeExact` and `WriteSafeExact` are the
  exact conditions.
- Only the peer can touch an open session, unless the peer's port or address is 0, which the code
  reads as "no peer yet" (`PeerOnlyExact`).
- o_mag of the CORDIC is declared signed and is one bit too narrow for long inputs (`MagnitudeSign`);
  it is never negative for turns of up to 439 clocks (`MagnitudeNotNegative`).
- The comments call the CORDIC's magnitude rounded to even; with the output shifted by one bit it is
  rounded up (`MagWordExact`). The first entry of its angle table is rounded up, all others down
  (`TableIsAtan`).
- A request that is refused leaves a timer entry behind, because the timer is armed before the request is
  read (`TidyExact`); it goes when it fires.
- The ADC burst is one beat longer than the length in the register, and than the comment at
  `src/hw/hdl/adc2dma.vhd:163` says (`AdcBurst`).
- A strobe on the last clock of a conversion leaves the CORDIC busy with stale registers, and o_done
  comes once more for it (`LateStrobe`); any other strobe while it is busy does no harm.
- The CORDIC's quadrants give both halves of the x axis to the quadrants above them: turning the input
  by 90 degrees is a quarter turn of the first stage exactly when y is not zero (`QuarterTurnStart`),
  and on the x axis the phases of the two inputs need not be a quarter turn apart
  (`QuarterTurnOnAxis`).
- Switching the trigger source can give two trigger pulses on consecutive clocks
  (`SourceSwitchDoublesPulse`). `SeparatedExact` says when, and software avoids it by switching only
  while the status register shows the latch set, which stays set until software clears it.
- A writer that is still putting out its last record ignores a trigger pulse. Software that clears the
  latch before the writers have been inactive for 6 clocks can lose a burst so; `WaitExact` is the exact
  number. `dmadata.c` does not look at that, but goes through far more work than 6 ADC clocks.
- The duplicate of an ACK can cause data to be sent when the session has meanwhile been closed and opened
  again (`ReopeningRevivesAck`), or when its block number has come round (`DuplicateAckSilent`).
- `psc_recvskip` makes one more receive after an error in its loop, for all that is left to skip, into
  its buffer of 128 bytes. That is harmless when a failed receive stays failed, but the sockets have a
  receive timeout (`src/sw/src/listener.c:147-157`, switched on in `src/sw/tcl/main.tcl:81-83`), after
  which later receives may succeed. It is harmless in every case exactly when a message exceeds the
  receive buffer by at most 128 bytes (`SkipExact`, `RecvMsgExact`); otherwise a stall can leave the
  stream out of step (`StallBreaks`, `StallDeliversUnsent`).
- A failed send closes the client's socket, and the client's thread closes the same number again when it
  ends; if accept has given the number out in between, that closes another client's socket, and two
  clients can then share a number (`TwoClientsShareNumber`). `NumbersExact` says when.
- The event channel's pulse needs a delay below 2^32 - 1 (`PulseExact`), and is one clock longer than
  its width register says.
- The comment at `src/hw/hdl/evr/evg_top.vhd:83` has the two bit codes the wrong way round: the code
  sends 0x71 for a one.

## Model

| member | source | states |
|---|---|---|
| `Tftp.ParseRequestExact` | src/sw/src/tftp_server.c:240-254 | a request's name and mode are taken if and only if both are zero-terminated and within 20 and 7 bytes, and are then exactly those bytes |
| `Tftp.SegmentsStoreChain` | src/sw/src/tftp_handler.c:56-72 | writing a pbuf chain segment by segment stores exactly the leading bytes of the concatenated payload that its f_write calls report, all of them when it succeeds |
| `Tftp.TftpServer.SdcardWrite` | src/sw/src/tftp_handler.c:56-72 | the loop over the chain: negative result if and only if some segment was not stored whole, file and position as if the stored bytes were one write |
| `Tftp.TftpServer.DoClose` | src/sw/src/tftp_server.c:97-115 | closing clears peer, retained block and handle and cancels one pending timer entry |
| `Tftp.TftpServer.DoResend` | src/sw/src/tftp_server.c:156-171 | resends the retained block to the peer, or nothing when no buffer is left |
| `Tftp.TftpServer.DoSendData` | src/sw/src/tftp_server.c:173-201 | drops the old block; retains and sends the next 512 bytes under the current number, or closes after a read error, or retains nothing without a buffer |
| `Tftp.TftpServer.ReceiveRequest` | src/sw/src/tftp_server.c:225-280 | the whole new state and the reply for a read or write request, nested requests and failed opens included |
| `Tftp.TftpServer.ReceiveData` | src/sw/src/tftp_server.c:282-320 | the whole new state and the reply for DATA: current, previous or any other block number, short last block, write error |
| `Tftp.TftpServer.ReceiveAck` | src/sw/src/tftp_server.c:322-356 | the whole new state and the reply for an ACK: stale, current, or of the last block |
| `Tftp.TftpServer.Receive` | src/sw/src/tftp_server.c:203-364 | the whole new state and the reply for any datagram from any sender |
| `Tftp.TftpServer.TimerFires` | src/sw/src/tftp_server.c:366-389 | the whole new state and the resent datagram for one timer call |
| `TftpSession.RecvKeepsInv` | src/sw/src/tftp_server.c:203-364 | every datagram keeps the session invariant: no handle means no retained block and no peer, an open handle has a timer pending, retries and elapsed time agree |
| `TftpSession.TickKeepsInv` | src/sw/src/tftp_server.c:366-389 | every timer call keeps the session invariant |
| `TftpSession.Reachable` | src/sw/src/tftp_server.c:203-389 | the session invariant holds after any sequence of datagrams and timer calls, whatever allocations and file operations do |
| `TftpSession.ReachableFromInit` | src/sw/src/tftp_server.c:412-417 | and so in every state reachable from start-up |
| `TftpSession.PeerOnlyExact` | src/sw/src/tftp_server.c:212-217 | datagrams from anyone but the peer leave an open session unchanged if and only if the peer's address and port are both non-zero |
| `TftpSession.ErrorsExact` | src/sw/src/tftp_server.c:212-361 | for every session, sender, datagram and environment: the ERROR of a wrong block number, of an illegal opcode and of a file that cannot be opened goes out, to the sender, if and only if that is the case |
| `TftpSession.AccessErrorsExact` | src/sw/src/tftp_server.c:212-356 | so does the ERROR of an access that is not allowed: a foreign sender, a second request, an unreadable request, DATA or ACK out of place, a write or read that fails |
| `TftpSession.StaleAck` | src/sw/src/tftp_server.c:336-340 | an ACK with another number sends no data and moves nothing but the timeout |
| `TftpSession.DuplicateAckSilent` | src/sw/src/tftp_server.c:322-356 | RFC 1123, section 4.2.3.1: whatever happens while the session stays open, the duplicate of an ACK that moved it on causes no data to be sent, from any sender and with any allocations, if and only if the block number has not come round to it (after 65535 moves, or that plus a multiple of 65536) or the block retained then is the last |
| `TftpSession.OpenRun` | src/sw/src/tftp_server.c:203-389 | while a read session stays open its peer stays, and its block number is the first one plus the number of moves, modulo 2^16 |
| `TftpSession.ReopeningRevivesAck` | src/sw/src/tftp_server.c:256-280 | once the session has closed and been opened again, a duplicate from the earlier session can send data: shown for every file of two blocks |
| `TftpSession.TidyExact` | src/sw/src/tftp_server.c:225-280 | a session with as many timer entries as it should have keeps that through every event if and only if the event is not a request that is refused by a closed server, which leaves an entry over |
| `TftpSession.TidyRun` | src/sw/src/tftp_server.c:203-389 | so without refused requests there is one pending entry for an open session and none otherwise, after any run |
| `TftpSession.WaitOn` | src/sw/src/tftp_server.c:379-388 | where an undisturbed session is after any number of timer calls, and that it has sent exactly the retransmissions due |
| `TftpSession.Abandonment` | src/sw/src/tftp_server.c:366-389 | an undisturbed session closes on exactly the 16th timer call after 5 retransmission attempts when it retains a block, on the 11th otherwise, and not before |
| `TftpNetwork.BlockFacts` | src/sw/src/tftp_server.c:183-199 | blocks are 512 bytes but the last, which is shorter and ends the file, and laid end to end they are the file |
| `TftpRead.SendDataFacts` | src/sw/src/tftp_server.c:173-201 | with block b due, send_data closes, or retains nothing, or retains and sends exactly block b |
| `TftpRead.AckKeepsInv` | src/sw/src/tftp_server.c:322-356 | an ACK from the network keeps the invariant of the whole read: server, reader and every datagram under way |
| `TftpRead.OpeningKeepsInv` | src/sw/src/tftp_server.c:225-280 | so does a request that opens a session, also a duplicated one |
| `TftpRead.TimerKeepsInv` | src/sw/src/tftp_server.c:366-389 | so does every timer call |
| `TftpRead.ExecInv` | src/sw/src/tftp_server.c:173-389 | the invariant holds in every run within the bounds |
| `TftpRead.ExecTiny` | src/sw/src/tftp_server.c:173-389 | files shorter than one block are read correctly in every run, whatever fails |
| `TftpRead.Completes` | src/sw/src/tftp_server.c:173-364 | every file of any length can be read to the end: there is a run in which the reader has it all and the server has closed on the last ACK |
| `TftpReadRecover.Recovers` | src/sw/src/tftp_server.c:173-389 | after any run within the bounds, whatever was lost and however often the server gave up, there is a continuation after which the reader has exactly the file, if the file may be asked for again |
| `TftpRead.WrapBreaks` | src/sw/src/tftp_server.c:349-350 | from 65537 blocks on, some run leaves the reader with bytes that are not the file |
| `TftpRead.ShiftBreaks` | src/sw/src/tftp_server.c:183-186 | when buffers can run out and requests can be duplicated, some run numbers blocks one too high |
| `TftpRead.ReadSafeExact` | src/sw/src/tftp_server.c:173-389 | in every run the reader holds a gap-free prefix of the file, finishes only with all of it, and the server takes the last-block close only then, if and only if the file is below 65536 * 512 bytes and either only one session is opened or buffers never run out or the file is below 512 bytes |
| `TftpWrite.AcceptedBlock` | src/sw/src/tftp_server.c:297-312 | what is stored of the block waited for, when the session goes on, and that an ACK goes out only for a block stored whole |
| `TftpWrite.StoreKeepsInv` | src/sw/src/tftp_server.c:297-312 | storing part or all of the block due keeps the file equal to the data so far over the old content |
| `TftpWrite.BlockKeepsInv` | src/sw/src/tftp_server.c:297-312 | so the invariant of the whole write survives every accepted block |
| `TftpWrite.ExecInv` | src/sw/src/tftp_server.c:203-389 | the invariant of the whole write holds in every run of at most 65535 blocks, over any number of sessions and failures |
| `TftpWrite.AckVouches` | src/sw/src/tftp_server.c:300-306 | ACK n leaves the server only when blocks 1..n are in the file |
| `TftpWrite.Completes` | src/sw/src/tftp_server.c:282-320 | all data of at most 65535 blocks can be written to the end and is then the head of the file |
| `TftpWriteRecover.LostAckIsRepeated` | src/sw/src/tftp_server.c:313-315 | after any run with a session open and a block stored in it, the DATA stored last can be delivered again, and then, cut over pbufs in any way, it puts exactly its ACK on the way to the writer and leaves file, position and block number as they are |
| `TftpWriteRecover.Recovers` | src/sw/src/tftp_server.c:203-389 | after any run there is a continuation after which the writer has finished and all its data is in the file; an open session whose writer is past the request needs no timeout and no other request for it |
| `TftpWrite.WrapBreaks` | src/sw/src/tftp_server.c:311-311 | from 65536 blocks on, the old ACK 0 can acknowledge a block that was never stored |
| `TftpWrite.WriteSafeExact` | src/sw/src/tftp_server.c:282-320 | in every run a session writes a prefix of the data, each byte once and in order, the old tail stays, a block the writer believes stored is stored, and a finished writer's data is all in the file, if and only if the data is below 65535 * 512 bytes |
| `Cordic.PreFacts` | src/hw/hdl/dsp/seqpolar.v:115-138 | the first stage leaves x = 16(|x| + |y|), at most 2^33, and |y| <= x, for every input |
| `Cordic.PreLength` | src/hw/hdl/dsp/seqpolar.v:115-138 | the first stage multiplies the squared length by exactly 512 |
| `Cordic.RotateConverges` | src/hw/hdl/dsp/seqpolar.v:260-279 | one rotation with rounding brings |y| from floor(x / 2^(n-1)) + n - 1 to floor(x' / 2^n) + n |
| `Cordic.FoldConverges` | src/hw/hdl/dsp/seqpolar.v:260-279 | after n rotations |y| <= floor(x / 2^n) + n and x has not decreased |
| `Cordic.GrowthBound` | src/hw/hdl/dsp/seqpolar.v:260-279 | x grows by at most the product of 1 + 2 * 4^-k and three units a rotation |
| `Cordic.ConvergenceAndWidth` | src/hw/hdl/dsp/seqpolar.v:92-94 | for every 29-bit input and each of the 33 rotations: convergence, no adder leaves 35 bits, and finally |y| <= 34 |
| `CordicPolar.RotateExact` | src/hw/hdl/dsp/seqpolar.v:260-279 | rounding moves each coordinate by at most one unit from the exact rotation, which multiplies the squared length by 1 + 4^-k |
| `CordicPolar.FoldLength` | src/hw/hdl/dsp/seqpolar.v:260-279 | after n rotations the squared length is the start's times the gain, up to a rounding error that is summed up rotation by rotation |
| `CordicPolar.GainNumber` | src/hw/hdl/dsp/seqpolar.v:215-219 | the squared gain is between 1.3559 and 1.35591, the root of which the source quotes as 1.164435 |
| `CordicPolar.FinalX` | src/hw/hdl/dsp/seqpolar.v:260-279 | the final x is within 68 units of the exact length, stated on squares |
| `CordicPolar.Magnitude` | src/hw/hdl/dsp/seqpolar.v:287-302 | the output word: xv <= 256 * o_mag <= xv + 256, and within 324 units of the exact length times the gain |
| `CordicPolar.MagWordExact` | src/hw/hdl/dsp/seqpolar.v:287-297 | the rounding: units of 256 are always rounded up, and an exact multiple gets one more when bit 9 is set |
| `CordicPolar.MagnitudeSign` | src/hw/hdl/dsp/seqpolar.v:294-302 | o_mag is non-negative for every input up to one length and negative beyond another that is larger by less than 1 in 200000 |
| `CordicPolar.MagnitudeSignCases` | src/hw/hdl/dsp/seqpolar.v:294-302 | inputs with |x| + |y| <= 2^28 give a non-negative o_mag, the corner of the input range a negative one |
| `CordicPolar.PhaseSum` | src/hw/hdl/dsp/seqpolar.v:254-279 | the phase is the quadrant constant plus each rotation's own table angle with that rotation's sign, modulo one turn; `CordicAngle` has what the table angles are and `CordicPhase` what comes of it |
| `CordicPolar.FoldShift` | src/hw/hdl/dsp/seqpolar.v:260-279 | the start phase only shifts the result |
| `CordicPolar.QuarterTurn` | src/hw/hdl/dsp/seqpolar.v:115-138 | turning an input with y != 0 by 90 degrees keeps o_mag and adds exactly a quarter turn to the phase register |
| `CordicPolar.QuarterTurnStart` | src/hw/hdl/dsp/seqpolar.v:115-138 | the first stage turns by exactly a quarter turn if and only if y != 0 |
| `CordicPolar.QuarterTurnOnAxis` | src/hw/hdl/dsp/seqpolar.v:115-138 | with y == 0 the phase relation fails: at the origin, and at (1, 0) |
| `CordicAngle.TableIsAtan` | src/hw/hdl/dsp/seqpolar.v:151-187 | each of the 37 table entries is the arctangent of 2^-(i+1) in units of 2^-36 turn, rounded down, the first one rounded up; the arctangent is bounded by its alternating series and pi by rationals |
| `CordicPhase.ExactTurn` | src/hw/hdl/dsp/seqpolar.v:260-279 | one rotation without rounding, shrunk by the cosine of its angle, is a rotation by that arctangent |
| `CordicPhase.FoldTurns` | src/hw/hdl/dsp/seqpolar.v:260-279 | after n rotations the vector turned back by all of them and shrunk is the start within 1.42 units a rotation, in every direction |
| `CordicPhase.StageTurns` | src/hw/hdl/dsp/seqpolar.v:115-138 | the first stage scales by 16 times the root of two and turns back by exactly its start phase, in all four quadrants |
| `CordicPhase.OutputCut` | src/hw/hdl/dsp/seqpolar.v:300-300 | o_phase is the 26-bit word o with 1024 o <= ph < 1024 o + 1024 |
| `CordicPhase.OutputNear` | src/hw/hdl/dsp/seqpolar.v:254-300 | the angle of all rotations is at most 1056 phase units ahead of or behind o_phase, whole turns apart |
| `CordicPhase.PhaseError` | src/hw/hdl/dsp/seqpolar.v:115-300 | for every input: turned back by o_phase it is off the x axis by at most 1.04 output units of its length and 3.6 |
| `CordicPhase.PhaseWithin` | src/hw/hdl/dsp/seqpolar.v:115-300 | so outside any radius r + 4 the tangent of the error of o_phase is at most 3.6 / r and 1.04 output units |
| `CordicPhase.PhaseOfConversion` | src/hw/hdl/dsp/seqpolar.v:221-304 | and 36 clocks after a strobe to the idle machine that holds of its o_phase and the strobed input |
| `SeqPolar.Machine.Rotator` | src/hw/hdl/dsp/seqpolar.v:260-279 | the rotation registers |
| `SeqPolar.Machine.Control` | src/hw/hdl/dsp/seqpolar.v:221-255 | idle, pre_valid, state and the angle register |
| `SeqPolar.Machine.Tick` | src/hw/hdl/dsp/seqpolar.v:81-304 | one clock of the whole module from the old values of all registers |
| `SeqPolar.IdleIsReset` | src/hw/hdl/dsp/seqpolar.v:227-252 | an idle machine has its state counter at zero |
| `SeqPolar.Conversion` | src/hw/hdl/dsp/seqpolar.v:254-279 | n clocks after an accepted strobe the machine holds n - 2 steps of the fold, and the angle register holds entry state - 1 |
| `SeqPolar.ResultClock` | src/hw/hdl/dsp/seqpolar.v:281-302 | the last clock of a conversion delivers the fold's outputs and the strobe's auxiliary bit |
| `SeqPolar.MachineRefinesFold` | src/hw/hdl/dsp/seqpolar.v:221-304 | o_done is low for 35 clocks, high after the 36th and low again, with the outputs of the fold of the strobed input, whatever arrives meanwhile; idle again if and only if no strobe comes on the last clock |
| `SeqPolar.LateStrobe` | src/hw/hdl/dsp/seqpolar.v:227-241 | a strobe on that clock starts a conversion that loads nothing; the machine is busy for 35 more clocks and then raises o_done once more |
| `DmaModules.SyncCdc.Tick` | src/hw/hdl/sync_cdc.vhd:20-31 | the three-stage shift register |
| `DmaModules.TrigLogic.Processes` | src/hw/hdl/trig_logic.vhd:91-166 | the four processes, the last assignment to a register winning |
| `DmaModules.TrigLogic.Tick` | src/hw/hdl/trig_logic.vhd:91-190 | one clock of the trigger logic with its two synchronisers |
| `DmaModules.Adc2Dma.Tick` | src/hw/hdl/adc2dma.vhd:164-199 | one clock of the ADC writer |
| `DmaModules.RecordWriter.Tick` | src/hw/hdl/tbt2dma.vhd:181-271 | one clock of a record writer; with 5 words it is fa2dma.vhd:179-252 |
| `DmaBursts.FillStep` | src/hw/hdl/tbt2dma.vhd:194-268 | every clock of a burst keeps beats, count and remaining length in step |
| `DmaBursts.RecordBurst` | src/hw/hdl/tbt2dma.vhd:181-271 | a completed burst of n >= 1 records is exactly words * n beats with header counts 0..n-1, each followed by the sampled words of that record in order, and a single last on the final beat, whatever the spacing of strobes and further triggers |
| `DmaBursts.TbtAndFaBursts` | src/hw/hdl/fa2dma.vhd:179-252 | that is 8n beats for TbT and 5n for FA |
| `DmaBursts.BurstTime` | src/hw/hdl/tbt2dma.vhd:205-261 | with the strobe held the burst ends on exactly the clock 1 + n(words + 1) |
| `DmaBursts.AdcBurst` | src/hw/hdl/adc2dma.vhd:163-199 | an ADC burst of length n >= 1 is n + 1 consecutive beats with last on the final one, and fits the bytes programmed for it |
| `DmaSystem.WritersStay` | src/hw/hdl/adc2dma.vhd:141-199 | idle writers have length zero, a writer turns active only by a trigger pulse, and with length zero it has at most its last record to write |
| `DmaSystem.CountNeverExceedsPulses` | src/hw/hdl/trig_logic.vhd:139-150 | in every run trig_cnt is the number of completions modulo 2^32, never more than the trigger pulses |
| `DmaSystem.SeparatedExact` | src/hw/hdl/trig_logic.vhd:91-134 | for every run and any switching of trigsrc: between any two pulses the latch is set and then cleared by txtoioc_done, if and only if no pulse that the latch has yet to see meets an edge of the source selected on that clock |
| `DmaSystem.PulsesSeparated` | src/hw/hdl/trig_logic.vhd:91-134 | so they are when trigsrc changes only while the status register shows the latch set, or never |
| `DmaSystem.StampOfPulse` | src/hw/hdl/trig_logic.vhd:155-166 | the latched timestamp is the one that came with the latest pulse |
| `DmaSystem.SourceSwitchDoublesPulse` | src/hw/hdl/trig_logic.vhd:97-101 | a switch with the latch low gives two pulses on consecutive clocks |
| `DmaSystem.PulsesLeadByOne` | src/hw/hdl/trig_logic.vhd:91-150 | with separated pulses and txtoioc_done raised only after the count has moved, the pulses lead the count by at most one, and by none when no trigger is pending |
| `DmaWait.EveryPulseStartsThreeBursts` | src/sw/src/dmadata.c:309-420 | when software also leaves the writers inactive for 6 clocks before txtoioc_done, every pulse finds all three writers idle and starts three bursts of the programmed lengths |
| `DmaWait.ShortWaitLosesBurst` | src/hw/hdl/tbt2dma.vhd:242-261 | for any burst lengths and any wait of 5 clocks or fewer, a run from reset that keeps to the handshake in which the TbT writer does not start on a pulse |
| `DmaWait.WaitExact` | src/hw/hdl/tbt2dma.vhd:205-261 | for any burst lengths, every pulse of every run that keeps to the handshake with a wait of q clocks starts all three bursts if and only if q is at least 6 |
| `PscMsg.Be32RoundTrip` | src/sw/src/pscmsg.c:75-87 | the length field survives htonl and ntohl |
| `PscMsg.FrameBytes` | src/sw/src/pscmsg.c:75-102 | the frame byte by byte: 0x50 0x53, id and length with the most significant byte first, the body from byte 8 |
| `PscMsg.ParseFrame` | src/sw/src/pscmsg.c:126-173 | a frame at the head of a stream stands for its message, cut to the buffer, and takes exactly 8 + length bytes |
| `PscMsg.ParseCutFrame` | src/sw/src/pscmsg.c:126-144 | part of a frame yields nothing |
| `PscMsg.StreamRoundTrip` | src/sw/src/pscmsg.c:89-173 | the frames of any messages and part of one more stand for exactly those messages, each body cut to the buffer |
| `PscRecv.WholeFacts` | src/sw/src/pscmsg.c:46-62 | psc_recvall stores all it was asked for, or less with an error, and an error comes only at the end of the stream or when a call has failed with bytes still to come |
| `PscRecv.SkipExact` | src/sw/src/pscmsg.c:64-73 | however calls fail and recover, psc_recvskip keeps to its 128-byte buffer, and success means exactly the bytes asked for, if and only if at most 128 are asked for |
| `PscRecv.FinalSkip` | src/sw/src/pscmsg.c:64-73 | when a failed call is final it does so for any length |
| `PscRecv.StallBreaks` | src/sw/src/pscmsg.c:69-72 | for any longer skip and any number of bytes that come before a time-out: the last receive stores the whole length, and success is reported with the stream out of step by those bytes |
| `PscRecv.MsgFacts` | src/sw/src/pscmsg.c:146-173 | psc_recvmsg succeeds on a whole frame and fails on less, if no call fails with bytes still to come |
| `PscRecv.MsgExact` | src/sw/src/pscmsg.c:146-173 | on success it has the message at the head of the stream, cut to the buffer, with exactly its frame consumed, when failures are final, or nothing has been lost, or the excess is at most 128 bytes |
| `PscRecv.RecvMsgExact` | src/sw/src/pscmsg.c:146-173 | over all arrivals that holds of a message of an announced length if and only if it exceeds the buffer by at most 128 bytes |
| `PscRecv.LoopDeliversPrefix` | src/sw/src/listener.c:208-216 | the receive loop delivers the first messages of the stream in order, when failures are final or no message exceeds the buffer by more than 128 bytes |
| `PscRecv.LoopDeliversAll` | src/sw/src/listener.c:208-216 | and all of them, whatever their lengths, when no call fails with bytes still to come |
| `PscRecv.PromptLoop` | src/sw/src/listener.c:208-216 | which is so when each call finds something as long as there is anything to come |
| `PscRecv.RoundTrip` | src/sw/src/pscmsg.c:89-173 | so the frames of any messages and part of one more, split in any way, are received as those messages, each cut to the buffer: all of them, or the first of them, under the same conditions |
| `PscRecv.StallDeliversUnsent` | src/sw/src/listener.c:208-216 | with a longer message and a stall while it is skipped, the loop delivers a message that was never sent |
| `PscSocket.SendAll` | src/sw/src/pscmsg.c:28-44 | all of the buffer, or a strict prefix and an error, for any partial sends |
| `PscSocket.RecvAll` | src/sw/src/pscmsg.c:46-62 | result, bytes and state of the stream for any partial receives and failures |
| `PscSocket.RecvSkip` | src/sw/src/pscmsg.c:64-73 | result, bytes in the buffer and state of the stream, the receive after an error included |
| `PscSocket.SendMsg` | src/sw/src/pscmsg.c:75-102 | the whole frame, or a strict prefix and an error |
| `PscSocket.RecvHead` | src/sw/src/pscmsg.c:126-144 | result, id and length of the header at the head of the stream |
| `PscSocket.RecvMsg` | src/sw/src/pscmsg.c:146-173 | result, message, bytes in the skip buffer and state of the stream |
| `PscSocket.ReceiveLoop` | src/sw/src/listener.c:208-216 | the messages delivered and the state of the stream |
| `PscSocket.Transfer` | src/sw/src/pscmsg.c:89-173 | both ends together: what psc_sendmsg has sent until it fails is received as the messages sent whole, each cut to the buffer, all of them if no receive fails with bytes still to come |
| `Broadcast.RunKeeps` | src/sw/src/listener.c:55-90 | every interleaving of accept, release, broadcast, single send, partial send and failure keeps the invariant of slots, holder and streams; what each call comes to is in `BroadcastRuns` and `PscServer` |
| `Broadcast.StreamsAreFrames` | src/sw/src/listener.c:235-271 | in every interleaving each connection's bytes are whole frames and at most one cut-off frame, its broadcasts are consecutive from its allocation on, live slots hold distinct connections, and a free mutex means no partial frame and nothing missed |
| `Broadcast.ClientSeesWholeMessages` | src/sw/src/listener.c:235-256 | the receiver at the other end gets exactly the messages sent whole |
| `Broadcast.ClosedIsFrozen` | src/sw/src/listener.c:247-254 | and then nothing: once a connection has no live slot, after a failed send or its release, its bytes are the same in every continuation of the run |
| `Broadcast.SameOrder` | src/sw/src/listener.c:239-255 | two clients get the broadcasts they share in the same order, and both get every one between their common start and end |
| `BroadcastRuns.Admits` | src/sw/src/listener.c:55-76 | in every reachable state with a free mutex the lowest of the four slots that is unused becomes live with a new connection that has been sent nothing and starts at the next broadcast; with all four used nothing changes |
| `BroadcastRuns.BroadcastCompletes` | src/sw/src/listener.c:235-256 | from every reachable state with a free mutex a broadcast of any message can be carried to its end: each live connection gets the whole frame, no other connection and no slot changes |
| `BroadcastRuns.SendOneCompletes` | src/sw/src/listener.c:258-271 | so can a message to one client, which alone gets the frame, if its socket is open |
| `PscServer.Server.constructor` | src/sw/src/listener.c:33-41 | no slot is used at first, and the broadcast is at its start |
| `PscServer.Server.Alloc` | src/sw/src/listener.c:55-76 | the lowest unused slot if there is one, nothing changed otherwise; it is the broadcast's accept step |
| `PscServer.Server.Free` | src/sw/src/listener.c:78-90 | the slot is unused again and nothing else changes; it is the broadcast's release step |
| `PscServer.Server.Serve` | src/sw/src/listener.c:247-253 | the slot's stream gains the whole frame, or a strict prefix and its socket is closed; no other socket is touched |
| `PscServer.Server.Send` | src/sw/src/listener.c:235-256 | every live slot is served exactly once, no other socket is touched; it is a run of the broadcast's steps that logs the message |
| `PscServer.Server.SendOne` | src/sw/src/listener.c:258-271 | the client is served if its socket is open, nothing else changes; it is a run of the broadcast's steps |
| `PscServer.SocketsAreFrames` | src/sw/src/listener.c:235-271 | so between any two calls the socket of every connection there has ever been has got whole frames and at most one cut off, and those of live slots whole frames only |
| `SocketNumbers.NumbersExact` | src/sw/src/listener.c:226-229 | in every run, live clients hold open socket numbers of their own all along if and only if no thread's own close, after its client's number has been closed once by a failed send, hits a number that a live client has by then |
| `SocketNumbers.NoReuseIsSound` | src/sw/src/listener.c:247-253 | so they do when accept gives out no number that some thread has still to close |
| `SocketNumbers.TwoClientsShareNumber` | src/sw/src/listener.c:226-229 | otherwise two live clients can end up with the same number |
| `EventLink.TsGen.Tick` | src/hw/hdl/evr/ts_gen.vhd:32-103 | one clock of the serialiser, reset included |
| `EventLink.EventRcvTs.Tick` | src/hw/hdl/evr/event_rcv_ts.vhd:51-125 | one clock of the deserialiser, reset included |
| `EventLink.AlignedStays` | src/hw/hdl/evr/event_rcv_ts.vhd:52-76 | every clock with a held time keeps receiver and generator in step: bits already sent are in place, the position is the next bit's |
| `EventLink.LatchedStays` | src/hw/hdl/evr/event_rcv_ts.vhd:80-87 | the seconds register is the last frame's time, or will be when the latch code under way arrives |
| `EventLink.Realign` | src/hw/hdl/evr/event_rcv_ts.vhd:52-61 | from any receiver state one latch code puts it in step |
| `EventLink.ClearMissesBits` | src/hw/hdl/evr/event_rcv_ts.vhd:103-113 | in every run the delayed clear never meets a bit code, and the latch code finds all the frame's bits |
| `EventLink.FrameClock` | src/hw/hdl/evr/ts_gen.vhd:42-95 | a frame takes exactly 430 clocks, with the latch code on the last one |
| `EventLink.FrameRoundTrip` | src/hw/hdl/evr/ts_gen.vhd:32-103 | for every 32-bit time held during its frame, the receiver's seconds are that time 432 clocks after the start was accepted, and the generator is free after 430 |
| `EventLink.SelfSynchronising` | src/hw/hdl/evr/event_rcv_ts.vhd:51-113 | whatever the receiver holds when a latch code has left the generator, the next frame is decoded, however long the link idles between |
| `EventLink.InitAligned` | src/hw/hdl/evr/event_rcv_ts.vhd:35-40 | the declared initial values are in step |
| `EventLink.StampsIncrease` | src/hw/hdl/evr/event_rcv_ts.vhd:116-125 | when each frame carries a later time and the offset does not wrap, the registered (seconds, offset) strictly increases on every clock after the first |
| `EvgTop.Evg.TickEvg` | src/hw/hdl/evr/evg_top.vhd:62-78 | one clock of the transmit register |
| `EvgTop.Evg.TickSys` | src/hw/hdl/evr/evg_top.vhd:110-129 | one clock of the 1 Hz signal and the second counter |
| `EvgTop.ReceiverSeesCode` | src/hw/hdl/evr/evg_top.vhd:69-75 | the low byte of the link word is the generator's code, or a comma that the receiver ignores |
| `EvgTop.SecondsCounted` | src/hw/hdl/evr/evg_top.vhd:110-129 | out of reset the 1 Hz signal changes every 50,000,000 clocks and the second counter is the reset value plus the number of rises, modulo 2^32 |
| `EvgLink.RiseSeen` | src/hw/hdl/evr/evg_top.vhd:96-103 | the synchronised start pulse comes two link clocks after the first sample of a new odd half second |
| `EvgLink.TimeHeld` | src/hw/hdl/evr/evg_top.vhd:85-92 | the time does not change for 430 link clocks from a start, when 432 of them take at most a second |
| `EvgLink.StartsApart` | src/hw/hdl/evr/evg_top.vhd:85-103 | any two starts are a frame apart and the later one carries a later second |
| `EvgLink.AlwaysSteady` | src/hw/hdl/evr/evg_top.vhd:85-92 | on every clock of every run the time is held while the generator is busy |
| `EvgLink.SecondsArrive` | src/hw/hdl/evr/evg_top.vhd:61-129 | every start is taken, and 432 link clocks later the receiver's seconds are the counter's |
| `EvgLink.SystemStampsIncrease` | src/hw/hdl/evr/evg_top.vhd:61-129 | from the declared initial values on, the receiver's timestamps strictly increase on every clock after the first, as long as the second and offset counters do not wrap |
| `EventWire.FrameTrace` | src/hw/hdl/evr/ts_gen.vhd:41-95 | the exact trace of a frame: dout_val is high on clock 2 with 0x20, on clock 417 - 13 j with 0x70 plus bit j of the time, on clock 430 with 0x7D, and on no other until the next start |
| `EventWire.WireTrace` | src/hw/hdl/evr/evg_top.vhd:62-78 | one clock later the transmit register's low byte is that code, and 0xBC on all other clocks |
| `EventWire.TransmitTrace` | src/hw/hdl/evr/evg_top.vhd:62-78 | codes go out as data characters, 0x50BC with a comma on all other clocks |
| `EventWire.OffsetCounts` | src/hw/hdl/evr/event_rcv_ts.vhd:80-100 | from 432 clocks after a start the receiver has the frame's seconds, and its offset counts the clocks since then |
| `EventWire.StampAfterFrame` | src/hw/hdl/evr/event_rcv_ts.vhd:115-127 | and the timestamp register has the same, one clock behind |
| `EventWire.OneMatch` | src/hw/hdl/evr/evr_top.vhd:397-408 | a channel programmed to 0x20 sees exactly one match from one start to the next |
| `EventWire.OneHzPulse` | src/hw/hdl/evr/event_rcv_chan.vhd:41-94 | so for every delay and width that channel gives one pulse for a frame, on exactly the clocks that delay and width say |
| `EventWire.GpsPulse` | src/hw/hdl/evr/evr_top.vhd:397-408 | the channel for the second tick, delay 1 and width 3125000, is high for exactly 3125001 clocks |
| `EventChan.EventRcvChan.Tick` | src/hw/hdl/evr/event_rcv_chan.vhd:41-94 | one clock of the four registers, reset included |
| `EventChan.EventRcvChan.Output` | src/hw/hdl/evr/event_rcv_chan.vhd:97-98 | the output pin |
| `EventChan.RunExpected` | src/hw/hdl/evr/event_rcv_chan.vhd:41-94 | all four registers after any number of clocks, in closed form |
| `EventChan.PulseExact` | src/hw/hdl/evr/event_rcv_chan.vhd:41-94 | for every delay and width of at least 1, one event gives one pulse that rises on clock delay + 3 and lasts width + 1 clocks, and then all registers are idle, if and only if the delay is not 2^32 - 1; events during the delay change nothing |
| `EventChan.PinShowsPulse` | src/hw/hdl/evr/event_rcv_chan.vhd:97-98 | the pin shows the pulse in the chosen polarity, and is low when delay or width is zero |
| `FirLpDdc.Filter.Tick` | src/hw/hdl/dsp/fir_lp_ddc.vhd:55-87 | one clock of the tap, sum and output registers |
| `FirLpDdc.ConvFits` | src/hw/hdl/dsp/fir_lp_ddc.vhd:57-72 | the convolution of any four 24-bit samples fits the 40-bit sums |
| `FirLpDdc.RefinesConvolution` | src/hw/hdl/dsp/fir_lp_ddc.vhd:55-87 | from any register contents, from the sixth clock on the output is the direct convolution rounded down, three clocks late |
| `FirLpDdc.StaysBetween` | src/hw/hdl/dsp/fir_lp_ddc.vhd:43-43 | the output lies between the least and the greatest of its four samples |
| `FirLpDdc.ImpulseResponse` | src/hw/hdl/dsp/fir_lp_ddc.vhd:43-87 | a lone sample, wherever it is, comes out as 8657, 24111, 24111 and 8657 parts of 65536 on the third to sixth clock, and as nothing before and after |
| `FirLpDdc.SteadyPasses` | src/hw/hdl/dsp/fir_lp_ddc.vhd:43-87 | a steady input comes out as it is |
| `FirLpDdc.AlternatingRemoved` | src/hw/hdl/dsp/fir_lp_ddc.vhd:43-87 | an input that alternates in sign comes out as zero |
| `FirLpDdc.ReversedWindow` | src/hw/hdl/dsp/fir_lp_ddc.vhd:43-87 | linear phase: the last four samples in reverse give the same output |
| `BeamRom.TablesOnCircle` | src/hw/hdl/dsp/beam_cos_rom.vhd:42-49 | at every address |cos| and |sin| are at most 32767, together at most 46324, and cos^2 + sin^2 is 32767^2 within 41464 |
| `BeamRom.TablesTurn` | src/hw/hdl/dsp/beam_sine_rom.vhd:42-49 | the first entry is (32767, 0), and each entry is the one before turned by one and the same angle within 1.17 units, the first following the last |
| `BeamRom.Reader.Tick` | src/hw/hdl/dsp/beam_cos_rom.vhd:56-93 | one clock of address, look-up and output registers |
| `BeamRom.LockedToTurn` | src/hw/hdl/dsp/beam_sine_rom.vhd:56-93 | n + 2 clocks after a trigger the carrier is entry n of its table, round and round, whatever came before |
| `BeamRom.CarriersTurn` | src/hw/hdl/dsp/beam_cos_rom.vhd:56-93 | between triggers each pair of carrier values put out is the pair before turned by that angle |
| `BeamRom.PairStays` | src/hw/hdl/dsp/beam_sine_rom.vhd:56-93 | under common triggers sine and cosine always come from the same address |
| `BeamDdc.Ddc.Tick` | src/hw/hdl/dsp/beam_ddc.vhd:160-259 | one clock of both halves of the down-converter |
| `BeamDdc.FilteredIs` | src/hw/hdl/dsp/beam_ddc.vhd:160-234 | once the pipeline has filled, the accumulated value is the filtered mixed signal of clocks k - 8 to k - 5 |
| `BeamDdc.OtherFilter` | src/hw/hdl/dsp/beam_ddc.vhd:199-259 | with the long filter selected, its output is what is accumulated, one clock later |
| `BeamDdc.TurnSum` | src/hw/hdl/dsp/beam_ddc.vhd:239-259 | isum and qsum are the sum of the filtered samples of the clocks strictly between two triggers, as 32-bit words |
| `BeamDdc.TurnExact` | src/hw/hdl/dsp/beam_ddc.vhd:239-259 | for every signal and carrier that sum is exact if and only if there are at most 512 clocks between the triggers |
| `BeamMagnitude.HalvesRun` | src/hw/hdl/dsp/beam_ddc.vhd:199-236 | the channel with its two tables is the two halves, each fed by its table |
| `BeamMagnitude.TurnVector` | src/hw/hdl/dsp/beam_ddc.vhd:239-270 | for turns of up to 439 clocks both turn sums are exact and the vector that the CORDIC is given is bounded |
| `BeamMagnitude.MagnitudeNotNegative` | src/hw/hdl/dsp/beam_ddc.vhd:262-276 | for every signal and turns of up to 439 clocks the CORDIC's inputs are in range and its magnitude is not negative |
| `Averager.BlockAverager.Tick` | src/hw/hdl/dsp/fa_dsp.vhd:117-198 | one clock of an averaged channel; with the other constants it is sa_dsp.vhd:117-209 |
| `Averager.BlockSums` | src/hw/hdl/dsp/fa_dsp.vhd:150-198 | in every run the latch is the sum of the last whole block and the accumulator of the block under way, as words of its width; the counters count samples and blocks |
| `Averager.BlockLength` | src/hw/hdl/dsp/fa_dsp.vhd:166-186 | the first block has one sample less than the block length, every later one exactly that many |
| `Averager.Conserved` | src/hw/hdl/dsp/sa_dsp.vhd:154-209 | at every step latched sums and accumulator add up to the sum of all samples, as words of the accumulator's width |
| `Averager.ExactSums` | src/hw/hdl/dsp/sa_dsp.vhd:154-209 | and exactly, for samples small enough |
| `Averager.ExactSignals` | src/hw/hdl/dsp/fa_dsp.vhd:48-66 | samples within b are always summed exactly if and only if a block of them fits the accumulator: every 32-bit signal for the slow average, up to 1808407282 for the fast one |
| `Averager.OutputIsMean` | src/hw/hdl/dsp/fa_dsp.vhd:104-142 | the output is the block mean within one unit and a relative error of 1/2^18 for the fast average and 864/2^26 for the slow one |
| `Averager.OutputHolds` | src/hw/hdl/dsp/fa_dsp.vhd:121-142 | the output holds: after any run it is the mean, with that accuracy, of the block that was the last whole one at the latest latch trigger |
| `Averager.OutputBeforeLatch` | src/hw/hdl/dsp/fa_dsp.vhd:121-142 | before the first latch trigger it is zero |
| `Resets.CordicReset` | src/hw/hdl/dsp/seqpolar.v:221-252 | whatever the registers hold, one clock of reset leaves the machine idle with its counter at zero and o_done low |
| `Resets.DmaReset` | src/hw/hdl/trig_logic.vhd:91-166 | the trigger logic and the three writers are then in the state from which the runs of `DmaSystem` start |
| `Resets.LinkReset` | src/hw/hdl/evr/evg_top.vhd:62-129 | so are both ends of the event link, the transmit register, the second counter and an event channel |
| `Resets.DdcReset` | src/hw/hdl/dsp/fa_dsp.vhd:121-198 | and filter output, turn sums, carriers and averages, but for the averager's latched sum, which reset keeps |

## Left out

Simplifications inside what is modelled:

- TftpServer: file names are checked but not used, there is one file; f_write stores a leading part of a segment when it fails; packet buffers, lwIP timers and FatFS are a chain of segments, a count of pending entries and a byte file; the C `int` timer does not overflow; datagrams shorter than their opcode and number fields are not modelled.
- TftpRead: peers other than the reader never open a session of their own in the runs; the file does not change under a transfer.
- TftpWrite: peers other than the writer never open a session of their own in the runs.
- MachineRefinesFold: angle table entries past the 37 that the source defines are taken as zero; the machine never uses them.
- TableIsAtan: cosine, sine, arctangent and pi are any four that obey the laws of `IsTrig`: sums of angles, the circle, sine below its angle, the alternating series of the arctangent, pi to twelve digits; that there are such functions is not proved here, and the same goes for PhaseError, PhaseWithin and PhaseOfConversion.
- Recovers: shows that a continuation exists, not how long it takes or that a given peer follows it; for reads the runs in which only one session may be opened are left out.
- TrigLogic: trigger inputs are arbitrary booleans per clock, metastability is not modelled; the third synchroniser, whose output nothing uses, is left out.
- RecordWriter: the test-data counter and its multiplexer, the FIFO behind the stream and its tready are left out; the FIFO is taken as never full.
- Adc2Dma: carries strobes and length only, not the sample bits; FIFO and test data as for RecordWriter.
- EveryPulseStartsThreeBursts: the software side is an assumption on when txtoioc_done is raised, from the order of steps in the push loop; resets after the first are not part of the runs.
- Socket: what each coming receive finds is a list fixed beforehand; errno values are reduced to a few; what the C code does after it has stored past the end of the skip buffer is not modelled, only that it stores there.
- Transfer: has no counterpart in the server, it is a client's sends and the server's receive loop put together.
- Broadcast: slot allocation and the assignment of `sock`, which the code does after it has released the mutex, are one accept step; streams are told apart by slot lifetime, not by socket number, so it does not show what the reuse of numbers does, which `SocketNumbers` has.
- NumbersExact: a client for which there is no slot, whose socket is closed at once, is left out; sends and their results enter only as the event that one fails.
- Alloc: the client's socket is a new one, which has been sent nothing; as in `Broadcast`, slot and socket are set in one step.
- Server: the bit mask of used slots is an array of booleans, and the client records keep only their socket, null standing for -1; its methods run under the mutex, `Broadcast` has the interleavings.
- FrameRoundTrip: the link between transmitter and receiver is lossless and has no delay of its own; that the time is held is an assumption here and proved of the whole system in `EvgLink`; resets are part of the single clock steps only.
- SecondsArrive: the two clocks are the number of system clocks before each link clock; metastability of the synchroniser is not modelled.
- StampsIncrease: later times and no offset wrap are assumptions on the frames sent; `SystemStampsIncrease` keeps only those on the width of the two counters.
- Evg: powers up with zeros where the source leaves a register undefined.
- BlockAverager: one of the seven channels, which are alike and share the counters.
- OutputIsMean: for the first block, which has one sample less, the sum is still divided by the full block length.
- TurnSum: the 4-tap path; the 101-tap filter is a vendor core and enters as an arbitrary input.
- MagnitudeNotNegative: states the value that the CORDIC gives for the turn sums, not the clock on which it is strobed.

Not modelled, because their source is not part of the repository, or because nothing in the parts above
depends on them:

- FIFO, AXI DMA, divider, long filter, transceiver and clocking cores.
- `mycordic.v`, `rect2polar_seq.v`, `EventReceiverChannel.v` and `timeofDayReceiver.v`, which the design does not use.
- The position arithmetic of `pos_calc.vhd` and `dmadata.c`, which is floating point or needs the divider core.
- `psc_sendmsgsingle`, `psc_error` and the discovery reply.
- I2C and SPI chip set-up, ADC bit alignment, sensors, statistics, console, SD card configuration.
- Register maps, constraints, scripts and test benches.
