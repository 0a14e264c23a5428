# wifistepper firmware core in Dafny

This project models the byte-level core of the wifistepper firmware.
wifistepper is an ESP8266 board that drives a powerSTEP01 stepper-motor
driver. The firmware is one cooperative loop with no threads. Each component
below therefore becomes a sequential state machine over fixed-size buffers,
with its collaborators (sockets, serial port, SPI, flash, clocks) passed in as
values.

| module (file) | models |
|---|---|
| `Bytes` (bytes.dfy) | Fixed-width integers and little-endian packing (the firmware's packed structs). Also the checksum sum, the C-string prefix, and the `memmove`/`memcpy` primitives on arrays. |
| `Ecc` (ecc.dfy) | The ATECC508A packet CRC-16 (`_ecc_crc16`, `_ecc_pack`, `_ecc_check`). |
| `CommandQueue` (command.dfy) | The motion command queue (command.cpp): the 2048-byte arena `Q` with `Qlen`/`Qid`, the enqueuers, `cmd_empty`, `cmd_estop` and the `cmd_loop` interpreter, as a class over an array. The record codec and the interpreter's meaning are pure functions beside it. |
| `Config` (config.dfy) | The string/enum helpers of wifistepper.h: `parse_*`, `json_serialize`, `motorcfg_dir`, `motorcfg_pos`. |
| `PsTypes` (pstypes.dfy) | The driver's enumerations and their register codes (powerstep01.h). |
| `PsOpcodes` (psopcodes.dfy) | The powerSTEP01 command-byte macros of powerstep01priv.h. |
| `Powerstep` (powerstep.dfy) | The register byte packing and the read-modify-write setters of powerstep01.cpp. They run against a chip whose SPI exchange is a register file. |
| `Daisy` (daisy.dfy) | The daisy-chain frame parser of daisy.cpp: sync, forwarding of skipped bytes on slaves, header and address checks, the one-byte resync, the additive checksum. |
| `LocalFraming` (ltframing.dfy) | What the two local TCP services (lowcom.cpp, lowtcp.cpp) share: the preamble/header layout, the `lc_handletype` consume count, `0xAE` resync, the bounded output buffer of `lc_send`, connection state. |
| `LowCom`, `LowTcp` (lowcom.dfy, lowtcp.dfy) | The two dialects of `lc_handlepacket`. lowcom acknowledges accepted packets and takes the last will from the header's queue. lowtcp sends no acks and takes the last will from a one-byte payload. |
| `LocalService` (ltservice.dfy) | The per-client state machine of both services (`Client`) and the service over its two slots (`Service`): the read and handle phases of the loop, and the accept, expire and ping phases of the update. |
| `WebSocket` (websocket.dfy) | `ws_packint`/`ws_buf2int`, the binary-frame checks of `ws_event` and its status and state replies. |
| `Update` (update.dfy) | The resumable `update_handlechunk` state machine of a firmware upload, and the upload handler's begin, write and end branches. |

Where the code and its own comments disagree, the code is what is modelled:
- The daisy checksum covers `LEN + 1` bytes from offset 3, as daisy.cpp:82 computes. The comment at daisy.cpp:37 says `LEN + 4`.
- `_ecc_crc16` takes its length as `uint8_t`, so `_ecc_pack` and `_ecc_check` use the CRC span `(len - 2) mod 256`.
- `cmd_loop` treats `CMD_WAITMILLIS` like any other record: it is consumed at once, without waiting.
- The `Qid` reset test at command.cpp:102 compares a 32-bit counter with a 64-bit constant, so it never fires. The counter wraps modulo 2^32.
- The enqueuer's id is taken only after the capacity check (command.cpp:218), so a rejected enqueue does not advance `Qid`.

Several lines of command.cpp cannot compile as written. The model gives them their evident meaning:
- `CMD_OPCODE` at 234 is read as `CMD_NOP`.
- The `H = {…}` initialisers are read as the record's header.
- The missing `;` at 137 is supplied.
- `sizeof(cmd_)` at 200 is read as the header plus the stored NUL-terminated string.
- `commandst->` at 101/107 is read as a field access.

lowcom.cpp:478-479 and lowtcp.cpp:425-426 read `state.daisy.active` and `state.daisy.slaves`. `state_t` has no `daisy` field: the chain state is `state.service.daisy` (wifistepper.h:187-196), whose count is named `numslaves` (a `uint8_t`). The model reads them so. `Env.daisyMaster` stands for `config.daisy.enabled && config.daisy.master && state.service.daisy.active`, and `Env.slaves` for `state.service.daisy.numslaves`.

websocket.cpp passes `nextid()` as an extra first argument to `cmd_stop`, `cmd_goto`, `cmd_run` and `cmd_stepclock`. command.cpp's signatures have no such argument. The model reads each call as enqueuing the command, and carries the drawn id in the effect.

## Model

| member | source | states |
|---|---|---|
| Bytes.ToUnsigned32 | firmware/wifistepper/websocket.cpp:24-32 | Reinterpreting an `int32_t` as `uint32_t` is undone by the reverse reinterpretation. |
| Bytes.ToSigned32 | firmware/wifistepper/websocket.cpp:24-32 | The signed reading of a `uint32_t` is congruent to it modulo 2^32. |
| Bytes.UnpackPackLE | firmware/wifistepper/lowcom.cpp:29-36 | Reading back an n-byte little-endian field gives the value written. |
| Bytes.PackUnpackLE | firmware/wifistepper/lowcom.cpp:29-36 | Writing back the value read from a little-endian field reproduces its bytes. |
| Bytes.UnpackPackLE16 | firmware/wifistepper/lowcom.cpp:34-35 | A 16-bit packed field (`packetid`, `length`) reads back as written. |
| Bytes.UnpackPackLE32 | firmware/wifistepper/command.cpp:30-86 | A 32-bit packed field (ids, positions, counts) reads back as written. |
| Bytes.PackUnpackLE32 | firmware/wifistepper/command.cpp:30-86 | Any four bytes are the packing of the 32-bit value they hold. |
| Bytes.IndexOf | firmware/wifistepper/daisy.cpp:40-43 | The sync scan stops at the first occurrence of the byte, or at the end when there is none. No earlier byte matches. |
| Bytes.IndexOfAbsent | firmware/wifistepper/daisy.cpp:49-53 | The scan runs off the end exactly when the byte does not occur. |
| Bytes.CString | firmware/wifistepper/update.cpp:196 | The C string in a buffer is its longest NUL-free prefix, ended by a NUL or by the buffer's end. |
| Bytes.Sum8Append | firmware/wifistepper/daisy.cpp:16-22 | The 8-bit sum of a concatenation is the sum of the parts' sums modulo 256. |
| Bytes.Sum8Single | firmware/wifistepper/daisy.cpp:16-22 | The 8-bit sum of one byte is that byte. |
| Bytes.ShiftDown | firmware/wifistepper/command.cpp:209-210 | `memmove(a, &a[k], len - k)`: the first `len - k` elements become the old `a[k..len)`, and the rest of the array is untouched. |
| Bytes.CopyIn | firmware/wifistepper/command.cpp:317 | `memcpy(&a[at], s, \|s\|)`: exactly `a[at..at+\|s\|)` becomes `s`. |
| Ecc.Crc | firmware/wifistepper/ecc508a.cpp:14-31 | The CRC register starts at 0, so the CRC over zero bytes is 0x0000. |
| Ecc.CrcAppend | firmware/wifistepper/ecc508a.cpp:20-28 | The CRC is computed byte by byte: one more byte is one more register update. |
| Ecc.NextMask | firmware/wifistepper/ecc508a.cpp:21 | The inner loop's shifted mask selects bits 0 to 7 in turn and becomes 0 after bit 7, ending the loop. |
| Ecc.WakeResponse | firmware/wifistepper/ecc508a.cpp:16-30 | With zero start, polynomial 0x8005 and LSB-first input, the CRC of `04 11` is 0x4333. This is the chip's wake-up response `04 11 33 43`. |
| Ecc.Feed | firmware/wifistepper/ecc508a.cpp:22-26 | One inner-loop step shifts the register left, and XORs 0x8005 when the data bit differs from the bit shifted out. |
| Ecc.ShiftIn | firmware/wifistepper/ecc508a.cpp:21-27 | The inner loop feeds the byte's eight bits, least significant first. |
| Ecc.Register | firmware/wifistepper/ecc508a.cpp:15-28 | The outer loop leaves the register holding the CRC of the first `len` bytes, starting from 0. |
| Ecc.Crc16 | firmware/wifistepper/ecc508a.cpp:14-31 | `_ecc_crc16` writes the CRC of `data[0..len)`, low byte first, at `crc[0..2)` and changes nothing else. `crc` may alias `data`. |
| Ecc.Pack | firmware/wifistepper/ecc508a.cpp:33-37 | `_ecc_pack` leaves the buffer as `Packed` describes: a no-op for `len == 0`, otherwise the length byte, then the CRC over `(len-2) mod 256` bytes at `len-2`. |
| Ecc.Check | firmware/wifistepper/ecc508a.cpp:39-44 | `_ecc_check` holds exactly when `len != 0` and the last two bytes are the CRC of the bytes before them. |
| Ecc.Packed | firmware/wifistepper/ecc508a.cpp:33-37 | `_ecc_pack` never changes the buffer's length. |
| Ecc.Checks | firmware/wifistepper/ecc508a.cpp:39-44 | `_ecc_check` rejects a zero-length packet. |
| Ecc.PackedChecks | firmware/wifistepper/ecc508a.cpp:33-44 | Whatever the buffer held, a packed packet of length at least 2 passes the check. |
| Ecc.PackedLayout | firmware/wifistepper/ecc508a.cpp:35-36 | Packing stamps `len mod 256` in byte 0 and leaves the payload bytes and everything past the packet untouched. |
| Ecc.PackedEmpty | firmware/wifistepper/ecc508a.cpp:16 | The CRC of zero bytes is 0x0000, so a two-byte packet packs to `00 00`. |
| CommandQueue.Size | firmware/wifistepper/command.cpp:30-86 | The encoded size of each record kind, with the per-kind values (7 stop; 13 run/move/goto/releasesw; 9 stepclock/setpos/setmark; 17 gountil; 10 waitmillis; header only for the rest). A config record is header + string + NUL (312-320). |
| CommandQueue.Encode | firmware/wifistepper/command.cpp:226-335 | An enqueued record is exactly `Size` bytes long and starts with its opcode. |
| CommandQueue.DecodeHead | firmware/wifistepper/command.cpp:106-207 | A decoded head never claims more bytes than the queue holds, nor fewer than a header. |
| CommandQueue.DecodeEncode | firmware/wifistepper/command.cpp:106-207 | The interpreter reads back every record an enqueuer writes, as the same id and command, whatever follows it. It consumes exactly the record's size. |
| CommandQueue.FlattenSnoc | firmware/wifistepper/command.cpp:228-229 | Appending a record to the list of queued records appends its encoding to the arena contents. |
| CommandQueue.StopCall | firmware/wifistepper/command.cpp:344-351 | `cmd_estop` chooses soft or hard HiZ when `hiz` is set, and soft or hard stop otherwise. |
| CommandQueue.Advance | firmware/wifistepper/command.cpp:209-212 | Consuming a head of `n` bytes shortens the queue by exactly `n`. |
| CommandQueue.Tick | firmware/wifistepper/command.cpp:105-215 | `cmd_loop` (as intended) never clears a flagged command error and never loses a driver call already issued. |
| CommandQueue.TickEnds | firmware/wifistepper/command.cpp:105-112 | A tick returns only with an empty queue or with a front record that decodes and is gated by its precondition bits, reported as the current command. The driver calls issued before it are kept, in order. |
| CommandQueue.TickStep | firmware/wifistepper/command.cpp:105-215 | A head that decodes and is not blocked is dispatched and consumed, and the loop continues on the rest. |
| CommandQueue.TickLeavesSuffix | firmware/wifistepper/command.cpp:209-210 | After a tick the queue is a suffix of what it was: only whole records leave, from the front, and the rest keep their order. |
| CommandQueue.TickBlocked | firmware/wifistepper/command.cpp:111-112 | A head gated by `Q_PRE_BUSY` while busy, or by `Q_PRE_STOP` while running, ends the tick. The queue is unchanged and `this_command` is the head's id. |
| CommandQueue.TickUndecodable | firmware/wifistepper/command.cpp:114-207 | A head with no known layout flags a command error and discards the queue, instead of looping (see Findings). |
| CommandQueue.TickDrainsQueue | firmware/wifistepper/command.cpp:105-215 | A queue of valid records on an idle motor is drained to empty. The driver receives every record's calls in FIFO order, and `last_command` is the last record's id. |
| CommandQueue.DrainStep | firmware/wifistepper/command.cpp:105-215 | On an idle motor the first of the queued records is dispatched and removed, and exactly the later records remain. |
| CommandQueue.TickIdleStep | firmware/wifistepper/command.cpp:209-210 | An encoded record at the front is removed exactly, leaving the bytes behind it. |
| CommandQueue.Queue.constructor | firmware/wifistepper/command.cpp:92-94 | The arena starts empty with `Qid == 1`. |
| CommandQueue.Queue.Enqueue | firmware/wifistepper/command.cpp:218-335 | If the record fits, it is appended at the tail, the old `Qid` is returned and `Qid` advances modulo 2^32. Otherwise the call returns 0, flags the error, and leaves `Qid`, `Qlen` and the whole arena (so the queued bytes) unchanged. The arena beyond `Qlen` is never written. |
| CommandQueue.Queue.Empty | firmware/wifistepper/command.cpp:339-342 | `cmd_empty` leaves exactly one NOP record, carrying the next id; the error flag, the driver calls and the current/last/completed bookkeeping are kept. |
| CommandQueue.Queue.EStop | firmware/wifistepper/command.cpp:344-353 | `cmd_estop` issues the chosen stop to the driver, then empties the queue to one NOP carrying the next id; the bookkeeping fields are kept. |
| CommandQueue.Queue.Loop | firmware/wifistepper/command.cpp:100-216 | `cmd_loop` clears `this_command`, then leaves queue, driver calls and bookkeeping as `Tick` describes. It never changes `Qid`. |
| CommandQueue.Queue.Step | firmware/wifistepper/command.cpp:106-214 | One loop iteration either ends the tick as `Tick` says, or strictly shortens the queue without changing the tick's outcome. |
| CommandQueue.Queue.Consume | firmware/wifistepper/command.cpp:205-212 | Dispatching the front record issues its driver calls, records its id as current, last and completed, and removes exactly its bytes from the front with the rest in order, as `Advance` says. |
| CommandQueue.UnknownOpcodeLoopsForever | firmware/wifistepper/command.cpp:108-210 | As written, an unknown opcode consumes 0 bytes, so the queue is unchanged and `while (Qlen > 0)` never ends. |
| CommandQueue.UnknownOpcodeCorrected | firmware/wifistepper/command.cpp:114-207 | The corrected interpreter on the same queue flags the error and ends with an empty queue. |
| CommandQueue.LastCommandReadAfterShift | firmware/wifistepper/command.cpp:209-211 | As written, consuming record 1 of `[1, 2]` records the id of record 2 as `last_command`. |
| CommandQueue.LastCommandCorrected | firmware/wifistepper/command.cpp:209-211 | Corrected, `last_command` is the id of the record just consumed: 1 for `[1]`, 2 after `[1, 2]`. |
| CommandQueue.GotoDirectionInverted | firmware/wifistepper/command.cpp:155-156 | As written, the directed-goto branch is taken for the no-direction code `0xFF`, and not for either real direction. |
| CommandQueue.GotoDirectionCorrected | firmware/wifistepper/command.cpp:153-158 | Corrected, a goto issues one driver call. It is a directed goto exactly when a direction was given, with the direction corrected for motor reversal. |
| Config.MotorDir | firmware/wifistepper/wifistepper.h:306-312 | `motorcfg_dir` is the identity when not reversed, and swaps the direction when reversed. |
| Config.MotorDirInvolution | firmware/wifistepper/wifistepper.h:306-312 | Applying `motorcfg_dir` twice gives back the direction. |
| Config.MotorPos | firmware/wifistepper/wifistepper.h:314-316 | `motorcfg_pos` is the identity when not reversed and negation when reversed. `INT32_MIN` maps to itself, because the negation wraps. |
| Config.MotorPosInvolution | firmware/wifistepper/wifistepper.h:314-316 | Applying `motorcfg_pos` twice gives back the position, `INT32_MIN` included. |
| Config.ParseWifiMode | firmware/wifistepper/wifistepper.h:318-321 | The result is station exactly for `"station"`, and access point for everything else. |
| Config.ParseChannel | firmware/wifistepper/wifistepper.h:323-326 | A channel in 1..13 is kept, and any other value gives the default. |
| Config.ParseMotorMode | firmware/wifistepper/wifistepper.h:328-332 | Strings other than `"voltage"` and `"current"` give the default. |
| Config.ParseStepSize | firmware/wifistepper/wifistepper.h:334-346 | A divider among 1, 2, …, 128 gives the step size that serializes back to it. Any other value gives the default. |
| Config.ParseDirection | firmware/wifistepper/wifistepper.h:348-352 | Strings other than `"forward"` and `"reverse"` give the default. |
| Config.SerializeStepSize | firmware/wifistepper/wifistepper.h:372-384 | Every step size serializes to one of the eight dividers. |
| Config.WifiModeRoundTrip | firmware/wifistepper/wifistepper.h:355-362 | Parsing a serialized mode gives it back. Off serializes to a string that parses as access point. |
| Config.MotorModeRoundTrip | firmware/wifistepper/wifistepper.h:364-370 | Parsing a serialized motor mode gives it back, whatever the default. |
| Config.StepSizeRoundTrip | firmware/wifistepper/wifistepper.h:372-384 | The round trip holds both ways: parse of serialize is the identity on step sizes, and serialize of parse is the identity on the eight dividers. |
| Config.DirectionRoundTrip | firmware/wifistepper/wifistepper.h:386-392 | Parsing a serialized direction gives it back, whatever the default. |
| Config.SerializeMovementInjective | firmware/wifistepper/wifistepper.h:394-400 | Distinct movements serialize to distinct strings. |
| PsTypes.DirCode | software/wifistepper/powerstep01.h:2-5 | The direction code is one bit, and reading the bit gives the direction back. |
| PsTypes.DirFromBit | software/wifistepper/powerstep01.h:2-5 | An even direction bit is reverse and an odd one forward. |
| PsTypes.PosActCode | software/wifistepper/powerstep01.h:34-37 | The position action is one bit, 0 exactly for reset. |
| PsTypes.MotorModeCode | software/wifistepper/powerstep01.h:74-77 | The mode bit is 0 exactly for voltage mode. |
| PsTypes.StepSizeCode | software/wifistepper/powerstep01.h:79-88 | Step sizes have 3-bit codes that decode back to them. |
| PsTypes.StepSizeCodeOfFromCode | software/wifistepper/powerstep01.h:79-88 | Every 3-bit code is the code of the step size it decodes to. |
| PsTypes.SyncModeCode | software/wifistepper/powerstep01.h:90-93 | The sync bit is 0 exactly for busy-sync. |
| PsTypes.SlewRateCodeInjective | software/wifistepper/powerstep01.h:114-121 | Distinct slew rates have distinct register codes. |
| PsTypes.ClockSelCode | software/wifistepper/powerstep01.h:127-141 | Clock-selection codes fit the 4-bit field. |
| PsTypes.ClockSelCodeInjective | software/wifistepper/powerstep01.h:127-141 | Distinct clock selections have distinct codes. |
| PsTypes.SwModeCode | software/wifistepper/powerstep01.h:143-146 | The switch-mode bit is 0 exactly for hard stop. |
| PsOpcodes.CmdSetParam | software/wifistepper/powerstep01priv.h:13 | SETPARAM is the register address in the low five bits with zero above, so an address below 0x20 is its own SETPARAM. |
| PsOpcodes.CmdGetParam | software/wifistepper/powerstep01priv.h:14 | GETPARAM's top three bits read `001` and its low five bits are the address field. |
| PsOpcodes.CmdRun | software/wifistepper/powerstep01priv.h:15 | RUN is 0x50 with the direction in bit 0 only. |
| PsOpcodes.CmdStepClk | software/wifistepper/powerstep01priv.h:16 | STEPCLK is 0x58 with the direction in bit 0 only. |
| PsOpcodes.CmdMove | software/wifistepper/powerstep01priv.h:17 | MOVE is 0x40 with the direction in bit 0 only. |
| PsOpcodes.CmdGotoDir | software/wifistepper/powerstep01priv.h:19 | GOTODIR is 0x68 with the direction in bit 0 only. |
| PsOpcodes.CmdGoUntil | software/wifistepper/powerstep01priv.h:20 | GOUNTIL is 0x82 with the action in bit 3 and the direction in bit 0, both recoverable. |
| PsOpcodes.CmdReleaseSw | software/wifistepper/powerstep01priv.h:21 | RELEASESW is 0x92 with the action in bit 3 and the direction in bit 0, both recoverable. |
| PsOpcodes.CmdSize | software/wifistepper/powerstep01priv.h:32 | `CMDSIZE(b)` is one byte more than the payload. |
| PsOpcodes.AllParamsInField | software/wifistepper/powerstep01priv.h:34-71 | Every `PARAM_*` address is below 0x20. |
| PsOpcodes.ParamFieldRoundTrip | software/wifistepper/powerstep01priv.h:13-14 | For an address below 0x20, SETPARAM is the address itself, GETPARAM's low five bits recover it, and the two opcodes differ. |
| PsOpcodes.OpcodesFitByte | software/wifistepper/powerstep01priv.h:2 | `__MS` masks before shifting, so every constructed opcode fits in a byte whatever the arguments. |
| PsOpcodes.DirectionalOpcodesDistinct | software/wifistepper/powerstep01priv.h:15-19 | RUN, STEPCLK, MOVE and GOTODIR never coincide, whatever the directions. |
| PsOpcodes.MoveMaskLow22 | software/wifistepper/powerstep01priv.h:228 | `MOVE_MASK` keeps exactly the low 22 bits. |
| Powerstep.Set16 | software/wifistepper/powerstep01.cpp:49 | `ps_set16` stores the low 16 bits high byte first, and `ps_get16` of the two bytes recovers them. |
| Powerstep.Get16 | software/wifistepper/powerstep01.cpp:50 | `ps_get16` puts its first byte in the high half and its second in the low half. |
| Powerstep.Set16Get16 | software/wifistepper/powerstep01.cpp:49-50 | `ps_set16` of `ps_get16(b1, b2)` gives back `b1, b2`. |
| Powerstep.Set24 | software/wifistepper/powerstep01.cpp:51 | `ps_set24` splits the low 24 bits into three big-endian bytes that reassemble them. |
| Powerstep.MoveFrame | software/wifistepper/powerstep01.cpp:483-488 | `ps_move` sends `CMD_MOVE(dir)`, then `steps & MOVE_MASK` big-endian. The direction is read back from bit 0, and the top data byte is at most 0x3F. |
| Powerstep.WithField | software/wifistepper/powerstep01priv.h:122-214 | Writing a bitfield through the struct overlay sets that field to the masked value and keeps every other bit of the byte. |
| Powerstep.FieldUpdate | software/wifistepper/powerstep01priv.h:122-214 | The mask-and-or update of a field reads back the masked value and leaves every bit outside the field as it was. |
| Powerstep.DecodeStepMode | software/wifistepper/powerstep01.cpp:191-202 | `ps_getstepmode` returns exactly the `cm_vm`, `step_sel`, `sync_en` and `sync_sel` bitfields of the byte read. |
| Powerstep.SetModeThenGet | software/wifistepper/powerstep01.cpp:204-213 | `ps_setmode` changes only mode and step size in STEPMODE. Sync enable and sync step size read back unchanged. |
| Powerstep.SetSyncThenGet | software/wifistepper/powerstep01.cpp:215-224 | `ps_setsync` changes only the two sync fields. |
| Powerstep.DecodeAlarms | software/wifistepper/powerstep01.cpp:383-398 | `ps_getalarms` reads each flag from its own ALARM_EN bit: overcurrent bit 0, thermal shutdown 1, thermal warning 2, undervoltage 3, ADC undervoltage 4, stall 5, user switch 6, command error 7. |
| Powerstep.EncodeAlarms | software/wifistepper/powerstep01.cpp:404-416 | The ALARM_EN byte written for eight flags decodes back to those flags. |
| Powerstep.EncodeDecodeAlarms | software/wifistepper/powerstep01.cpp:383-398 | Every ALARM_EN byte is the encoding of the flags read from it. |
| Powerstep.ReadOf | software/wifistepper/powerstep01.cpp:11-47 | A GETPARAM exchange returns `n` bytes, the register's stored bytes when it has that length. |
| Powerstep.GetParamByte | software/wifistepper/powerstep01priv.h:14 | The chip recognises a GETPARAM byte by its top three bits `001`, and the low five bits name the register. |
| Powerstep.Chip.constructor | software/wifistepper/powerstep01.cpp:11-47 | The chip starts with the given register file and nothing sent. |
| Powerstep.Chip.Xfer | software/wifistepper/powerstep01.cpp:11-47 | The exchange is logged. A GETPARAM returns the register's bytes after a zero status byte. A SETPARAM stores the bytes that follow it. Anything else leaves the registers alone. Bytes past `len` are untouched. |
| Powerstep.Chip.ReadParam | software/wifistepper/powerstep01.cpp:192-194 | Reading a parameter sends GETPARAM plus zero bytes and returns the register's value, with the registers unchanged. |
| Powerstep.Chip.WriteParam | software/wifistepper/powerstep01.cpp:211-212 | Writing a parameter sends SETPARAM plus the bytes and stores exactly those bytes. |
| Powerstep.Chip.GetStepMode | software/wifistepper/powerstep01.cpp:191-202 | One GETPARAM of STEPMODE, decoded field by field. |
| Powerstep.Chip.SetMode | software/wifistepper/powerstep01.cpp:204-213 | Read-modify-write of STEPMODE: only mode and step size change. The exchanges are exactly GETPARAM(STEPMODE), then SETPARAM(STEPMODE) with the new byte. |
| Powerstep.Chip.SetSync | software/wifistepper/powerstep01.cpp:215-224 | Read-modify-write of STEPMODE: only the sync fields change. The exchanges are exactly GETPARAM, then SETPARAM with the new byte. |
| Powerstep.Chip.SetSlewRate | software/wifistepper/powerstep01.cpp:299-307 | GATECFG1 is rewritten: its second byte becomes the slew-rate code and its first byte is kept. The exchanges are exactly GETPARAM, then SETPARAM with the two bytes. |
| Powerstep.Chip.SetClockSel | software/wifistepper/powerstep01.cpp:344-352 | CONFIG is rewritten with only the 4-bit clock field changed, by exactly a GETPARAM and a SETPARAM of the new bytes. |
| Powerstep.Chip.SetSwMode | software/wifistepper/powerstep01.cpp:362-370 | CONFIG is rewritten with only the switch-mode bit changed, by exactly a GETPARAM and a SETPARAM of the new bytes. |
| Powerstep.Chip.VmSetPwmFreq | software/wifistepper/powerstep01.cpp:372-381 | CONFIG is rewritten with only the PWM divider and multiplier fields changed, by exactly a GETPARAM and a SETPARAM of the new bytes. |
| Powerstep.Chip.VmSetVoltComp | software/wifistepper/powerstep01.cpp:425-433 | CONFIG is rewritten with only the voltage-compensation bit changed, by exactly a GETPARAM and a SETPARAM of the new bytes. |
| Powerstep.Chip.SetAlarms | software/wifistepper/powerstep01.cpp:404-416 | ALARM_EN is set to the eight flags' encoding in one SETPARAM. |
| Powerstep.Chip.GetAlarms | software/wifistepper/powerstep01.cpp:383-398 | ALARM_EN is read and decoded, with the registers unchanged. |
| Powerstep.Chip.Move | software/wifistepper/powerstep01.cpp:483-488 | `ps_move` sends one MOVE frame and touches no register. |
| Powerstep.SetThenGetAlarms | software/wifistepper/powerstep01.cpp:383-416 | `ps_getalarms` after `ps_setalarms(flags…)` returns the same eight flags. |
| Daisy.Forwarded | firmware/wifistepper/daisy.cpp:46 | Skipped bytes are written out on a slave, and dropped on the master. |
| Daisy.FrameLen | firmware/wifistepper/daisy.cpp:78-79 | A frame's length, the header plus `LEN` bytes, is never shorter than the 7-byte header. |
| Daisy.Parse | firmware/wifistepper/daisy.cpp:29-95 | The `daisy_loop` parse: the bytes written out plus seven bytes for every frame consumed never exceed the bytes buffered. |
| Daisy.ParseAtSop | firmware/wifistepper/daisy.cpp:61-93 | The same bound for a buffer that starts with `0xAB`. |
| Daisy.ParseAtSopDrops | firmware/wifistepper/daisy.cpp:65-88 | An invalid header (magic, opcode, or a slave's address) or a bad checksum drops exactly one byte, forwarded on a slave, and parsing continues. |
| Daisy.ParseAtSopConsumes | firmware/wifistepper/daisy.cpp:92-93 | A valid frame removes exactly `7 + LEN` bytes, and parsing continues on the rest. |
| Daisy.ParseAtSopRestSuffix | firmware/wifistepper/daisy.cpp:62-93 | Parsing from a start byte also leaves a suffix of the buffer. |
| Daisy.ParseAtSopStopsWaiting | firmware/wifistepper/daisy.cpp:62-93 | Parsing from a start byte also stops only when waiting, with valid frames only. |
| Daisy.ParseAtSopConserves | firmware/wifistepper/daisy.cpp:70-93 | From a start byte, a slave forwards, consumes or keeps every byte, and the master forwards nothing. |
| Daisy.ParseRestSuffix | firmware/wifistepper/daisy.cpp:33-94 | What the parser leaves is a suffix of the buffer, in order. |
| Daisy.ParseStopsWaiting | firmware/wifistepper/daisy.cpp:62 | Parsing stops only when the rest is empty, or is a start byte waiting for a header or a whole frame. Every frame consumed is valid. |
| Daisy.ParseWaitingIsFixed | firmware/wifistepper/daisy.cpp:62 | With fewer than 7 bytes, or fewer than `7 + LEN` after a valid header, nothing is consumed. |
| Daisy.ParseIdempotent | firmware/wifistepper/daisy.cpp:29-95 | Running the parser again on what it left changes nothing. |
| Daisy.ParseNoSop | firmware/wifistepper/daisy.cpp:49-53 | A buffer with no `0xAB` is emptied, and on a slave all of it is forwarded. |
| Daisy.ParseConserves | firmware/wifistepper/daisy.cpp:33-94 | On a slave every byte is forwarded, consumed in a frame, or kept. The master forwards nothing. |
| Daisy.Checksum8 | firmware/wifistepper/daisy.cpp:16-22 | `daisy_checksum8` is the sum of the span's bytes modulo 256. |
| Daisy.Link.constructor | firmware/wifistepper/daisy.cpp:13-14 | The buffer starts empty. |
| Daisy.Link.Loop | firmware/wifistepper/daisy.cpp:29-95 | The read is limited to `B_SIZE - Blen` bytes, so `Blen` never exceeds `B_SIZE`. The buffer is left as the parser's rest, and the output gains what it forwarded. |
| Daisy.Link.SyncToSop | firmware/wifistepper/daisy.cpp:40-59 | Bytes before the first `0xAB` are forwarded (on a slave) and removed. Without one the buffer is emptied. |
| Daisy.Link.ConsumeAtSop | firmware/wifistepper/daisy.cpp:62-93 | At a start byte, the step either shrinks the buffer in agreement with the parser, or leaves it unchanged when waiting. |
| Daisy.Link.Reject | firmware/wifistepper/daisy.cpp:69-86 | A bad header or checksum drops one byte, forwarded on a slave, in agreement with the parser. |
| Daisy.Link.Accept | firmware/wifistepper/daisy.cpp:89-92 | A complete valid frame is shifted out whole, in agreement with the parser. |
| Daisy.Link.HeaderValid | firmware/wifistepper/daisy.cpp:65-69 | The header test is magic 2, opcode below `CMD_SIZE`, and on a slave the own id. |
| Daisy.Link.DropOne | firmware/wifistepper/daisy.cpp:70-75 | The corrected one-byte shift removes exactly the first byte and forwards it on a slave. |
| Daisy.ShiftOneAsWrittenStalls | firmware/wifistepper/daisy.cpp:73-74 | As written, the shift never decrements `Blen`. Seven `0xAB` bytes stay seven `0xAB` bytes, and the loop never ends. |
| Daisy.ShiftOneCorrected | firmware/wifistepper/daisy.cpp:70-75 | Corrected, the same seven bytes lose one byte and parsing stops, waiting, with six. |
| LocalFraming.Preamble | firmware/wifistepper/lowcom.cpp:187-192 | `lc_packpreamble` writes magic 1, magic 2 little-endian and the type, a valid preamble for any known type. |
| LocalFraming.UnpackPackHeader | firmware/wifistepper/lowcom.cpp:29-36 | The packed 8-byte header reads back as written. |
| LocalFraming.Consume | firmware/wifistepper/lowcom.cpp:434-528 | `lc_handletype` never consumes more bytes than the buffer holds. |
| LocalFraming.ConsumeOne | firmware/wifistepper/lowcom.cpp:438-441 | One byte is consumed exactly for a bad magic 2, a type above `TYPE_MAX`, `TYPE_ERROR`, or CRYPTO. |
| LocalFraming.ConsumeControl | firmware/wifistepper/lowcom.cpp:444-497 | HELLO, GOODBYE and PING consume exactly the 4-byte preamble, and nothing else does. |
| LocalFraming.ConsumeNothing | firmware/wifistepper/lowcom.cpp:501-510 | Nothing is consumed exactly when a STD packet's header or payload is still incomplete. |
| LocalFraming.ConsumeStdPacket | firmware/wifistepper/lowcom.cpp:498-514 | A complete STD packet consumes exactly `4 + 8 + length` bytes, with its header and payload read back as sent. |
| LocalFraming.ConsumeStdPrefix | firmware/wifistepper/lowcom.cpp:503-510 | Every strict prefix of a STD packet longer than a preamble consumes nothing. |
| LocalFraming.SyncSkip | firmware/wifistepper/lowcom.cpp:565-568 | The resync scan stops at the next `0xAE` after the first byte, or at the end. |
| LocalFraming.SyncDropsAll | firmware/wifistepper/lowcom.cpp:570-571 | The whole buffer is dropped exactly when no later `0xAE` exists. |
| LocalFraming.InputStep | firmware/wifistepper/lowcom.cpp:558-585 | A handling step leaves a suffix of the input. |
| LocalFraming.InputStepSyncs | firmware/wifistepper/lowcom.cpp:563-573 | Input not starting with `0xAE` shrinks, and then starts with `0xAE` or is empty. |
| LocalFraming.ReadConnKeeps | firmware/wifistepper/lowcom.cpp:544-552 | A full input buffer is discarded with an IBUF error before the read. The data read is appended, bounded by `LTCB_ISIZE`. |
| LocalFraming.Accepted | firmware/wifistepper/lowcom.cpp:196-198 | The socket takes bytes only when `O` is empty, and never more than offered. |
| LocalFraming.SendConn | firmware/wifistepper/lowcom.cpp:194-207 | `Olen` never exceeds `LTCB_OSIZE`. |
| LocalFraming.SendDelivers | firmware/wifistepper/lowcom.cpp:194-207 | The wire gets what the socket accepted. The rest is queued in `O` if it fits. Otherwise OBUF is raised and `O` is unchanged. No other client field changes. |
| LocalFraming.FixedCall | firmware/wifistepper/lowcom.cpp:234-432 | A fixed-length command is dispatched to its target with the header's address, the drawn id and the payload. Only ESTOP carries no queue. |
| LocalFraming.Closed | firmware/wifistepper/lowcom.cpp:485-490 | GOODBYE marks the client inactive, clears the last will, and (lowcom only) echoes the whole input handed to `lc_handletype`. |
| LocalFraming.IdAfterAdd | firmware/wifistepper/wifistepper.h:102 | Drawing `a` ids and then `b` ids is drawing `a + b`. |
| LowCom.AckPacket | firmware/wifistepper/lowcom.cpp:209-218 | An ack is a 16-byte STD packet. |
| LowCom.AckPacketReads | firmware/wifistepper/lowcom.cpp:209-218 | An ack parses back as one STD packet with subcode `SUBCODE_ACK`, the request's opcode, address, queue and packet id, and the id as its 4-byte payload. |
| LowCom.HandlePacket | firmware/wifistepper/lowcom.cpp:222-432 | An uninitialized client is rejected. Otherwise one id is drawn. An error dispatches and replies nothing. A reply is sent exactly when something was dispatched or a last will set, and is the ack for the drawn id. At most one call is made, carrying that id. |
| LowCom.FixedLengthEnforced | firmware/wifistepper/lowcom.cpp:220-432 | A payload of exactly the opcode's struct size is dispatched and acked. Any other length is rejected with no dispatch. |
| LowCom.SetConfigChecked | firmware/wifistepper/lowcom.cpp:244-253 | SETCONFIG is dispatched exactly when its payload is non-empty and NUL-terminated, and is an error otherwise. |
| LowCom.LastWillFromQueue | firmware/wifistepper/lowcom.cpp:257-263 | LASTWILL with an empty payload stores the header's queue and acks with address 0. |
| LowCom.QueueCopies | firmware/wifistepper/lowcom.cpp:414-427 | RUNQUEUE copies the named queue into queue 0, and COPYQUEUE copies the payload's queue into the named one. |
| LowCom.SendAsWrittenMisroutes | firmware/wifistepper/lowcom.cpp:194-197 | As written, a send for client 1 with room on the socket writes the bytes to client 0's socket. |
| LowCom.SendCorrectedDelivers | firmware/wifistepper/lowcom.cpp:194-207 | Corrected, the bytes go out on the client's own socket, nothing is queued, and no error is raised. |
| LowTcp.HandlePacket | firmware/wifistepper/lowtcp.cpp:207-383 | lowtcp sends no reply. An id is drawn exactly when a call is dispatched, and an error dispatches nothing. |
| LowTcp.FixedLengthEnforced | firmware/wifistepper/lowtcp.cpp:207-383 | A payload of exactly the opcode's size is dispatched. Any other length is rejected, with no call and no id. |
| LowTcp.LastWillFromPayload | firmware/wifistepper/lowtcp.cpp:229-233 | LASTWILL needs a 1-byte payload and stores that byte as the last-will queue. Any other length is an error. |
| LowTcp.SetConfigChecked | firmware/wifistepper/lowtcp.cpp:217-225 | SETCONFIG is dispatched exactly when its payload is non-empty and NUL-terminated. |
| LocalService.SlaveReplay | firmware/wifistepper/lowcom.cpp:478-483 | A master replays the last will on slaves 1..n, as an empty and a copy for each: `2n` calls, each addressed to a slave in 1..n. The counter is wide enough to pass 255, so the replay always ends (see Findings). |
| LocalService.SlaveReplayAt | firmware/wifistepper/lowcom.cpp:479-482 | Corrected: every slave k of the chain, the 255th of a full chain included, is emptied and then given the copy, at calls 2(k-1) and 2(k-1)+1, with the ids drawn in order. |
| LocalService.SlaveLoopAsWrittenHangs | firmware/wifistepper/lowcom.cpp:479 | As written, the `uint8_t` counter wraps from 255 to 0, so with 255 slaves the loop has not ended after any number of iterations. |
| LocalService.SlaveLoopAsWrittenAgrees | firmware/wifistepper/lowcom.cpp:479-482 | Below 255 slaves, the written loop ends after `n` iterations and issues exactly the corrected replay. |
| LocalService.LastWillCalls | firmware/wifistepper/lowcom.cpp:473-486 | A last will is executed exactly when it is nonzero, starting with its copy into Q0. |
| LocalService.HelloInitializes | firmware/wifistepper/lowcom.cpp:444-470 | HELLO marks the client initialized and sends the hello reply, with no call and no id. |
| LocalService.GoodbyeClosesSlot | firmware/wifistepper/lowcom.cpp:471-492 | GOODBYE closes the slot with the last will cleared. A nonzero last will is replayed into Q0, and on a daisy master on every slave (with the corrected slave counter). lowcom echoes the goodbye and lowtcp sends nothing. |
| LocalService.PingRefreshes | firmware/wifistepper/lowcom.cpp:493-497 | PING only refreshes the client's ping time. |
| LocalService.UninitializedRejected | firmware/wifistepper/lowcom.cpp:227-232 | On lowcom a STD packet from an uninitialized client only records an error. |
| LocalService.PacketOutcome | firmware/wifistepper/lowcom.cpp:222-432 | For either dialect of `lc_handlepacket`, a rejected packet dispatches nothing and stores no last will. lowtcp never replies, and lowcom answers an uninitialized client with neither a call nor a reply. |
| LocalService.TypeStep | firmware/wifistepper/lowcom.cpp:434-528 | `lc_handletype`'s effect on a client keeps the connection invariant and never changes the client's buffered input. |
| LocalService.SlotStep | firmware/wifistepper/lowcom.cpp:557-587 | A handling step changes an active client's input exactly as the resync-or-consume rule says, and leaves an inactive one alone. |
| LocalService.ReadPhaseSlot | firmware/wifistepper/lowcom.cpp:541-554 | The read phase reads every slot from the given one on, and makes no calls. |
| LocalService.HandlePhaseSlot | firmware/wifistepper/lowcom.cpp:557-587 | The handle phase applies one handling step to each active slot's input. |
| LocalService.HandlePhaseCalls | firmware/wifistepper/lowcom.cpp:557-587 | The handle phase only appends to the calls made. |
| LocalService.LoopInputs | firmware/wifistepper/lowcom.cpp:539-588 | After `lowcom_loop` each active slot's input is the handled result of its read, and stays within `LTCB_ISIZE`. |
| LocalService.FirstFree | firmware/wifistepper/lowcom.cpp:595-597 | The accept scan stops at the first inactive slot. |
| LocalService.FirstFreeIs | firmware/wifistepper/lowcom.cpp:595-597 | A slot that is inactive, with every earlier slot active, is the one the scan finds. |
| LocalService.AcceptFirstFree | firmware/wifistepper/lowcom.cpp:592-614 | A new client takes the first inactive slot, zeroed, active, with its ping time set. With no free slot nothing changes. |
| LocalService.ExpireCloses | firmware/wifistepper/lowcom.cpp:617-625 | A slot that timed out or disconnected is closed as by GOODBYE, and other slots are unchanged. |
| LocalService.PingPhaseCounts | firmware/wifistepper/lowcom.cpp:632-644 | The ping phase counts the active slots and changes no slot's activity. |
| LocalService.PingCountsClients | firmware/wifistepper/lowcom.cpp:628-645 | After the ping period the client count is the number of active slots and the ping time is now. Before it nothing changes. |
| LocalService.Client.constructor | firmware/wifistepper/lowcom.cpp:170-185 | A client slot starts empty, inactive and uninitialized. |
| LocalService.Client.Open | firmware/wifistepper/lowcom.cpp:600-604 | An accepted client is zeroed, active, and pinged now. |
| LocalService.Client.Read | firmware/wifistepper/lowcom.cpp:544-552 | The read into `I` is `ReadConn`. |
| LocalService.Client.Send | firmware/wifistepper/lowcom.cpp:194-207 | `lc_send` on the client's own buffers is `SendConn`. |
| LocalService.Client.Greet | firmware/wifistepper/lowcom.cpp:467-468 | HELLO marks the client initialized and sends the reply. |
| LocalService.Client.Close | firmware/wifistepper/lowcom.cpp:485-490 | GOODBYE's effect on the client is `Closed`. |
| LocalService.Client.Sync | firmware/wifistepper/lowcom.cpp:563-572 | The resync drops exactly the bytes before the next `0xAE`, or all of them. |
| LocalService.Client.Drop | firmware/wifistepper/lowcom.cpp:582-585 | A positive consume count removes exactly that many bytes from the front of `I`. |
| LocalService.Client.Settle | firmware/wifistepper/lowcom.cpp:194-218 | Sending a handled packet's reply leaves the client as `Settled` says: its input, activity and initialization unchanged. |
| LocalService.Client.HandlePacket | firmware/wifistepper/lowcom.cpp:222-432 | Handling a STD packet on the client is `PacketStep`. |
| LocalService.Client.Goodbye | firmware/wifistepper/lowcom.cpp:471-492 | GOODBYE closes the client and returns the last-will calls (with the corrected slave counter). |
| LocalService.Client.HandleType | firmware/wifistepper/lowcom.cpp:434-528 | `lc_handletype` returns `Consume` of the buffer and acts as `TypeStep` says. |
| LocalService.Client.HandleSlot | firmware/wifistepper/lowcom.cpp:558-586 | One slot of the handle phase is `SlotStep`. |
| LocalService.Client.HandleFrame | firmware/wifistepper/lowcom.cpp:576-585 | At a start byte with a full preamble, the frame is handled and then its consumed bytes are dropped. |
| LocalService.Client.Ping | firmware/wifistepper/lowcom.cpp:636-641 | A ping of one slot leaves the client as `Pinged` says. |
| LocalService.LastWillReplay | firmware/wifistepper/lowcom.cpp:473-486 | The replay loop, with the corrected slave counter, issues exactly `LastWillCalls` and draws one id per call. |
| LocalService.Service.constructor | firmware/wifistepper/lowcom.cpp:530-537 | Both slots start inactive. |
| LocalService.Service.ReadOne | firmware/wifistepper/lowcom.cpp:544-552 | Reading one slot changes only that slot, as `ReadSlot` says. |
| LocalService.Service.HandleOne | firmware/wifistepper/lowcom.cpp:558-586 | Handling one slot changes only that slot. The calls it makes are appended and its ids drawn, as `SlotStep` says. |
| LocalService.Service.ReadAll | firmware/wifistepper/lowcom.cpp:541-554 | The read loop over both slots is `ReadPhase`. |
| LocalService.Service.HandleAll | firmware/wifistepper/lowcom.cpp:557-587 | The handle loop over both slots is `HandlePhase`. |
| LocalService.Service.Loop | firmware/wifistepper/lowcom.cpp:539-588 | `lowcom_loop` is `LoopStep`. |
| LocalService.Service.Accept | firmware/wifistepper/lowcom.cpp:592-614 | Accepting returns the first free slot and leaves the service as `AcceptStep` says. |
| LocalService.Service.Expel | firmware/wifistepper/lowcom.cpp:621-623 | A timed-out client is fed a GOODBYE preamble. |
| LocalService.Service.ExpireOne | firmware/wifistepper/lowcom.cpp:618-624 | One slot of the timeout loop is `ExpireSlot`. |
| LocalService.Service.Expire | firmware/wifistepper/lowcom.cpp:617-625 | The timeout loop is `ExpirePhase`. |
| LocalService.Service.PingOne | firmware/wifistepper/lowcom.cpp:633-643 | One slot of the ping loop is `PingSlot`. |
| LocalService.Service.Ping | firmware/wifistepper/lowcom.cpp:628-645 | The ping phase is `PingStep`. |
| LocalService.Service.Update | firmware/wifistepper/lowcom.cpp:590-646 | `lowcom_update` is accept, then expire, then ping. |
| Bytes.UnpackPackInt32 | firmware/wifistepper/websocket.cpp:24-32 | `ws_buf2int` of the bytes `ws_packint(i)` writes is `i`. The same layout carries the `int32_t` fields of the command records. |
| Bytes.PackUnpackInt32 | firmware/wifistepper/websocket.cpp:24-32 | `ws_packint` of `ws_buf2int(b)` reproduces the four bytes. |
| WebSocket.PackInt | firmware/wifistepper/websocket.cpp:29-32 | `ws_packint` writes the four little-endian bytes at the offset and nothing else. |
| WebSocket.DirByte | firmware/wifistepper/websocket.cpp:127 | The direction byte `'r'` means reverse, and any other byte forward. |
| WebSocket.MovementCharInjective | firmware/wifistepper/websocket.cpp:56-62 | Distinct movements report distinct characters. |
| WebSocket.StatusFrameShape | firmware/wifistepper/websocket.cpp:64-79 | The READSTATUS reply is 14 bytes: the opcode, `'f'` or `'r'`, a movement character, and eleven 0/1 bytes. |
| WebSocket.ParseStatusFrameOfStatusFrame | firmware/wifistepper/websocket.cpp:64-79 | A client can read the report back from the reply. |
| WebSocket.StatusFrameOfParse | firmware/wifistepper/websocket.cpp:64-79 | Every well-formed reply is the encoding of the report parsed from it. |
| WebSocket.StatusReplyBytes | firmware/wifistepper/websocket.cpp:55-79 | Each reply byte holds its status field: the direction corrected for reversal, the movement, HiZ, busy, switch, step clock and the seven alarms, in source order. |
| WebSocket.StateFrame | firmware/wifistepper/websocket.cpp:84-90 | The READSTATE reply is 14 bytes with the opcode first and busy as 0/1 last. |
| WebSocket.StateFrameFields | firmware/wifistepper/websocket.cpp:84-90 | Position and mark read back through `motorcfg_pos`, and the speed bytes and busy flag are recovered. |
| WebSocket.EventLengths | firmware/wifistepper/websocket.cpp:94-158 | A command frame enqueues exactly when it has its exact length (2 for STOP/HIZ/STEPCLOCK, 5 for GOTO, 7 for RUN), and has no effect otherwise. POS acts exactly with 5 bytes. |
| WebSocket.Event | firmware/wifistepper/websocket.cpp:34-163 | `ws_event` ignores text and empty frames. It enqueues only for a command opcode at its exact length, with the id drawn for the call. Position changes need a 5-byte POS frame. Both replies are 14 bytes. |
| WebSocket.EventServesRequest | firmware/wifistepper/websocket.cpp:34-163 | `ws_event` on a binary frame serves the request the frame carries, and has no effect when it carries none. |
| WebSocket.RequestOfFrame | firmware/wifistepper/websocket.cpp:52-158 | Every request survives its canonical frame. |
| WebSocket.EventOfRequest | firmware/wifistepper/websocket.cpp:94-158 | A canonical frame gets exactly the served effect. For example HIZ enqueues a stop with `hiz` set, and POS 0 resets the position. |
| Update.PreambleSize | firmware/wifistepper/update.cpp:58-70 | The preamble size of each known section type. Unknown types have none. |
| Update.ReadType | firmware/wifistepper/update.cpp:56 | Taking a new section's type from the first byte never fails, leaves the chunk's bytes alone, and stays within the chunk. |
| Update.BodyTake | firmware/wifistepper/update.cpp:115 | A write takes no more than the chunk holds and no more than the declared size still needs. It takes at least one byte when both remain. |
| Update.CopyMissing | firmware/wifistepper/update.cpp:72-81 | The preamble copy keeps the chunk's length and advances the index within it. |
| Update.ImageWrite | firmware/wifistepper/update.cpp:114-123 | The image write advances the index within the chunk. |
| Update.DataWrite | firmware/wifistepper/update.cpp:148-158 | The data write advances the index within the chunk. |
| Update.Chunk | firmware/wifistepper/update.cpp:49-206 | `update_handlechunk` returns at most the chunk's length, and leaves the chunk's length unchanged. |
| Update.CopyKeeps | firmware/wifistepper/update.cpp:72-81 | After the preamble copy the preamble never exceeds its section's size, and a failure there has flagged the error. |
| Update.Section | firmware/wifistepper/update.cpp:83-201 | The section dispatch leaves the chunk's bytes alone and advances the index within the chunk. |
| Update.Header | firmware/wifistepper/update.cpp:86-97 | A wrong magic or model fails the call with `iserror` and the bad-header message. A good header ends the section (type, preamble and length reset) and consumes nothing more. |
| Update.Image | firmware/wifistepper/update.cpp:99-138 | The image section leaves the chunk's bytes alone and advances the index within the chunk. |
| Update.Data | firmware/wifistepper/update.cpp:140-192 | The data section leaves the chunk's bytes alone and advances the index within the chunk. |
| Update.Md5 | firmware/wifistepper/update.cpp:193-199 | The MD5 section stores a NUL-free prefix of its preamble as the expected image MD5 (`strcpy`), and ends the section with `files`, the digest and the error flag unchanged. |
| Update.SectionFrame | firmware/wifistepper/update.cpp:83-201 | A section step never clears `iserror` and never feeds the digest. A newly raised error stops the call, and a stop means an error. |
| Update.SectionFiles | firmware/wifistepper/update.cpp:133-135 | A section step leaves `files` unchanged, or adds one exactly when the section it was on completed. |
| Update.ChunkKeeps | firmware/wifistepper/update.cpp:72-81 | The invariant is kept: the preamble never exceeds its section's size (`preamblelen <= preamble_size`), and a body never exceeds its declared size. |
| Update.ChunkErrorSticks | firmware/wifistepper/update.cpp:64-192 | Once set, `iserror` stays set. |
| Update.ChunkProgress | firmware/wifistepper/update.cpp:49-206 | A call that raises no error consumes a byte or ends a section, so the write loop ends. |
| Update.ChunkDigest | firmware/wifistepper/update.cpp:204-205 | The digest is fed exactly the consumed prefix of the chunk as the call left it. A call that raises the error consumes nothing. |
| Update.ChunkUnknownType | firmware/wifistepper/update.cpp:64-69 | An unknown section type sets `iserror` and the message, and returns 0 with the digest unchanged. |
| Update.ChunkZeroes | firmware/wifistepper/update.cpp:75-78 | Outside an MD5 section the chunk's bytes are unchanged, and any byte that does change becomes zero. |
| Update.ChunkHeader | firmware/wifistepper/update.cpp:86-97 | An incomplete header is accumulated and fully consumed. A wrong magic or model sets `iserror` and returns 0. A good header ends the section with `files` unchanged. |
| Update.ChunkFiles | firmware/wifistepper/update.cpp:124-190 | `files` grows by at most one per call. It grows only when an image or data section ends, after the flash update ended or the file was renamed, with the section fields reset. |
| Update.Upload | firmware/wifistepper/update.cpp:238-242 | The write loop keeps the buffer's length and never consumes past it. |
| Update.RoundsProgress | firmware/wifistepper/update.cpp:240-242 | Every round of the write loop that does not stop it leaves strictly less work. |
| Update.StoppedByBound | firmware/wifistepper/update.cpp:240-242 | The write loop stops within `2·size + 1` rounds. |
| Update.RoundsUpload | firmware/wifistepper/update.cpp:240-242 | Wherever the loop stops, it stops with the same result. |
| Update.UploadDigest | firmware/wifistepper/update.cpp:238-242 | Across the write loop the digest gets exactly the consumed bytes. Without an error the whole buffer is consumed, and the invariant holds. |
| Update.RoundsDigest | firmware/wifistepper/update.cpp:240-241 | Every prefix of the write loop has fed the digest exactly the bytes consumed so far. |
| Update.RoundDigest | firmware/wifistepper/update.cpp:240-241 | One more round of the write loop feeds the digest exactly the chunk it writes. |
| Update.Orphans | firmware/wifistepper/update.cpp:252-258 | The sweep issues at most one removal per listed file. |
| Update.OrphansRemoved | firmware/wifistepper/update.cpp:252-258 | The sweep removes exactly the listed files the update does not keep. |
| Update.OrphansOnlyRemove | firmware/wifistepper/update.cpp:252-258 | The sweep only removes files. |
| Update.Finalize | firmware/wifistepper/update.cpp:243-261 | The end is an error exactly when there was one or the image MD5 differs. Counters and kept files are unchanged. |
| Update.FinalizeOutcome | firmware/wifistepper/update.cpp:243-261 | Success is reported exactly when the digests agree. Only then are files removed: exactly the listed ones not kept. |
| Update.FinalizeKeeps | firmware/wifistepper/update.cpp:243-261 | The end keeps the invariant. |
| Update.ZeroFill | firmware/wifistepper/update.cpp:77 | `memset(&a[at], 0, n)` zeroes exactly that span. |
| Update.Updater.constructor | firmware/wifistepper/update.cpp:49-53 | The parser starts with every field zero. |
| Update.Updater.Begin | firmware/wifistepper/update.cpp:230-237 | An upload start zeroes the state, restarts the digest, and keeps the four configuration files (the `FNAME_DAISYCFG` name is a constructor parameter). |
| Update.Updater.HandleChunk | firmware/wifistepper/update.cpp:49-206 | The in-place call leaves state, return value and chunk bytes exactly as `Chunk` says, and the rest of the buffer untouched. |
| Update.Updater.ReadTypeStep | firmware/wifistepper/update.cpp:56 | Reading the type byte on the buffer is `ReadType`, and changes no buffer byte. |
| Update.Updater.CopyStep | firmware/wifistepper/update.cpp:72-81 | The in-place preamble copy is `CopyPreamble`, and bytes outside the chunk are untouched. |
| Update.Updater.CopyBytes | firmware/wifistepper/update.cpp:73-80 | The `memcpy` into the preamble, and for MD5 the `memset` of the chunk, are `CopyMissing`. |
| Update.Updater.SectionStep | firmware/wifistepper/update.cpp:83-201 | The in-place section dispatch is `Section`. |
| Update.Updater.HeaderStep | firmware/wifistepper/update.cpp:86-97 | The header check on the preamble buffer is `Header`. |
| Update.Updater.Md5Step | firmware/wifistepper/update.cpp:193-199 | The MD5 section stores the image checksum and resets the section, as `Md5` says. |
| Update.Updater.ImageStep | firmware/wifistepper/update.cpp:99-138 | The image section on the buffer is `Image`. |
| Update.Updater.ImageBeginStep | firmware/wifistepper/update.cpp:103-113 | Starting the flash update is `ImageBegin`. |
| Update.Updater.ImageWriteStep | firmware/wifistepper/update.cpp:114-123 | The flash write is `ImageWrite`. |
| Update.Updater.ImageEndStep | firmware/wifistepper/update.cpp:124-136 | Ending the flash update is `ImageEnd`. |
| Update.Updater.DataStep | firmware/wifistepper/update.cpp:140-192 | The data section on the buffer is `Data`. |
| Update.Updater.DataWriteStep | firmware/wifistepper/update.cpp:148-158 | The append to the temporary file is `DataWrite`. |
| Update.Updater.DataEndStep | firmware/wifistepper/update.cpp:159-190 | Verifying the file against the MD5 its preamble declares and renaming it is `DataEnd`. |
| Update.Updater.FinishStep | firmware/wifistepper/update.cpp:204-205 | The digest update and return value are `Finish`. |
| Update.Updater.Write | firmware/wifistepper/update.cpp:238-242 | The write loop leaves the state and buffer as `Upload` says. |
| Update.Updater.WriteRound | firmware/wifistepper/update.cpp:241 | One round hands the unconsumed bytes to the parser and leaves less work. |
| Update.Updater.End | firmware/wifistepper/update.cpp:243-261 | The end branch leaves the state as `Finalize` says. |

## Left out

- The I/O itself is not modelled: sockets, the serial port, SPI, I2C, SPIFFS, `Update`, `MD5Builder`, watchdog feeds, `yield` and delays. What they answer is passed in as a parameter, and what is sent to them is recorded in a log or in an effect value:
  - the bytes available on a socket;
  - the room a socket has for writing;
  - `connected()`;
  - `millis()`;
  - the storage results of an update;
  - the MD5 of the upload digest;
  - the directory listing;
  - the driver's busy/running status.
- `millis`/`timesince` are taken as a plain difference, without the 32-bit clock wrap.
- Debug printers and the `Serial` messages of `ws_event` and `update_handlechunk` are not modelled.
- `_ecc_read`, `_ecc_write`, `_ecc_waitread`, `ecc_init` and `ecc_update` are I2C or empty, and are not modelled.
- Ecc.Check: `len == 1` is excluded, as for `Ecc.Pack`, because `_ecc_check` would read `data[-1]` (ecc508a.cpp:43). A `NULL` buffer is not modelled.
- Ecc.Checks: the same `len == 1` exclusion as `Ecc.Check`.
- Ecc.Pack: a `NULL` buffer is not modelled, and `len == 1` is excluded because it would write before the buffer. `_ecc_crc16` has no return statement, so its return value is not modelled.
- The float conversions (`ps_setmaxspeed`, `ps_setaccel`/`ps_setdecel`, `ps_setfullspeed`, `ps_setocd`, `ps_vm_setkvals`, their getters, `ws_buf2float`/`ws_packfloat`) are not modelled. Float fields are carried as opaque 4-byte blobs.
- `ps_getstatus`, `ps_waitbusy` and the other getters are not modelled. The status reaches the WebSocket reply as a parameter.
- Powerstep: the SPI exchange is modelled as a register file addressed by GETPARAM/SETPARAM. Motion commands are only logged. GCC's LSB-first bitfield allocation is assumed for the register overlays.
- The m_* dispatch targets, `cmdq_copy`, `queue_get` and the daisy queue functions called by lowcom/lowtcp are opaque `Call` values.
- The HELLO payload (product, model, branch, version, hostname, chip id) is an input, because `PRODUCT`, `MODEL`, `LEN_PRODUCT` and `LEN_INFO` are not part of this model.
- The output buffer `O` of lowcom/lowtcp is never drained in the source, and the model does not drain it either.
- Encrypted (CRYPTO) packets are unsupported in the source, which consumes one byte. The model does the same.
- websocket.cpp is modelled on values (`StatusFrame`, `StateFrame`, `Effect`), not as the in-place fill of the 14-byte reply arrays. The `stopswitch` byte of RUN is read but not acted on, as in the source.
- WebSocket.MovementChar: the movement default `'?'` is unreachable for the four movements and has no case.
- Text frames are ignored, as in the source.
- READSTATUS reads `data[1]` even for a 1-byte frame. The model takes that byte as a parameter (`past`).
- `cmd_waitsw_t` is not part of this model. Its payload is taken as one byte.
- Update: `LEN_PRODUCT`, `LEN_INFO` and `MODEL` are not part of this model, so the header fields are sized to a 36-byte preamble and `MODEL` is a constructor parameter.
- Update: the C-string fields of a preamble (model, file name, MD5s) are read from the field's start to the first NUL. When no NUL follows in the rest of the preamble, the model ends the string at the preamble's end, where the source would read on past it.
- Update: the MD5 of the temporary data file is an input (`fileMd5`), not computed from the appended bytes.
- Update: `WiFiUDP::stopAll`, the sketch-space computation, `printError`, the HTTP response and the restart are not modelled.
- Update.Chunk: a first call on an empty chunk (`length == 0` with `ontype == 0`) is excluded, because the source reads `data[0]` there.
- Update.Finalize: the end branch does not check `iserror` first, as in the source, so it can report "Upload complete" after an earlier error.
- LocalService.SlaveReplay: the slave counter is unbounded, where the source's is a `uint8_t`. With 255 slaves the source never leaves the loop (see Findings); the model replays to all 255 and goes on.
- LocalService.LastWillReplay: its loop counter is a `nat`. The model ends with 255 slaves, where the source's `uint8_t` loop does not (see Findings).
- LocalService.GoodbyeClosesSlot: GOODBYE on a daisy master with 255 slaves and a nonzero last will closes the slot in the model. The source hangs in the slave loop and never closes it (see Findings).
- LocalService.Client.Goodbye: the same 255-slave case returns the full replay and closes the client, where the source hangs (see Findings).
- server.cpp, json.cpp, mqtt.cpp, the web page build and the Python scripts are outside the modelled core.

## Findings

| source | as written | input that shows it | evidently intended | confidence | as-written member | corrected member |
|---|---|---|---|---|---|---|
| firmware/wifistepper/command.cpp:209-211 | `last_command` is read through `head` after the `memmove` has shifted the next record into place | queue holding NOP id 1 then NOP id 2: consuming id 1 records 2 | record the id of the record just consumed | not executed | CommandQueue.LastCommandReadAfterShift | CommandQueue.LastCommandCorrected |
| firmware/wifistepper/command.cpp:155-156 | the goto test is inverted: a given direction is ignored and `0xFF` is passed as a direction | goto with direction FWD (code 1): an undirected goto is issued | directed goto exactly when a direction is given | not executed | CommandQueue.GotoDirectionInverted | CommandQueue.GotoDirectionCorrected |
| firmware/wifistepper/command.cpp:108-210 | the switch has no `default`, so an unknown opcode consumes 0 bytes and `while (Qlen > 0)` never ends | queue `11 00 00 00 00` | flag a command error and discard the queue | not executed | CommandQueue.UnknownOpcodeLoopsForever | CommandQueue.UnknownOpcodeCorrected |
| firmware/wifistepper/daisy.cpp:73-74 | the one-byte shifts (also at 86-87) never decrement `Blen`, so the same invalid header is checked forever | seven bytes `AB AB AB AB AB AB AB` | remove one byte and retry | not executed | Daisy.ShiftOneAsWrittenStalls | Daisy.ShiftOneCorrected |
| firmware/wifistepper/lowcom.cpp:479 | the slave counter is a `uint8_t`, so with 255 slaves `i <= slaves` always holds and GOODBYE never returns (lowtcp.cpp:426 likewise) | a daisy master with 255 slaves receiving GOODBYE with a nonzero last will | a counter wide enough to pass 255, so every slave gets the replay and the slot is closed | not executed | LocalService.SlaveLoopAsWrittenHangs | LocalService.SlaveReplayAt |
| firmware/wifistepper/lowcom.cpp:196-197 | `lc_send` writes to `lowcom_client[i]` with `i == 0` instead of the target client (lowtcp.cpp:192-193 likewise) | a send for client 1 with room on the socket | write to the client's own socket | not executed | LowCom.SendAsWrittenMisroutes | LowCom.SendCorrectedDelivers |
