# A verified model of the bit-banged JTAG target

The repository is a mock of a RISC-V chip. OpenOCD connects to it and drives four JTAG pins with
single characters: `0`..`7` write tck, tms and tdi, `R` asks for tdo, `r` resets the TAP, `Q` quits.
Behind the pins stand a 16-state TAP controller, capture/shift/update register pairs (instruction,
IDCODE, dtmcs, dmi), a RISC-V debug module reached through the 41-bit dmi register, and abstract
commands that read registers and memory of an emulated hart.

This project models that target from the single character down to the debug module, as the program
implements it, and proves what a client can rely on. The main results are about every command stream,
every series of DMI requests, every state and every hart.

## How it is built

- `Words.dfy`: C++ word widths, shift registers as numbers and as bit sequences.
- `TapController.dfy`: the TAP transition function.
- `Transactions.dfy`: the DMI container, the debug module, abstract commands, the segmented memory;
  one DMI scan that reaches Update-DR is one `Transact`.
- `Target.dfy`: the whole machine and the meaning of every command character (`Execute`, `Run`).
- `RemoteBitbang.dfy`: the program's own mutable objects, the TAP state machine with its callback into
  the server, the hart, and the server. Every method is proved against the functions above; the laws
  below are proved about those functions.
- `TapLaws.dfy`, `StreamLaws.dfy`, `DelayLine.dfy`: the controller, arbitrary streams, shifting.
- `DmiLaws.dfy`, `DmControlFields.dfy`, `RegisterLaws.dfy`, `MemoryLaws.dfy`: transactions, read-back, memory.
- `RequestLaws.dfy`: every DMI request in plain numbers. It has its own layout of the command word
  (`CommandWord`, onto all 32-bit words) and uses none of the getters that carry a request out.
- `ScanLaws.dfy`, `WireLaws.dfy`, `RunLaws.dfy`: whole scans, whole sessions, whole runs on the pins.
- `SpelledLaws.dfy`: the same in the digits that are sent and that arrive.

What the target does not determine is a parameter (`Env`) and every law holds for all its values: the
CPU emulator's single step, the contents of a freshly allocated memory block, and the value of the
one C++ shift by an out-of-range amount. The TAP state and TDO at power-on are parameters too, since
the program leaves them unset.

## Where the code departs from its comments or from the specification

The model follows the code.

- An all-zero DMI scan is not ignored (remote_bitbang.cpp:501-513, against the comment at 1771-1775): it
  repeats the request still in the container. `NopScanExact` says exactly when that changes nothing;
  `NopsRepeatBlockCommand` and `ResumeStepsTwice` give inputs on which it does.
- A nonzero cmderr neither stops the current command nor blocks the next one
  (remote_bitbang.cpp:1043-1052, 1082-1105): `RegisterReadBack` holds for every access size and state.
- Access Memory writes store nothing, and every Access Memory command overwrites data1, without
  post-increment by the command word (remote_bitbang.cpp:1380-1394, 1429-1449).
- A TAP reset selects IDCODE but does not restore its value (remote_bitbang.cpp:297-304), and an
  IDCODE scan overwrites it (470-473). `ResetKeepsScannedIdCode` gives a stream after which the scan
  behind a reset shows zeros; `ResetShowsIdCode` says exactly when such a scan shows the code.
- The instruction register has 5 bits (remote_bitbang.cpp:276), not the 8 of the comment at 419.
- The first falling edge after Capture-DR does not shift, and because its counter is an 8-bit integer,
  neither does every 256th edge after it (remote_bitbang.cpp:194-207): `DelayLineAfterCapture`.

## Model

| member | source | states |
|---|---|---|
| RemoteBitbangServer.TapStateMachine.Transition | tap_state_machine.cpp:65-150 | a rising edge moves the state by the IEEE 1149.1 table and a falling edge keeps it; in both cases the callback runs on the resulting state |
| RemoteBitbangServer.TapStateMachine.Advance | tap_state_machine.cpp:75-147 | the 16-way switch is the transition function |
| RemoteBitbangServer.TapStateMachine.ForceIntoState | tap_state_machine.cpp:16-22 | forces a state and runs the callback on it |
| RemoteBitbangServer.TapStateMachine.Reset | tap_state_machine.cpp:11-14 | forces Test-Logic-Reset |
| RemoteBitbangServer.HartCpu.Step | remote_bitbang.cpp:656 | one call of the CPU emulator, an arbitrary function of registers, pc and memory |
| RemoteBitbangServer.RemoteBitbang.constructor | remote_bitbang.cpp:16-68 | builds the power-on machine, with an arbitrary TAP state and TDO |
| RemoteBitbangServer.RemoteBitbang.ResetPins | remote_bitbang.cpp:143-147 | enters Test-Logic-Reset, whatever the arguments |
| RemoteBitbangServer.RemoteBitbang.WritePins | remote_bitbang.cpp:157-283 | a write with tck = 1 is a TAP transition whatever tck was, one with tck = 0 shifts |
| RemoteBitbangServer.RemoteBitbang.ShiftOnFallingEdge | remote_bitbang.cpp:174-281 | shifts only in Shift-DR and Shift-IR |
| RemoteBitbangServer.RemoteBitbang.ShiftDataRegister | remote_bitbang.cpp:184-259 | shifts the register the IR selects, nothing for other instructions |
| RemoteBitbangServer.RemoteBitbang.ShiftIdCode | remote_bitbang.cpp:188-208 | one edge on the IDCODE register; the first after a capture only counts |
| RemoteBitbangServer.RemoteBitbang.ShiftDtmcs | remote_bitbang.cpp:215-231 | one edge on the dtmcs register |
| RemoteBitbangServer.RemoteBitbang.ShiftDmi | remote_bitbang.cpp:233-254 | one edge on the dmi register; the edge that does not shift clears TDO |
| RemoteBitbangServer.RemoteBitbang.StateEntered | remote_bitbang.cpp:285-479 | the whole effect of entering a TAP state, and what it leaves alone |
| RemoteBitbangServer.RemoteBitbang.CaptureDataRegister | remote_bitbang.cpp:381-411 | copies the selected container and restarts the edge counter |
| RemoteBitbangServer.RemoteBitbang.UpdateDataRegister | remote_bitbang.cpp:467-492 | commits IDCODE, runs a DMI transaction, leaves dtmcs |
| RemoteBitbangServer.RemoteBitbang.UpdateDmi | remote_bitbang.cpp:501-1462 | is one DMI transaction on the container, the debug module, the hart and the memory, and touches no register of the TAP side |
| RemoteBitbangServer.RemoteBitbang.DataRegisterAccessed | remote_bitbang.cpp:526-563 | reads answer the low 32 bits, writes store the data, other operations do nothing |
| RemoteBitbangServer.RemoteBitbang.DmControlAccessed | remote_bitbang.cpp:565-602 | a read answers the packed fields, a write goes to the write handler |
| RemoteBitbangServer.RemoteBitbang.DmControlWritten | remote_bitbang.cpp:604-659 | unpacks the fields, then single-steps the hart if resumereq is set, then answers |
| RemoteBitbangServer.RemoteBitbang.AnswerDmControl | remote_bitbang.cpp:661-770 | legalises the hart selection and answers, or leaves the write in the container |
| RemoteBitbangServer.RemoteBitbang.DmStatusAccessed | remote_bitbang.cpp:776-859 | answers the constant status for any operation |
| RemoteBitbangServer.RemoteBitbang.AbstractCsAccessed | remote_bitbang.cpp:889-975 | a read answers the packed fields, a write changes only an unread register |
| RemoteBitbangServer.RemoteBitbang.CommandAccessed | remote_bitbang.cpp:977-1034 | a read loads misa or does nothing and answers nothing, a write runs the command |
| RemoteBitbangServer.RemoteBitbang.CommandWritten | remote_bitbang.cpp:1034-1455 | clears cmderr and runs Access Register, Access Memory or nothing |
| RemoteBitbangServer.RemoteBitbang.AccessRegisterCommand | remote_bitbang.cpp:1058-1340 | reports an unsupported size, and still loads the register into data0 |
| RemoteBitbangServer.RemoteBitbang.AccessMemoryCommand | remote_bitbang.cpp:1347-1449 | address operand by size, read into data0, new data1 |
| RemoteBitbangServer.RemoteBitbang.ReadMemory | remote_bitbang.cpp:1413-1423 | finds or creates the segment and loads the word |
| RemoteBitbangServer.RemoteBitbang.ExecuteCommand | remote_bitbang.cpp:1556-1630 | the effect and the reply of every character |
| RemoteBitbangServer.RemoteBitbang.Serve | remote_bitbang_main.cpp:58-60 | the loop over a stream is the run of the stream, with all replies, up to Q |
| TapLaws.CapturesMinusUpdates | tap_state_machine.cpp:65-150 | over any edges, captures minus updates of a column is 1 exactly inside the column (relative to the start) |
| TapLaws.OneStepCloser | tap_state_machine.cpp:65-150 | every state is at most five TMS = 1 edges from Test-Logic-Reset, and each such edge gets one closer |
| TapLaws.ZeroKeeps | tap_state_machine.cpp:65-150 | TMS = 0 keeps a state if and only if it is Run-Test/Idle, Shift or Pause |
| TapLaws.ZerosSettle | tap_state_machine.cpp:65-150 | from every state any number of TMS = 0 edges settles idle, shifting or pausing, after one edge or two, and stays |
| TapLaws.PauseLaw | tap_state_machine.cpp:98-133 | in both columns, from capture or shift: 1, 0, any zeros pauses, then 1, 0 shifts again, 1, 1 updates |
| StreamLaws.TapRun | remote_bitbang.cpp:166-168 | without r, the TAP state after any stream is the fold of the transition over the TMS of the tck = 1 writes alone |
| StreamLaws.FiveOnesReset | README.md:284-316 | five or more TMS = 1 edges, with anything but a tck = 1 write between them, reset the TAP and select IDCODE from every reachable state |
| StreamLaws.PowerOnOk | remote_bitbang.h:139-164 | the power-on state satisfies the run invariant |
| StreamLaws.RunKeepsOk | remote_bitbang.cpp:157-479 | on every run: IR pair below 2^5, dmi pair below 2^41, dtmcs constant, IR = IDCODE in Test-Logic-Reset, a container at address 0x11 is exactly the status answer, cmderr is 0 or 2 and the other abstractcs fields are 0 |
| StreamLaws.RunIsTransactions | remote_bitbang.cpp:492-1462 | on every command stream, debug module, hart and memory are those after a series of DMI transactions, one for each Update-DR with the dmi register selected |
| StreamLaws.CommitIsolation | remote_bitbang.cpp:157-283 | a stream that enters none of Update-DR, Update-IR, Test-Logic-Reset changes no container, debug module field, CPU or memory |
| StreamLaws.UpdateIsSelective | remote_bitbang.cpp:465-473 | Update-DR changes only what the IR selects |
| StreamLaws.UnselectedScansDoNothing | remote_bitbang.cpp:256-258 | with an unimplemented instruction, data scans of any length change only pins and TAP state, not even TDO |
| StreamLaws.InertCommandsErase | remote_bitbang.cpp:1561-1569 | deleting every character but `0`..`7`, `r`, `R` and `Q` changes neither replies nor the final state |
| StreamLaws.ReadErases | remote_bitbang.cpp:1617-1621 | deleting an R deletes exactly its own reply, 1 or 0 as TDO is high or low at that point |
| StreamLaws.RepliesAreBits | remote_bitbang.cpp:1617-1621 | every stream without Q is answered with one character for each R, and only with 0 and 1 |
| StreamLaws.QuitEndsStream | remote_bitbang.cpp:1623-1626 | nothing behind a Q is carried out or answered, and the Q changes nothing but the quit flag |
| DelayLine.DelayLineLaw | remote_bitbang.cpp:184-261 | under any stream that stays between capture and update, register, TDO and counter are those of a delay line fed the edges that shift |
| DelayLine.DelayLineAfterCapture | remote_bitbang.h:164 | after n edges, n - ceil(n/256) shifts took effect, the counter is n mod 256, and line and TDO are those of a line loaded with the container |
| DelayLine.PowerOnLines | remote_bitbang.h:139-164 | at power-on both lines hold zeros and the edge counter is 0 |
| DelayLine.IrLineLaw | remote_bitbang.cpp:264-280 | the instruction register is a 5-bit delay line that shifts on every edge |
| DelayLine.IrLoad | remote_bitbang.cpp:470-473 | five or more edges load the last five TDI bits at Update-IR, whatever was captured and however the scan paused |
| ScanLaws.DrScanLaw | README.md:354-390 | a data scan of any length, as the client sends it, is one step of the committed state and shows the TDO history of the delay line loaded with the container |
| ScanLaws.PausedScanLaw | tap_state_machine.cpp:103-133 | the same with a pause of any length after any of the bits: replies and committed state do not depend on the pauses |
| ScanLaws.PauseAndReturn | tap_state_machine.cpp:103-133 | on the pins: leaving a shift state for a pause of any length and coming back changes nothing but the pins |
| ScanLaws.ShortScan | remote_bitbang.cpp:194-207 | up to 255 bits every bit shifts: the reply is the container followed by the scan's own bits |
| WireLaws.WireRefinesTransactions | remote_bitbang.cpp:399-406 | any series of 41-bit requests, driven pin by pin, leaves the fold of Transact over them and reads back exactly the containers before each |
| WireLaws.IrScanLaw | remote_bitbang.cpp:414-421 | an instruction scan loads its five bits, changes nothing else that is committed, and shows the old instruction without its lowest bit |
| WireLaws.PausedIrScanLaw | remote_bitbang.cpp:414-421 | the same with any pauses between the five bits |
| WireLaws.SessionFromAnywhere | remote_bitbang.cpp:1556-1630 | from every reachable state short of Q, in any TAP state: reset, select dmi, send requests; the replies are those of the transaction machine |
| WireLaws.SessionLaw | remote_bitbang.cpp:16-68 | the same from power-on, with the initial debug module |
| ScanLaws.UnselectedScanLaw | remote_bitbang.cpp:256-258 | with an unimplemented instruction, a data scan as the client sends it commits nothing and shows TDO as it stood, once per bit |
| WireLaws.ProgramLaw | remote_bitbang.cpp:157-479 | any program of TAP resets, any number of idle clocks, instruction scans of any 5-bit instruction and data scans of any length, both with any pauses, is the fold of its operations over the committed state and TDO, with exactly their replies |
| WireLaws.ProgramFromAnywhere | remote_bitbang.cpp:143-147 | the same behind a reset, from every reachable state short of Q |
| WireLaws.ProgramFromPowerOn | remote_bitbang.cpp:16-68 | the same behind a reset, from power-on in any TAP state |
| WireLaws.DtmcsScan | remote_bitbang.cpp:1687-1746 | a dtmcs scan of any length of 32 bits or more reads version 1 and the dmi width less 34, and changes nothing |
| WireLaws.IdCodeLoopBack | remote_bitbang.cpp:188-208 | successive IDCODE scans of any length, with or without TAP resets, are a 32-bit queue through the client, and nothing but that register changes |
| WireLaws.ShortIdScans | remote_bitbang.cpp:194-207 | up to 255 bits a scan, the replies are the register's content followed by everything sent, delayed by 32 |
| WireLaws.ResetShowsIdCode | remote_bitbang.cpp:297-304 | a scan behind a TAP reset shows the identification code if and only if the last 32 bits of the old content followed by everything shifted in are the code |
| WireLaws.ResetKeepsScannedIdCode | remote_bitbang.cpp:470-473 | on the pins: after a scan of 32 zeros, the scan behind a reset answers zeros |
| WireLaws.PacketBits | remote_bitbang.cpp:549-552 | on the wire a container is 2 bits of operation, 32 of data, 7 of address, each least significant bit first |
| SpelledLaws.DataOnWire | remote_bitbang.cpp:538-559 | write data_i, any requests that do not store into it, read data_i: the next scan shows operation 0, the word and the address, digit by digit |
| SpelledLaws.RegisterOnWire | remote_bitbang.cpp:1109-1119 | after any requests without a resume, an Access Register read of number 0x1000 + r, with any other fields, and a data0 read put the starting value of register r on the wire |
| SpelledLaws.S0OnWire | README.md:640-654 | the command 0x00221008 and a read of data0 are answered with `00`, the 32 digits of s0 and `0010000` |
| SpelledLaws.MemoryOnWire | remote_bitbang.cpp:1396-1423 | after any requests without a resume: address into data1, a 32-bit read command, a read of data0 put on the wire the word that an existing segment held at the start |
| SpelledLaws.DmControlOnWire | remote_bitbang.cpp:661-770 | the scan behind any dmcontrol write shows the legalised word with operation 0, or, with neither bit 26 nor bit 0 set, the unanswered write |
| SpelledLaws.NopResponses | remote_bitbang.cpp:501-513 | in a state that an all-zero scan leaves alone, every further one shows the same response |
| SpelledLaws.AnswersRepeat | remote_bitbang.cpp:501-513 | once the container has operation 0, any number of all-zero scans on the wire changes nothing and shows the same response each time |
| SpelledLaws.LastReply | remote_bitbang.cpp:233-254 | the last 41 replies of a request series spell the container that the requests before the last one left, whatever the last one is |
| SpelledLaws.FrameChars | remote_bitbang.cpp:1823-1836 | a container arrives as the digits of operation, data and address, each least significant first |
| SpelledLaws.StreamsSpelled | remote_bitbang.cpp:1575-1612 | the characters of the reset, of the ways into and out of the shift states, of an idle and a pause cycle and of each bit |
| SpelledLaws.InstructionsSpelled | remote_bitbang.cpp:419-421 | the characters of the dmi and dtmcs instruction scans, and the five zeros that answer the one behind a reset |
| SpelledLaws.AttachOnWire | remote_bitbang.cpp:1556-1630 | from every reachable state short of Q one literal string of 32 characters is answered `00000`, selects instruction 0x11 and leaves everything else committed |
| SpelledLaws.IdCodeOnWire | remote_bitbang.h:143 | the first data scan after power-on shows 0x20000913, behind a reset from any TAP state, and from Run-Test/Idle also without one |
| SpelledLaws.DtmcsOnWire | remote_bitbang.cpp:1687-1746 | from every reachable state short of Q a reset, instruction 0x10 and a 32-bit scan show 0x71, and only the instruction changes |
| SpelledLaws.FirstContainerOnWire | remote_bitbang.cpp:28-68 | the first DMI scan of the first session after power-on shows address 0x10, data 1, operation 0 |
| Transactions.PacketFields | remote_bitbang.cpp:1823-1836 | the three getters invert the packing of the dmi register |
| DmiLaws.TransactKeepsCoreOk | remote_bitbang.cpp:501-1462 | every transaction keeps the debug module's part of the run invariant |
| DmiLaws.StepsOnlyOnResume | remote_bitbang.cpp:642-659 | a transaction steps the hart exactly when it processes a dmcontrol write with bit 30, and then dpc is the pc; otherwise registers, pc, dpc and every existing word stay |
| DmiLaws.StepCount | remote_bitbang.cpp:642-659 | over every run the hart makes exactly as many steps as such writes are processed, with only memory growth between them |
| DmiLaws.StepHistory | remote_bitbang.cpp:658 | before the first step dpc and the hart are unchanged, afterwards dpc is the pc |
| DmiLaws.ResumeSteps | remote_bitbang.cpp:604-770 | a resume request and n all-zero scans step once if hasel or dmactive is set and n + 1 times otherwise |
| DmiLaws.RepeatIsExact | remote_bitbang.cpp:511-1462 | processing a container again changes nothing if and only if the state is quiescent |
| DmiLaws.NopScanExact | remote_bitbang.cpp:501-513 | in every state reachable by scans, an all-zero scan changes nothing if and only if the state is quiescent |
| DmControlFields.PackUnpack | remote_bitbang.cpp:611-624 | packing the unpacked dmcontrol fields gives every 32-bit word back |
| DmControlFields.UnpackPack | remote_bitbang.cpp:573-587 | unpacking packed fields gives the fields back |
| DmControlFields.LegalFields | remote_bitbang.cpp:704-742 | a write stores the legalised word: with bit 26 set, bits 25..6 cleared and bit 0 set; legalising twice is legalising once |
| RegisterLaws.DmControlReadBack | remote_bitbang.cpp:568-770 | after a dmcontrol write and any scans that do not write it, a read answers the legalised word |
| RegisterLaws.CommandKeepsData | remote_bitbang.cpp:990-1453 | only register and memory reads store into data0, only memory commands into data1, and no command into data2..data11 |
| RegisterLaws.DataReadBack | remote_bitbang.cpp:538-559 | a data register reads back the last word written whatever requests come between that do not store into it, for data2..data11 all commands included |
| RegisterLaws.GprOffsetExact | remote_bitbang.cpp:1110-1111 | the 32-bit unsigned subtraction accepts exactly 0x1000..0x101f |
| RegisterLaws.RegisterReadBack | remote_bitbang.cpp:1109-1334 | an Access Register read of any register number and size answers the hart register, misa, dpc or the old data0, and leaves the hart alone |
| RegisterLaws.RegisterWriteIsDropped | remote_bitbang.cpp:1121-1127 | an Access Register write changes nothing but cmderr |
| RegisterLaws.ReadsAreAnswered | remote_bitbang.cpp:526-1461 | a read is answered exactly at the readable addresses and then changes neither module nor hart |
| RegisterLaws.CmdErrHistory | remote_bitbang.cpp:1052-1105 | on every run cmderr is 2 exactly if the last command was an Access Register of size 3 or 4 |
| RegisterLaws.AbstractCsReadBack | remote_bitbang.cpp:892-909 | an abstractcs read answers cmderr in its field and zero in all others |
| MemoryLaws.AddressSplit | remote_bitbang.cpp:1413-1423 | segment key and word index split the low 32 address bits without loss; the key is a multiple of 65536, the index below 16384 |
| MemoryLaws.MemoryReadLoads | remote_bitbang.cpp:1413-1423 | a read loads the word at its address, and finding or creating a segment changes no existing word |
| MemoryLaws.MemoryCommandEffect | remote_bitbang.cpp:1374-1449 | every memory command overwrites data1 with the next address or the command word; a write changes neither memory nor data0 |
| MemoryLaws.ReadsAgree | remote_bitbang.cpp:1416-1423 | two reads of one word with no step between them agree, even if the first created the segment with unknown contents |
| MemoryLaws.BlockEnd | remote_bitbang.cpp:1427-1449 | n post-increment commands from address a leave a + 4n in data1 and change no register and no existing word |
| MemoryLaws.BlockTransfer | remote_bitbang.cpp:1396-1449 | the k-th command of a mixed block transfer, if a read, answers the word at (a + 4k) mod 2^32 of the final memory |
| MemoryLaws.BlockAddressReadBack | remote_bitbang.cpp:1439-1449 | after a block transfer, data1 reads (a + 4n) mod 2^32 |
| RequestLaws.CommandWordFields | remote_bitbang.cpp:1064-1069 | type, size, post-increment, write and register number are read from the bits where the command layout puts them, in Access Register and in Access Memory |
| RequestLaws.EveryCommandWord | remote_bitbang.cpp:1034-1058 | every 32-bit word is such a layout, so the command laws leave no word out |
| RequestLaws.RegisterCommand | remote_bitbang.cpp:1058-1340 | Access Register with any fields: the whole new state; 0x1000..0x101f, 0x301 and 0x7b1 load data0 unless write is set, cmderr is 2 for sizes 3 and 4 and else 0 |
| RequestLaws.RegisterCommandShown | remote_bitbang.cpp:538-552 | the read of data0 behind it answers that register, whatever data the read carries |
| RequestLaws.MemoryCommand | remote_bitbang.cpp:1347-1449 | Access Memory with any fields at any address: the whole new state; the address comes from data1, from data2 (high) and data3 (low) or from the last command, the segment is found or created, the word is loaded, data1 becomes the next address or the command word |
| RequestLaws.AddressParts | remote_bitbang.cpp:1413-1414 | every 64-bit address has a segment key, a word index and two ignored bits, so the law covers them all |
| RequestLaws.MemoryReadShown | remote_bitbang.cpp:1396-1449 | address into data1, 32-bit read: data0 then shows the word and, with post-increment, data1 the address plus 4 modulo 2^32 |
| RequestLaws.OtherCommand | remote_bitbang.cpp:1342-1345 | every other command type clears cmderr and does nothing else |
| RequestLaws.InertRequest | remote_bitbang.cpp:502-503 | operations 0 and 3 away from dmstatus, unimplemented addresses, hartinfo writes and command reads of anything but misa only replace the container |
| RequestLaws.DataRead | remote_bitbang.cpp:538-552 | a data register read answers the low 32 bits whatever data it carries, and changes nothing else |
| RequestLaws.DataWrite | remote_bitbang.cpp:554-559 | a data register write stores the word and changes nothing else |
| RequestLaws.DmControlWrite | remote_bitbang.cpp:604-770 | for every word: the answer (the legalised word if bit 26 or bit 0 is set, none otherwise), the stored fields, and the step with its dpc if bit 30 is set |
| RequestLaws.DmControlShown | remote_bitbang.cpp:568-602 | a read right behind the write answers the legalised word, whatever data it carries |
| RequestLaws.StatusRequest | remote_bitbang.cpp:776-859 | dmstatus answers 0x20283 to every operation and data |
| RequestLaws.HartInfoRead | remote_bitbang.cpp:861-887 | a hartinfo read answers zero and changes nothing else |
| RequestLaws.AbstractCsRequest | remote_bitbang.cpp:889-975 | in every reachable state a read answers cmderr at bit 8 and zeros, and a write changes only the unread register |
| RequestLaws.CommandRead | remote_bitbang.cpp:990-1033 | a read of the command register that selects 0x301 loads misa into data0, unanswered |
| RequestLaws.ZeroScan | remote_bitbang.cpp:501-513 | an all-zero scan is a second scan of the container |
| RequestLaws.PowerOnReads | remote_bitbang.h:170-305 | at power-on the container is 0x10, 1, 0; dmcontrol and the data registers read zero, dpc reads 0x40000000 and the address of the last memory command is 0 |
| RunLaws.DpcOnStreams | remote_bitbang.h:305 | on every command stream from power-on, dpc is 0x40000000 and the hart untouched before the first step, and dpc is the pc afterwards |
| RunLaws.CmdErrOnStreams | remote_bitbang.h:276 | the error-code history on every command stream from power-on |
| RunLaws.AbstractCsOnStreams | remote_bitbang.cpp:892-909 | after any command stream from power-on short of Q, a session that reads abstractcs is shown cmderr in its field and zero in all others |
| RunLaws.UpdatesAreRequests | remote_bitbang.cpp:502-503 | on every stream the values handed to the DMI are 41-bit requests |
| RunLaws.NopOnStreams | remote_bitbang.cpp:501-513 | the exact condition for a harmless all-zero scan after every command stream |
| RunLaws.NopsRepeatBlockCommand | remote_bitbang.cpp:1034-1455 | after a post-increment command, n all-zero scans run it n more times |
| RunLaws.ResumeStepsTwice | remote_bitbang.cpp:661-770 | a resume request to an inactive module followed by one all-zero scan steps twice |

## Left out

- Sockets, accepting a client, waiting and `abort` paths: input and output; a command stream is a sequence of characters, the replies a sequence of characters.
- Printing, name tables, the timestamp of a step and the pin outputs of `tick`: plain output. With them go `arg0` and `arg2`, which are only printed or unused, and `trstn`, which never changes.
- The CPU emulator (`cpu_step`, `cpu_t`) is not part of this model: a step is any function of registers, pc and memory. Registers and pc are taken as 32 bits wide.
- The Intel HEX loader is not part of this model: memory starts as any map from multiples of 65536 to blocks of 16384 words. The emulated step is assumed to keep that shape; the type `Segments` states it, and every update in the model is checked against it.
- Fresh memory: the contents of a new block are a function of the memory map and the key, so a block allocated a second time from the same map has the same contents. That needs an emulated step that drops segments; the program itself never drops one.
- The TAP state at power-on is any of the sixteen. The program leaves the variable unset, so it could hold another value, which the default branch (tap_state_machine.cpp:144-146) only reports and keeps.
- Undefined behaviour: post-increment with access size 0 shifts by an out-of-range amount; the model gives the shift an arbitrary value, the same one each time, and nothing else.
- RemoteBitbangServer.RemoteBitbang.DmControlWritten: the fourteen dmcontrol variables are one record field, assigned as a whole, and the five abstractcs variables another; their ranges are types. The order of the single assignments is not captured.
- RemoteBitbangServer.HartCpu.Step: the register file and the memory blocks are values, not C arrays, because the debug module only reads them; aliasing of blocks is not captured.
- MemoryLaws.BlockTransfer: block transfers are 32-bit accesses with post-increment; MemoryCommandEffect and MemoryReadLoads cover single commands of the other sizes.
- Quick Access, the program buffer, BYPASS, SWD commands, CSR writes and the arguments of `reset`: the code does nothing for them beyond what `ExecuteCommand` and `AccessRegisterCommand` state.
