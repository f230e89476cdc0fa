# Verified model of the retronet-pc device layer

This project models the devices of an IBM PC/XT emulator and proves what they keep over
whole runs. Four linked paths are covered:

- **Floppy data path** - memory bus with ROM (`Bus.dfy`), floppy image (`Floppy.dfy`), 8237A DMA
  (`Dma.dfy`), and the NEC 765 controller: its command machine (`FdcControl.dfy`), the data phase on
  values (`FdcTransfer.dfy`), the controller object (`Fdc.dfy`) and the effect of whole commands
  (`FdcResults.dfy`).
- **Time and interrupts** - 8253 timer (`Pit.dfy`), 8259A interrupt controller (`Pic.dfy`, runs in
  `PicRuns.dfy`), the machine as one state machine (`Clock.dfy`) and as wired objects (`Machine.dfy`).
- **Hard disk** - disk store and bounds checks (`HardDisk.dfy`), ATA channel (`Ata.dfy`, runs in
  `AtaRuns.dfy`), XT-IDE card (`XtIde.dfy`) and IDENTIFY DEVICE through it (`Identification.dfy`).
- **Keyboard and screen** - 8255 and keyboard queue (`Ppi.dfy`, runs in `KeyboardRuns.dfy`), scan
  codes (`Scancodes.dfy`), text from encoder to handler (`Typing.dfy`), text video (`TextVideo.dfy`).

`dafny verify dfyconfig.toml` checks everything.

## How it is written

Each device is a class with the registers of the Go struct of that device, updated in place by methods with the same
branches. A method's contract equates the new state with a function of the old one, and that
function is where the difference lies: the timer's loop is a closed form, the interrupt controller's
bit masks are sets and a stack (`Pic.PIC` carries the stack as ghost history), the floppy's sector
loop is a fold whose effect is a closed form, the ATA buffer is a list of words that commits at once.
Whole runs are sequences of events folded over those functions. What these functions mean is stated
apart from them: in ports, bytes and numbers as a program meets them, and by order and inverse laws.

Bytes, words and 32-bit numbers are bounded integers and every truncation is written out with `%`.
The interrupt controller uses `bv8`, since its registers are searched bit by bit.

Main results: `Fdc.TurnsStopAtMinimum`, `Fdc.FDC.RunSectors`; `FdcResults.ReadDataEffect`, `ReadDataBytes`,
`WriteDataBytes`, `ReadDataStraight`, `WriteThenReadData`, `MoveThroughPorts`; `FloppyDisk.SectorsInOrder`;
`Clock.TimeAdds`, `IdleStepsAreOneTick`, `ClockDrives`, `WakesUp`, `WakesExactly`, `HandlersNest`;
`Pit.FiresEveryPeriod`, `LatchReadsBackIff`; `PicRuns.ServiceIsNested`, `EoiEndsMostRecent`,
`RequestsAreConserved`, `DrainServesAll`; `AtaRuns.RunRefines`, `WriteCommitsIff`, `CommitsLastWrite`;
`XtIde.RoundTrip`, `CommandAnswers`; `Identification.IdentifyDelivers`; `KeyboardRuns.NothingIsLost`,
`QuietAfterAck`, `PerformAll`; `Scancodes.KeymapIsLayout`, `TextIsRecovered`, `KeyCloses`;
`Typing.TypedTextArrivesInTime`, `HandlerReadsText`.

## Where the code does less than one would expect

- A DMA transfer of exactly 65536 bytes is length zero to `advance`: Terminal Count is not reported and
  the registers do not move (`Dma.TerminalCountExact`). Floppy transfers move at most 512 bytes at a time.
- Within one DMA transfer a 64 KB crossing carries into the next page; between transfers the address
  wraps inside the page. A floppy read is contiguous in memory iff its last sector starts inside the
  page (`FdcTransfer.DestContiguousIff`); the general effect is stated without that condition.
- A floppy write takes its bytes from the DMA channel before the address is looked at, so a failing
  write advances the channel by one sector more (`FdcTransfer.FailedPass`).
- Time is additive for every device except in one case: a queued scan code 0, which means "no code",
  lets the next code through without an acknowledge. The exact condition is
  `KeyboardRuns.BlankPresented`.
- A latch command given between the two reads of a counter releases the latch after the high half. Two
  reads after a latch command rebuild the latched count whatever time passes iff the command did not come
  between two reads, or the counter stands still on a count with equal halves (`Pit.LatchReadsBackIff`;
  `Pit.LatchMidRead` is the failing case).
- Reading the ATA data register during a WRITE skips a word, which stays zero. A WRITE of n sectors commits
  iff the 256 n-th access to the data register is a word written (`AtaRuns.WriteCommitsIff`); if that word is
  skipped, the write stays pending and nothing that follows commits it (`AtaRuns.LastAccessDecides`,
  `SkippedNeverCommits`). RECALIBRATE and the other simple commands, failed READs and commands to the absent
  slave leave a pending write in place.
- Initialising the interrupt controller without ICW4 keeps the end-of-interrupt mode it had
  (`PicRuns.InitialisesFully`).
- The disk's range check is exact for counts below 2^32; above, only the low 32 bits are compared
  (`HardDisk.AcceptsExactly`, `HugeCountAccepted`). The ATA channel asks for at most 256 sectors.
- An image loaded as ROM protects all of itself iff it does not wrap past 1 MB, or is a whole number of
  megabytes loaded at the bottom (`Memory.RomProtectsItself`).
- A key whose code is not seven bits, or is 0x60, is never closed by its break (`Scancodes.KeyCloses`); the
  keys with names all close.
- `docs/architettura.md` says that refresh is not simulated and that modifier keys are missing; the
  code has both, and the code is modelled.

## Model

| member | source | states |
|---|---|---|
| `FdcResults.CourseIsMinimum` | device/fdc.go:199-260 | the loop, turn by turn, moves the minimum of the programmed bytes in whole sectors, EOT (at least one) and the sectors left on the track; all seven result bytes, ST0, present cylinder and pending interrupt at its end |
| `FdcResults.ReadDataEffect` | device/fdc.go:225-253 | Read Data lands exactly min(count+1, 512 K) image bytes from the CHS offset at their destinations, ROM excepted, changes nothing else and leaves the channel advanced by the bytes moved |
| `FdcResults.ReadDataBytes` | device/fdc.go:225-253 | byte i of a read is image byte 512 ((C heads + H) sectors + R - 1) + i, found at page:address with each sector at the wrapped address, unless ROM is there |
| `FdcResults.ReadDataStraight` | device/dma.go:164-179 | if the last sector starts inside the 64 KB page, memory is the old one with that stretch of the image deposited contiguously at page:address |
| `FdcResults.WriteDataEffect` | device/fdc.go:225-231 | Write Data replaces exactly that stretch of the image by the bytes gathered from memory, a short last sector included; a failing pass only moves the channel |
| `FdcResults.WriteDataBytes` | device/fdc.go:225-231 | each byte of the image inside the stretch comes from its address in memory, every other byte stays |
| `FdcResults.NoDiskResult` | device/fdc.go:211-213 | without a disk the result reports abnormal termination, no data and the sector addressed |
| `FdcResults.WriteThenReadData` | device/fdc.go:199-260 | Write Data, channel reprogrammed with the same count, Read Data: the destination receives the source bytes and the image changed nowhere else |
| `FdcResults.MoveThroughPorts` | device/fdc.go:43-137 | nine bytes to the data port and seven from it: a data command has moved exactly the bytes of its closed form, all seven result bytes and the pending interrupt are as stated, IRQ6 is raised iff bit 3 of the DOR is set, and the controller is idle |
| `FdcResults.ResetThroughPorts` | device/fdc.go:76-87 | bit 2 of the DOR low and high, then Sense Interrupt through the ports: the BIOS reads 0xC0 and the cylinder of drive 0, and IRQ6 was raised |
| `FdcResults.SenseThroughPorts` | device/fdc.go:178-185 | 08 through the ports reads back the pending status and cylinder, or 0x80 |
| `Fdc.TurnsStopAtMinimum` | device/fdc.go:224-254 | the loop on values - fail on an illegal address, else move a sector and test Terminal Count and EOT - ends at the smallest of its three limits and fails iff the track is strictly smallest |
| `FdcTransfer.ReadPasses` | device/fdc.go:234-253 | the sector loop after k good sectors equals the closed form of Read Data, by induction over the passes |
| `FdcTransfer.WritePasses` | device/fdc.go:228-231 | the same for Write Data |
| `FdcTransfer.FailedPass` | device/fdc.go:242-246 | a pass past the end of the track changes nothing on a read and only the DMA registers on a write |
| `FdcTransfer.WriteThenRead` | device/fdc.go:225-253 | write and read of the same sectors are inverse for any registers the channel held in between |
| `FdcTransfer.LandBytes` | device/dma.go:170-173 | every byte is found at its destination unless ROM is there, and every other address keeps its value |
| `FdcTransfer.DestInjective` | device/dma.go:152-154 | no two bytes of a floppy transfer share an address, whatever wraps |
| `FdcTransfer.DestContiguousIff` | device/dma.go:204-209 | the bytes are contiguous iff no sector starts past the end of the page |
| `Fdc.CountAfter` | device/dma.go:204-209 | after k whole sectors the channel's count is reduced by 512 k, and the next sector ends the count iff at most 512 bytes are left |
| `Fdc.FDC.TransferSector` | device/fdc.go:225-241 | one turn moves one sector as the pass on values does, and fails iff the address is outside the geometry |
| `Fdc.FDC.Turn` | device/fdc.go:225-253 | the loop fails exactly at the track limit and stops exactly at Terminal Count or EOT |
| `Fdc.FDC.RunSectors` | device/fdc.go:224-254 | the loop terminates after min(programmed sectors, EOT with at least one, rest of the track) sectors, fails iff the track is strictly smallest, and leaves the media of that many passes |
| `Fdc.FDC.ReadWrite` | device/fdc.go:199-260 | status, present cylinder, result bytes, IRQ6, disk, memory and DMA after a data command |
| `Fdc.FDC.ExecuteCommand` | device/fdc.go:139-169 | every command leaves the state the command machine prescribes and raises IRQ6 only if it interrupts and the DOR enables it |
| `Fdc.FDC.ExecuteControl` | device/fdc.go:139-194 | the commands without sector data |
| `Fdc.FDC.WriteDataPort` | device/fdc.go:101-115 | bytes are collected, the last parameter executes, result phase ignores writes |
| `Fdc.FDC.ReadDataPort` | device/fdc.go:89-99 | result bytes in order, idle after the last |
| `Fdc.FDC.WriteDorPort` | device/fdc.go:76-87 | leaving reset goes idle, records ready-changed and interrupts if enabled |
| `Fdc.FDC.In8` | device/fdc.go:43-74 | main status, result bytes, or open bus |
| `Fdc.FDC.Out8` | device/fdc.go:54-61 | DOR and data writes with their effect on state, media and IRQ6; without a disk or a complete command DMA and memory keep their values |
| `FdcControl.Run` | device/fdc.go:101-137 | over any port accesses the phase invariant holds: commands are incomplete while collected and the result index is inside the result |
| `FdcControl.PhasesHold` | device/fdc.go:65-74 | the main status is 0x80 idle, 0x90 collecting, 0xD0 with a result byte unread |
| `FdcControl.CommandExecutes` | device/fdc.go:101-115 | the last byte of a command executes it on exactly the bytes sent |
| `FdcControl.FetchesResult` | device/fdc.go:89-99 | n reads deliver the next n result bytes and end the phase iff they are the last |
| `FdcControl.CommandCycle` | device/fdc.go:89-194 | every command sent to an idle controller is idle again after exactly its number of result reads, which deliver the result |
| `FdcControl.SeekThenSense` | device/fdc.go:171-185 | Sense Interrupt after Seek reports seek end, drive and cylinder once, then 0x80 |
| `FdcControl.Recalibrates` | device/fdc.go:143-146 | 07 and a drive: cylinder 0, seek end pending |
| `FdcControl.Specifies` | device/fdc.go:141-142 | 03 and two parameters leave no trace |
| `FdcControl.SensesDrive` | device/fdc.go:153-159 | 04 reports drive, ready and track 0, and no interrupt is pending for it |
| `FdcControl.ReadsId` | device/fdc.go:187-194 | 0A reports drive, head, present cylinder, sector 1, size 2 |
| `FdcControl.Refuses` | device/fdc.go:118-137 | commands not carried out report 0x80 after exactly their parameters |
| `FdcControl.OutOfTurn` | device/fdc.go:89-115 | bytes written while a result waits are ignored, and a read with none waiting gives zero |
| `FdcControl.InterruptsArePending` | device/fdc.go:139-194 | an interrupt becomes pending with exactly the commands that raise IRQ6 |
| `FdcControl.ResetThenSense` | device/fdc.go:76-87 | after reset Sense Interrupt reports 0xC0 and the cylinder of drive 0 |
| `Dma.TerminalCountExact` | device/dma.go:164-179 | Terminal Count iff count+1 bytes moved, except for a whole 64 KB page |
| `Dma.TransfersCompose` | device/dma.go:164-179 | moving x then y equals moving x+y: memory, registers, status bit and reported Terminal Count |
| `Dma.CollectionsCompose` | device/dma.go:185-200 | the same for transfers from memory |
| `Dma.TransferLands` | device/dma.go:164-179 | byte i of a transfer is at 65536 page + address + i modulo 1 MB, unless ROM is there |
| `Dma.TransferSpares` | device/dma.go:164-179 | every other address keeps its value |
| `Dma.CollectionTakes` | device/dma.go:185-200 | byte i of a transfer from memory is taken from that address |
| `Dma.BaseAfter` | device/dma.go:204-209 | the physical address advances by n iff the 16-bit address does not wrap |
| `Dma.ProgramSetsChannel` | device/dma.go:39-62 | byte-wise programming sets address, page and count from any flip-flop state and nothing else |
| `Dma.ProgramsChannel` | device/dma.go:39-62 | the same for every channel at its address, count and page port, and no other channel changes |
| `Dma.MaskPorts` | device/dma.go:49-60 | single mask, mode and all-mask writes reach exactly the channels they name |
| `Dma.MasterClears` | device/dma.go:55-56 | master clear masks and zeroes every channel, flip-flop and status |
| `Dma.OtherPorts` | device/dma.go:39-80 | the other ports read as 0xFF and take no writes |
| `Dma.CountReadsBack` | device/dma.go:133-142 | two reads of a count port give the register back |
| `Dma.AddressReadsBack` | device/dma.go:65-80 | two reads give the address back, and one the page |
| `Dma.StatusReadsOnce` | device/dma.go:74-77 | the status shows Terminal Count bits once and reading it changes nothing else |
| `Dma.StatusShowsTerminalCount` | device/dma.go:164-179 | a transfer that ends its count sets exactly its channel's bit of the status |
| `Dma.StatusShowsRefresh` | device/dma.go:85-93 | refresh sets bit 0 of the status once its count ran out |
| `Dma.RefreshSnoc` | device/dma.go:85-93 | one more refresh cycle extends the closed form of p cycles |
| `Dma.RefreshAdds` | device/dma.go:85-93 | refresh cycles are additive in count and Terminal Count bit |
| `Dma.DMA.TransferToMemory` | device/dma.go:164-179 | memory receives the accepted bytes, registers and Terminal Count as specified |
| `Dma.DMA.TransferFromMemory` | device/dma.go:185-200 | the bytes at the channel's address, registers and Terminal Count as specified |
| `Dma.DMA.AdvanceChannel` | device/dma.go:204-209 | address and count move modulo 2^16, underflow is reported and recorded |
| `Dma.DMA.RefreshCycle` | device/dma.go:85-93 | one refresh cycle |
| `Dma.DMA.Out8` | device/dma.go:39-62 | registers, flip-flop, masks, modes, master clear, pages |
| `Dma.DMA.In8` | device/dma.go:65-80 | register halves, status cleared by reading, pages |
| `Memory.Bus.Write8` | memory/bus.go:30-36 | a write changes its byte unless it is ROM |
| `Memory.Bus.IsROM` | memory/bus.go:55-62 | an address is protected iff some range holds it |
| `Memory.Bus.LoadRAM` | memory/bus.go:39-43 | an image of any length lands from its address, the last byte written to an address staying |
| `Memory.Bus.LoadROM` | memory/bus.go:47-53 | the image lands and its range is recorded; an empty image does nothing |
| `Memory.RomProtectsItself` | memory/bus.go:47-62 | a loaded image of any length is protected in full iff it does not wrap, or fills memory a whole number of times from the bottom |
| `Memory.RomSurvives` | memory/bus.go:30-36 | a protected byte survives any block of writes |
| `Memory.BiosAtTop` | machine/machine.go:110-113 | a BIOS image covers and protects exactly the top of memory; of one longer than memory only the part up to a whole number of memories is protected |
| `Memory.DepositAppend` | memory/bus.go:30-36 | two adjacent blocks of writes are one |
| `FloppyDisk.NewFloppy` | disk/floppy.go:37-51 | 360 KB, 720 KB, 1.2 MB or 1.44 MB, the smallest that holds the image, zero padded, in place when the size is exact; refused iff larger than the largest |
| `FloppyDisk.SectorInside` | disk/floppy.go:54-62 | a legal CHS address is a sector inside the image |
| `FloppyDisk.SectorsDisjoint` | disk/floppy.go:54-62 | different legal addresses are disjoint sectors |
| `FloppyDisk.SectorsInOrder` | disk/floppy.go:54-62 | sectors lie in the order cylinder, head, sector without gaps: (0,0,1) at 0, then the track, the other head, the next cylinder, and the last sector ends the image |
| `FloppyDisk.FormatsAre` | disk/floppy.go:19-24 | the four geometries and their sizes |
| `FloppyDisk.Floppy.ReadSector` | disk/floppy.go:65-73 | the sector's bytes iff the address is legal |
| `FloppyDisk.Floppy.WriteSector` | disk/floppy.go:76-83 | at most one sector is overwritten, longer data is cut, and nothing is written for an illegal address |
| `Pit.CountdownIs` | device/pit.go:58-78 | pulses and remaining clocks are the only pair that balances the clocks, with the rest inside a period |
| `Pit.TickIsClocks` | device/pit.go:58-78 | ticking n clocks equals n single clocks of a down-counter, in count and pulses |
| `Pit.TickAdds` | device/pit.go:58-78 | ticking is additive in count and pulses |
| `Pit.TickedLeft` | device/pit.go:63-76 | storing 65536 as zero loses nothing for the next tick |
| `Pit.ProgramsCounter` | device/pit.go:81-129 | control word, low byte, high byte start the counter at the value |
| `Pit.ProgramsThroughPorts` | device/pit.go:81-129 | a control word and its bytes through the ports start exactly the selected counter: at the low byte alone, at 256 times the high byte alone, or at both, with two bytes only after the second; the others keep theirs |
| `Pit.FiresEveryPeriod` | device/pit.go:58-78 | from then on there is one terminal count in every period of as many clocks as were programmed, 65536 for zero |
| `Pit.LatchesThroughPorts` | device/pit.go:112-122 | a control word with access 0 latches the count of its counter and changes nothing else |
| `Pit.ReadsThroughPorts` | device/pit.go:132-157 | unlatched reads give one half, or the low half and then the high half of the count as it is then |
| `Pit.ControlPortOnly` | device/pit.go:112-135 | the control port reads as 0xFF and ignores control words for counter 3 |
| `Pit.LatchFreezes` | device/pit.go:112-157 | a latched count is read back low half then high half whatever time passes, while the counter runs on, also before any control word |
| `Pit.LatchReadsBackIff` | device/pit.go:112-157 | two reads after a latch command rebuild the latched count whatever time passes iff it was not given between two reads, or the counter stands still on equal halves |
| `Pit.LatchedHalf` | device/pit.go:112-157 | a counter read by one half returns that half of the latched count and releases the latch |
| `Pit.LatchMidRead` | device/pit.go:112-157 | latched between two reads, only the high half comes from the latch |
| `Pit.Counter.Tick` | device/pit.go:58-78 | the loop computes the closed form of count and pulses |
| `Pit.Counter.Write` | device/pit.go:86-103 | byte-wise reload by access mode |
| `Pit.Counter.Read` | device/pit.go:136-156 | byte-wise read of the count or its latch |
| `Pit.PIT.Tick` | device/pit.go:44-54 | all counters advance, line 0 is raised at most once per call, one refresh per pulse of counter 1 |
| `Pit.PIT.Out8` | device/pit.go:81-129 | counter writes and control words |
| `Pit.PIT.In8` | device/pit.go:132-157 | counter reads |
| `PicRuns.ServiceIsNested` | device/pic.go:58-154 | over any run the lines in service are a stack: newer entries outrank older ones and were acknowledged later |
| `PicRuns.EoiEndsMostRecent` | device/pic.go:142-154 | a non-specific EOI ends exactly the most recently acknowledged line in service |
| `PicRuns.RequestsAreConserved` | device/pic.go:43-69 | a line is requested iff it was raised since its last acknowledge or ICW1 |
| `PicRuns.DrainServesAll` | device/pic.go:50-94 | draining yields, as numbers, base plus line for exactly the unmasked requests, once each in ascending order, and leaves the masked ones |
| `PicRuns.InitialisesFully` | device/pic.go:107-139 | the ICW sequence, with or without ICW4, leaves from any state no requests, nothing in service, and base, auto-EOI and mask as written; without ICW4 auto-EOI stays |
| `PicRuns.RestartOpensAll` | device/pic.go:110-115 | ICW1 alone drops requests and service and opens every line |
| `PicRuns.SilentAtPowerOn` | device/pic.go:40 | at power on nothing raised is delivered |
| `PicRuns.ReadBack` | device/pic.go:98-103 | the data port reads back the mask written, the command port the requests |
| `PicRuns.SpecificEoiEnds` | device/pic.go:151-153 | EOI 0x60 plus l ends exactly line l; 0x20 is the non-specific one |
| `PicRuns.OtherCommandsIgnored` | device/pic.go:107-120 | other bytes at the command port change nothing |
| `PicRuns.MaskOpensLine` | device/pic.go:136-137 | a mask of 0xFF less 2^l opens line l alone, and 2^l closes it alone |
| `PicRuns.StepDescends` | device/pic.go:107-154 | every event keeps strict priority order in service |
| `Pic.PushHolds` | device/pic.go:63-67 | setting the bit of a better line pushes it on the stack |
| `Pic.PopHolds` | device/pic.go:145-150 | clearing the lowest bit pops the stack |
| `Pic.PluckHolds` | device/pic.go:151-153 | clearing a given bit removes that line from wherever it is |
| `Pic.LinesAreNumbers` | device/pic.go:58-69 | line l has the bit of weight 2^l and the number l |
| `Pic.VectorNumber` | device/pic.go:68 | its vector is the base plus l as numbers |
| `Pic.PIC.RaiseIRQ` | device/pic.go:43-47 | the line joins the requests; other numbers are ignored |
| `Pic.PIC.HighestPending` | device/pic.go:73-94 | the bit search finds the best available line iff it beats everything in service |
| `Pic.PIC.AcknowledgeIRQ` | device/pic.go:58-69 | request to service, vector base plus line as a number, base alone when nothing is pending |
| `Pic.PIC.HandleOCW2` | device/pic.go:142-154 | the two EOI forms pop or pluck, other values do nothing |
| `Pic.PIC.Out8` | device/pic.go:107-139 | ICW sequence, EOI and mask writes |
| `Pic.PIC.In8` | device/pic.go:98-103 | mask or request register |
| `Clock.TimeAdds` | device/pit.go:44-54 | ticking a then b equals ticking a+b over counters, requests, refresh and keyboard, iff no blank code is presented in the first stretch |
| `Clock.IdleStepsAreOneTick` | machine/machine.go:172-187 | k idle steps equal one tick of 8k clocks |
| `Clock.ClockDrives` | machine/machine.go:172-178 | with programmed counters: IRQ0 after a period of counter 0, one refresh in every period of counter 1, IRQ1 when the keyboard is due, and no other line |
| `Clock.WakesUp` | machine/machine.go:172-187 | a halted CPU waiting for an armed timer is interrupted within ceil(left/8), at most 8192, steps |
| `Clock.WakesExactly` | machine/machine.go:172-187 | with nothing else to deliver, exactly when the counter runs out |
| `Clock.DeliveryIsDeserved` | machine/machine.go:179-182 | a vector is delivered only with interrupts enabled, for a requested unmasked line that outranks everything in service, and the controller is never acknowledged with nothing pending |
| `Clock.StepOutcomes` | machine/machine.go:172-187 | a delivery wakes the CPU with interrupts disabled, a halted CPU executes nothing, a running one executes and may fail |
| `Clock.HandlersNest` | machine/machine.go:172-198 | lines in service stay in priority order over any run of the machine |
| `Machine.XT.StepOnce` | machine/machine.go:172-187 | timer, keyboard, then interrupt, wait or one instruction; fails iff that instruction is an error |
| `Machine.XT.RunFor` | machine/machine.go:191-198 | runs on through HLT up to the first step that fails, and returns how many steps were completed, delivering exactly the vectors of the run |
| `Clock.CompletedIs` | machine/machine.go:191-198 | no completed step failed, and the next one did |
| `Machine.XT.TickBoard` | machine/machine.go:173-178 | all devices advance by the clocks of one step |
| `Machine.XT.NewXT` | machine/machine.go:61-105 | power-on state with timer, refresh, keyboard and floppy wired to their lines |
| `Machine.XT.LoadBIOS` | machine/machine.go:110-113 | the image lands at the top of memory as ROM; an empty one changes nothing |
| `KeyboardRuns.NothingIsLost` | device/ppi.go:71-146 | codes presented since the last reset followed by the queue are the codes pressed since then |
| `KeyboardRuns.OneIrqPerCode` | device/ppi.go:71-146 | IRQ1 once per presented code and once per reset |
| `KeyboardRuns.PerformAll` | device/ppi.go:71-146 | over any run of the keyboard object the controller's history of raised lines grows by exactly one IRQ1 per presented code and per reset |
| `KeyboardRuns.PresentedUntilAcked` | device/ppi.go:111-132 | a presented code stays until acknowledged or reset |
| `KeyboardRuns.PresentedIsRead` | device/ppi.go:51-57 | and port A reads as that code while bit 7 of port B is clear |
| `KeyboardRuns.PressShows` | device/ppi.go:111-116 | on an idle keyboard a pressed code is on port A at once, otherwise it waits last |
| `KeyboardRuns.ResetShowsSelfTest` | device/ppi.go:87-97 | the rising edge of bit 6 empties the queue and port A reads 0xAA |
| `KeyboardRuns.SwitchesReadBack` | device/ppi.go:51-68 | the switches read back whole on port A under bit 7 and by halves on port C under bit 3 |
| `KeyboardRuns.OtherPorts` | device/ppi.go:51-102 | ports A and C take no writes, port B reads back, the control port reads as 0xFF |
| `KeyboardRuns.QuietWhileDelayed` | device/ppi.go:120-132 | fewer clocks than the delay present nothing, whatever else happens |
| `KeyboardRuns.QuietAfterAck` | device/ppi.go:83-87 | at least 12000 clocks between an acknowledge and the next code |
| `KeyboardRuns.KeyboardTimeAdds` | device/ppi.go:120-132 | keyboard time is additive iff no blank code is presented |
| `Ppi.PPI.PressScancode` | device/ppi.go:111-116 | a code is queued and presented at once by a free keyboard |
| `Ppi.PPI.TickKeyboard` | device/ppi.go:120-132 | delay and presentation |
| `Ppi.PPI.Out8` | device/ppi.go:71-102 | acknowledge and reset on rising edges of port B |
| `Ppi.PPI.In8` | device/ppi.go:51-68 | ports A, B and C |
| `Scancodes.BuildKeymap` | device/scancodes.go:103-112 | exactly the printable characters are mapped, each to a key that types it |
| `Scancodes.RowFacts` | device/scancodes.go:79-92 | make codes identify their table row |
| `Scancodes.RowWithHas` | device/scancodes.go:79-92 | every printable ASCII character is on a key |
| `Scancodes.RowsShown` | device/scancodes.go:79-92 | the table agrees with the US keyboard written out by rows of keys |
| `Scancodes.KeymapIsLayout` | device/scancodes.go:103-112 | the key map is exactly the inverse of that keyboard: code and Shift of every character |
| `Scancodes.LayoutOf` | device/scancodes.go:79-112 | digits from 0x02, the letter rows from 0x10, 0x1E and 0x2B, space at 0x39, all unshifted |
| `Scancodes.KeyBytes` | device/scancodes.go:117-144 | the bytes of a key with its modifiers, as numbers |
| `Scancodes.KeyCloses` | device/scancodes.go:117-144 | every make is closed by its break in nested order, for any modifiers, exactly for keys with a seven-bit code other than 0x60 |
| `Scancodes.TextCloses` | device/scancodes.go:150-177 | a typed text leaves no key held |
| `Scancodes.TextIsRecovered` | device/scancodes.go:150-177 | a set-1 decoder with its own keyboard table recovers the text with LF as CR and unmapped characters dropped |
| `Scancodes.PressKey` | device/scancodes.go:117-144 | pushes exactly the codes of the key, in order |
| `Scancodes.Type` | device/scancodes.go:150-177 | pushes exactly the codes of the text, in order |
| `Typing.TypedTextArrives` | device/scancodes.go:150-177 | codes presented plus queue are the text's codes, and when the queue is empty the handler has the text |
| `Typing.TypedTextArrivesInTime` | device/ppi.go:71-146 | after as many acknowledges as the text has codes, with 12000 clocks after each, every code has been presented in order and the handler has the text |
| `Typing.HandlerReadsText` | device/ppi.go:51-146 | a handler that reads port A once per acknowledge reads exactly the codes of the text in order, and decodes the text |
| `HardDisk.AcceptsExactly` | disk/harddisk.go:52-55 | the wrapping check accepts exactly the ranges inside the disk for counts below 2^32 |
| `HardDisk.HugeCountAccepted` | disk/harddisk.go:52-55 | a larger count can pass it |
| `HardDisk.GeometryFits` | disk/harddisk.go:28-38 | C*H*S stays within the disk iff it has at least 1008 sectors |
| `HardDisk.CylindersFill` | disk/harddisk.go:28-38 | as many cylinders of 16 heads and 63 sectors as fit, between 1 and 16383 |
| `HardDisk.ChsInjective` | device/ata.go:154-158 | legal CHS addresses are different blocks below C*H*S |
| `HardDisk.ChsCovers` | device/ata.go:154-158 | every block below C*H*S has a legal CHS address |
| `HardDisk.ChsInOrder` | device/ata.go:154-158 | blocks are numbered by cylinder, head, sector from 0, each track following the one before |
| `HardDisk.WriteThenRead` | disk/harddisk.go:52-71 | sectors written are read back and no other byte changes |
| `HardDisk.ReadStretch` | disk/harddisk.go:52-61 | sectors inside the disk are bytes 512 lba to 512 (lba + n) |
| `HardDisk.HardDisk.ReadLBA` | disk/harddisk.go:52-61 | the sectors' bytes iff the check accepts |
| `HardDisk.HardDisk.WriteLBA` | disk/harddisk.go:64-71 | all sectors or none, exactly when they fit |
| `HardDisk.HardDisk.ReadAt` | disk/harddisk.go:81-90 | bytes past the end stay zero |
| `HardDisk.HardDisk.WriteAt` | disk/harddisk.go:92-97 | refuses to write past the end |
| `Ata.IdentifyGeometry` | device/ata.go:226-236 | geometry words of the identification block |
| `Ata.IdentifyChsCapacity` | device/ata.go:237-239 | words 57-58 decode to C*H*S |
| `Ata.IdentifyTotal` | device/ata.go:240-241 | words 60-61 decode to the number of sectors |
| `Ata.IdentifyModel` | device/ata.go:213-222 | swapping the bytes back gives the padded model name |
| `Ata.Identify` | device/ata.go:208-243 | the buffer filled in place is the block of 256 words |
| `Ata.CommandKeepsValid` | device/ata.go:161-204 | commands keep the buffer invariant |
| `Ata.WriteKeepsValid` | device/ata.go:124-140 | so does every word written |
| `Ata.ATA.ReadData16` | device/ata.go:104-120 | the next word, DRQ off after the last; the odd-tail branch is unreachable |
| `Ata.ATA.WriteData16` | device/ata.go:124-140 | the word is stored and the last one commits |
| `Ata.ATA.Commit` | device/ata.go:131-139 | all sectors are written or IDNF is reported |
| `Ata.ATA.RunCommand` | device/ata.go:161-187 | command dispatch, errors and absent drive |
| `Ata.ATA.ReadSectors` | device/ata.go:189-197 | opens the buffer on the sectors, or IDNF |
| `Ata.ATA.BeginWrite` | device/ata.go:199-204 | opens a zeroed buffer for the sectors addressed |
| `Ata.ATA.WriteDevCtl` | device/ata.go:95-101 | SRST drops the buffer |
| `Ata.ATA.WriteRegister` | device/ata.go:44-61 | command block writes |
| `Ata.ATA.ReadRegister` | device/ata.go:64-92 | command block reads, zero status without a drive |
| `AtaRuns.Run` | device/ata.go:95-140 | the buffer invariant holds in every reachable state |
| `AtaRuns.StepRefines` | device/ata.go:95-140 | each access moves pending write and disk as the abstract machine |
| `AtaRuns.RunRefines` | device/ata.go:95-204 | over any run a write reaches the disk with its last word, as one update of its sectors, or never |
| `AtaRuns.CommitDiscipline` | device/ata.go:131-139 | the disk changes only with the word that fills the buffer, then exactly the addressed sectors, and not at all with IDNF when out of range |
| `AtaRuns.WriteCommitsIff` | device/ata.go:104-140 | over any undisturbed run after a WRITE of n sectors, the disk changes exactly with the 256 n-th data access and only if that is a word written; it receives the words written, zero for every word read |
| `AtaRuns.LastAccessDecides` | device/ata.go:104-140 | 256 n data accesses update the disk iff the last is a write; if it is a read nothing later commits them |
| `AtaRuns.SkippedNeverCommits` | device/ata.go:104-140 | a write filled by a skipped word stays pending and never reaches the disk |
| `AtaRuns.CommitsLastWrite` | device/ata.go:95-204 | whenever an access of a run changes the disk, it stores exactly the words of the data accesses since the last WRITE command, at that command's sectors, with no reset or replacement between |
| `AtaRuns.DiscardedIsLost` | device/ata.go:95-204 | a discarded write is lost for good: after a reset, IDENTIFY or successful READ the disk keeps its contents until a new WRITE, and after a new WRITE it receives only what that one is sent |
| `AtaRuns.NothingPending` | device/ata.go:124-140 | without a pending write the disk does not change |
| `XtIde.WriteSectors` | device/xtide.go:41-52 | each write command (0x30, 0x31, 0xC5) through the 8-bit ports: status 0x58 before every word, then the bytes are at 512 times the block and the status is 0x50, or the disk is unchanged with 0x51 and 0x10 |
| `XtIde.ReadSectors` | device/xtide.go:24-38 | each read command (0x20, 0x21, 0xC4) delivers the bytes at 512 times the block, status 0x58 before every word and 0x50 after the last |
| `XtIde.RoundTrip` | device/xtide.go:24-52 | what is written by block or by CHS address is read back, by the same mode or the other, and all other bytes keep their value |
| `XtIde.IssueRuns` | device/ata.go:44-61 | writing the command block runs the command with those registers |
| `XtIde.AddressRegsAddress` | device/ata.go:142-153 | the command block addresses the block meant in either mode, and the count, 256 as 0 |
| `XtIde.StatusPorts` | device/xtide.go:30-35 | status and alternate status read the same without side effects |
| `XtIde.CommandAnswers` | device/ata.go:161-187 | what every command code answers in status and error: 0x58 with a buffer open, 0x50 done, 0x51 with 0x10 out of range or 0x04 unknown |
| `XtIde.AbsentAnswers` | device/ata.go:161-166 | without a drive or with the slave selected both are zero |
| `XtIde.RegistersReadBack` | device/ata.go:44-80 | the count and address registers read back what was written, each its own |
| `XtIde.OtherPorts` | device/xtide.go:24-52 | unused ports read as 0xFF and take no writes; the latch reads back |
| `XtIde.SoftResets` | device/ata.go:95-101 | SRST leaves the master ready, diagnostic code 1, nothing pending |
| `Identification.IdentifyDelivers` | device/ata.go:168-243 | 0xEC delivers 256 words with 0x58 before each; a driver decodes type, geometry, capacities, capability words and the three names, and zero elsewhere |
| `XtIde.XTIDE.In8` | device/xtide.go:24-38 | data, register, latch and status reads |
| `XtIde.XTIDE.Out8` | device/xtide.go:41-52 | data, register, latch and control writes |
| `TextVideo.CursorIsDrawn` | device/textvideo.go:93-114 | the cursor is visible iff enabled and some drawn cell is its cell modulo the page, and it is reported there |
| `TextVideo.CellsDistinct` | device/textvideo.go:102-114 | the 2000 cells are different addresses inside the page |
| `TextVideo.CellAddresses` | device/textvideo.go:102-110 | row and column are drawn from the even byte of the cell counted from registers 12 and 13, modulo 2048 at 0xB0000 or 8192 at 0xB8000; the cursor is registers 14 and 15 |
| `TextVideo.DrawnAs` | device/textvideo.go:116-125 | blanks, printable ASCII, and a dot for everything else |
| `TextVideo.TextOrder` | device/textvideo.go:102-114 | 80 characters and a line feed to a line |
| `TextVideo.RetraceAlternates` | device/textvideo.go:71-73 | each read of the status inverts both retrace bits |
| `TextVideo.Adapter.Render` | device/textvideo.go:102-125 | every character of the text comes from its cell |
| `TextVideo.Adapter.CursorAt` | device/textvideo.go:93-98 | row, column and visibility of the hardware cursor |
| `TextVideo.Adapter.Out8` | device/textvideo.go:45-56 | index, data and mode registers |
| `TextVideo.Adapter.In8` | device/textvideo.go:60-76 | register, mode and status reads |

## Left out

- The 8086 CPU is not part of this model. The machine sees its HLT and interrupt flags; an instruction
  is an arbitrary list of port accesses, the flags it leaves and whether it is an error; entering a handler
  clears both flags, as `docs/architettura.md` describes. Floppy and hard disk port sequences have their own
  runs.
- The bare machine without devices (`New`), and a floppy controller without DMA, memory or IRQ line: the
  model is wired as `NewXT` wires it, with the disk the only part that may be missing. Likewise the timer
  and keyboard outputs are always connected.
- `Machine.XT.NewXT`: video adapters, POST latch and port map are not created; the devices are called directly.
- `Machine.XT.StepOnce`: states time, interrupts, DMA registers and keyboard; an access to the disk or video
  ports appears as what it does to those (a raised line, bytes moved over a channel), not with its own state.
- `Machine.XT.RunFor`: the same.
- `XtIde.RoundTrip`: addresses the master, as the register protocol's drive bit allows; one command at a time.
- The machine's `LoadFloppy`, `AttachHardDisk`, `UseCGA`, `Screen` and `LoadOptionROM`: attaching parts and
  DIP switches.
- Files as disk backing store: only the memory store sized to the sector count.
- DMA modes and masks, timer modes, speaker and DIP switch meaning: stored, used by no transfer or tick.
- 64-bit overflow of tick arguments and pulse counts: these are unbounded integers.
- The command-line program, the generic port dispatcher and the POST latch.
