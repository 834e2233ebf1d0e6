# Verified model of the sios kernel core

A Dafny model of six parts of a small 64-bit kernel, with proofs of what they are for.
`dafny verify dfyconfig.toml` checks everything.

| file | what it models |
|---|---|
| `Basics.dfy` | bytes, words and division, shared by the others |
| `LazyFpu.dfy` | the device-not-available handler that postpones saving and loading the FPU, and what the scheduler does to it |
| `ContextSwitch.dfy` | the assembly routine SwitchContext / LoadContext, instruction by instruction |
| `Semaphores.dfy` | the semaphore pool, `acquire`, `release` and the one wait queue they share |
| `SemaphoreRuns.dfy`, `HandOver.dfy` | runs of many processes over them: permits, queues, handles, progress |
| `ScanCode.dfy`, `KeyRing.dfy`, `KeyboardPipeline.dfy` | scan codes, the key ring, and the way from one to the other |
| `Console.dfy`, `ConsoleText.dfy`, `Printf.dfy` | the text screen, what it shows, and printf |
| `DiskSteps.dfy`, `DiskLock.dfy`, `DiskTransfer.dfy`, `DiskDriver.dfy` | the PIO disk driver: its steps, the lock, the device handshake, whole calls |
| `NumberText.dfy`, `CStrings.dfy` | decimal text, its parser, and `stradd` |

Code that changes state is a class whose methods are proved against functions or relations on
values (`NmHandler`, `Switched`, `Released`, `Put`, `ReadLoop`, ...); the properties are lemmas
about those, over all runs, texts, schedules or numbers.

## How the parts are read

* **Scheduler.** Which process runs next is left open. What a switch, a list operation or the end
  of a process does to the parts modelled here is taken from `Scheduler.c`.
* **FPU.** `GiveOut_Processor` makes TS tell whether the next process is the recorded owner of the
  FPU. `Preempted_ByTimeOut` leaves TS as it is, and `Terminate_Process` and `Free_PCB` leave
  `LastUsed_PID`. So two things the lazy protocol needs do not hold in this kernel: a timer switch
  away from an owner lets the next process use the owner's image (`TimerMixesImages`), and a new
  process given the PID of a dead owner uses the dead one's image (`ReusedPidFindsOldImage`).
  `SeesOwnStateIff` gives the exact condition for an instruction, `StaysSteadyIff` for a step of the
  scheduler, and `HarmlessRunsAreRight` the runs for which nothing goes wrong. TS is set when the
  kernel starts (kernel_32bit/Source/GDT.asm:114). `finit` resets the x87 environment only, so a
  process using the FPU for the first time is promised that, not cleared registers.
* **SwitchContext.** The `je` in line 110 follows a `popfq`, so it tests the zero flag the caller
  had, not the comparison in line 108. Runs allow any flags at any call; a caller whose flag was
  set was not saved, and is promised nothing. `SavedIffEntryZeroFlagClear` says so for one call.
  The saved condition bits come from the `add` in line 118, so only the control flags are promised.
* **Semaphores.** Line 86 assigns NULL where a comparison is meant. `Released` reads it as the
  comparison; `ReleasedAsWritten` does what is written, and `AsWrittenIffNobodyToWake` says when
  the two agree. Line 26 compares two array addresses, which never are equal, so it has no effect.
  `Add_Task_in_Tail` queues nothing while all 2048 task slots are in use, and its callers ignore
  that; `StaysAccountedIff`, `BlockedIsQueuedIff` and `WokenIsReadyIff` say what this breaks.
  `acquire` returns false after it has blocked and its callers call it again. The ledger covers
  that loop, and `RefusalIsForGood` says what it costs: a refused attempt uses up a permit for
  good, and `Contention` and `ContentionHappens` give runs in which that occurs. `HandOver.dfy`
  shows that permits are not lost so if a woken waiter keeps the permit instead.
* **Key ring.** `Buf_Count--` is taken to be one indivisible update, and there is one reader.
* **printf.** A scroll made by a newline or by `%c` leaves the write pointer one row too low, and
  what follows is written below the screen. `PrintfShowsTextIff` says for which texts that shows.
* **Disk.** The device makes its sectors ready on a schedule that is universally quantified. A
  sector found ready leaves `IsInteruppted` set, and a later wait then does not wait.
  `ReadRightIffInStep` and `WriteLandsIffInStep` give the schedules for which transfers are right.
  The driver's methods log the steps they take in the machine of `DiskSteps`, and the lock is
  proved about runs of that machine. The device modelled asks for the first sector of a write at
  once. A device that has not set DRQ at the first poll of a write makes `WriteSector` wait for an
  interrupt that does not come before data is sent (lines 166-170), so that call never returns.
* **stradd.** Its loop condition compares the index with the character. `StrAddWholeIff` says which
  strings it concatenates.

## Model

| member | source | states |
|---|---|---|
| LazyFpu.FpuUnit.IsrFpuContextSwitching | kernel_64bit/Source/ISR_Handler.c:51-73 | The handler clears TS; unless the current process owns the FPU it saves the live image for the owner, loads the current image or resets the environment on first use, and makes the current process the owner. |
| LazyFpu.FpuUnit.GiveOutProcessor | kernel_64bit/Source/Scheduler.c:300-304 | A voluntary switch sets TS exactly if the next process is not the recorded owner. |
| LazyFpu.FpuUnit.PreemptedByTimeOut | kernel_64bit/Source/Scheduler.c:338-377 | A timer switch changes the current process only; TS, owner and images stay. |
| LazyFpu.SwitchRunsTarget | kernel_64bit/Source/Scheduler.c:300-377 | After either switch the process switched to is the current one, and no image has moved. |
| LazyFpu.FirstUseInitialises | kernel_64bit/Source/ISR_Handler.c:58-72 | On first use the live image has the initial x87 environment and the register contents of the process before; no third process's image changes. |
| LazyFpu.StepKeepsInv | kernel_64bit/Source/ISR_Handler.c:51-73 | Every step, of the handler or the scheduler, keeps each user's image where it is looked for: the owner's live, all others' saved; except an instruction executing in a process that does not own the FPU. |
| LazyFpu.InstructionSeesOwnState | kernel_64bit/Source/ISR_Handler.c:51-73 | In every run from boot, with any switches, ends and reused PIDs, in which owners execute: an executing FPU instruction finds the image its own process last left, or an initial environment on first use; every other process's image is intact. |
| LazyFpu.SeesOwnStateIff | kernel_64bit/Source/ISR_Handler.c:54-72 | After such a run the next instruction finds its own image, whatever image the owner left, exactly if LastUsed_PID names its process and that process has Use_FPU set. |
| LazyFpu.StaysSteadyIff | kernel_64bit/Source/Scheduler.c:300-377 | A step keeps all instructions that need no trap the owner's exactly if it is no timer switch away from the owner with TS clear, and gives no new process the PID in LastUsed_PID. |
| LazyFpu.HarmlessRunsAreRight | kernel_64bit/Source/Scheduler.c:139-377 | In every run without those two kinds of step, owners execute. |
| LazyFpu.TimerMixesImages | kernel_64bit/Source/Scheduler.c:338-377 | From every boot with two processes, a run in which the timer lets one execute on the other's image. |
| LazyFpu.ReusedPidFindsOldImage | kernel_64bit/Source/Scheduler.c:255-304 | From every such boot, a run in which a new process with a dead owner's PID executes on the dead one's image. |
| LazyFpu.TrapThenRetryExecutes | kernel_64bit/Source/ISR_Handler.c:53-72 | A trapped instruction executes when retried, and the trap changes no process's image; it then has its own image unless it has a dead owner's PID. |
| ContextSwitch.Cpu.SaveStack | kernel_64bit/Source/Func_Assembly.asm:112-123 | Stores stack segment, stack pointer without the return address, and flags with the caller's control bits; keeps rax on the stack; changes no other memory. |
| ContextSwitch.Cpu.SaveReturn | kernel_64bit/Source/Func_Assembly.asm:125-130 | Stores code segment and return address and restores rax and the stack pointer. |
| ContextSwitch.Cpu.SaveLegacy | kernel_64bit/Source/Func_Assembly.asm:132-140 | Stores the seven named general registers in their slots and changes nothing else. |
| ContextSwitch.Cpu.SaveNumbered | kernel_64bit/Source/Func_Assembly.asm:142-149 | Stores r8 to r15 in their slots and changes nothing else. |
| ContextSwitch.Cpu.SaveSegments | kernel_64bit/Source/Func_Assembly.asm:151-158 | Stores the four data segments, readable in the low halves of their slots. |
| ContextSwitch.Cpu.SaveContext | kernel_64bit/Source/Func_Assembly.asm:112-158 | The victim's array then holds the registers the caller must find when its call returns; other memory is unchanged but for two words below the stack. |
| ContextSwitch.Cpu.LoadContext | kernel_64bit/Source/Func_Assembly.asm:159-192 | All registers come from the slots of the scheduled array. |
| ContextSwitch.Cpu.SwitchContext | kernel_64bit/Source/Func_Assembly.asm:106-192 | The whole routine keeps to the relation `Switched`, the victim being saved if the entry zero flag is clear. |
| ContextSwitch.Compare | kernel_64bit/Source/Func_Assembly.asm:108-108 | The comparison leaves bit 6 of the flags set exactly if its operands are equal, and the control flags as they were. |
| ContextSwitch.CallerResumes | kernel_64bit/Source/Func_Assembly.asm:106-192 | A process that calls with bit 6 of its flags clear, and is switched back to after any run of others, has every register and segment it had, its stack pointer above the return address, its control flags, and goes on at that address. |
| ContextSwitch.SelfSwitchReturns | kernel_64bit/Source/Func_Assembly.asm:106-192 | The same of a process that switches to itself. |
| ContextSwitch.NewProcessStarts | kernel_64bit/Source/Scheduler.c:221-242 | A process whose array the scheduler has filled by its register numbers starts at its entry point, on its stack, in the kernel's segments, interrupts on, all other registers zero. |
| ContextSwitch.LoadedAt | kernel_64bit/Source/Scheduler.h:29-52 | Each register is taken from the quadword of its register number. |
| ContextSwitch.SwitchResumesAsParked | kernel_64bit/Source/Func_Assembly.asm:106-192 | In every run of switches with any flags, timer switches and arbitrary computation among any number of processes, created and ended on the way, a process resumed finds registers, segments, control flags, stack pointer and return address as it left them, self-switch included, if its own zero flag was clear when it called. |
| ContextSwitch.SavedIffEntryZeroFlagClear | kernel_64bit/Source/Func_Assembly.asm:107-110 | A caller not saved before is saved exactly if bit 6 of its own flags is clear on entry, whatever rdi is. |
| ContextSwitch.StaleZeroFlagLosesVictim | kernel_64bit/Source/Func_Assembly.asm:107-110 | For every caller with that bit set there is such a switch, and it loses the caller's registers. |
| Semaphores.SemaphoreTable.InitSemaphore | kernel_64bit/Source/semaphore.c:9-20 | All 256 slots become free with zero counts, and UseCount zero. |
| Semaphores.SemaphoreTable.AllocSemaphore | kernel_64bit/Source/semaphore.c:22-44 | Returns the first free slot, set to the given count, or nothing. |
| Semaphores.SemaphoreTable.FreeSemaphore | kernel_64bit/Source/semaphore.c:46-52 | Clears the slot and raises UseCount; nothing else changes. |
| Semaphores.SemaphoreTable.AddTaskInTail | kernel_64bit/Source/Scheduler.c:510-527 | Appends the process, unless every task slot is in use. |
| Semaphores.SemaphoreTable.Acquire | kernel_64bit/Source/semaphore.c:54-71 | Lowers the count; a negative count marks the caller waiting, puts it at the tail of the wait queue unless the task pool is full, and refuses. |
| Semaphores.AcquireChanges | kernel_64bit/Source/semaphore.c:58-70 | Granted exactly if the count was positive; the count drops by one in any case, and only a blocked caller changes the wait queue and its flag. |
| Semaphores.SemaphoreTable.Release | kernel_64bit/Source/semaphore.c:73-97 | Ignored at MaxCount; otherwise raises the count and, if it is not positive, takes the head of the wait queue, marks it ready and puts it in its ready queue unless the task pool is full. |
| Semaphores.WokenGoesToItsQueue | kernel_64bit/Source/semaphore.c:82-94 | The process woken is the head of the wait queue; it goes to the tail of the ready queue of its own priority, and every other ready queue stays. |
| Semaphores.OtherReleases | kernel_64bit/Source/semaphore.c:75-91 | A release with nobody to wake raises the count, and at MaxCount does nothing. |
| Semaphores.SemaphoreTable.RemoveFromWaitQueue | kernel_64bit/Source/semaphore.c:99-116 | The queue becomes `Without` the process. |
| Semaphores.WithdrawnFromPlace | kernel_64bit/Source/semaphore.c:105-113 | That takes out its first entry and keeps all others in their order. |
| SemaphoreRuns.PermitLedger | kernel_64bit/Source/semaphore.c:54-97 | In every run, frees of semaphores waited for included, Count + unreleased grants + refused attempts = MaxCount for every live semaphore, and grants are at most MaxCount. |
| SemaphoreRuns.QueueMatchesPermitsOwed | kernel_64bit/Source/semaphore.c:54-116 | The queue length differs from the sum of max(0, -Count) over all semaphores by at most the waiters withdrawn or never queued on one side, and those whose semaphore was freed on the other; without such it equals the sum. |
| SemaphoreRuns.StaysAccountedIff | kernel_64bit/Source/semaphore.c:46-116 | A step keeps that equality exactly if it is no acquire blocking while the task pool is full, no withdrawal of a waiter, and no free of a semaphore waited for. |
| SemaphoreRuns.BlockedIsQueuedIff | kernel_64bit/Source/semaphore.c:59-66 | A caller that blocks is marked waiting, and in a queue exactly if the task pool is not full. |
| SemaphoreRuns.WokenIsReadyIff | kernel_64bit/Source/semaphore.c:83-94 | A process woken is marked ready, and in a queue exactly if the task pool is not full. |
| SemaphoreRuns.ReleaseFindsItsWaiter | kernel_64bit/Source/semaphore.c:75-91 | A holder always passes the unprotected guard, and as long as no waiter was withdrawn or left unqueued the branch for an empty queue is unreachable. |
| SemaphoreRuns.GrantedIffPermitLeft | kernel_64bit/Source/semaphore.c:58-70 | An attempt is granted exactly if grants and refusals so far are fewer than MaxCount. |
| SemaphoreRuns.RefusalIsForGood | kernel_64bit/Source/semaphore.c:54-97 | After MaxCount refusals no attempt is granted in any continuation until the semaphore is freed. |
| SemaphoreRuns.Contention | kernel_64bit/Source/semaphore.c:22-71 | From every start in which two processes run, a run that ends with as many refusals as permits, one process holding the permit and one to be woken. |
| SemaphoreRuns.InOneQueueAtMost | kernel_64bit/Source/semaphore.c:61-92 | In every run each process is at most once in at most one of the wait queue and the ready queues. |
| SemaphoreRuns.QueuesMatchFlags | kernel_64bit/Source/semaphore.c:61-93 | In every run a process in the wait queue is marked waiting and one in a ready queue ready. |
| SemaphoreRuns.CountsFit | kernel_64bit/Source/semaphore.h:11-12 | No count goes below minus the size of the task pool and the number of waiters withdrawn or never queued; so the C int does not wrap before some two thousand million of those. |
| SemaphoreRuns.AllocTakesLowestFree | kernel_64bit/Source/semaphore.c:22-44 | In every history the handle given out is the lowest not live, its slot has MaxCount and Count as requested, and nothing else but UseCount changes; allocation fails exactly if the count is not positive or all 256 are live; UseCount is minus the number live. |
| SemaphoreRuns.FreeKeepsQueueAccountedIff | kernel_64bit/Source/semaphore.c:46-52 | While the queue is accounted for exactly, freeing a live semaphore keeps it so exactly if nobody waits for it. |
| SemaphoreRuns.AsWrittenIffNobodyToWake | kernel_64bit/Source/semaphore.c:83-94 | The assignment in line 86 is harmless exactly if nobody is to be woken; otherwise the process is in no queue and still marked waiting. |
| HandOver.PermitsAreHandedOver | kernel_64bit/Source/semaphore.c:54-97 | If a woken waiter owns the permit: at most MaxCount owners, one queue per process, wake-ups in blocking order, and waiting only while all permits are owned, unless callers blocked while the task pool was full. |
| HandOver.ReleaseMakesProgress | kernel_64bit/Source/semaphore.c:73-97 | A release wakes the process blocked longest and makes it an owner, at the tail of the ready queue of its priority unless the task pool is full; with nobody waiting the permit can be taken at once exactly if owners and callers that were never queued do not exceed MaxCount. |
| KeyRing.KeyBuffer.PutKeyBuf | kernel_64bit/Source/IO.c:278-286 | Stores the key at the put index and reports it exactly if fewer than 100 keys are counted. |
| KeyRing.PutOffers | kernel_64bit/Source/IO.c:278-286 | At any statement of the reader a whole PutKeyBuf appends to the abstract queue if that is shorter than 100, overwriting nothing unread. |
| KeyRing.KeyBuffer.GetKeyBuf | kernel_64bit/Source/IO.c:263-276 | With any keys arriving between its statements, the call fails exactly if the queue is empty at its test; otherwise it takes the oldest key when it lowers the count, and all other keys stay in order. |
| ScanCode.Keyboard.OnOffLed | kernel_64bit/Source/IO.c:418-442 | Sends the three lock bits if the keyboard acknowledges the command, nothing otherwise; true exactly if it acknowledges both. |
| ScanCode.Keyboard.ScanConvertAscii | kernel_64bit/Source/IO.c:444-523 | Moves the key state, returns the character of the state before, and flags exactly the make codes. |
| ScanCode.ShiftOrCapsChooses | kernel_64bit/Source/IO.c:493-503 | Every key but shifts, locks and keypad gives the second character of its table entry exactly if one of shift and caps lock is on. |
| ScanCode.ShiftOrNumChooses | kernel_64bit/Source/IO.c:447-492 | Keypad keys do so for shift and num lock; shifts and locks give their first. |
| ScanCode.TableIsUsed | kernel_64bit/Source/IO.c:290-380 | Codes below 89 use the table, others whatever lies behind it. |
| ScanCode.DigitKeys | kernel_64bit/Source/IO.c:293-297 | Codes 2 to 6 are 1 to 5 and the signs above them. |
| ScanCode.MoreDigitKeys | kernel_64bit/Source/IO.c:298-302 | Codes 7 to 11 are 6 to 0 and the signs above them. |
| ScanCode.SignKeys | kernel_64bit/Source/IO.c:303-334 | Signs right of the digits and of the upper row, and the backslash key. |
| ScanCode.UpperRow | kernel_64bit/Source/IO.c:307-316 | The letters from q to p in both cases. |
| ScanCode.MiddleRow | kernel_64bit/Source/IO.c:321-329 | The letters from a to l in both cases. |
| ScanCode.MoreSignKeys | kernel_64bit/Source/IO.c:330-344 | The signs right of the middle and lower row. |
| ScanCode.LowerRow | kernel_64bit/Source/IO.c:335-341 | The letters from z to m in both cases. |
| ScanCode.ControlKeys | kernel_64bit/Source/IO.c:292-348 | Escape, backspace, tab, enter and space. |
| ScanCode.KeypadReads | kernel_64bit/Source/IO.c:362-374 | Keypad codes 71 to 83 are 789-456+1230. with exactly one of shift and num lock on, else the codes of the keys they share. |
| ScanCode.LastShiftDecides | kernel_64bit/Source/IO.c:447-460 | After any stream the last shift event alone decides Shift_Down. |
| ScanCode.NoShiftKeepsShift | kernel_64bit/Source/IO.c:447-460 | Without a shift event Shift_Down stays. |
| ScanCode.LocksCountMakeCodes | kernel_64bit/Source/IO.c:461-484 | Each lock is its initial state flipped by the parity of its make codes in the stream. |
| ScanCode.LedsShowLocks | kernel_64bit/Source/IO.c:435-482 | If the last lock key was acknowledged, the byte last sent shows the three locks. |
| ScanCode.LetterCase | kernel_64bit/Source/IO.c:290-499 | Letter keys give lower case, and upper case exactly if one of shift and caps lock is on. |
| ScanCode.KeypadDigits | kernel_64bit/Source/IO.c:362-492 | Keypad keys give digits exactly if one of shift and num lock is on. |
| KeyboardPipeline.KeyboardDriver.IsrKeyboard | kernel_64bit/Source/ISR_Handler.c:33-49 | With a code waiting, the handler moves the key state and offers the character of a make code to the ring. |
| KeyboardPipeline.KeysArriveInOrder | kernel_64bit/Source/ISR_Handler.c:37-46 | For every interleaving of interrupts with the statements of the reader, keys read, in flight and queued are exactly the keys accepted, these are characters typed in their order, and with none turned away the keys read are a prefix of the text typed. |
| KeyboardPipeline.KeyIsLostIffRingFull | kernel_64bit/Source/IO.c:280-281 | A key is turned away exactly if 100 accepted keys are still unread. |
| Console.Terminal.constructor | kernel_64bit/Source/IO.c:246-258 | A cleared screen: blanks in the default colour, cursor 0. |
| Console.Terminal.Scroll | kernel_64bit/Source/IO.c:14-32 | Rows move up one, the last row is blank, the cursor goes back a row. |
| Console.Terminal.LineFeed | kernel_64bit/Source/IO.c:60-67 | The cursor goes to the start of the next row, scrolling at the end of the screen; the pointer goes to its next row and is not pulled back. |
| Console.Terminal.BackSpace | kernel_64bit/Source/IO.c:69-78 | Blanks the cell before the cursor and steps back unless at the origin or at a prompt cell. |
| Console.Terminal.PutChar | kernel_64bit/Source/IO.c:34-58 | One character, newline or backspace changes the screen as `Put` says. |
| Console.Terminal.SetColorPath | kernel_64bit/Source/IO.c:80-86 | The given number of cells before the cursor take the prompt colour, their characters and all other cells stay. |
| ConsoleText.PutChangesOneCell | kernel_64bit/Source/IO.c:14-67 | On any screen a character changes the cell at the cursor, a newline none; the rest keeps characters and colours, moved up a row exactly at the end of the screen, where a blank row comes in. |
| ConsoleText.BackspaceStopsIff | kernel_64bit/Source/IO.c:69-78 | A backspace stops exactly at the origin and behind a cell in the prompt colour; otherwise it blanks one cell and steps back. |
| ConsoleText.MarkChangesColours | kernel_64bit/Source/IO.c:80-86 | The given number of cells before the cursor take the prompt colour; all characters and all other colours stay. |
| ConsoleText.ScreenIsWindow | kernel_64bit/Source/IO.c:14-67 | After any text from a cleared screen, the screen is the 25-row window at max(0, p/80-24) of the unbounded 80-column page, and the cursor the page position less that. |
| ConsoleText.PromptSurvivesTyping | kernel_64bit/Source/IO.c:34-86 | Whatever is typed after SetColor_Path, every prompt cell on the screen keeps character and colour, moved up one row per scroll, and the cursor never goes before the prompt's end. |
| ConsoleText.BackspacesUndoTyping | kernel_64bit/Source/IO.c:47-78 | n backspaces take back the last n characters typed into a blank stretch, cell for cell. |
| Printf.PrintF | kernel_64bit/Source/IO.c:88-124 | Leaves the screen drawn from the items of format and arguments, ending early at an EOF character. |
| Printf.ArgPrintf | kernel_64bit/Source/IO.c:126-156 | One conversion draws its items and takes its argument. |
| Printf.PrintString | kernel_64bit/Source/IO.c:159-177 | Draws the characters up to the first EOF character and reports it. |
| Printf.NumToString | kernel_64bit/Source/IO.c:179-207 | Draws the decimal text of the number. |
| Printf.LiteralPrefix | kernel_64bit/Source/IO.c:96-121 | What stands before the first conversion of a format is printed as it is. |
| Printf.NumberConversion | kernel_64bit/Source/IO.c:132-135 | %d and %i print the numeral of the next argument. |
| Printf.CharConversion | kernel_64bit/Source/IO.c:136-146 | %c prints the next argument. |
| Printf.StringConversion | kernel_64bit/Source/IO.c:147-177 | %s prints the next argument; an EOF character in it ends the call there. |
| Printf.OtherConversion | kernel_64bit/Source/IO.c:152-155 | Any other conversion prints nothing and takes no argument. |
| Printf.DrawChangesOneCell | kernel_64bit/Source/IO.c:60-206 | One item writes the cell under the pointer if that is on the screen, moves the screen up as the cursor demands, and pulls the pointer back only for characters of the format, strings and numbers. |
| Printf.PointerTracksCursor | kernel_64bit/Source/IO.c:60-207 | Pointer offset = 2 * cursor + 160 * (scrolls made by newlines or %c), after any items. |
| Printf.SameFinalCursor | kernel_64bit/Source/IO.c:88-207 | The cursor ends where putting the text one character at a time leaves it. |
| Printf.SameStepIff | kernel_64bit/Source/IO.c:159-175 | A character of a string moves the cursor as putchar would exactly if it is no backspace, and no newline except in the last column. |
| Printf.PrintfShowsTextIff | kernel_64bit/Source/IO.c:88-207 | The screens agree exactly if no visible character that stays on the screen comes after a scroll that left the pointer behind. |
| Printf.ShownWithoutLag | kernel_64bit/Source/IO.c:88-207 | So they agree if no newline and no %c scrolls. |
| NumberText.NumberToArray | kernel_64bit/Source/IO.c:181-194 | The array holds the decimal text from right to left, within its 100 bytes. |
| NumberText.TextIsNumeral | kernel_64bit/Source/IO.c:181-194 | The text has a minus sign exactly for negative numbers, then digits only, no leading zero but for 0, and denotes the number. |
| NumberText.NumeralIsText | kernel_64bit/Source/IO.c:181-194 | It is the only text with these properties. |
| NumberText.StringToNum | kernel_64bit/Source/string.c:56-75 | The right-to-left sum with a wrapping power of ten is the left-to-right decimal value modulo 2^64, negated for a leading minus, and 0 if any other character occurs. |
| NumberText.ParsedPlain | kernel_64bit/Source/string.c:65-74 | A string of digits gives its decimal value modulo 2^64. |
| NumberText.ParsedMinus | kernel_64bit/Source/string.c:61-73 | After a minus sign, the negative modulo 2^64. |
| NumberText.ParsedOther | kernel_64bit/Source/string.c:67-68 | Any other character anywhere gives 0. |
| NumberText.NumberRoundTrip | kernel_64bit/Source/string.c:56-75 | Parsing the text of any number but the least gives it back modulo 2^64; the text has at most 20 characters. |
| CStrings.StrLen | kernel_64bit/Source/string.c:3-9 | The number of characters before the first NUL. |
| CStrings.StrAdd | kernel_64bit/Source/string.c:32-40 | The source up to and including the character where the loop stops follows the old text; other memory stays. |
| CStrings.StrAddWholeIff | kernel_64bit/Source/string.c:35-39 | The whole source is copied exactly if every character exceeds its index and is below 128. |
| CStrings.StrAddConcatenates | kernel_64bit/Source/string.c:32-40 | Then the result is the concatenation of the two texts. |
| DiskLock.CommandsDoNotInterleave | kernel_64bit/Source/DiskDriver.c:76-117 | In every run, port accesses between two of one session are all of that session and process. |
| DiskLock.OnePermitPerCall | kernel_64bit/Source/DiskDriver.c:134-175 | At most one process is between grant and release; it holds exactly one permit, and a process outside holds none, error paths included. |
| DiskLock.ReleaseIsEffective | kernel_64bit/Source/DiskDriver.c:117-117 | The release at the end of a call is never ignored. |
| DiskLock.ContentionShutsTheDisk | kernel_64bit/Source/DiskDriver.c:76-76 | After one refused attempt the retry loop never gets in again. |
| DiskLock.ContentionHappens | kernel_64bit/Source/DiskDriver.c:76-76 | From every start in which two processes run, a run of two attempts that ends with one refused. |
| DiskSteps.CallMovesAllOrNothing | kernel_64bit/Source/DiskDriver.c:76-118 | The steps of a call that has come to its end transfer its sectors one after another, or none. |
| DiskTransfer.ReadRightIffInStep | kernel_64bit/Source/DiskDriver.c:104-116 | A multi-sector read gives the device's sectors, whatever an unready device returns, exactly if no sector found ready comes before one waited for. |
| DiskTransfer.WriteLandsIffInStep | kernel_64bit/Source/DiskDriver.c:162-174 | A multi-sector write lands, whatever the data, exactly if that holds from the second sector on. |
| DiskDriver.PortsAreRegisters | kernel_64bit/Source/DiskDriver.h:13-23 | Ports 2 to 6 set count, address and drive registers, and port 7 starts the command. |
| DiskDriver.RegistersRebuildRequest | kernel_64bit/Source/DiskDriver.c:87-92 | The register pieces rebuild the address modulo 2^28, so exactly the addresses below 2^28; 256 goes as 0; bit 4 selects the drive and bits 5 to 7 are set. |
| DiskDriver.GuardBoundsIffNoWrap | kernel_64bit/Source/DiskDriver.c:65-68 | A request is let through exactly if it is for 1 to 256 sectors and LBA + Count modulo 2^64 is below the number of sectors; it then ends below the last sector exactly if the sum does not wrap. |
| DiskDriver.GetsIdleIff | kernel_64bit/Source/DiskDriver.c:77-86 | The first polling loop succeeds exactly if BSY clears before ERROR is seen with it. |
| DiskDriver.GetsReadyIff | kernel_64bit/Source/DiskDriver.c:93-102 | The second exactly if RDY is set before ERROR is seen without it. |
| DiskDriver.Driver.AwaitIdle | kernel_64bit/Source/DiskDriver.c:77-86 | Succeeds if BSY clears before ERROR is seen with BSY. |
| DiskDriver.Driver.AwaitReady | kernel_64bit/Source/DiskDriver.c:93-102 | Succeeds if RDY is set before ERROR is seen without it. |
| DiskDriver.Driver.AwaitSector | kernel_64bit/Source/DiskDriver.c:108-113 | The poll before a sector: goes on at DRQ, otherwise consumes the interrupt flag, waiting only if it is clear. |
| DiskDriver.Driver.ReadSector | kernel_64bit/Source/DiskDriver.c:63-119 | Returns Count exactly for 1 to 256 sectors with LBA + Count modulo 2^64 below the number of sectors and a drive that gets idle and ready without ERROR, and then has filled the buffer by the sector loop; otherwise returns 0 with buffer and drives unchanged. Past the guard its logged steps lead from the grant of the lock to its release in the step machine, on every path. |
| DiskDriver.Driver.WriteSector | kernel_64bit/Source/DiskDriver.c:121-177 | Returns Count for exactly the same requests and drives, having changed the drives by the sector loop, otherwise 0 with them unchanged. Past the guard its logged steps lead from the grant of the lock to its release in the step machine, on every path. |
| DiskDriver.WriteThenRead | kernel_64bit/Source/DiskDriver.c:63-177 | What was written comes back, and every other sector of both drives is unchanged, for ranges within 28 bits and schedules in step. |
| DiskDriver.ReadGivesSectors | kernel_64bit/Source/DiskDriver.c:87-116 | The sector loop of a read within 28 bits and in step gives the sectors from LBA on. |
| DiskDriver.UpdatedSectors | kernel_64bit/Source/DiskDriver.c:162-174 | After a write the sectors of the request are the data and all others of both drives are as before. |
| DiskDriver.WriteAndRead | kernel_64bit/Source/DiskDriver.c:63-177 | The same of the two calls made one after the other: for a request of at most 256 sectors below the last and a drive that gets idle and ready, both return the length and the buffer holds the data; and exactly when each returns 0. |

## Left out

- Semaphores.SemaphoreTable.Release: models line 86 as the comparison it is meant to be; the code as written is `ReleasedAsWritten`, whose work on a NULL process beyond losing it is not part of this model.
- LazyFpu.InstructionSeesOwnState: for runs in which owners execute, as `SeesOwnStateIff` shows it must be; promises the environment only on first use, because `finit` does not clear the register contents.
- NumberText.NumberRoundTrip: leaves out the least 64-bit number, whose negation overflows in C.
- NumberText.NumberToArray: leaves it out too.
- Printf.NumToString: leaves it out too.
- Printf.PrintF: takes formats whose conversions fit their arguments and that do not end in `%`, which C leaves undefined; bytes written below the screen are not part of the screen.
- Printf.SameFinalCursor: for texts without backspace, and without newline inside an argument; `SameStepIff` shows why.
- Printf.PrintfShowsTextIff: for the same texts.
- DiskDriver.Driver.ReadSector: reads status bytes that decide each polling loop; a device that stays busy for ever is not modelled. A sector moves as one unit of 512 bytes.
- DiskLock: progress of the retry loop is not claimed, since it fails; see `ContentionShutsTheDisk`.
- HandOver with several semaphores: a release then wakes the head of the shared queue, whichever semaphore that process waits for, so the hand-over reading is stated for one semaphore.
- The choice of the next process, the trees of child processes, the links of the task lists, and the file system.
- SIMD instructions of the kernel itself while a process owns the FPU: the handlers are taken to use none.
- Port instructions, PIT, PIC, RTC, the hardware cursor, `EnableKeyBoard`, `Is_Ack` polling and `cpuid_`: hardware plumbing.
- `InitDisk`, `SetDisk`, IDENTIFY and `Swap`: device discovery and byte swapping of its answer.
- `ISR.asm` with the register copies of `Preempted_ByTimeOut` (a step with a contract in `ContextSwitch.dfy`), and the exception handlers, which never return.
- `printk`, `asd`, `strcpy`, `strcmp`, `trim` and the slab setters: easy members.
- Two readers of the key ring at once, and compiler effects on the flags that are not volatile.
