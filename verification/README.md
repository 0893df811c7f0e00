# A verified model of the kernel, its loader and its drivers

The repository is a small 32-bit operating system: a boot loader that reads a FAT12 floppy and builds
page tables, a kernel whose processes talk by synchronous messages, and console, keyboard and hard disk
drivers. This project models its logic in Dafny and proves what that logic is for.

**Messages and scheduling.** `Rendezvous` gives the protocol on values: who is blocked sending or
receiving, the queue of every receiver, the pending-interrupt bits. `WaitGraph` and `NetInvariant` prove
its invariant for any number of processes: the wait-for graph is acyclic, queues and flags agree, no
sender and receiver wait for each other. `Scheduler` does the same for ticks and priorities.
`KernelModel` puts both together as a state machine of kernel entries; `History` proves what whole runs
deliver, and `Asked` that it is what the receiver asked for. `Kernel` is the imperative form: process records linked by pointers, message buffers copied in
place, and the loops of the source, each tied to the value-level step. `SenderLists` is the picture of
the linked sender lists.

**The shipped tasks.** `ClosedSystem` runs clients, the system task, the disk task and the disk
together; the disk task works off a plan of `get_ticks` polls and disk commands before it answers.
`ClosedInvariant` proves that nothing deadlocks or stops, `ClosedProgress` that every request is answered,
`ClosedDisk` what the disk task has done by the time it answers,
`ClosedKernel` that each call is the step the kernel makes, that the scheduler always finds somebody, and
that `get_ticks` tells a time between request and answer, and `ClosedTransfer` exactly which requests
break this.

**Loader, console, keyboard, disk, text.** `Fat12`, `Paging`, `Console`, `Keyboard`, `RingBuffer`,
`Partition`, `Format` and `Printf` model one component each. `FatImage` and `PartitionImage` say what is
read from a disk on which a file system or partition tables were written; `KeyboardKeys`, `ConsoleOps` and
`ConsoleLines` what keys mean and what is seen, `Typing` both together; `KeyboardInput` and `ConsoleKeys`
put keyboard and console on their rings. `Wrappers`, `Numbers`, `Sequences` and `Runs` hold what they share.

Code that changes things step by step is a class or a method over arrays; its contract ties the new
state to a function of the old one, and lemmas prove the properties of that function.
`dafny verify dfyconfig.toml` checks the whole project.

## Model

| member | source | states |
|---|---|---|
| Kernel.Kernel.DeadLock | kernel/message.c:163-192 | Over the process records, the walk ends, answers true exactly when the sender can be reached from the destination, and then prints exactly the walk that the send would close; every process printed holds a message. |
| NetInvariant.CheckIsExact | kernel/message.c:30-31 | A send leaves the wait-for graph acyclic if and only if the deadlock check does not fire. |
| WaitGraph.CheckedEdge | kernel/message.c:30-51 | Adding the edge of a send that passed the check closes no cycle. |
| WaitGraph.UncheckedEdge | kernel/message.c:172-182 | Had the check fired, the edge would have closed one. |
| NetInvariant.SendKeeps | kernel/message.c:25-72 | A checked send keeps the whole invariant: acyclic graph, queues that hold exactly the blocked senders, no missed rendezvous or interrupt, honest sources. |
| NetInvariant.RecvKeeps | kernel/message.c:74-152 | So does every receive. |
| NetInvariant.RaiseKeeps | kernel/process.c:151-169 | So does every device interrupt. |
| NetInvariant.WaitingIsFree | kernel/message.c:34-50 | A process that waits for a message is on no walk to anybody, so handing it one closes no cycle. |
| SenderLists.Append | kernel/message.c:53-67 | Hanging a sender behind the last of one list leaves every list a list: that one longer by the sender, the others unchanged. |
| SenderLists.Unlink | kernel/message.c:127-133 | Taking any entry out of one list, first or not, leaves every list a list, in order. |
| Kernel.Kernel.EnqueueSender | kernel/message.c:53-67 | The tail search ends, and the linked list of the receiver becomes its old queue with the sender behind it. |
| Kernel.Kernel.FindSender | kernel/message.c:113-121 | The search for one sender finds it and its predecessor in the list. |
| Kernel.Kernel.UnlinkSender | kernel/message.c:127-133 | The pointers afterwards spell the old queue without that sender. |
| Kernel.Kernel.MsgSend | kernel/message.c:25-72 | On the records, a send does what the abstract step says or stops in CRITICAL exactly when that step does; the message is in the waiting receiver's buffer, or the sender is blocked on it. |
| Kernel.Kernel.MsgRecv | kernel/message.c:74-152 | A receive does what the abstract step says, and the message found is in the caller's buffer, or that buffer is left for it. |
| Kernel.Kernel.SysSendRecv | kernel/interrupt.c:560-592 | The system call: sender stamped, the ASSERT and CRITICAL exits exactly characterised with nothing changed, and the buffers as for the two halves. |
| Kernel.Kernel.DeliverInterrupt | kernel/process.c:151-169 | Delivery on the records is the abstract interrupt step, and a waiting receiver's buffer holds the interrupt message. |
| Kernel.Kernel.ProcessSchedule | kernel/process.c:104-131 | The loops end and leave the running process and all ticks as the specification of the scheduler says; no blocked process gets or loses a tick. |
| Kernel.Kernel.ClockInterrupt | kernel/interrupt.c:114-133 | The clock handler on the records is the abstract clock step. |
| Kernel.Kernel.constructor | kernel/process.c:12-101 | The records as initialised are sound and stand for the start state. |
| Scheduler.PickIsChosen | kernel/process.c:110-120 | The scan finds k exactly when k is the lowest-numbered ready process with the most ticks, and finds somebody exactly when somebody ready has ticks. |
| Scheduler.ScheduleTerminates | kernel/process.c:108-130 | Two rounds are enough exactly when a ready process has ticks or a positive priority; otherwise no number of rounds is. |
| Scheduler.ScheduleEstablishes | kernel/process.c:104-131 | After scheduling the running process is ready, has ticks, and every process has between 0 and its priority. |
| Scheduler.ScheduleTicks | kernel/process.c:122-129 | Scheduling leaves the ticks of blocked processes alone always, all ticks alone while somebody ready has some, and else gives every ready process its priority. |
| Scheduler.TickSpends | kernel/interrupt.c:114-133 | A clock interrupt takes one tick of the running process, which goes on if it has more or the interrupt is re-entrant; otherwise a ready process with the most ticks runs, and refilling happens as above. |
| Scheduler.ReentrantTick | kernel/interrupt.c:119-125 | A re-entrant tick breaks that exactly when the running process was on its last tick. |
| KernelModel.StepKeeps | kernel/message.c:25-152 | Every kernel entry that returns keeps the invariant and a ready running process. |
| KernelModel.RunKeeps | kernel/message.c:25-152 | The invariant holds in every state of every run. |
| KernelModel.RunKeepsTime | kernel/interrupt.c:114-133 | In every run without re-entrant ticks the running process has ticks and all ticks stay between 0 and the priority. |
| KernelModel.RunsOnUnlessBlocked | kernel/message.c:25-152 | A call that goes through, or a device interrupt, changes neither the running process nor any ticks; a call that blocks leaves a ready process with the most ticks running. |
| KernelModel.BlockedKeepsTicks | kernel/process.c:122-129 | In every run a process keeps its ticks as long as it is blocked. |
| KernelModel.BoundedWaiting | kernel/process.c:104-131 | While a process stays ready and is not run, at most twice the sum of the other priorities clock ticks go by. |
| KernelModel.EventuallyRuns | kernel/process.c:104-131 | So a process that stays ready runs before one more tick than that. |
| History.RunConserves | kernel/message.c:34-140 | In every run, for every pair, what was sent is what was delivered, unchanged and in order, and then the one message the sender is blocked on. |
| History.ConservedCounts | kernel/message.c:34-140 | Sends minus deliveries is 1 while the sender is blocked on that receiver, else 0. |
| History.RunNamesSources | kernel/interrupt.c:569-570 | In every run every message carries its sender's number. |
| History.RunInOrder | kernel/message.c:96-104 | A process that only receives from anybody gets messages in the order they were sent, over every run. |
| History.RunCoalesces | kernel/process.c:151-169 | In every run the pending bit says exactly whether an interrupt is owed, and each interrupt message answers one raised since the one before. |
| History.NeverMoreThanRaised | kernel/message.c:82-94 | So interrupt messages never outnumber interrupts. |
| History.OwedIsDelivered | kernel/message.c:82-94 | An owed interrupt is what the next receive that accepts one gets. |
| History.FromPowerOn | kernel/process.c:12-101 | All of this for every run from power-on: conservation, named senders, coalesced interrupts no more than were raised, and send order for receivers from anybody. |
| Asked.RunGetsWhatItAsked | kernel/message.c:74-140 | In every run, each message and each interrupt a process gets is one that its last receive asked for. |
| ClosedInvariant.NoDeadlock | kernel/message.c:30-31 | For the shipped tasks the deadlock check never fires. |
| ClosedInvariant.MoveKeeps | kernel/hdd.c:40-75 | Every move of a task or the disk, with a request its server wants, keeps the invariant of the closed system. |
| ClosedInvariant.ClosedRun | kernel/system.c:11-31 | In every run of wanted requests no task comes to CRITICAL, answers never run ahead of requests or fall behind by more than the one that is out, and a request is held by exactly the server it was made to. |
| ClosedProgress.Progress | kernel/hdd.c:40-75 | While a request is out, somebody can take it further without a new request: for an OPEN by a poll, a command, the interrupt or the reply. |
| ClosedProgress.GoingOnEnds | kernel/hdd.c:77-88 | In every run, all moves but new requests are bounded by a measure of the start state and a constant for each new request, the constant depending only on how long the plans of the disk task are. |
| ClosedProgress.EveryRequestAnswered | kernel/message.c:199-220 | Once no client makes a new request, after a number of moves bounded in the tasks and the length of plans nobody can move, and then each request that was out, opens included, has had exactly one answer. |
| ClosedProgress.CanFinish | kernel/system.c:11-31 | From every state, whatever plans the disk task makes, some moves without new requests lead to one in which every request is answered. |
| ClosedDisk.WorkBeforeReply | kernel/hdd.c:193-206 | In every run, when the disk task replies to an OPEN it has given at least one command since it took it, each after two answered `get_ticks`, and received an interrupt raised for each; for a CLOSE or IO_CONTROL it has done none of that. |
| ClosedDisk.InOrderOfThings | kernel/hdd.c:211-238 | At every moment of such a run an interrupt is received only after the disk raised it, and raised only after a command, one for one. |
| ClosedDisk.CanBeWatched | kernel/hdd.c:40-75 | These two hold of every run of wanted requests: each can be observed this way. |
| ClosedKernel.MoveIsStep | kernel/interrupt.c:560-592 | When the task is running, its move is the kernel's own step: no assertion, no CRITICAL, and the same rendezvous state. |
| ClosedKernel.JointRunKeeps | kernel/interrupt.c:493-503 | In every run of tasks, kernel and clock together, under any scheduling, their states agree, no kernel call asserts or stops, and every `get_ticks` is told a time between its request and its answer. |
| ClosedKernel.JointRunNeverSpins | kernel/process.c:104-131 | While a client of positive priority computes, no call of another task and no clock interrupt leaves the scheduler looking for somebody in vain. |
| ClosedTransfer.TransferFails | kernel/hdd.c:97-142 | One READ or WRITE leads to a run in which the disk task, after its polls, command and reply, comes to CRITICAL. |
| ClosedTransfer.UnknownFails | kernel/hdd.c:67-69 | A request of a kind the server's switch does not know takes it to CRITICAL. |
| ClosedTransfer.FailsOnlyByUnwanted | kernel/hdd.c:40-75 | Some task can come to CRITICAL if and only if the requests that may be made include one that is neither GET_TICKS to the system task nor OPEN, CLOSE or IO_CONTROL to the disk task. |
| Fat12.ChsInverts | boot/loader.s:347-365 | The cylinder, head and sector computed for a sector number name that sector. |
| Fat12.ChsUnique | boot/loader.s:347-365 | No two sectors have the same cylinder, head and sector. |
| Fat12.UnpackPacked | boot/loader.s:380-413 | Entry n of a table packed as 12-bit entries comes back as it was, odd or even. |
| Fat12.ChainOfTable | boot/loader.s:380-413 | The chains the loader follows through the packed bytes are the chains of the table packed there. |
| Fat12.GetFatEntry | boot/loader.s:380-413 | Reading two sectors gives the entry, also when it straddles them, and writes only the FAT buffer. |
| Fat12.LoadFile | boot/loader.s:249-263 | The loop ends, and each 512-byte block of the segment holds the last sector of the chain that was loaded into it; nothing else is written. |
| Fat12.WhenItFits | boot/loader.s:249-263 | A file of at most 128 clusters is in memory, in order. |
| Fat12.WhenItDoesNot | boot/loader.s:262-262 | Of a longer file, the segment holds the first 64 KB exactly when every sector loaded over another equals it. |
| Fat12.ChainUnique | boot/loader.s:249-263 | The chain from a cluster is unique, so what is loaded depends on the disk alone. |
| Fat12.FindKernel | boot/loader.s:173-232 | The search finds the first directory entry with the name, or there is none. |
| Fat12.LoadKernel | boot/loader.s:173-263 | Search and load together: the chain of the first entry with the name is loaded. |
| Fat12.KernelOfTable | boot/loader.s:173-263 | So on a disk that holds a packed table, what is loaded is the file that table lays out from the first entry with the name. |
| FatImage.ClusterSector | boot/loader.s:234-261 | On a floppy laid out by the boot sector's fields (boot/include/fat12.s:89-100), the sector read for cluster n is the n-th cluster of the data area, counted from 2. |
| FatImage.EntryReadsBack | boot/loader.s:197-240 | A directory entry written with a name and a first cluster is read as that. |
| FatImage.LoadFromImage | boot/loader.s:173-263 | From such a floppy, a kernel file of at most 128 clusters ends up at the kernel's base, cluster after cluster. |
| Paging.TableCountCovers | boot/loader.s:735-745 | The number of tables is the fewest that cover the memory, and fits one directory. |
| Paging.IdentityTranslates | boot/loader.s:747-770 | The two-level walk of the Intel SDM, Volume 3A, section 4.3, over such tables takes every covered address to itself, present, writable and for users at both levels. |
| Paging.SetupPageMechanism | boot/loader.s:724-781 | The loops build such tables, so every address below the covered size translates to itself, and write nothing else. |
| Console.PrintedKeeps | kernel/console.c:56-93 | After a character the cursor is in the slice and not below the window, the window starts on a row and overhangs the slice by less than a row, it moves no further than needed, and hides the cursor only if it did before. |
| Console.ScrolledKeeps | kernel/console.c:36-54 | Scrolling by hand keeps the window on its rows and inside the slice. |
| Console.ScrollBack | kernel/console.c:36-54 | Scrolling back undoes scrolling, unless the window was at that end. |
| Console.FollowHalts | kernel/console.c:85-86 | The scroll loop ends exactly when the cursor is below the lowest cell the window can reach, whatever the cursor. |
| Console.InheritedCursor | kernel/console.c:114-119 | With a cursor taken over from the boot messages the first character on console 0 ends that loop exactly below cell 5520 (5521 for a backspace). |
| Console.InheritedText | kernel/console.c:239-247 | And a whole text is printed exactly when it is empty or its first character ends the loop. |
| Console.PlainText | kernel/console.c:239-247 | Plain text appears from the cursor on, cut before the last cell of the slice, and changes nothing else. |
| ConsoleLines.Newline | kernel/console.c:62-69 | A newline takes the cursor to the start of the next row, in the last row of the slice nowhere, and changes no cell. |
| ConsoleLines.TextInLines | kernel/console.c:239-247 | Every line of a text without backspaces stands where the newline before it took the cursor, cut before the last cell of the slice; no other cell changes. |
| ConsoleLines.PlacesExist | kernel/console.c:62-69 | Every text has such places. |
| Console.Backspace | kernel/console.c:70-76 | A backspace takes a character back: same cursor, blank cell. |
| Console.RegistersShowCurrent | kernel/console.c:16-34 | The display controller's bytes put together are the current console's start and cursor. |
| Console.ApplyKeeps | kernel/console.c:129-237 | Every operation keeps all three consoles in their slices and the controller on the current one. |
| Console.Isolation | kernel/console.c:56-136 | What a console and its part of video memory hold after any run of operations on all consoles is what they would hold had only its own been performed. |
| Console.Screen.PrintCharacter | kernel/console.c:56-93 | In place, including the scroll loop, a character does to console, memory and controller what the specification says. |
| Console.Screen.InitConsoles | kernel/console.c:95-136 | Consoles and prompts are set up; the invariant holds exactly when the inherited cursor lies in the first slice. |
| Console.Screen.StoreKeyIntoConsole | kernel/console.c:189-237 | A key value stores a character, scrolls, or changes the console, as specified. |
| ConsoleOps.ArrowKeys | kernel/console.c:216-224 | Up with a shift held shows the row above, if the slice has one, down the row below, if the slice goes on; nothing else changes, and nothing at all without shift. |
| ConsoleOps.SwitchKeys | kernel/console.c:225-232 | F1 to F3 with ctrl held show consoles 0 to 2. |
| ConsoleOps.CharacterKeys | kernel/console.c:189-215 | A key without the extension flag stores its low byte, enter a newline and backspace a backspace, if there is room; keys other than these, the arrows and F1 to F3 do nothing. |
| ConsoleOps.EchoShows | kernel/console.c:143-155 | An echo shows the oldest waiting character in the cell under the cursor, and takes it. |
| ConsoleOps.CellShows | kernel/console.c:77-82 | A cell is the character below its colour; an upper character's sign bits spoil the colour, not the character. |
| ConsoleOps.Prompts | kernel/console.c:120-125 | Consoles 1 and 2 begin with their number, a hash sign and a blank, and no other cell is written. |
| Console.WriteOnIsPrinting | kernel/console.c:239-247 | Writing a buffer is printing its characters, in state and in memory. |
| ConsoleKeys.KeysAreTheRing | kernel/console.c:143-168 | Over any operations on all consoles, a console's waiting characters are the contents of its 128-character ring, and what it echoes is what is taken out. |
| ConsoleKeys.EchoInOrder | kernel/console.c:143-237 | So a console echoes the characters stored for it in order, and at most 128 wait. |
| Keyboard.OneItemPerCall | kernel/interrupt.c:259-321 | Each call of the reader takes exactly one sequence, whatever follows. |
| Keyboard.PrefixWaits | kernel/interrupt.c:198-213 | On part of a sequence it waits. |
| Keyboard.Framing | kernel/interrupt.c:259-479 | n calls decode exactly n sequences of any stream, as if there were no framing. |
| Keyboard.KeyMapIsWellKeyed | kernel/global.c:57-189 | In the shipped map modifiers and locks have one place each, the same with and without shift. |
| Keyboard.ModifierIsLastPress | kernel/interrupt.c:344-365 | With any such map a modifier is held exactly when its last event was a press, whatever shift and locks do. |
| Keyboard.LocksArePressParity | kernel/interrupt.c:366-386 | A lock ends as it began exactly after an even number of presses. |
| Keyboard.LetterCase | kernel/interrupt.c:328-342 | In any map with capitals in the shift column, a letter is a capital exactly when one of shift and caps lock is on. |
| Keyboard.ShippedLetterCase | kernel/global.c:57-189 | So it is for every letter key of the shipped map. |
| Keyboard.WholeSession | kernel/interrupt.c:165-479 | From power-on, with the shipped map, n sequences take n calls, leave no byte, each modifier is as its last event left it, num lock is on after an even number of presses and the other locks after an odd one. |
| KeyboardKeys.KeyStored | kernel/interrupt.c:329-345 | A key off the pad is stored as the map's first column, with a shift held as its second and after 0xE0 as its third, with a bit for each held modifier. |
| KeyboardKeys.PadKeyStored | kernel/interrupt.c:393-473 | A pad key is stored as its sign, as enter, or as digit or point with num lock and a cursor key without, with the pad bit. |
| KeyboardKeys.FlagBits | kernel/interrupt.c:467-473 | Each of the seven flag bits is set exactly when its modifier is held or the key is on the pad, and the bits below are the key. |
| KeyboardKeys.Typed | kernel/interrupt.c:329-345 | Where the map spells two rows of characters, a key of them that is no letter types its character of the second row exactly when a shift is held, whatever the locks. |
| KeyboardKeys.DigitKeys | kernel/global.c:57-189 | So the digit keys of the shipped map type digits, and with shift the signs above them. |
| KeyboardKeys.BrokenPrint | kernel/interrupt.c:295-319 | A sequence that only begins like PrintScreen is the extended key it begins with, and takes the bytes that did not fit. |
| KeyboardKeys.BrokenPause | kernel/interrupt.c:280-294 | One that only begins like Pause stores nothing and ends at the first wrong byte. |
| Typing.TypedAppears | kernel/interrupt.c:393-475 | A character key typed on a console with nothing waiting is seen, once echoed, in the cell under the cursor. |
| Typing.TypedArrow | kernel/console.c:216-224 | Up or down, on the cursor block or the pad, typed with a shift held moves the window by a row. |
| Typing.TypedSwitch | kernel/console.c:225-232 | Ctrl and F1 to F3 typed show that console. |
| Keyboard.Decoder.ReadKeyboard | kernel/interrupt.c:259-479 | The reader, byte by byte, does what the specification says of the bytes in front of it and takes no more. |
| KeyboardInput.AcceptedIsSent | kernel/interrupt.c:182-196 | The decoder is offered what was sent if and only if no byte met a full ring. |
| KeyboardInput.CutAnywhere | kernel/interrupt.c:259-479 | However far the bytes have come, the decoder has handled the sequences they hold whole and waits in the next. |
| KeyboardInput.RingSession | kernel/interrupt.c:182-213 | Through the 32-byte ring, under any interleaving that drops nothing, the decoder has handled a prefix of what was typed, and all of it once the ring is empty. |
| RingBuffer.AnyInterleaving | kernel/interrupt.c:182-213 | What is taken from a bounded drop-newest queue is a prefix of what was accepted, in order, under any interleaving. |
| RingBuffer.RingBuffer.Put | kernel/console.c:157-168 | The ring with head, tail and count is such a queue when putting. |
| RingBuffer.RingBuffer.Get | kernel/console.c:143-155 | And when taking. |
| Partition.CommandNames | kernel/hdd.c:226-229 | The register bytes ask drive 0 for that many sectors by sector number, and name the sector modulo 2^28, so the sector itself exactly below 2^28. |
| Partition.WalkIsTheChain | kernel/hdd.c:279-295 | The walk is the one chain of boot records: links counted from the extended partition, ended by an empty link or 16 records. |
| Partition.Drive.ReadExtended | kernel/hdd.c:276-296 | The logical slots of the partition are that chain's, starts counted from each record, and no other slot changes. |
| Partition.Drive.ReadPrimary | kernel/hdd.c:253-273 | Every primary slot, and its sixteen logical ones, holds what the table says of it, independently of the others. |
| PartitionImage.EntryReadsBack | kernel/hdd.c:246-251 | System, start and length written in an entry of a boot record are read back from it. |
| PartitionImage.VolumesAreRead | kernel/hdd.c:276-296 | Of an extended partition written with volumes, each with a record linking to the next, the first sixteen fill the slots, with their absolute starts, and the other slots stay. |
| PartitionImage.OpenWritten | kernel/hdd.c:77-88 | After the first open of a drive with such tables, minor numbers 1 to 4 and 16 on find the partitions and volumes that were written. |
| Partition.MinorIsExact | kernel/hdd.c:101-106 | The driver finds drive 0 and an existing slot for exactly the minor numbers that mean one, with the truncating division of C. |
| Partition.RequestNames | kernel/hdd.c:101-114 | A request is sent out with base plus position over 512, modulo 2^28, and the fewest sectors that hold the bytes. |
| Partition.Drive.ReadWriteCommand | kernel/hdd.c:97-116 | The same for a minor number of the drive, from the slot that number means. |
| Format.NumeralIsTheOne | lib/common.c:158-187 | For every number and radix 2 to 36 there is one canonical numeral, and it is the one written. |
| Format.DigitCharacters | lib/common.c:170-172 | The digits are 0 to 9 and then a to z. |
| Format.TextSays | lib/common.c:153-187 | Number to text: the canonical numeral, behind a minus for a negative value. |
| Format.LowestText | lib/common.c:158-187 | Of -2^31, each character behind the minus is as far below 0 as the digit of the magnitude is above. |
| Format.LowReversed | lib/common.c:168-184 | The digits written from the lowest up, turned round, are the numeral. |
| Format.Reverse | lib/common.c:143-151 | In place, the string is turned round and the rest of the buffer unchanged. |
| Format.ItoaBase | lib/common.c:158-187 | The buffer holds sign and canonical numeral, terminated; the lowest value, whose negation wraps to itself, comes out with its digits mirrored below 0. |
| Format.Atoi | lib/common.c:119-141 | The loop with 32-bit wrap-around and the sign-bit trick computes the specified value. |
| Format.PlusSign | lib/common.c:127-131 | A plus in front of an unsigned text does not matter. |
| Format.RoundTrip | lib/common.c:119-187 | Reading back what was written gives the value exactly when it is not negative, is -2^30, or is -2^31. |
| Printf.RendersParts | lib/common.c:32-105 | A format built from literal characters, percent signs and fields prints as its parts one after the other. |
| Printf.FieldSays | lib/common.c:65-91 | %x and %d print the number in radix 16 and 10, %c the low byte as a character, %s the string. |
| Printf.PieceOutput | lib/common.c:93-101 | A field is as wide as asked for or as its text, whichever is more: zeros or blanks, by its flag, and then the text. |
| Printf.Vsprintf | lib/common.c:32-105 | The buffer holds the rendering of format and arguments, terminated, the rest is unchanged, and the length is returned. |

## Findings

Where the code does not do what it is for, a member gives the exact condition.

- READ and WRITE stop the system: the interrupt of a transfer is never received (`hdd_interrupt_wait` is
  empty, kernel/hdd.c:389-392), and the disk task meets it as an unknown message. So does any request of a
  kind the server does not know (kernel/hdd.c:67-69, kernel/system.c:26-28), and nothing else does.
  `ClosedTransfer.FailsOnlyByUnwanted`.
- `atoi` sets the sign bit instead of negating (lib/common.c:140), so of the negative numbers only -2^30
  survives a round trip, and -2^31, whose digits `itoa_base` writes below '0'. `Format.RoundTrip`.
- A re-entrant clock tick can leave the running process without ticks (kernel/interrupt.c:119-125).
  `Scheduler.ReentrantTick`.
- A kernel file over 64 KB wraps round in its segment (boot/loader.s:262). `Fat12.WhenItDoesNot`.
- A cursor inherited from long boot output makes the scroll loop run for ever (kernel/console.c:85).
  `Console.InheritedCursor`.
- The process scheduler never returns when nobody is ready with a positive priority
  (kernel/process.c:108). `Scheduler.ScheduleTerminates`; in the shipped system one computing client is
  enough to prevent it, `ClosedKernel.JointRunNeverSpins`.
- `DEV_TO_DRV` counts minor number 9 with the primary slots and the slot lookup with the logical ones
  (kernel/hdd.c:17 and kernel/hdd.c:105), and 10 to 15 give drive 0 a negative logical index. The minor
  numbers that work are exactly 0 to 4 and 16 to 79. `Partition.MinorIsExact`.

## Left out

- System calls are atomic. The source enables interrupts during a call (kernel/gas/interrupt.s:268), so a
  device interrupt could land inside one.
- A receive from MSG_SOURCE_INTERRUPT with nothing pending reads `proc_table[-10]` (kernel/message.c:107);
  the model takes the meaning, that no sender matches and the receiver blocks.
- The range check of process numbers is commented out (kernel/interrupt.c:564-565); it is a precondition.
- The assertion that a call is not nested (kernel/interrupt.c:563) is part of the atomicity above.
- Kernel.Kernel.MsgSend: requires that the call does not leave the scheduler spinning, as the source's loop
  then never returns; and that no blocked process holds the caller's buffer, which a blocked caller cannot
  break.
- Kernel.Kernel.MsgRecv: the same two requirements.
- The bits of `flags` are two booleans; addresses are flat, so `vir_to_linear` is the identity.
- `ClosedSystem` has one disk that takes every command and raises one interrupt for it, and status reads
  that succeed before their timeout; a timeout is another CRITICAL. How many polls and commands a request
  takes, beyond the least the code makes, is left open. Device contents are in `Partition`.
- ClosedProgress.EveryRequestAnswered: bounds the moves once no client makes a new request; fairness among
  clients that keep asking is not modelled.
- Only drive 0: the drive table has one element and the read of drive 1's table uses sector 1
  (kernel/hdd.c:21, kernel/hdd.c:256).
- Partition.Drive.ReadWriteCommand: minor numbers that have no slot on drive 0 (`Partition.MinorIsExact`) are
  excluded.
- The data loop of `hdd_read_write`, identification strings and debug printing of the disk driver.
- Output to a console from inside an interrupt.
- Console.Screen.ScrollConsole: directions other than one row up or down, which no caller uses, are not
  covered by the invariant.
- Keyboard LEDs, the controller handshake, and scan-code set switching; the fake shift codes some keyboards
  send around extended keys.
- The BIOS disk read is assumed to deliver the sectors asked for; the retry on error, and real-mode video,
  are not modelled.
- Fat12.LoadFile: chains that end in 0xFFF, the only mark the loader knows, and stay on the disk; the other
  end marks of the FAT specification, 0xFF8 to 0xFFE, would be followed as clusters.
- Paging.SetupPageMechanism: a memory size of 0, for which the first `loop` would run 2^32 times.
- `InitKernel`, the boot sector (which repeats the loader's FAT12 code), descriptor tables, exception
  messages, the demo processes and the build scripts.
- Format.ItoaBase: C leaves the negation of -2^31 undefined; the model takes the 32-bit wrap-around.
- Printf.Vsprintf: formats that end inside a field, or whose conversions do not match the arguments; the
  source reads past the format or the arguments there. `%x` of a negative number prints a minus sign, as the
  code does.
