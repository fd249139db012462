# A verified model of the out-of-order core

This project models the hard parts of an out-of-order RV32 core written in SystemVerilog and proves
properties of the model for every program, every input and every run. It has five parts.

* **The back end** (`Core*.dfy`, `Dataflow`, `Wakeup`, `RenameTable`, `ReservationStation`, `ReorderBuffer`,
  `CdbArbiter`, `Ranking`, `Progress`, `BranchHistory`). `Core.Next` is one clock edge of the
  whole machine: flush, or branch recovery or dispatch of up to two, then broadcast on three buses, wake-up and
  issue, then commit of up to two, then fetch. The instruction set is a record of arbitrary functions over an
  arbitrary memory type (`Isa.Isa`); predictions, latencies, arbitration, selection, dispatch widths and
  interrupts are arbitrary inputs. One inductive invariant (`CoreInvariant.Inv`) gives the refinement theorem
  and the other results; `CoreLiveness` proves that the machine is never stuck. The five stateful modules are also
  modelled as classes whose `Clock` methods are proved against next-state functions, and `CoreTable`,
  `CoreBuffer`, `CoreStations`, `CoreRegisters` and `BranchHistory` prove that one edge of the whole machine is
  one edge of each module under the ports the design wires to it; `CorePorts` states it for every cycle of every
  run. The reservation-station contents are a set of entries tagged in program order, so the slot an entry sits
  in does not matter.
* **The data side** (`Bytes`, `StoreBuffer`, `StoreQueue`, `LoadStage`, `DataSide*.dfy`, `DataCache`, `CacheReplacement`). `DataSide.Next` is one
  clock edge of store queue, load stage, output buffer, store buffer, write-through cache, refill controller
  and memory together, over an arbitrary replacement policy. Classes over arrays are proved to do the same.
* **Arithmetic** (`Binary32`, `PowersOfTwo`, `Fp*.dfy`, `IntDivider`, `IntMultiplier`). The single-precision adder,
  multiplier and divider equal the exact reference of `tools/fp_ref.py`, which rounds the exact real result
  once, for all operands and all five rounding modes, with all flags; `FpNearest` proves that the reference's result
  is the nearest single, or the next one on the mode's side. Every significand of the hardware is
  `Jam(m)` of the exact magnitude `m`: twice the half-integer part, with the lowest bit set if anything was
  lost. The central lemma is that rounding depends only on `Jam`.
* **The back end joined to its units.** `CoreUnits` runs the back end together with a shared unit, seen as the list
  of operations it will still report (`Jobs`); `IntMultiplier` and `SharedUnits` prove that the multiplier, both
  dividers and the floating-point pipelines, with their own tag registers, move as such a list. `CoreMemory*`
  runs the back end together with the whole data side: the values and the memory of the two are the same, the
  two together are never stuck, and every program and memory starts such a run.
* **Two self-contained machines** (`Replacement`, `Uart`): the cache's replacement state, and the serial port
  with its transmitter wired to its receiver.

Registers named "history" in comments (logs, `older`, `committed`, `dropped`, …) record what happened; no
decision of the model depends on them. A class's ghost fields name the operation in each stage.

A reader who wants the main results can start at `CoreTheorems`, `CoreMemoryTheorems`, `CoreMemoryLiveness.CanAlwaysCommit`,
`CoreMemoryStart.EveryProgramRuns`, `Progress`, `CoreUnits`, `DataSideTheorems`, `DataSideDevices`, `DataSideLiveness`, `DataSideReports`, `FpNearest` with the
`Clock` methods of the arithmetic units, `CacheReplacement.UsedLineStays` and `Uart.ByteArrivesOnTime`.

Run `dafny verify dfyconfig.toml` to check everything.

## Where the code and its description differ

* An illegal instruction with the branch opcode still counts as a branch for the history registers: fetch
  shifts its predicted direction in, although it decodes as a fault and never resolves. The model keeps this
  (`Isa.Instr.conditional`), and `HistoryIsProgramOrder` holds with its predicted direction.
* The memory's read table has no entry for an unsigned word, so it reads it as zero
  (`Bytes.FormattersAgree` states exactly when the formatters agree). No instruction asks for one.
* The reorder buffer keeps four bits of an exception cause and drops the next PC of an entry that raised an
  exception; `ReorderBuffer.NarrowingIsExact` states what survives and for which causes.
* The refill controller's comment calls an uncached read a fixed transaction of one read and one wait. If the output
  buffer still holds another result when the answer comes, the load stays and the device is read again
  (`DataSideDevices.HeldReadRepeats` says exactly when).

## Model

| member | source | states |
|---|---|---|
| CoreTheorems.CommitsInProgramOrder | otter_mcu_ooo.sv:1458-1465 | In every state of every run, for every program of the modelled classes and every prediction, latency, arbitration and dispatch width, with up to two retiring per cycle, the committed registers, memory and next PC are those the sequential machine reaches on the logged events; every event is what its instruction calls for, said of registers, memory and addresses (`Isa.Means`): trap causes and values, results, stores, next PCs; the retired history is the retired branch directions |
| CoreTheorems.TimingDoesNotMatter | otter_mcu_ooo.sv:880-906 | Two runs of the same program from the same state with different predictions, latencies and widths commit the same events, one log being a prefix of the other, as long as interrupts fall at the same places |
| CoreTheorems.LogsAgree | tools/lockstep.py:4-8 | Any two logs the sequential machine accepts agree on their common length; the results, traps and order leave no freedom |
| CoreTheorems.EventDetermined | otter_mcu_ooo.sv:1433-1442 | What the next committed event is, is determined by the architectural state alone, up to taking an interrupt |
| CoreTheorems.NextKeeps | otter_mcu_ooo.sv:1458-1465 | Every clock edge keeps the invariant and keeps the committed state equal to the sequential replay of the log |
| CoreTheorems.TrapIsStep | otter_mcu_ooo.sv:1435-1436 | A trapping head is a precise trap of the sequential machine at its PC, nothing younger visible: for a load or store exactly at a misaligned address, with cause 4 or 6 and that address; otherwise the fault's own cause and value |
| Isa.StepMeans | LoadStoreUnit.sv:164-169 | What a step of the sequential machine may be, without naming its execution function: which instructions trap and why, which registers and memory change and to what, and where the next instruction is |
| CoreTheorems.InterruptIsStep | otter_mcu_ooo.sv:1454-1456 | An interrupt is taken with the buffer empty, at the PC the sequential machine is at |
| CoreLiveness.InterruptsWhen | otter_mcu_ooo.sv:1454-1456 | An interrupt is taken exactly when nothing is in flight, one is pending and an instruction is there to be interrupted |
| CoreTheorems.CheckpointsAreReplayed | RenameTable.sv:69-121 | In every cycle of every run every unresolved branch's checkpoint has exactly the busy bits and tags of renaming, in order, the uncommitted instructions up to and including the branch, despite commits, tag reuse, recoveries and nested branches since it was saved |
| CoreTheorems.RenamesAreReplayed | RenameTable.sv:69-121 | In every cycle of every run the current busy bits and tags are those of renaming the instructions in flight in order |
| CoreTheorems.Reachable | otter_mcu_ooo.sv:1458-1465 | Every reachable state satisfies the invariant: the chain of PCs, right outcomes and operands, maps and checkpoints, units, store queue, histories |
| CoreTheorems.RecoveryRestoresRenames | otter_mcu_ooo.sv:823-850 | After a recovery the restored busy bits and tags are exactly those of renaming the surviving instructions in order, the branch being the last one |
| CoreTheorems.RecoversExactlyWhen | otter_mcu_ooo.sv:1085-1106 | In every cycle of every run the machine recovers exactly if the branch that has just executed goes, in program order, another direction or to another PC than predicted |
| CoreTheorems.NoWakeupIsLost | tb_core.sv:359-395 | In every cycle of every run every operand still missing names a live, unfinished, strictly older instruction that writes a register |
| CoreTheorems.PromisesAreKept | ReservationStation.sv:130-178 | In every cycle of every run an operand ready by tag only is on a bus that very cycle, and what an issuing instruction resolves is the program-order value of its register |
| CoreTheorems.ResultsKeepTheirTags | otter_mcu_ooo.sv:1389-1404 | In every cycle of every run, whatever a bus carries is the value program order gives the instruction whose tag it carries (that the tags units ask with are live and executing is `CoreUnits` and `CoreMemoryTheorems`) |
| CoreUnits.RequestsAreResults | otter_mcu_ooo.sv:1281-1361 | In every cycle of every joint run of the back end and a shared unit, every operation the unit will ask a bus for has the tag of a live, executing instruction of that unit and the value program order gives it, and no two have one tag, under any stalls, grants, recoveries and flushes |
| CoreUnits.ExecutingIsAJob | otter_mcu_ooo.sv:1281-1361 | Conversely every executing instruction of the unit is among what the unit will ask for, so none is forgotten |
| CoreUnitSteps.MatchedStep | otter_mcu_ooo.sv:1281-1361 | Every cycle keeps that one-for-one match, through issue, grant, commit and squash at once |
| CoreUnits.UnitDrivesItsBus | otter_mcu_ooo.sv:1389-1404 | The bus a unit is granted carries the very tag and value the unit drives |
| CoreUnits.MultiplierRequestIsResult | otter_mcu_ooo.sv:1281-1361 | The multiply unit with its own tag shadow: whatever it asks with is a live, executing multiply instruction's tag and its program-order product |
| Jobs.MultiplyUnitIsJobs | otter_mcu_ooo.sv:1281-1361 | One clock of the multiply unit, stalled or not, is one step of the list of operations the core sees |
| SharedUnits.IntDivideUnit.Clock | otter_mcu_ooo.sv:1251-1298 | The integer divider with its stored tag: started only when idle and not squashed, killed by a flush or an older branch's recovery, kept until granted; what it will report moves as the core's list of operations does, with the ISA's one result |
| SharedUnits.IntDivideUnit.Request | otter_mcu_ooo.sv:1300-1310 | What it asks a bus with is that operation's tag and result |
| SharedUnits.FpDivideUnit.Clock | otter_mcu_ooo.sv:1178-1227 | The same for the floating-point divider, with the reference quotient |
| SharedUnits.FpAddUnit.Clock | otter_mcu_ooo.sv:1178-1341 | The adder's pipeline with its tag and live registers: under any stalls, grants, recoveries and flushes what it will report moves as the core's list does, each result under its own tag |
| SharedUnits.FpMultiplyUnit.Clock | otter_mcu_ooo.sv:1178-1341 | The same for the floating-point multiplier |
| SharedUnits.PipelineStep | otter_mcu_ooo.sv:1312-1341 | The registers' update, live bits included, drops exactly the jobs of younger operations whether the pipeline advances or stalls |
| SharedUnits.Division | IntDivider.sv:45-97 | Exactly one word is the result of an integer division, for every operation and operands |
| CoreCycle.CycleWindow | otter_mcu_ooo.sv:1458-1465 | One edge turns the window into what the front half left, advanced, moved up by the number of commits |
| CoreCycle.SharedMoves | otter_mcu_ooo.sv:1389-1404 | An executing instruction of a shared unit that is not squashed finishes exactly if it is granted a bus, with its own outcome, and else is unchanged |
| CoreTheorems.StoresAreQueued | LoadStoreUnit.sv:529-623 | In every cycle of every run, for each single store that left the memory queue without a fault: the store queue is exactly the left stores, this one is at the place given by the left stores before it, with its own address and data, its outcome is the program-order one, and if it is the head it is the queue's oldest |
| CoreTheorems.QueueIsLeftStores | LoadStoreUnit.sv:529-623 | Conversely every queue entry is a live store that left, and entries are in program order |
| CoreTheorems.HistoryIsProgramOrder | BranchPredictor.sv:149-159 | In every reachable state the speculative history is the last bits of: retired directions, then those in the reorder buffer (real if resolved, else predicted), then those in the fetch queue |
| CoreRecover.RecoverKeepsInv | otter_mcu_ooo.sv:1103-1108 | Truncating window, store queue, checkpoints, issue registers, history and fetch at a mispredicted branch keeps the whole invariant |
| CoreDispatch.DispatchKeepsInv | otter_mcu_ooo.sv:692-721 | Renaming, operand lookup and checkpoint allocation of one instruction keep the whole invariant |
| CoreDispatch.LookupOk | otter_mcu_ooo.sv:692-721 | Operand lookup gives the program-order value, or the tag of the youngest older unfinished writer |
| CoreAdvance.AdvanceKeepsInv | otter_mcu_ooo.sv:992-1012 | Broadcast, wake-up, tag-only wake-up and issue in the same cycle keep the whole invariant |
| CoreAdvance.IssuedOutcome | otter_mcu_ooo.sv:992-1012 | An instruction that issues computes its program-order outcome, loads reading committed memory through the store queue |
| CoreRetire.RetireKeepsInv | ReorderBuffer.sv:272-316 | Retiring the head shifts every index and tag and keeps the whole invariant |
| CoreRetire.RetireIsStep | otter_mcu_ooo.sv:1437-1442 | Retiring the head is one step of the sequential machine with exactly that event |
| CoreFetch.FetchKeepsInv | otter_mcu_ooo.sv:416-449 | Fetching any guessed packets keeps the chain of predicted PCs, the one-control-instruction bundles and the history |
| CoreFetch.BundleIsFetched | otter_mcu_ooo.sv:389-449 | What a fetch into an empty queue brings: two successive instructions exactly if the first does not end its bundle, and fetch goes on where the last one's guess says |
| Dataflow.ProducerValue | otter_mcu_ooo.sv:692-721 | The value of a register before an instruction in flight is the result of the youngest older writer |
| Dataflow.StoresGiveMemory | LoadStoreUnit.sv:414-424 | Applying the queued stores of the first n instructions to committed memory gives program-order memory at n |
| Dataflow.KeepOlderStores | LoadStoreUnit.sv:414-424 | The store-queue suffix cut of a recovery leaves exactly the stores up to the branch |
| OooPackage.AgeOfTagAt | ooo_pkg.sv:124-132 | The wrap-around age of the tag i places after the head is i |
| OooPackage.AgeAfterRetire | ooo_pkg.sv:124-132 | Moving the head by c lowers every younger tag's age by exactly c, across the wrap |
| Wakeup.WakesCapture | ReservationStation.sv:148-178 | One cycle of value and tag-only wake-ups captures a value that is on a bus, whichever bus, promises an announced one, and leaves a present one alone |
| Wakeup.ResolveTakesBus | ReservationStation.sv:130-146 | A promised operand resolves to the value its bus carries |
| RenameTable.AgreesIsReplay | RenameTable.sv:69-121 | Agreeing with a list of renames means equal busy bits, and equal tags where busy, to performing those renames in order, and conversely |
| RenameTable.SetKeepsAgreement | RenameTable.sv:69-121 | A rename extends the list of uncommitted renames by one |
| RenameTable.ClearKeepsAgreement | RenameTable.sv:69-121 | A commit clear removes the oldest rename, also inside checkpoints and after its tag has been renamed over |
| RenameTable.RenameTable.Clock | RenameTable.sv:69-121 | The register-by-register loop with two clears, two sets, save, restore and flush computes the table's next state for all 64 registers and every checkpoint |
| RenameTable.RenameTable.ClockRegister | RenameTable.sv:69-121 | One register's busy and tag, current and in every checkpoint, after the sequence of overriding assignments |
| RenameTable.AfterSlotsAt | RenameTable.sv:69-121 | The current map register by register: restored or current base, cleared by matching commits, then overridden by slot 0 and slot 1 |
| RenameTable.NextSavedAt | RenameTable.sv:69-121 | Each checkpoint register by register: saved after slot 0 or slot 1, otherwise cleared by matching commits, emptied by a flush |
| CorePorts.RegistersFollowPorts | otter_mcu_ooo.sv:657-681 | Every cycle of every run is one edge of the alias table, the checkpoint allocator and the issue registers under the wired ports, with recovery, dual dispatch and dual commit in the same cycle |
| CorePorts.QueuesFollowPorts | otter_mcu_ooo.sv:942-965 | Every cycle of every run is one edge of the reorder buffer and of each reservation station under the wired ports, and the station's demand that inserted tags are fresh is met |
| CoreTable.TableFollowsPorts | otter_mcu_ooo.sv:657-681 | One edge of the whole machine from a state that satisfies the invariant is one edge of the table's ports |
| CoreTable.RenameThenClear | RenameTable.sv:69-121 | Dispatching then committing equals the table's one edge, although the design clears before it sets |
| CoreTable.OneBranchAtOnce | otter_mcu_ooo.sv:389-399 | Two branches never dispatch together, because a fetch bundle never holds two |
| CoreRegisters.Checkpoints.Free | otter_mcu_ooo.sv:823-835 | The downward loop finds the lowest free checkpoint, if there is one |
| CoreRegisters.Checkpoints.Clock | otter_mcu_ooo.sv:837-850 | Every checkpoint's flag and owner after an edge: released by its own branch, by an older branch's recovery or by a flush, and a new allocation wins |
| CoreRegisters.RegistersFollowPorts | otter_mcu_ooo.sv:837-850 | One edge of the whole machine changes the checkpoint allocator and the three issue registers exactly as their clocked blocks do under the wired ports |
| CoreRegisters.DispatchAllocates | otter_mcu_ooo.sv:823-850 | A dispatched bundle allocates at most one checkpoint, a free one, owned by its branch |
| CoreRegisters.ResolvingIsUsed | otter_mcu_ooo.sv:837-850 | The resolving branch holds its checkpoint, so the one allocated in the same cycle is a different one |
| CoreRegisters.SelectedSurvives | otter_mcu_ooo.sv:992-1003 | Nothing that issues in a recovery cycle is younger than the branch |
| ReorderBuffer.ReorderBuffer.Clock | ReorderBuffer.sv:272-316 | Allocate up to two, complete from three buses, commit up to two, squash or flush: the window of live entries after the edge, and the live entries are exactly head to head plus used, across the wrap |
| ReorderBuffer.ReorderBuffer.Heads | ReorderBuffer.sv:193-214 | The two head ports show the two oldest entries rejoined, valid exactly when they exist |
| ReorderBuffer.ReorderBuffer.WriteBanks | ReorderBuffer.sv:193-214 | The two half-size banks together hold every tag's static fields, written for up to two tags at once, whichever parity the tail has |
| ReorderBuffer.ReorderBuffer.ClockEntry | ReorderBuffer.sv:272-316 | One entry after the sequence of overriding assignments: allocation, completion, commit, squash |
| ReorderBuffer.ReorderBuffer.MovePointers | ReorderBuffer.sv:272-316 | Head, tail and count after allocation, commit and squash in one cycle stay consistent modulo the size |
| ReorderBuffer.NarrowingIsExact | ReorderBuffer.sv:98-159 | Splitting an entry into dynamic and static parts and rejoining it loses nothing but a next PC where an exception makes it meaningless, for every cause below 16 |
| ReorderBuffer.WindowIsNext | ReorderBuffer.sv:272-316 | If every tag's storage changes as one edge says, the window in age order changes as the specification says and the valid bits mark exactly the new window |
| CoreBuffer.BufferFollowsPorts | otter_mcu_ooo.sv:942-965 | One edge of the whole machine changes the instructions in flight exactly as one edge of the reorder buffer's ports does |
| CoreBuffer.EntryCompletes | ReorderBuffer.sv:256-266 | An entry completes in a cycle exactly if a bus carries its tag, with its own outcome |
| ReservationStation.ReservationStation.Select | ReservationStation.sv:85-128 | The counting loops offer the oldest candidate and, in an unordered station, the second oldest; an in-order station offers its oldest entry only if it is ready |
| ReservationStation.ReservationStation.Clock | ReservationStation.sv:180-211 | What issues is ready, and the oldest and next oldest; a silent port has nothing to offer: no ready entry, an oldest entry that is not ready (in order), or at most one ready entry (second port); the entries after the edge are those that were not issued or squashed, woken, plus the inserted ones, woken in the same cycle |
| ReservationStation.ReservationStation.ClockSlots | ReservationStation.sv:180-211 | The slot loop places up to two insertions into free slots and keeps every other entry, without duplicating or losing one |
| ReservationStation.OffersAreOldest | ReservationStation.sv:85-128 | Ranks 0 and 1 among ready tags are the oldest and the second oldest entries by age from the head |
| ReservationStation.OffersMissNothing | ReservationStation.sv:104-124 | No offer is missed: when each port is silent, and that the second port offers the next oldest even when the first one is not taken |
| CoreStations.StationFollowsPorts | ReservationStation.sv:180-211 | One edge of the whole machine changes each station's waiting instructions exactly as one edge of the station's ports does, for whatever is selected |
| CoreStations.InsertedTagsAreFresh | otter_mcu_ooo.sv:692-721 | Dispatch never inserts a tag still waiting in a station |
| CoreStations.SelectionIsAllowed | otter_mcu_ooo.sv:992-1012 | Whatever the stations select by readiness and age, including two ALU instructions and the memory queue's oldest, is a choice the machine allows |
| CoreStations.SlotOneLookup | otter_mcu_ooo.sv:692-721 | The second dispatched instruction sees the first one's destination as pending under the first one's tag, and every other register as the first did |
| Ranking.CountAhead | CdbArbiter.sv:41-87 | The counting loop computes how many candidates are ahead by age, ties broken by index |
| Ranking.RankUnique | CdbArbiter.sv:41-87 | No two candidates have the same rank |
| Ranking.RankBelow | CdbArbiter.sv:41-87 | If some candidate has rank n, every smaller rank is taken: ranks leave no gaps |
| Ranking.LowerRankOlder | CdbArbiter.sv:41-87 | A lower rank is at least as old |
| CdbArbiter.Arbitrate | CdbArbiter.sv:41-87 | Each free bus carries the request whose rank is the number of free buses before it, if there is one; the granted requests are those |
| CdbArbiter.GrantsTheOldest | CdbArbiter.sv:41-87 | With k free buses, a request is granted if and only if fewer than k requests are ahead of it |
| CdbArbiter.RefusedAreYounger | CdbArbiter.sv:41-87 | A refused request is no older than any granted one, and then every free bus is in use |
| CdbArbiter.BusesDiffer | CdbArbiter.sv:41-87 | No request gets two buses |
| CdbArbiter.HeadRefusedMeansNoneFree | CdbArbiter.sv:41-87 | The reorder buffer's head is refused only if no bus is free |
| Progress.ArbiterRefusesOnlyThen | otter_mcu_ooo.sv:1389-1404 | The head's result is refused only in a cycle in which all three buses belong to their owner units |
| Progress.RefusalRaises | otter_mcu_ooo.sv:1389-1404 | Each cycle that refuses the head strictly raises the age-ordered done vector lexicographically, even if a branch recovers in that cycle, and the head goes on asking |
| Progress.RefusalsAreBounded | otter_mcu_ooo.sv:1103-1108 | In every run any unbroken stretch of cycles that refuse the head is shorter than 2^15: no deadlock on the buses, even under recoveries |
| CoreLiveness.CanAlwaysCommit | otter_mcu_ooo.sv:880-906 | The machine is never stuck: every run can be continued, with inputs its rules allow, until another instruction retires or traps, whatever is in flight, recovering, or waiting |
| CoreLiveness.ComesNearer | otter_mcu_ooo.sv:880-906 | From every state some cycle commits something or strictly lowers the distance to the next commit |
| CoreLiveness.CommitsOneOrTwo | otter_mcu_ooo.sv:1437-1465 | How many instructions a cycle commits, exactly: the finished head unless it is a store and the buffer is full, and a second one exactly under the dual-commit rule |
| CoreLiveness.BundleIsAllowed | otter_mcu_ooo.sv:897-902 | Two instructions may dispatch in one cycle whenever neither faults, there is room for both, and a checkpoint for a branch |
| CoreLivenessSteps.HeadMoves | otter_mcu_ooo.sv:992-1012 | The oldest instruction can issue, then get a bus, then commit or trap, unless every bus is its owner's or a recovery holds the memory queue for that one cycle |
| CoreLivenessSteps.HeadIsReady | ReservationStation.sv:85-91 | The oldest instruction never waits for an operand |
| CoreLivenessSteps.FaultsNeverWait | otter_mcu_ooo.sv:730-740 | In every run an instruction that faults at decode is finished from its first cycle |
| BranchHistory.BranchHistory.Clock | BranchPredictor.sv:149-159 | Both history registers after an edge, flush before recovery before fetch |
| BranchHistory.HistoryFollowsPorts | otter_mcu_ooo.sv:286-292 | The machine's two histories change as those registers do under the wired ports: recovery restarts from the branch's own copy and real direction |
| IntMultiplier.PipelineIsProduct | IntMultiplier.sv:36-60 | The extended 33-bit product's selected half is the low or high word of the signed, mixed or unsigned product |
| IntMultiplier.LowWordIgnoresSign | IntMultiplier.sv:36-60 | The low word is the same for signed and unsigned operands |
| IntMultiplier.MultiplyUnit.Clock | otter_mcu_ooo.sv:1281-1361 | Under any stalls, grants, recoveries and flushes the pipeline and its tag shadow move as the list of pending operations does: the granted oldest leaves, the issued one enters, and a recovery drops exactly the operations younger than the branch, and they alone |
| IntMultiplier.MultiplyUnit.Request | otter_mcu_ooo.sv:1281-1361 | What it asks to broadcast is the oldest pending operation's product under that operation's own tag |
| IntMultiplier.BroadcastOnce | otter_mcu_ooo.sv:1281-1361 | Where the accounts balance, every issued operation that is not squashed is broadcast once or still pending, never both, and a squashed one neither |
| IntMultiplier.ReportedOnce | otter_mcu_ooo.sv:1281-1361 | In every run each issued operation is at every moment in exactly one place: broadcast once, squashed, or pending |
| IntMultiplier.OnlySquashesLose | otter_mcu_ooo.sv:1281-1361 | A cycle loses an operation only if it was pending or just issued and everything is flushed or it is younger than the recovering branch |
| IntMultiplier.NeverLost | otter_mcu_ooo.sv:1281-1361 | An operation that no cycle squashes is never lost, however long the unit stalls and whatever else is squashed |
| DataSideTheorems.LoadsSeeProgramOrder | LoadStoreUnit.sv:352-360 | In every run, every cacheable aligned load that completes returns, byte by byte, the youngest store with a smaller stamp, else initial memory, whichever of the four places answered; as a number it is that of the addressed bytes, zero- or sign-extended; and the stores it is measured against are exactly the committed and queued ones with smaller stamps |
| DataSideTheorems.OlderStoresAreExact | LoadStoreUnit.sv:443-500 | For a load still under way too, the stores it will be measured against are exactly those with smaller stamps: no younger one is included and no older one left out |
| DataSideTheorems.WritesAreCommits | StoreBuffer.sv:97-141 | The writes to memory and devices followed by the buffered stores are the committed stores, each once and in program order; none was ever squashed; RAM is initial memory with exactly those writes |
| DataSideTheorems.QueuedGoes | LoadStoreUnit.sv:529-623 | What each cycle of a run does to each queued store: a flush or an older branch's recovery drops it, and only those do; else it stays queued, or it is the oldest and commits |
| DataSideTheorems.SquashedNeverWritten | LoadStoreUnit.sv:529-623 | A store that a flush or an older branch's recovery takes back at any time never commits and never reaches memory at any later time |
| DataSideTheorems.HistoryGrows | StoreBuffer.sv:97-141 | Commits, writes and drops are never taken back |
| DataSideDevices.ReadsFollowWrites | LoadStoreUnit.sv:426-442 | In every run, when a device read starts, the writes so far to memory and devices are exactly the stores before the load in program order: each older store has been written, and no younger one |
| DataSideDevices.DeviceValue | datacachefsm.sv:142-148 | A device load's value is the device's answer in the cycle after its read started, and nothing was written in between |
| DataSideDevices.HeldReadRepeats | datacachefsm.sv:142-148 | A device load that is done is read from the device again if and only if the output buffer is not free for it |
| DataSideLiveness.StoresAreWritten | datacachefsm.sv:96-105 | Every buffered store is written, and in which cycle: store i in the i-th cycle after the buffer may drain, which is at most 8 away, and not before |
| DataSideLiveness.LoadsFinish | datacachefsm.sv:80-93 | In every run a load that nothing takes back, and whose result finds the output buffer free, is answered within 27 cycles, however many older stores are queued or buffered, with a refill if it needs one |
| DataSideLiveness.LoadLeaves | datacachefsm.sv:80-93 | Any load, squashed or not, leaves the load stage within 14 cycles plus three for every store committed meanwhile |
| DataSideLiveness.RankFalls | datacachefsm.sv:80-143 | Each cycle in which the load stalls strictly lowers its distance to the end; only a commit can raise it |
| DataSideLiveness.QuietMeansTaken | LoadStoreUnit.sv:478-498 | Whatever is at the memory queue's head is taken once store queue, load stage and output buffer are free |
| DataSideLiveness.TakenExactlyWhen | LoadStoreUnit.sv:478-498 | When the memory queue's head is taken, exactly, for faults, stores, device loads and cacheable loads, the latter by the youngest overlapping store in the queue |
| DataSideLiveness.ForwardsAtOnce | LoadStoreUnit.sv:478-500 | A load whose youngest overlapping queued store covers it waits for nothing but the output buffer and has its result in the next cycle |
| DataSideTheorems.CacheIsCoherent | datacache.sv:90-149 | In every reachable cycle no two valid lines share a tag, and every valid line except a victim being refilled equals memory |
| DataSideTheorems.RefillIsSafe | datacachefsm.sv:82-149 | During a refill the victim does not move, its written words equal memory, nothing hits or drains, and the last beat publishes a line equal to memory |
| DataSideInvariant.NextKeepsInv | LoadStoreUnit.sv:519-626 | Every cycle keeps the data-side invariant, under any replacement policy |
| DataSideReports.ReportedOnce | LoadStoreUnit.sv:548-623 | In every run each operation taken from the memory queue is in exactly one of: reported once, squashed, still pending |
| DataSideReports.OnlySquashesLose | LoadStoreUnit.sv:548-623 | Only a flush or an older branch's recovery loses an operation, and after one nothing younger stays pending |
| DataSideReports.NotLost | LoadStoreUnit.sv:548-623 | An operation pending or just taken that is neither reported nor squashed in a cycle is pending after it |
| DataSideReports.BalancedStep | LoadStoreUnit.sv:548-623 | Every cycle keeps that accounting, including a grant, a finishing load and a squash at once |
| CoreMemoryTheorems.LoadsAgree | otter_mcu_ooo.sv:1111-1148 | In every cycle of every joint run of the back end and the data side, the result the load/store unit offers is that of a live, executing memory instruction, a fault exactly if that instruction faults in program order; a cacheable load's, from whichever of the four places, is of that instruction's address, is the sequential machine's value for it, and as a number is that of the addressed bytes, zero- or sign-extended |
| CoreMemoryTheorems.MemoryAgrees | otter_mcu_ooo.sv:1111-1148 | In every cycle of every joint run RAM with the buffered stores applied is the architectural memory of the sequential machine, word by word; with an empty buffer RAM is |
| CoreMemoryTheorems.DataSideRuns | otter_mcu_ooo.sv:1111-1148 | The back end keeps every promise the data side relies on (fresh stamps, commit only of a queued store, room for it, no take in a recovery), so each data side of a joint run is a run of the data side |
| CoreMemoryTheorems.ExecutingIsUnderWay | LoadStoreUnit.sv:478-498 | Every executing memory instruction is under way in the unit in every cycle: none is forgotten |
| CoreMemoryLiveness.CanAlwaysCommit | otter_mcu_ooo.sv:1111-1148 | The machine and its data side together are never stuck: every joint run, whatever is in flight, queued, buffered, squashed or being refilled, can be continued, each cycle as both machines make it, until another instruction retires or traps |
| CoreMemoryLiveness.JointComesNearer | otter_mcu_ooo.sv:1111-1148 | In every state of a joint run some cycle commits something or strictly lowers the common distance to the next commit |
| CoreMemoryLiveness.LoadComesNearer | LoadStoreUnit.sv:352-360 | While the oldest instruction is a load in the load stage, each cycle brings it nearer to its result |
| CoreMemoryLiveness.StoreWaits | datacachefsm.sv:96-105 | A finished store at the head that finds the buffer full waits only for the buffer to drain |
| CoreMemoryStart.EveryProgramRuns | otter_mcu_ooo.sv:451-460 | For every program, start address, registers, initial memory of any size, data side at reset and replacement policy there are joint runs from there, and some commit as many instructions as one likes: what the joint theorems assume can always be met |
| CoreMemoryStart.AlwaysConforms | otter_memory_v1_07.sv:86-139 | What the joint runs ask of an instruction set's loads, stores and alignment faults is met on a memory of byte lanes, whatever its other instructions compute |
| CoreMemoryTheorems.AlwaysJoined | otter_mcu_ooo.sv:1111-1148 | In every cycle the two store queues, the load under way, the offered result, memory and the program-order places agree |
| CoreMemoryTheorems.JoinedStep | otter_mcu_ooo.sv:1111-1148 | Every cycle keeps that agreement and meets the data side's demands, through dispatch, take, forward, report, commit, recovery and flush |
| CoreMemory.NumbersAreBytes | LoadStoreUnit.sv:99-122 | An instruction set whose loads, stores and alignment faults are those of a byte-addressed memory, said in numbers, does to byte lanes what the data side does |
| CoreMemory.AddressParts | datacache.sv:97-121 | Line, word and byte are the one way to split a byte address |
| CoreMemory.LanesRoundTrip | datacache.sv:57-83 | Words and byte lanes convert both ways without loss |
| LoadStage.LoadStage.Clock | LoadStoreUnit.sv:519-626 | The load stage and output buffer after the sequence of overriding assignments of one edge |
| StoreQueue.StoreQueue.Forward | LoadStoreUnit.sv:443-476 | The oldest-to-youngest overriding loop finds what a youngest-first search finds: hit, block, and the youngest overlapping store's shifted data |
| StoreQueue.StoreQueue.Keep | LoadStoreUnit.sv:414-424 | The loop counts exactly the older prefix a recovery keeps |
| StoreQueue.StoreQueue.Clock | LoadStoreUnit.sv:529-623 | Pop by commit, push and suffix cut in one edge, over wrap-around pointers |
| StoreBuffer.StoreBuffer.Clock | StoreBuffer.sv:97-141 | Enqueue and drain in one edge are first-in first-out over wrap-around pointers, with a full buffer refusing and an empty one ignoring |
| StoreBuffer.StoreBuffer.Query | StoreBuffer.sv:143-175 | The backward search over the circular buffer is the youngest-first search of its contents |
| StoreBuffer.SearchIsRight | StoreBuffer.sv:143-175 | A hit gives, on every byte asked for, what applying all buffered stores in order would give; a miss means none of them touches those bytes |
| StoreBuffer.SearchDecides | StoreBuffer.sv:143-175 | The search hits exactly if the youngest overlapping store covers the access, misses exactly if none overlaps, and holds the access up otherwise |
| StoreBuffer.ByteOfYoungest | StoreBuffer.sv:143-175 | Applying stores in order leaves in each byte the youngest store that writes it, else what was there |
| Bytes.DrainWritesMerge | datacachefsm.sv:69-78 | Memory's byte-enabled write of a drained store, with the size recovered from the mask, equals the cache's merge of it, for every size and aligned offset |
| Bytes.AlignStoreWord | datacache.sv:57-83 | The lane loop puts each enabled byte of the store's data in its place |
| Bytes.MergeStore | datacache.sv:57-83 | The lane loop replaces exactly the enabled bytes |
| Bytes.SpreadPlaces | StoreBuffer.sv:53-73 | An aligned store's lane l gets the data byte at l minus the offset |
| Bytes.MergeMeans | StoreBuffer.sv:53-73 | A store of one, two or four bytes sets exactly the addressed bytes, in order |
| Bytes.LoadMeans | LoadStoreUnit.sv:107-118 | A load's word is the natural number of the addressed bytes if unsigned, and has their two's-complement value if signed, and no other word is |
| Bytes.MisalignedMeans | LoadStoreUnit.sv:120-122 | An access is misaligned exactly if its address is no multiple of its width |
| Bytes.FormattersAgree | otter_memory_v1_07.sv:86-139 | The memory's, the load stage's and the cache's sized reads agree on every aligned access if and only if it is not a nonzero unsigned word |
| Bytes.ForwardIsMerge | LoadStoreUnit.sv:443-476 | Forwarding by two shifts equals storing the data in memory and loading it back (what a load means is `Bytes.LoadMeans`) |
| DataCache.DataCache.Lookup | cache_tags.sv:60-97 | The loop finds the valid line with the tag, if one exists |
| DataCache.DataCache.VictimLine | cache_tags.sv:60-97 | The victim is the lowest invalid line, and the policy's only if all are valid |
| DataCache.DataCache.Clock | datacache.sv:90-149 | One update in place per cycle: refill beat, else an atomic's invalidation, else a drained store that hits; all other lines and words unchanged |
| DataCache.AtomicInvalidates | datacache.sv:90-149 | After an invalidation no line answers for that address and every other valid line is as it was |
| DataCache.ArraysFollowStep | datacache.sv:90-149 | Driven by the controller, the arrays follow the data-side machine's lines |
| DataCache.RefillController.Outputs | datacachefsm.sv:151-243 | The step-by-step output assignment yields the machine's stall, drain and beat decisions, and the memory port's read, write, address, data and size in every case: first word, next words, last beat, drain, uncached read |
| DataCache.RefillController.Clock | datacachefsm.sv:80-149 | The fill, count and wait registers follow the machine's refill |
| DataCache.Memory.Clock | otter_memory_v1_07.sv:86-139 | A byte-enabled write changes one word in place; the read is registered and reads the old word |
| DataCache.MemoryFollowsStep | otter_memory_v1_07.sv:86-139 | The flat memory behind the controller's port follows the machine's memory and its registered read |
| FpAdder.Adder.Clock | fp_adder.sv:195-209 | Operations move one stage per advancing edge and hold otherwise, and the one in the last stage shows the exact reference sum or difference with its flags, for all operands and modes |
| FpAdder.Align | fp_adder.sv:71-132 | The swap and the sticky shift give the larger significand exactly and the smaller one as a jammed exact shift, or the special result |
| FpAdder.AddAndNormalize | fp_adder.sv:138-164 | Adding or subtracting the jammed significands and normalizing gives the jammed exact sum, through any cancellation |
| FpAdder.Round | fp_adder.sv:174-189 | The third stage's result and flags equal the exact reference |
| FpAdder.SumIsJammed | fp_adder.sv:138-164 | Jamming before the addition equals jamming the exact sum |
| FpAdder.SumReachesBit26 | fp_adder.sv:138-164 | A nonzero sum reaches bit 26, however much cancels, so normalizing it never loses the sticky bit's place |
| FpAdder.AdderIsReference | tools/fp_ref.py:126-142 | The reference addition is decided by the exact sum of the aligned significands, with the sign rule of exact zeros |
| FpMultiplier.Multiplier.Clock | fp_multiplier.sv:58-145 | The same for the multiplier: after three advancing edges the exact reference product with its flags |
| FpMultiplier.NormalizeAndRound | fp_multiplier.sv:58-145 | Normalizing and rounding the integer product is rounding its exact value once |
| FpMultiplier.ProductIsReference | tools/fp_ref.py:145-155 | Sign, exponent and integer product denote the exact product of the operands, special cases included |
| FpDivider.Divider.Clock | fp_divider.sv:57-145 | From acceptance the divider finishes in 28 edges or at once, holds its result until acknowledged, and the result is the exact reference quotient with its flags |
| FpDivider.RestoringStep | fp_divider.sv:57-145 | Each step keeps dividend times 2^steps = 2 quotient divisor + remainder, with the remainder below twice the divisor |
| FpDivider.FinishedQuotient | fp_divider.sv:57-145 | After 27 steps the quotient and the remainder's sticky bit determine the exact ratio, and the quotient has 26 or 27 bits, so the 27-bit register never drops one |
| FpDivider.Normalize | fp_divider.sv:57-145 | A nonzero significand is shifted so that its top bit is bit 23 |
| FpDivider.Divider.RoundQuotient | fp_divider.sv:57-145 | Packing quotient and sticky gives the reference quotient |
| FpDivider.SpecialIsReference | tools/fp_ref.py:158-170 | Every special operand pair is decided as the reference decides it |
| FpPackage.RoundPack | fpu_pkg.sv:96-162 | For every sign, integer exponent, mode and normalized jammed significand, the packed result and flags equal rounding the exact value once, including subnormals, carries, overflow and tininess after rounding |
| FpPackage.ToSig27 | fpu_pkg.sv:68-80 | Any 64-bit value with a sticky tail becomes the jammed 27-bit normalized significand of its exact value if and only if the leading one is at bit 26 or above or the tail still ends below bit 1 after the shift; it always does without a tail, and with one from bit 25 up |
| FpPackage.StickyNeedsRoom | fpu_pkg.sv:68-80 | The condition is needed: with the leading one below bit 25, a tail of one half is lost, whatever the value |
| FpPackage.LeadingOne | fpu_pkg.sv:60-64 | The loop finds the highest set bit, or -1 exactly for zero |
| FpPackage.UnpackValue | fpu_pkg.sv:51-57 | The unpacked significand and exponent denote the exact value of the word, subnormals included |
| FpPackage.ReferenceByRange | tools/fp_ref.py:88-123 | The reference rounding, for each exponent range, in terms of the jammed significand's guard, sticky and odd bits |
| FpPackage.CarryIntoNormal | fpu_pkg.sv:96-162 | A subnormal that would round up to the smallest normal carries into it, and is inexact |
| FpRounding.RoundJammed | tools/fp_ref.py:59-75 | Rounding a magnitude cut at any bit depends only on the kept bits, the guard bit and the OR of the rest |
| FpRounding.RoundIntByBits | fpu_pkg.sv:82-92 | The reference's integer rounding equals truncation plus the hardware's round-up decision, in all five modes |
| FpRounding.JamCut | fpu_pkg.sv:96-162 | Cutting bits off a jammed value gives the exact floor and tells exactly whether anything was lost |
| FpRounding.JamTwice | fpu_pkg.sv:96-162 | Jamming twice is jamming once |
| FpRounding.JamOfSum | fp_adder.sv:138-164 | An even integer plus or minus a real may be jammed before or after |
| FpReference.ExponentExists | tools/fp_ref.py:78-85 | Every positive magnitude has a binary exponent |
| FpReference.ExponentUnique | tools/fp_ref.py:78-85 | And only one, so the reference's search loop has one answer |
| FpReference.RoundedFits | tools/fp_ref.py:88-123 | The reference's rounding never leaves the 32-bit format, carries, subnormals and overflow included |
| FpNearest.NoneNearer | tools/fp_ref.py:88-123 | To nearest: no finite single is nearer to the exact value than the result; if another is as near, the result is even, or with ties away the larger one; subnormals included |
| FpNearest.NextOnItsSide | tools/fp_ref.py:88-123 | Toward zero, down or up: the result is the finite single next to the exact value on that side, and infinite only where no finite single is on it |
| FpNearest.OverflowsAt | tools/fp_ref.py:88-123 | To nearest, the result is infinite exactly from 2^128 - 2^103 on |
| FpNearest.RoundedFlags | tools/fp_ref.py:88-123 | Inexact exactly if the result is not the exact value; overflow and underflow exactly at their thresholds in each mode, underflow with tininess after rounding |
| FpNearest.RoundIntMeans | tools/fp_ref.py:59-75 | Integer rounding: within one half, ties to even or up, or to the side the mode asks for |
| FpSpecials.SumSpecials | tools/fp_ref.py:126-142 | Sums: when the result is a not-a-number, which one, and with which flag; infinities, and the sign of an exact zero |
| FpSpecials.ProductSpecials | tools/fp_ref.py:145-155 | The same for products |
| FpSpecials.QuotientSpecials | tools/fp_ref.py:158-170 | The same for quotients, with divide by zero exactly for a finite nonzero dividend |
| IntDivider.Divider.Clock | IntDivider.sv:45-97 | From acceptance the divider finishes after 33 edges, or at once for a zero divisor, and the result is the one section 7.2 of the RISC-V Unprivileged ISA asks for, for all word pairs and all four operations, including INT_MIN / -1 |
| IntDivider.Step | IntDivider.sv:45-97 | Each restoring step keeps the division equation on the bits brought down and the partial remainder below the divisor |
| IntDivider.SignFixUp | IntDivider.sv:45-97 | Negating magnitudes by the operands' signs gives the truncated signed quotient and remainder as words |
| IntDivider.ResultUnique | IntDivider.sv:45-97 | The specification leaves no choice: at most one word is the right result |
| Replacement.TouchedIsSafe | cache_tags.sv:99-154 | Under tree pseudo-LRU with 2^k lines, a touched line cannot be the policy victim before k further touches of any lines |
| CacheReplacement.UsedLineStays | cache_tags.sv:99-154 | In every run of the data side with 2^k lines, a line that a load or drained store hits, or a refill brings in, stays in the cache and is not the next refill's victim while fewer than k further cycles use a line |
| Replacement.OtherTouchAddsOne | cache_tags.sv:99-154 | Touching another line turns at most one tree bit on a line's path toward it |
| Replacement.VictimIsLine | cache_tags.sv:99-154 | The tree walk always ends at a line, toward which all k bits point |
| Replacement.TreePlru.Victim | cache_tags.sv:99-154 | The walking loop over the bit array computes the policy victim |
| Replacement.TreePlru.TouchNow | cache_tags.sv:99-154 | The in-place upward loop turns every bit on the path away from the touched line and no other bit |
| Replacement.AgesFollowList | cache_tags.sv:99-154 | The age updates refine moving a line to the front of a recency list |
| Replacement.TrueLru.Victim | cache_tags.sv:99-154 | The line of the highest age is the recency list's last |
| Replacement.TrueLru.TouchNow | cache_tags.sv:99-154 | The in-place age loop keeps the ages a permutation that follows the recency list |
| Uart.BytesArriveInOrder | board/uart.sv:45-68 | In every run with at least three clocks per bit, the bytes received are at every moment a prefix of the bytes sent, all of them once the link is idle, and the kept ones are those read out followed by the queue |
| Uart.ByteArrivesOnTime | board/uart.sv:45-68 | A byte accepted at clock m arrives exactly 9 div + div/2 + 8 clocks later, not before, in the place its rank among the bytes sent gives it, and stays, whatever else happens on the link |
| Uart.LineCarriesByte | board/uart.sv:45-68 | What is on the line: a low start bit, the byte's bits lowest first, a high stop bit, each for div clocks |
| Uart.DropsAreFlagged | board/uart.sv:85-139 | A byte that arrives is dropped if and only if the queue is full and not acknowledged; every drop sets the overrun flag, which only an acknowledge clears and only a drop sets |
| Uart.NextKeepsInv | board/uart.sv:70-139 | Every clock keeps receiver, synchronizer and transmitter aligned within the frame, so every bit is sampled inside its own bit time |
| Uart.JointStep | board/uart.sv:70-139 | One clock of both ends, for every bit, offset and start time: the frame in progress stays the one being received |
| Uart.Port.Clock | board/uart.sv:70-139 | The class's registers and circular queue follow one clock of the port |
| Uart.Port.ClockQueue | board/uart.sv:104-139 | Push, pop, drop and overrun in one clock over wrap-around pointers |

## Left out

- The whole core and the whole data side as one object: `Core.Next` and `DataSide.Next` are functions on values; the alias table, reorder buffer, stations, checkpoint allocator, histories, store queue, load stage, store buffer, cache, controller and memory inside them are classes updated in place and tied to those functions. What this leaves unmodelled is only that one object owns all these registers.
- CoreTheorems.CommitsInProgramOrder: covers instructions that compute, branch, load, store or fault; CSR accesses, fences, mret, LR/SC and atomic read-modify-writes run alone at the head and are not modelled.
- CoreTheorems.ResultsKeepTheirTags: a bus carries only a live, executing tag by the definition of `Core.Broadcast`; that the tags units ask with are such is proved of each unit in `CoreUnits`, `SharedUnits` and `CoreMemoryTheorems`, one unit at a time beside the back end, not of all units in one run.
- CoreUnits.RequestsAreResults: that the instruction set's `compute` is the unit's arithmetic is part of a joint run's definition (`CoreUnits.Multiplies` for the multiplier); a floating-point result's flags are proved in the arithmetic classes but are not carried by `Core`.
- CoreMemoryLiveness.CanAlwaysCommit: a continuation to the next commit exists in which the data side moves as its machine does; that the long-latency units report in time (their own `Clock` contracts bound it), and that fetch is given an instruction, stay choices of the continuation.
- CoreMemoryTheorems.LoadsAgree: says nothing about the value of a load from a device, which is an input on the data side; in the back end it is a function of memory and address.
- DataSideTheorems.LoadsSeeProgramOrder: the same; what is proved of device loads, their order after older stores and whose answer they carry, is in `DataSideDevices`.
- DataSide program order: tags relative to the reorder-buffer head are replaced by increasing stamps; `CoreMemory` gives each instruction in flight its stamp and keeps the two orders equal.
- DataCache.RefillController.Outputs: the second-level cache's outputs and the refill that reads from it are not modelled; every refill reads memory. The read's sign bit is not part of the port.
- DataCache.DataCache.Clock: the invalidation by an atomic is in the arrays' class only; `DataSide` runs no atomics.
- Progress.RefusalsAreBounded: bounds the refusals of the bus arbiter only; that loads and stores come to an end is `DataSideLiveness`.
- ReservationStation capacities inside `Core.Next`: whether a station has room is part of the arbitrary dispatch choice; the class takes its size as a parameter and requires room for what is inserted, as the dispatch logic does.
- The delay between a redirect and the first fetch after it (a cache fill in progress) and fetch stalls: a cycle may fetch nothing, so these only restrict the inputs.
- FpPackage.RoundPack: takes a normalized 27-bit significand, which is what every caller passes; its unnormalized inputs are never produced.
- Exponents are unbounded integers in the arithmetic units; the design's `int` never overflows on them.
- Reserved rounding-mode encodings, X-propagation and simulator workarounds.
- The second-level cache, the instruction cache with its prefetch buffer, the branch target buffer, the return stack and the two-bit counters: they change speed only; predictions are arbitrary inputs.
- Instruction decode, compressed expansion, the CSR file, counters, timers and devices: wide tables or per-branch facts.
- The serial port's physical line and clock drift between two boards: transmitter and receiver share one clock and divider.
- Board wrappers, host bridges, testbenches, software images and the scripts that drive simulators.
