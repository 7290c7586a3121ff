# Car park: a verified model

The repository is a car park run by three C programs over one block of shared memory. The
**manager** reads number plates, assigns levels, works the boom gates and charges for stays. The
**simulator** makes cars and drives them through the hardware. The **fire alarm** watches the
temperatures and opens every gate when one of its two tests fires. This project models the three
and proves what they promise each other.

`dafny verify dfyconfig.toml` checks everything.

## How it is laid out

| part | files | the C code it follows |
|---|---|---|
| constants, options, line reading | `parking.dfy`, `wrappers.dfy`, `stdio.dfy` | `PARKING.h` |
| lists, as heap nodes with a ghost spine | `linked_list.dfy` | `linked_list.h`, the list functions of `simulator.c` and `firealarm.c` |
| car queues and lists of the simulator | `sim_queue.dfy`, `simulator.dfy` | `simulator.c` |
| permitted plates | `hash_table.dfy` | `hash_table_read.h` |
| fire detector: the loop, its definition over the history, the sort, the sort buffer as filled | `fire_alarm.dfy`, `detector.dfy`, `sorting.dfy`, `sort_buffer.dfy` | `firealarm.c` |
| simulated temperatures under the detector | `ambient.dfy` | `simulator.c` |
| one gate: handshake and emergency | `gates.dfy`, `fairness.dfy` | `manager.c`, `simulator.c`, `firealarm.c` |
| counters and level trackers | `levels.dfy`, `manager.dfy` | `manager.c` |
| charging and the revenue file | `billing.dfy`, `decimal.dfy` | `manager.c` |
| all threads together | `protocol*.dfy`, `counting.dfy` | `manager.c`, `simulator.c` |

**Imperative parts** (lists, queues, hash table, detector, counters, revenue file) are classes and
methods proved against functions on sequences and sets; the lemmas are about those functions, and
the protocol steps use the same ones.

**The joint protocol** (`protocol.dfy`) is a step system. Every thread of both programs has a
program counter: the creator, five entrances, the inside thread, five exits, and the manager's five
entrance, five exit and five level threads. One step is one lock-protected section, or one access to the
manager's car list, which the C code makes outside its lock. `IsRun` is any interleaving of enabled
steps from the start. The invariant is built in layers, one file each: the two threads at each gate
(`protocol_local`), which cars exist and where (`protocol_cars`), the manager's records against
those cars (`protocol_records`), the counters (`protocol_counts`), the bills (`protocol_bills`).
Each conservation law counts occurrences over all the places a car can be, so that a car lost,
doubled or moved to two places breaks an equation. `protocol_safety` reads off the results for
all runs, `protocol_capacity` relates every run to the books of level occupancy, `protocol_revenue`
follows the money to the printed total and the printed lines, `protocol_screen` says what every screen shows,
`protocol_history` traces times and level readings back to the steps that made them,
`protocol_progress` is about endless fair runs, and
`protocol_visit` shows that the states spoken of are really reached.

## What was found

- The false-alarm bound of the fixed-temperature test is 18 of the last 34 raw samples, where counting
  windows alone gives 17, and it is tight.
- The detection latency of 29 samples is tight too.
- The intent in `manager.h:34-39`, that a car is only sent to a level with a free place, is not what
  `car_count` does: after fifty arrivals and one departure from level 1 the next car becomes the eleventh on
  level 0. Trackers stay within 0..10, real occupancy does not. Levels keep to ten cars exactly as long as the
  first test of `car_count` never fails.
- A level reader that is slow enough to act only after its car has left and its plate has come back
  puts the new car on record at the wrong level; a run that does so is constructed. Records are right
  throughout a run exactly when every reading handled finds no record of its plate or one of a car sent to that
  level; it is enough that no reading is still pending when its plate is put on record again.
- Ambient drift can fire the rate-of-rise test exactly when eight rounds of drift pass between the newest sample
  and the one 31 readings earlier: never at five samples to a round, the ratio of the two threads' shortest
  sleeps (`firealarm.c:130`, `simulator.c:305-307`), but already at four.
- The comment at `firealarm.c:120-122` speaks of the oldest of the last 30 temperatures; the test at
  `firealarm.c:123` compares the newest raw sample with the oldest of 30 medians, and is modelled so.
- In an emergency a gate that is already open leaves `thf_boomAlarm` waiting for good; from any other
  status both emergency threads return.
- A bill reads back from the revenue file in full exactly when it is under $100,000,000, or only
  zeros (or the point) are cut off its 11 characters.
- The sort buffer as filled (`firealarm.c:81-85`) gives the median of the five samples, whatever the
  unwritten slot holds, exactly when the two middle values of the newest four samples are equal.

## Model

| member | source | states |
|---|---|---|
| Sorting.SortedIsAscendingPermutation | firealarm.c:86 | what qsort is asked for: an ascending rearrangement of the same values |
| Sorting.CompareOrders | firealarm.c:39-42 | the comparator's wrapped difference has the sign of the true order if and only if the difference fits an int; sensor readings always do |
| Sorting.Qsort | firealarm.c:86-87 | sorting the buffer in place through that comparator leaves exactly the sorted buffer |
| Sorting.MedianIsMajority | firealarm.c:86-87 | the median of five reaches a threshold if and only if three of the five do |
| FireAlarm.Record | firealarm.c:63-70 | pushing a value and cutting after the cap-th node leaves the newest cap values of the whole history, newest first; used for both lists |
| FireAlarm.CountNodes | firealarm.c:72-76 | counts the nodes of the list |
| FireAlarm.MiddleOf | firealarm.c:80-87 | the middle of the sorted buffer is the median of the five samples |
| FireAlarm.Scan | firealarm.c:99-109 | one pass gives the number of medians, how many are 58 or more, and the oldest |
| FireAlarm.Sample | firealarm.c:61-128 | one iteration keeps templist and medianlist equal to their definitions over the history and fires each test exactly when the definition does |
| FireAlarm.TempMonitor | firealarm.c:44-139 | over a whole observed run the loop makes exactly the broadcasts the history calls for and ends with the first iteration, from the fifth sample on, that reads an alarm flag other than '0' |
| Detector.MediansGrow | firealarm.c:78-97 | one more sample adds no median before the fifth and exactly one from then on, disturbing none |
| Detector.WindowVote | firealarm.c:80-87 | a median reaches a threshold if and only if three of the five samples in its window do, in sample order |
| Detector.FixedNeedsHighSamples | firealarm.c:73-118 | false-alarm bound: when the fixed-temperature test fires, 34 samples were read and at least 18 of the last 34 are 58 or more |
| Detector.FixedExactly | firealarm.c:99-118 | the test, exactly: 34 samples read, and at least 27 of the last 30 windows of five hold three samples of 58 or more |
| Detector.EighteenCanBeEnough | firealarm.c:73-118 | the bound cannot be raised: a history with exactly 18 high samples fires the test |
| Detector.HighRunFires | firealarm.c:103-118 | detection latency: from 34 samples on, 29 high samples in a row fire the test whatever came before |
| Detector.TwentyEightAreTooFew | firealarm.c:103-118 | with nothing high before the last 28 samples the test is silent |
| Detector.RiseOverRawSamples | firealarm.c:80-127 | the rate-of-rise test, exactly, over raw history: at most two of the samples 33 to 29 readings back exceed the newest less 8 |
| Detector.RiseIsThreeOfFive | firealarm.c:80-127 | the same as a count: at least three of those five samples are at least 8 below the newest |
| Detector.RiseWhenMonotone | firealarm.c:123-127 | for a history that never falls the test compares with the sample 31 readings back |
| Detector.BandIsQuiet | firealarm.c:80-118 | samples in a band below 58 keep every median in the band and never fire the fixed-temperature test |
| SortBuffer.WrittenVote | firealarm.c:80-87 | with the buffer filled from slot 1 the median is a vote of the newest four samples and the unwritten slot |
| SortBuffer.WrittenAgrees | firealarm.c:80-87 | that median is the true one for every content of the unwritten slot if and only if the two middle values of the newest four samples are equal |
| SortBuffer.HighRunFiresWritten | firealarm.c:80-118 | detection within 29 high samples holds for the buffer as filled too |
| SortBuffer.FixedExactlyWritten | firealarm.c:80-118 | the fixed-temperature test with the buffer as filled, exactly, as a count of windows with the unwritten slot for a fifth sample |
| Ambient.TempStart | simulator.c:278-291 | every level starts in 10..34, congruent to its draw modulo 25 |
| Ambient.TempRound | simulator.c:309-324 | one round of thf_temp: up a degree at 10 or less, down a degree at 40 or more, and by the change drawn in between |
| Ambient.AmbientBand | simulator.c:293-328 | temperatures stay in 10..40 over every run |
| Ambient.BandIsReached | simulator.c:293-328 | 10 and 40 are both reached from inside the band |
| Ambient.AmbientIsQuiet | simulator.c:293-328 | however its samples are taken, an ambient run keeps every median in 10..40 and never fires the fixed-temperature test |
| Ambient.FireIsFoundOnTime | simulator.c:356-378 | with the level held at 100 the test fires if and only if 29 hot samples and 34 in all have been read |
| Ambient.AmbientRiseExactly | simulator.c:293-328 | for any order-keeping sampling, some ambient run fires the rate-of-rise test if and only if 34 samples were read and the newest comes at least eight rounds of drift after the one 31 readings earlier |
| Ambient.FiveARoundIsQuiet | simulator.c:302-307 | five or more samples to a round never let ambient drift fire the rate-of-rise test |
| Ambient.FourARoundCanRise | simulator.c:302-307 | four samples to a round can |
| LinkedList.Push | linked_list.h:23-35 | a new node in front, the rest untouched |
| LinkedList.Find | linked_list.h:51-62 | the first node with the key, or null when there is none |
| LinkedList.DeleteFirst | linked_list.h:64-90 | splices out the first match and nothing else; unchanged when there is none |
| LinkedList.RemoveFirstTakesTheOne | simulator.c:106-127 | with distinct keys, deletion by key removes exactly the element meant and keeps keys distinct |
| LinkedList.Truncate | linked_list.h:92-104 | keeps exactly the first max(after, 0) nodes, values unchanged |
| SimQueue.PushedSlots | simulator.c:42-59 | a push keeps the list of the form cars then empty nodes and queues the car last |
| SimQueue.PoppedSlots | simulator.c:76-89 | emptying the last car's node dequeues the oldest car and keeps the others in order |
| SimQueue.NodePop | simulator.c:61-93 | returns the oldest car, or none, with the list, only that car's slot emptied; null for no list |
| SimQueue.LastCar | simulator.c:76-90 | with two or more cars the walk ends at the last one and never runs off the list |
| SimQueue.QNode.constructor | simulator.c:130-136 | a queue starts as one empty node |
| SimQueue.QNode.IsEmpty | simulator.c:668-670 | the waiting test is true exactly for the empty queue |
| SimQueue.QNode.Enqueue | simulator.c:622-623 | appends to the queue; the list has one node more than pushes so far |
| SimQueue.QNode.Dequeue | simulator.c:672-679 | takes the oldest car, the others keep their order, and the list keeps its nodes |
| SimQueue.CompTimes | simulator.c:491-500 | the first car whose leaving time has come, null exactly when no car's has |
| Simulator.CarList.Exists | simulator.c:588-597 | true if and only if some existing car has the plate |
| Simulator.CarList.Add | simulator.c:601-604 | the new car heads the list |
| Simulator.CarList.Delete | simulator.c:467-471 | removes the first car with the given car's plate |
| Simulator.CarList.TakeDue | simulator.c:749-756 | takes a due car itself off the inside list, or reports that none is due; plates stay distinct |
| HashTable.DjbHash | hash_table_read.h:38-46 | the loop computes the base-33 polynomial; in 64-bit arithmetic it never wraps |
| HashTable.PolyFits | hash_table_read.h:38-46 | six characters, of either sign, stay positive and a factor 64 below 2^64 |
| HashTable.HashWrittenOut | hash_table_read.h:38-46 | the hash of a plate as a sum in numerals |
| HashTable.HTab.constructor | hash_table_read.h:28-36 | an empty table of n buckets |
| HashTable.HTab.Index | hash_table_read.h:48-51 | the bucket of a key |
| HashTable.HTab.Add | hash_table_read.h:53-66 | adds the key to the set the table stands for; every plate stays in its own bucket |
| HashTable.HTab.SearchBucket | hash_table_read.h:96-107 | true if and only if the chain holds the plate |
| HashTable.HTab.Search | hash_table_read.h:109-119 | true if and only if the plate was added |
| HashTable.HTab.GetPlates | hash_table_read.h:87-94 | reading the file through the 11-byte buffer adds the first six characters of every read |
| HashTable.PlateFileReads | hash_table_read.h:87-94 | a file with one plate to a line permits exactly its plates, whatever the buffer held before |
| HashTable.LongLineSplits | hash_table_read.h:89-93 | a read takes ten characters at most, so a longer line is read in pieces that each add a plate |
| Gates.Gate.Raise | manager.c:102-105 | the manager's call always finds the gate closed, so it raises it and never returns early |
| Gates.Gate.Lower | manager.c:108-114 | an open gate is lowered and the two threads stay in step |
| Gates.Gate.SimGates | simulator.c:473-489 | either polling loop of the simulator ends at its first woken call: the raising loop is handed 'O', the lowering loop 'C', and the two threads stay in step |
| Gates.HandshakeStep | manager.c:99-122 | every step keeps both threads in step; the manager makes C to R and O to L, the simulator R to O and L to C; every effective step lowers a rank, and until the end some thread can take one |
| Gates.CallOnOtherGate | manager.c:103-121 | a call of m_sim_gates on a gate that is not closed returns at once and leaves it alone |
| Gates.HandshakeCompletes | simulator.c:703-727 | every fair schedule takes both threads through one full cycle to a closed gate |
| Gates.HandshakeAlways | manager.c:99-122 | at every point of every schedule status and program counters agree |
| Gates.AlarmOnlyOpens | firealarm.c:156-173 | in an emergency O is never left; only the opener raises a closed gate, only thf_boomAlarm turns a lowering one round, opening it at its next move, and opens a raising one |
| Gates.OpenGateStrandsBoom | simulator.c:864-881 | a gate open at the start leaves thf_boomAlarm in its loop for good |
| Gates.EmergencyOpens | firealarm.c:156-173 | from every status every fair schedule opens the gate for good; both threads return if and only if it was not open at the start |
| Levels.PossibleExactly | manager.c:146 | an arrival can happen exactly below fifty cars, a departure exactly from a level with a car |
| Levels.LevelAccounting | manager.c:87-96 | over every run of entries and exits: trackers between 0 and both 10 and the cars there, levels summing to m_counter, and cars less tracker equal to admissions at a full tracker less releases at an empty one |
| Levels.ArrivalsFillEvenly | manager.c:87-96 | with arrivals only, cars are dealt round-robin from level 1 and each of the first fifty finds its level below capacity |
| Levels.SomeLevelHasRoom | PARKING.h:36-39 | below total capacity some level has fewer than ten cars |
| Levels.ChosenLevelCanBeFull | manager.h:34-39 | the level chosen need not be that one: a run that puts an eleventh car on level 0 |
| Levels.OverfullFrom | manager.c:90-93 | from any state with true trackers, over every run of entries and exits, no level ever holds more than ten cars if and only if car_count never found the tracker of the level it chose at capacity |
| Levels.OverfullExactly | manager.c:90-93 | the same for a car park that starts empty |
| Manager.Tally.constructor | manager.c:87-96 | counter and trackers start at zero |
| Manager.Tally.CarCount | manager.c:87-96 | counts a car on the next level and returns that level's character |
| Manager.Tally.Admit | manager.c:145-151 | counts a car in exactly below fifty cars, otherwise changes nothing |
| Manager.Tally.Release | manager.c:254-262 | counts a car out of its recorded level, never below zero |
| Manager.CarList.Insert | manager.c:159-169 | a new record heads the list |
| Manager.CarList.Lookup | manager.c:256 | the record of a plate or null |
| Manager.CarList.LevelReading | manager.c:217-222 | changes the level on the first record of the plate shown and nothing else |
| Manager.CarList.Delete | manager.c:268 | removes the first record of the plate, all other records unchanged and in order |
| Protocol.ScreenRoundTrip | simulator.c:690-700 | a displayed level decodes to itself; 'X' and 'F' never decode to a level |
| ProtocolLocal.GateMoves | manager.c:99-122 | m_sim_gates is only called on a closed gate, and each thread that moves a gate finds it in the status it expects |
| ProtocolLocal.GateNotClosed | manager.c:103-121 | a call on a gate that is not closed would leave it alone and go on |
| ProtocolCars.DestroyCar | simulator.c:467-471 | destroying a car that is somewhere removes that car and no other |
| ProtocolCars.TakesTheDue | simulator.c:749-756 | deleting the due car by plate from the inside list removes the due car itself |
| ProtocolCars.DoKeepsCars | simulator.c:532-862 | every step of every thread keeps the conservation and uniqueness of cars |
| ProtocolRecords.ExitLookup | manager.c:253-257 | when an exit is signalled the lookup finds a record, of that very car and its assigned level |
| ProtocolRecords.ApprovedApart | manager.c:141-169 | no two entrances have approved the same plate |
| ProtocolRecords.DoKeepsRecords | manager.c:125-272 | every step keeps one record for each car between insertion and deletion, and no other record |
| ProtocolRecords.DoKeepsLocal | manager.c:125-272 | every step keeps the two threads at every gate in step, given that records are found |
| ProtocolCounts.DoKeepsCounts | manager.c:145-169 | every step keeps the counter equations |
| ProtocolCounts.DoKeepsShape | manager.c:254-262 | m_counter never goes below zero |
| ProtocolBills.DeletesTheHeld | manager.c:267-268 | deletion by the plate still on the reader takes out the record that was just charged |
| ProtocolBills.DoKeepsBills | manager.c:229-268 | every step keeps entries, records and charges in balance and recorded times in the past |
| ProtocolBills.ChargeIsStay | manager.c:233-236 | the unsigned subtraction never underflows; each charge is for the stay plus 65536 ms per overflow of the arrival clock |
| ProtocolSafety.RunInv | simulator.c:532-862 | every state of every interleaving satisfies all invariants |
| ProtocolSafety.FiveOfEach | PARKING.h:36-38 | five entrances, exits and levels in every reachable state |
| ProtocolSafety.CarsAreConserved | simulator.c:562-623 | in every reachable state plates of existing cars are pairwise distinct, and the list holds exactly the cars in queues, inside list and threads' hands, each in one place |
| ProtocolSafety.ParkedCarsAreOnRecord | manager.c:253-268 | in every reachable state every car inside, queued to leave or at an exit is on record exactly once at its assigned level, its lookup returns that record, and no exit thread has met a missing one |
| ProtocolSafety.CounterEquation | manager.c:145-169 | in every reachable state m_counter is the list length plus cars counted but not inserted less cars uncounted but not deleted, is the number of cars counted on the levels, and lies in 0..50 |
| ProtocolSafety.AdmissionIsSafe | manager.c:141-192 | whenever an entrance gate is not closed the plate being handled is permitted, the simulator holds the same plate and level, and until the car is in the plate is on record exactly once |
| ProtocolSafety.ApprovalStands | manager.c:141-169 | from check to insertion an approved plate is permitted, absent from the list and approved nowhere else |
| ProtocolScreen.UnpermittedShownX | manager.c:186-193 | over every run, the screen next shows 'X' to a plate that is not permitted, from wherever its reading stands |
| ProtocolScreen.LookupVerdict | manager.c:141-193 | when a plate is looked up, the next verdict on the screen is 'X' if and only if it is not permitted or already on record |
| ProtocolScreen.CountVerdict | manager.c:145-185 | when a car is to be counted, the next verdict is 'F' if there are fifty cars and otherwise the digit one above (m_counter + 1) mod 5 |
| ProtocolHistory.LeaveIsDrawn | simulator.c:706-713 | in every reachable state every leaving time, from the gate to the exit, is the simulator's clock at the step that drew it plus the stay drawn, 100 to 9999 ms, in 16 bits |
| ProtocolHistory.StaysItsTime | simulator.c:749-756 | a car leaves the inside list no earlier than its whole stay after its gate had opened, unless its leaving time overflowed |
| ProtocolHistory.OverflowLeavesAtOnce | simulator.c:706-713 | a car is due from the moment its time is drawn if and only if that time overflows 16 bits |
| ProtocolHistory.ArrivalIsClock | manager.c:159-169 | every arrival on the books is the manager's clock at a step at which it had shown that plate that level |
| ProtocolHistory.ChargeIsClock | manager.c:229-241 | every charge is made at the manager's clock of the step that writes it, for the record that exit had found |
| ProtocolHistory.ReaderIsCurrent | manager.c:214-222 | a level's reader has something to handle if and only if a car was shown to it, driving in or out, since it last handled one, and then it is the last such car's plate |
| ProtocolHistory.CountsOutRecorded | manager.c:254-261 | an exit lowers the counter and the tracker of the level on record, and no other tracker |
| ProtocolSafety.ChargedOnce | manager.c:229-268 | in every reachable state charges of a stay equal its entries less its records plus charges in progress, each for the stay plus 65536 ms per overflow |
| ProtocolSafety.LevelsAreRight | manager.c:207-226 | a sufficient condition: if no level reading is later than its plate's return, recorded levels are the assigned ones and trackers are bounded by capacity and real occupancy |
| ProtocolSafety.LevelsExactly | manager.c:207-226 | throughout a run every recorded level is the assigned one if and only if every level reading, when handled, finds no record of its plate or one of a car sent to that level |
| ProtocolLevels.StepHolds | manager.c:217-222 | a single step keeps all records right if and only if it is not a reading of a car sent to another level |
| ProtocolSafety.TrackersStayInRange | manager.c:254-262 | late readings or not, every tracker stays in 0..10 in every run |
| ProtocolSafety.GatesFollowTheCycle | manager.c:99-122 | in every step of every run each gate moves only along its cycle and by the thread entitled to the move |
| ProtocolSafety.RoundsEnd | simulator.c:664-730 | with a car in hand one of the two threads at a gate can move, and every move but taking the next car lowers a rank |
| ProtocolCapacity.StepAccounts | manager.c:145-149 | while records are right every step of the joint system is one event of the books or none, and is an arrival exactly when car_count runs |
| ProtocolCapacity.TrackersAreBounded | manager.c:254-262 | throughout every run with right records each tracker is bounded by capacity and by the cars counted on its level |
| ProtocolCapacity.CapacityExactly | manager.h:34-39 | over every such run no level ever has more than ten cars if and only if car_count always found the tracker of the level it chose below capacity |
| ProtocolProgress.EntranceRoundEnds | simulator.c:664-730 | in every endless run fair to the two threads of an entrance, from any of its states the entrance comes back to waiting for the next car |
| ProtocolProgress.EntranceServes | simulator.c:664-688 | in such a run every car queued at the entrance is taken, whatever its position |
| ProtocolProgress.ExitRoundEnds | simulator.c:824-860 | in every endless run fair to the two threads of an exit, the exit comes back to waiting for the next car |
| ProtocolProgress.ExitServes | simulator.c:824-848 | in such a run every car queued at the exit is taken |
| ProtocolLevels.LateReadingCorrupts | manager.c:217-222 | a reading still pending at another level when its plate is put on record makes the record wrong as soon as it is handled |
| ProtocolVisit.VisitRoundTrip | manager.c:125-272 | from any reachable state with an idle entrance and exit a run takes a permitted car through a whole visit, restores both programs' lists and m_counter, adds one entry and one charge, and restores the trackers if and only if the assigned level's tracker was below ten |
| ProtocolVisit.RecordedLevelCanBeWrong | manager.c:207-226 | with two permitted plates a reachable state has a car on record at a level it was not sent to |
| ProtocolRevenue.RunPermitted | manager.c:143 | in every run only permitted plates are put on record or charged |
| ProtocolRevenue.RevenueOfRun | manager.c:383-411 | for every run the printed total is at most 5 cents per millisecond charged, and equal to it if and only if every charge's line reads back in full; always so in the first 2,000,000,000 ms |
| ProtocolRevenue.FileOfRun | manager.c:229-241 | the file of every run has one line for each charge, in the order they were made, with the characters of the plate charged and 5 cents for every millisecond |
| Billing.BilledTime | manager.c:163-164 | with a clock that does not go back the charge is the stay plus 65536 ms per overflow, the stay itself if and only if the arrival was below 65536 |
| Billing.RevenueFile.Money | manager.c:229-241 | appends one line that starts with the plate and shows 5 cents for every millisecond charged, with two decimals |
| Billing.RevenueFile.PrintRevenue | manager.c:383-411 | the total is the sum of what each bill's line gives back through the 20-byte buffer |
| Billing.LineReadsBack | manager.c:396-406 | one bill's line gives back the first 11 characters of its amount, whatever follows it |
| Billing.FileReadsBack | manager.c:396-406 | reading a whole file gives the sum over its bills |
| Billing.FileKeepsBills | manager.c:238 | splitting the file at newlines gives one line for each bill, in order, with its plate and its amount |
| Billing.RecoveredExactly | status_display.h:9 | a bill reads back in full if and only if it is under 100,000,000 dollars, or only zeros or the point are cut off |
| Billing.RevenueIsExact | manager.c:383-411 | the total never exceeds what was charged and equals it if and only if every bill reads back in full |
| Decimal.ValueOfDigits | manager.c:377-381 | reading a printed number gives the number |
| Decimal.AtofPrefix | manager.c:377-381 | what any prefix of a printed amount reads as |
| Decimal.AtofStops | manager.c:377-381 | reading stops at the first character that is neither a decimal digit nor the point |

## Left out

- Shared memory, mutex and condition objects, thread creation and cancellation, the unlock-all sweeps and `main` of all three programs: steps are atomic sections instead.
- `usleep` and real time: each program's clock is advanced by steps of any size, independently of the other's.
- Lost and spurious wake-ups: a signal stays pending until it is read and a wait re-checks its condition; the C code has one shared condition for all entrance queues and reader and screen waits without a condition, so the progress results are about this rendezvous and not about the delivery of wake-ups.
- Races on the car list: an insertion (`manager.c:168-169`) and a deletion (`manager.c:268`) are single steps, although the C code makes them without a lock; so is the creator's walk over the existing cars with the choice of plate (`simulator.c:562-599`).
- Pointers to thread locals: the level of a record is stored by value (`manager.c:162` and `manager.c:221` store addresses of locals), and each level thread has its own floor (`manager.c:522-526` passes a reused local).
- FireAlarm.MiddleOf: fills slots 0 to 4 of the sort buffer; the buffer as the C code fills it is the subject of module SortBuffer.
- Gates.EmergencyOpens: `openboomgate` waits only while the status is neither closed nor open and re-checks it; `firealarm.c:168-169` locks again and waits unconditionally.
- HashTable.HTab.constructor: buckets start empty, which `malloc` does not promise (`hash_table_read.h:31`).
- HashTable.HTab.SearchBucket: stops at the end of the chain; the loop condition at `hash_table_read.h:99` does not test for it.
- ProtocolProgress.ExitServes: nothing is claimed about how long a car stays inside; of the cars that are due the newest is taken first.
- ProtocolCapacity.CapacityExactly: for runs in which records are right (ProtocolSafety.LevelsExactly says which those are), because with a wrong record the level counted out is not the car's; Levels.OverfullExactly is the same result for the counters alone.
- LinkedList.DeleteFirst, LinkedList.Truncate: freed nodes are unlinked, not deallocated.
- SimQueue.NodePop: a list of a single, empty node is excluded, for which the C code follows a null pointer (`simulator.c:71`); its callers wait for a car first.
- C string termination: plates are six characters, compared as a whole.
- Allocation failure.
- Random choices and files (`rand`, `read_file`, the draw of plates, entrances, exits and leaving times): inputs of the steps.
- `random_index` 3 (`simulator.c:304`) reads past the array of changes: any change in -1..1 is allowed instead.
- Floating point: amounts are whole cents, 0.05 a millisecond is 5 cents, and 0.9 of 30 is 27; digits after the second decimal are not read.
- The emergency messages on the screens (`evac_msg`), the rate-of-rise fire of the simulator and its keyboard commands: they carry no further property.
- The status display of the manager, except the revenue total it prints.
- The list of queues by number (`qnode_push` and the walks by ID): each entrance and exit holds its queue directly.
- `htab_destroy`, `node_find_level`, `node_find_LP`, `display_shm.c`, `display_shm.h`, `test.c`: unused or not part of the programs' promises.
