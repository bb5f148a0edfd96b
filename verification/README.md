# stormdrive, modelled and proved in Dafny

stormdrive manages the drives of one node: it keeps a history of each of them,
drains and retires those that fail, formats, erases and updates them, and keeps
its own state in files that a reset must not tear. This project models the parts
where that is hard to get right and proves what they promise. `dafny verify
dfyconfig.toml` checks all of it.

How the models are built:

- Code that updates objects, files and buffers in place is a class or a method
  here too (`HistoryLog.LogDir`, `ChangeDetector.History`, `DrainDaemon.Entry`,
  `StateFile.Disk`, `EventRing.EventLog`, `Damper.Damper`,
  `InventoryMerge.Inventory`, the GPT and SES page writers, the CRC loop), proved
  against functions or predicates that the lemmas then speak about.
- Where tasks, crashes or an outside party interleave, the code is a transition
  system whose steps are the source's locked blocks and calls
  (`Drain`, `StateFile`, `AtaErase`, `IomRoll`, `EventRing`): theorems are over
  every run. An undisturbed poll, retry, state file write, security erase and
  rolling update are shown to be runs of those steps.
- A device or the storage engine answers as it likes. A command that failed may
  have taken effect or not, and the model keeps that truth apart from the answer.
- Time comes in as a number of seconds.

Where the code does less than a comment or a reader expects, the model follows
the code, a lemma gives the input, and another lemma says exactly when the code
does what is expected:

- A write cut inside a multi-byte character hides its whole month, not just
  itself (`HistoryRuns.EarlierRecordsSurvive`); a torn append also costs the next
  one, against the comment at src/history.rs:1033-1034 (`HistoryRuns.TornRunCosts`).
  What a reader gets after any run, whatever was torn, is `HistoryReads.RunReads`
  and `HistoryReads.RunLast`.
- A month whose first append fails is never followed by a prune, so an old month
  stays longer than it is kept (`HistoryRuns.FailedOpeningKeepsOldMonth`).
- From the year 10000 month files no longer sort by time
  (`MonthNames.YearTenThousandSortsFirst`; before that always, `MonthNames.MonthFilesSort`).
- `layout` refuses a drive with room for exactly one aligned MiB, and no other that
  has room (`Gpt.RefusedThoughOneFits`).
- "Safe to pull" can be said of a drive joined again in between
  (`DrainRaces.ReopenedBeforeAnnounced`; by exactly which steps, `Drain.OpensExactly`
  and `Drain.SafeExactly`; what keeps it from happening, `DrainRaces.SafeHolds`); a
  cancelled drain can come back (`DrainRaces.CancelledDrainComesBack`; exactly by the
  writes of `DrainRaces.CancelledExactly`); a poll can make up a drain
  (`DrainRaces.DrainOutOfNothing`; exactly when, `DrainRaces.UndrainedExactly`); a
  join can leave a drive draining with no drain (`DrainRaces.JoinOrphansDrain`;
  exactly when, `Drain.CoherentExactly`); a drained drive that stays can be left
  `Draining` (exactly by which steps, `Drain.SettlingExactly`); a drain that is empty when it starts is
  never retired (`DrainDaemon.StartedEmptyNeverLeaves`; which are,
  `DrainDaemon.RetiredExactly`).
- A state file that did not parse is lost if it cannot be moved, or if another is
  moved over it (`StateFile.KeptExactly`).
- A security erase whose password record could not be written can lock the
  daemon out of the drive (`AtaErase.UnsavedPasswordLost`; exactly such a step does,
  `AtaErase.StepKeeps`), and the wait is shorter than a drive's estimate above 2850
  minutes (`AtaErase.TimeoutOutlastsEstimate`).
- A firmware image of more than 16 MiB (256 MiB are let in, src/config.rs:119) wraps around the three
  bytes of WRITE BUFFER: the drive accepts everything, the update is activated, and
  the end of the image lies over its beginning (`Firmware.LargeImageWraps`); a drive
  with a boundary of 2^24 is sent a length of 0 (`Firmware.WholeChunkSaysNothing`);
  exactly which images arrive, `Firmware.ScsiTransfersImage`.
- The IOM check counts paths, not IOMs, and believes old counts
  (`IomRoll.TwoPathsOneIom`, `IomRoll.StaleCountsCutOff`; who is cut off and which
  counts serve, `IomRoll.CutOffExactly`, `IomRoll.WholeExactly`).
- A restart from an older event file reuses numbers (`EventRing.StaleRestartHides`),
  and a ring of capacity 0 is unbounded (`EventRing.NoCapacityNoBound`).
- An unknown drive ranks below a good one, so its first good verdict is damped
  (`Damper.FirstGoodWaits`; for how long, `Damper.WorseExactly`).
- Two drives can come to stand in for each other once one was forgotten
  (`InventoryMerge.ForgettingMakesCycle`; which removals are sound,
  `InventoryMerge.RemovalSoundExactly`); whether a new drive stands in for one that
  the same pass finds in another bay depends on how their paths sort
  (`InventoryMerge.PathOrderDecides`; whom it stands in for,
  `InventoryMerge.NewcomerReplaces`); and a keyless shelf record is lost when a
  pass finds none (`DriveLocation.RefreshedExactly`).

## Model

| member | source | states |
|---|---|---|
| Calendar.Epoch | src/controller.rs:995-1010 | day 0 is 1 January 1970 |
| Calendar.YearOfEraBrackets | src/controller.rs:1002-1003 | the year the division formula picks is the one whose first and last day bracket the day, over the whole 400-year era |
| Calendar.DateIsValid | src/controller.rs:995-1010 | every day number becomes a date of the Gregorian calendar written down independently (leap rule, month lengths) |
| Calendar.Successor | src/controller.rs:995-1010 | day n + 1 is the calendar's next day after day n, across month, leap day, century and era ends |
| Calendar.Increasing | src/controller.rs:995-1010 | a later day has a strictly later date |
| MonthNames.MonthIsItsName | src/history.rs:450-452 | the first seven characters of a timestamp are the name of its month number |
| MonthNames.MonthsFollowTime | src/history.rs:450-452 | later time, no earlier month number |
| MonthNames.MonthNamesSort | src/history.rs:802-808 | up to year 9999 names sort in byte order exactly as the months they name |
| MonthNames.MonthFilesSort | src/history.rs:802-808 | two times' file names sort by their months, in both directions |
| MonthNames.CutoffIsEarlierMonth | src/history.rs:455-460 | the cutoff is the name of the month `keep - 1` months earlier, over year ends, and the month itself for keep 0 |
| MonthNames.NegativeCutoff | src/history.rs:455-460 | a cutoff before year 0 is a name no month file sorts before |
| MonthNames.PruneComparesMonths | src/history.rs:811-820 | the string comparison of pruning removes a file exactly when its month is before the newest `keep`, or before this month for keep 0 |
| MonthNames.YearTenThousandSortsFirst | src/history.rs:450-452 | the first second of 10000 is filed before the last of 9999 |
| HistoryLog.LogDir.constructor | src/history.rs:518-530 | a log starts with no files and keeps at least one month |
| HistoryLog.LogDir.Prune | src/history.rs:811-820 | the files left are exactly those whose month does not sort before the cutoff, unchanged |
| HistoryLog.LogDir.Append | src/history.rs:749-763 | the month's file grows by what was written; pruning only when the month is new and the write was whole; the error result otherwise |
| HistoryLog.LogDir.ReadLines | src/history.rs:837-845 | the lines of one file, last first, up to the limit, skipping what does not parse |
| HistoryLog.LogDir.Read | src/history.rs:833-851 | the newest `limit` readable records of all months, oldest first |
| HistoryLog.LogDir.ReadWhole | src/history.rs:564-584 | the thermal reader, taking whole files, returns the same newest `limit` records |
| HistoryLog.LogDir.ReadLast | src/history.rs:823-831 | the newest whole record; none when a newer file is not readable as text |
| HistoryRuns.TornRunCosts | src/history.rs:659-660 | what a reader sees of a month after a run of interrupted writes: all before them and all after the one whole line glued to them, and nothing at all if a write to it ended inside a character |
| HistoryRuns.LastLineUnterminated | src/history.rs:659-660 | before anything follows it, a write without its newline is read exactly when its text is whole |
| HistoryRuns.EarlierRecordsSurvive | src/history.rs:833-836 | an interrupted write leaves the earlier records readable if and only if it does not end inside a character |
| HistoryRuns.CutCharacterLosesTheMonth | src/history.rs:823-836 | the concrete run in which one good record is hidden by a cut character |
| HistoryRuns.CurrentMonthStays | src/history.rs:651-666 | over ordered runs a month already opened is never pruned while it is written |
| HistoryRuns.RunContents | src/history.rs:651-666 | after any ordered run the files are exactly the opened months not below the retention floor, each with all that was written to it |
| HistoryRuns.FailedOpeningKeepsOldMonth | src/history.rs:749-763 | the oldest month outlives the retention if and only if the append that opened the newer month's file failed; later appends to that month never prune |
| HistoryReads.MonthShows | src/history.rs:833-851 | a month's file shows exactly the appends to it that survive: on a line of their own, not torn, in a month without a cut character |
| HistoryReads.ReadsBetween | src/history.rs:833-851 | the files of any span of months read back as exactly the survivors in it, in append order |
| HistoryReads.RunReads | src/history.rs:651-851 | after any run of appends at non-decreasing times up to year 9999, however each of them ended, a read returns exactly the newest `limit` survivors of the unpruned months in append order |
| HistoryReads.RunLast | src/history.rs:823-831 | and the last-record reader the newest survivor, or nothing exactly when there is none or a month after it was cut inside a character |
| HistoryReads.LostToATear | src/history.rs:659-660 | in a month without a cut character a whole line is lost if and only if the write before it in its month was interrupted |
| HistoryReads.TearCostsOne | src/history.rs:659-660 | and an interrupted write costs only one line |
| HistoryReads.CompleteFloor | src/history.rs:663-665 | with whole writes the floor is the newest `keep` months as of the last append |
| HistoryReads.CompleteRunReads | src/history.rs:651-851 | and then the read returns exactly the newest `limit` of all that was appended in those months |
| HistoryReads.CompleteRunLast | src/history.rs:823-831 | and the last-record reader the last append |
| ChangeDetector.Findings | src/history.rs:385-407 | the loop finds exactly the counters both records have whose move is a finding: growth of an error counter or of pending sectors and grown defects, a fall of anything but those two and gauges; with both values, since when, and whether over a reboot |
| ChangeDetector.SpecByName | src/history.rs:295-322 | by name, which counters are reported growing, which going back, and which write a record |
| ChangeDetector.FindingsByName | src/history.rs:385-407 | the rules find exactly those moves |
| ChangeDetector.DueExactly | src/history.rs:410-426 | a record is due for a change if and only if anything but a quiet counter going forward differs, else exactly after the heartbeat; the first always |
| ChangeDetector.History.constructor | src/history.rs:518-530 | a daemon starts on the log an earlier one left |
| ChangeDetector.History.Observe | src/history.rs:602-649 | one sample: what is reported, what is written, and which record is the next baseline, also when the write fails |
| ChangeDetector.FreshIsCoherent | src/history.rs:586-599 | a restarted daemon's baseline is what a reader of the files finds |
| ChangeDetector.ObservedCoherent | src/history.rs:602-649 | a written sample keeps cache and files together |
| ChangeDetector.ObservedReports | src/history.rs:385-407 | what a sample reports of a counter is its move since the last record, if a counter of that name is reported moving so |
| ChangeDetector.ObservedTracks | src/history.rs:410-426 | a counter other than hours, bytes and commands is in the last record at its last sampled value though most samples write nothing |
| ChangeDetector.RunTracks | src/history.rs:602-649 | the same over any run, with restarts |
| ChangeDetector.ReportedOnce | src/history.rs:602-649 | each change of an error counter (seven rules of names, `media_errors` to `sas.*.uncorrected`) is reported by exactly the sample that shows it, with the values on either side |
| ChangeDetector.ReportedMoves | src/history.rs:602-649 | over runs: what one sample reports of any counter that writes is its move since the sample before, exactly if a counter of that name is reported moving so |
| ChangeDetector.GrowthReportedOnce | src/history.rs:602-649 | each growth of pending sectors or grown defects is reported by exactly the sample that shows it, a fall never |
| ChangeDetector.GrowthAccounted | src/history.rs:385-426 | over any run what is reported of those two is how far they rose in all |
| ChangeDetector.Conservation | src/history.rs:385-426 | over any run, for every error counter by name: last value less first equals reported growth less reported going back |
| ChangeDetector.ConservedExactlyForErrors | src/history.rs:295-322 | a counter's moves are all accounted for if and only if its name is one of the error counters' |
| ChangeDetector.ErrorsAlwaysWrite | src/history.rs:295-322 | whatever growth is reported is also written; a quiet counter is reported exactly when it falls |
| ChangeDetector.WritesNothingExactly | src/history.rs:602-649 | a sample writes nothing if and only if only hours, bytes and commands went forward and the heartbeat is not due; otherwise the one record written, why, and the next baseline |
| ChangeDetector.QuietRun | src/history.rs:602-649 | over any run of such samples, restarts included, nothing is written or reported |
| ChangeDetector.FailedWriteReportsAgain | src/history.rs:640-647 | after a failed write the next equal sample reports the change again |
| Crc32.Compute | src/gpt.rs:26-35 | the nested loop computes the register function |
| Crc32.UnstepUndoes | src/gpt.rs:31-32 | the register step has a left inverse |
| Crc32.StepUndoes | src/gpt.rs:31-32 | and it is a right inverse |
| Crc32.StepBijective | src/gpt.rs:31-32 | so the step is a bijection of 32-bit words |
| Crc32.RegisterInjective | src/gpt.rs:26-35 | the same data sends different registers to different registers |
| Crc32.RegisterOfWord | src/gpt.rs:26-35 | up to four bytes are absorbed as one word |
| Crc32.WordInjective | src/gpt.rs:26-35 | different short strings are different words |
| Crc32.BurstDetected | src/gpt.rs:26-35 | two strings that differ only within four consecutive bytes have different CRCs |
| Crc32.PolyIsGenerator | src/gpt.rs:32 | the constant is the reflected generator of IEEE 802.3 clause 3.2.9 |
| Crc32.FedIsRemainder | src/gpt.rs:30-33 | the register is the remainder of the bits fed so far by polynomial division |
| Crc32.CrcIsRemainder | src/gpt.rs:26-35 | the CRC is the complement of the polynomial remainder of the message whose first 32 bits are complemented |
| Buffers.LeRoundTrip | src/gpt.rs:68-79 | a number that fits its width reads back from its little-endian bytes |
| Gpt.StoredCrc | src/gpt.rs:80-82 | a stored CRC reads back as the word it was |
| Gpt.GeometrySound | src/gpt.rs:99-111 | tables, usable range and partition lie in order on the disk, which is all the whole blocks there are; tables fill whole blocks, both ends of the partition are on 1 MiB |
| Gpt.PartitionLargest | src/gpt.rs:103-111 | no aligned partition inside the usable range reaches outside this one |
| Gpt.RefusedExactly | src/gpt.rs:96-110 | exactly which capacities and block sizes are refused |
| Gpt.RefusedThoughOneFits | src/gpt.rs:103-110 | an aligned partition would fit a refused drive if and only if just one MiB is free, and then it is the second of the drive |
| Gpt.LeastRefused | src/gpt.rs:103-110 | the smallest such drive of 512-byte blocks, with the range that fits |
| Gpt.Header | src/gpt.rs:57-83 | filling the buffer in place yields the header block, its CRC taken with its own field zero |
| Gpt.PutName | src/gpt.rs:117-119 | the loop writes the kept units of the name, zero-padded |
| Gpt.Entries | src/gpt.rs:113-119 | the table buffer is the one entry and zeros |
| Gpt.Mbr | src/gpt.rs:125-134 | the protective MBR, its size capped at 32 bits |
| Gpt.Layout | src/gpt.rs:88-160 | refuses exactly when the geometry does, else both copies as specified, where they belong |
| Gpt.HeaderReads | src/contents.rs:33-51 | the reader finds in a written header where the entries are and how many |
| Gpt.HeaderFieldsRead | src/gpt.rs:67-79 | every other field of the header reads back: revision, size, own and other block, usable range, GUID |
| Gpt.CopiesPointAtEachOther | src/gpt.rs:136-149 | the two headers name each other's blocks and the same usable range |
| Gpt.MbrReads | src/gpt.rs:125-134 | every byte of the protective MBR: one 0xEE record from block 1, its size capped at 32 bits, the signature, zeros elsewhere |
| Gpt.UnitsRead | src/contents.rs:75-79 | the units of a name read back, then zeros |
| Gpt.NameSurvives | src/contents.rs:75-79 | the name found is the name given if and only if it has at most 36 units and no NUL |
| Gpt.EntryReads | src/contents.rs:63-88 | the written entry reads as the partition |
| Gpt.TableReads | src/contents.rs:63-88 | the table holds exactly that one partition |
| Gpt.UnusedType | src/contents.rs:68 | with an all-zero type nothing is found |
| Gpt.RegionsApart | src/gpt.rs:136-159 | primary copy, partition and backup copy are disjoint, adjacent where they should be and end with the disk |
| Gpt.LayoutReads | src/contents.rs:33-88 | reading either copy of what the writer wrote, following its own header, finds exactly the one partition |
| Gpt.CopyIsWhole | src/gpt.rs:112-160 | of each copy as written: the header read there passes its check, the table at the block it names passes the check stored in that header, the first entry has the type, the partition's own GUID, first and last block and name asked for, and the header the disk's; all other bytes are zero |
| Gpt.FirstBlock | src/gpt.rs:125-134 | the disk begins with that MBR |
| Gpt.ChecksHold | src/gpt.rs:79-82 | both stored CRC checks hold of what is written (UEFI 2.10 section 5.3.2) |
| Gpt.HeaderDamageShows | src/gpt.rs:81-82 | any change within four neighbouring bytes of the covered part, or within the stored CRC, breaks the header check |
| Gpt.TableDamageShows | src/gpt.rs:120 | any change within four neighbouring bytes of the table breaks its check |
| Drain.StepEarned | src/fleet.rs:534-664 | every step keeps that each retirement and announcement in the log was earned |
| Drain.StepHonest | src/stormblock.rs:585-595 | every step keeps that a closed drive has no leg unless forced out |
| Drain.RetiredOnlyWhenEmpty | src/fleet.rs:573-658 | on every interleaving, a drive is taken out or called safe to pull only by a task that heard `empty` and then closed it |
| Drain.SafeWhenAnnounced | src/fleet.rs:620-658 | at the announcement the drive is closed with no leg, unless it was opened since or forced out |
| Drain.OpensExactly | src/fleet.rs:700-745 | a step opens a closed drive if and only if it is somebody's own opening or a join the engine grants, and closes an open one if and only if it is a granted close or removal or somebody's own |
| Drain.OpenExactly | src/fleet.rs:573-745 | over any run a drive ends open if and only if a step opened it, or it was open, and no later one closed it |
| Drain.SafeExactly | src/fleet.rs:620-658 | at the announcement the drive is open if and only if a step of the run opened it and none after that closed it; if it is not open, no leg is on it |
| Drain.CoherentExactly | src/fleet.rs:364-616 | a step keeps "draining has a live record" if and only if it is not a join or an ended start over a draining drive |
| Drain.InitialCoherent | src/fleet.rs:364-616 | a quiet start satisfies it |
| Drain.DrainingHasRecord | src/fleet.rs:364-616 | over whole runs without those, `Draining` always has a running, stuck or empty record |
| Drain.SettlingExactly | src/fleet.rs:534-616 | a step leaves a drive that is draining, recorded empty and to stay, with nobody about to make it idle if and only if it is a start recorded as empty over a draining drive, or the note of `empty` by a poll that began while the record said it was to leave |
| Drain.DrainedBecomesIdle | src/fleet.rs:578-592 | so over runs without those a drained drive that stays always has the write under way that makes it idle |
| Drain.IdlingMakesIdle | src/fleet.rs:585-590 | which does just that |
| Drain.MembershipMoves | src/fleet.rs:628-745 | a drive leaves the fleet if and only if a retired drain or a removal writes it out or the engine does not list it, and enters it if and only if a join writes it in or the engine lists it |
| Drain.ActivityMoves | src/fleet.rs:364-616 | what every step makes of a drive's activity: draining exactly from the write of a running drain until it is over, asked for again, forgotten or cancelled |
| Drain.BegunExactly | src/fleet.rs:364-545 | what begins and on what: a join only with an idle drive outside the fleet, a removal only inside it, a poll only of a running drain with its flag, a drain only of a fleet drive that has none running |
| Drain.IntentStep | src/fleet.rs:426-439 | one step keeps reason and retire flag if and only if it is not a new request, a drop, a join or a removal |
| Drain.IntentKept | src/fleet.rs:420-616 | through any run of refusals, forgetting and adoption the drain keeps its intent, and stays wanted until it is ended |
| DrainDaemon.Entry.constructor | src/fleet.rs:364-380 | an inventory entry as read |
| DrainDaemon.Entry.StartDrain | src/fleet.rs:364-411 | adopts, starts or refuses as the engine answers; the whole new entry |
| DrainDaemon.Entry.MarkPending | src/fleet.rs:426-439 | pending with the first asker's intent, no longer draining; true the first time |
| DrainDaemon.Entry.RequestDrain | src/fleet.rs:444-468 | what cannot start now is kept as pending |
| DrainDaemon.Entry.RetryPending | src/fleet.rs:472-489 | a due drain is asked for again with its own intent |
| DrainDaemon.Entry.PollDrain | src/fleet.rs:534-616 | one poll: entry and announcement for every answer of the engine |
| DrainDaemon.Entry.Retire | src/fleet.rs:620-664 | out and idle exactly when the engine closed the drive |
| DrainDaemon.Entry.CancelDrain | src/fleet.rs:511-531 | cancelled and no longer draining, or nothing |
| DrainDaemon.PollMeans | src/fleet.rs:534-664 | answer by answer: still draining if and only if the engine said running or stuck, did not say, or refused to close a drained drive that leaves; announced exactly when it closed that; otherwise idle; reason and flag kept |
| DrainDaemon.RequestMeans | src/fleet.rs:364-468 | answer by answer: running exactly if the engine has or starts it, the engine's word if it says another, else pending for whoever asked first |
| DrainDaemon.RetryMeans | src/fleet.rs:472-489 | exactly a pending drain of a fleet drive in sight is asked for again, with its own intent |
| DrainDaemon.CancelMeans | src/fleet.rs:511-531 | the record says cancelled, a draining drive is idle, the rest stays |
| DrainDaemon.PollIsRun | src/fleet.rs:534-664 | an undisturbed poll is a run of the protocol's steps, with the same drive and announcement |
| DrainDaemon.RetryIsRun | src/fleet.rs:472-489 | so is an undisturbed retry |
| DrainDaemon.TickFalls | src/fleet.rs:57-74 | with a cooperating engine every tick lowers (stage, legs) |
| DrainDaemon.RetiresWhenRunning | src/fleet.rs:534-664 | enough ticks retire a running drain, announced, with no leg left |
| DrainDaemon.RetiredExactly | src/fleet.rs:534-545 | ticks bring out exactly the drives whose drain is pending or running |
| DrainDaemon.StartedEmptyNeverLeaves | src/fleet.rs:539 | a drain answered `empty` at once is never retired, however many ticks |
| DrainRaces.ReopenedBeforeAnnounced | src/fleet.rs:628-657 | a run in which a drive with legs is called safe to pull |
| DrainRaces.SafeHolds | src/fleet.rs:628-658 | if no join is with the engine when a drain closes the drive, and until the announcement none is begun and nobody else opens it, it is closed then with no leg on it, whatever else goes on |
| DrainRaces.CancelledDrainComesBack | src/fleet.rs:511-531 | a run in which a retry in flight overrules a cancel, up to the drive called safe to pull |
| DrainRaces.CancelledExactly | src/fleet.rs:364-745 | a step leaves a cancelled drain cancelled if and only if it is not the write of a start, poll or join in flight, of a failed request on a fleet drive, or a removal |
| DrainRaces.CancelledRun | src/fleet.rs:364-745 | so a cancel holds over every run without those |
| DrainRaces.CancelHolds | src/fleet.rs:364-745 | and over every run with no start, poll or join in flight at the cancel and none begun after it |
| DrainRaces.DrainOutOfNothing | src/fleet.rs:551-561 | a run in which a poll answered too late makes up a drain for a drive whose drain a join has cleared |
| DrainRaces.UndrainedExactly | src/fleet.rs:426-439 | a step puts a drain on record where there is none if and only if it writes a start, a failed request on a fleet drive or a forgotten drain |
| DrainRaces.UndrainedRun | src/fleet.rs:364-745 | so over runs without those there never is one |
| DrainRaces.NothingComesOfNothing | src/fleet.rs:364-745 | nor over any run with no start, retry or poll in flight and none asked for, whatever joins, cancels and listings do |
| DrainRaces.JoinOrphansDrain | src/fleet.rs:736-745 | a run in which a join of an idle drive outside the fleet ends, after the drive was listed and drained meanwhile, in `Draining` without a record |
| DrainRaces.LeaveWhileDrainingIgnored | src/fleet.rs:378-380 | asking to leave while a drain runs changes nothing |
| StateFile.StepKeeps | src/inventory.rs:81-107 | every call and every crash keeps file system order and what the path may hold |
| StateFile.NeverTorn | src/inventory.rs:81-107 | at every point of every run, and after a crash there, the path is exactly one of the states it was meant to have, none older than the last whose directory sync succeeded |
| StateFile.WritesReadBack | src/inventory.rs:124-142 | on a disk that reads nothing is ever set aside, and after one safe write the path reads as a write from then on |
| StateFile.KeptExactly | src/inventory.rs:145-153 | a step keeps bytes that did not parse if and only if it is not one of the two losing starts |
| StateFile.UnreadableKept | src/inventory.rs:124-153 | over any run without those, the bytes stay, at the path or set aside, whatever crashes |
| StateFile.StuckFileDestroyed | src/inventory.rs:145-153 | a file that could not be moved is destroyed by the next successful write |
| StateFile.Disk.constructor | src/inventory.rs:81-107 | the disk as found |
| StateFile.Disk.WriteAtomic | src/inventory.rs:81-107 | the calls in order up to the one that fails; success unless one before the directory sync fails |
| StateFile.Disk.LoadState | src/inventory.rs:124-153 | never fails: a value exactly when the bytes are there, read, not blank and parse; what does not is moved |
| StateFile.WriteIsRun | src/inventory.rs:81-107 | an uninterrupted write is a run of the steps, and makes itself safe when all calls succeed |
| StateFile.WriteSucceeds | src/inventory.rs:81-107 | after a write that succeeds a reader finds the bytes, and with the directory synced no crash shows anything else; without it a crash shows them or what was before |
| StateFile.WriteFails | src/inventory.rs:81-107 | after a write that fails a reader finds what was there before, and so after any crash |
| StateFile.SetsAsideExactly | src/inventory.rs:118-142 | a file is set aside if and only if it is there and cannot be read, or does not parse and holds a byte that is neither NUL nor white space |
| FormatUnit.SetLength | src/format.rs:247-275 | MODE SENSE, then the length in each form until one is accepted, the long one first exactly for a drive that gave a long descriptor; refused exactly if none was accepted and one was answered ILLEGAL REQUEST |
| FormatUnit.Begin | src/format.rs:278-296 | length, then FORMAT UNIT, a blocking one only without protection after ILLEGAL REQUEST |
| FormatUnit.SelectingMeans | src/format.rs:247-275 | what those commands make of the drive's length, and that no format began |
| FormatUnit.StartExact | src/format.rs:301-314 | the outcome from the answers alone: running if and only if the attempt ends in a good FORMAT UNIT, refused if and only if in one answered ILLEGAL REQUEST or with no form of the length accepted and one answered so, failed otherwise; after a refusal, and only then, the old length is asked for again; what really began in each case |
| AtaErase.PlannedExactly | src/erase.rs:309-331 | exactly when an erase goes ahead, whether it sets a password, whether it is enhanced, and whose estimate it waits for |
| AtaErase.TimeoutOutlastsEstimate | src/erase.rs:351-357 | the wait in full, and that it exceeds the estimate by 30 minutes if and only if the estimate is at most 2850 minutes |
| AtaErase.Drive.Identify | src/erase.rs:473-478 | a drive reports whether a password is set, or cannot be read |
| AtaErase.AtaSecurityErase | src/erase.rs:483-512 | done if and only if every command was good and security reads off and unlocked, no password left exactly if none was sent or DISABLE PASSWORD was good; done means security off and data erased also on a drive that lied; and every such run is a run of the job below with the same commands and end |
| AtaErase.ReadOffIsErased | src/erase.rs:507-511 | a job that reads security off after the erase has a drive without password and data, even one that may have lied about the erase; with a password on it the job fails and keeps its record |
| AtaErase.LyingEraseFound | src/erase.rs:507-511 | the run in which everything is answered good and nothing is erased ends as a failure with the password on record |
| AtaErase.StepKeeps | src/worker.rs:1279-1316 | a step of a job keeps the drive's password on record if and only if it is not a start whose new password could not be saved |
| AtaErase.ForgottenExactly | src/worker.rs:1305-1316 | the password goes from the record if and only if the run read security off and unlocked, had DISABLE PASSWORD answered good, or never opened the drive to set one |
| AtaErase.PasswordNeverLost | src/worker.rs:1279-1316 | over any series of runs cut short anywhere, the password on the drive is the one in the job file, if that could be written |
| AtaErase.UnsavedPasswordLost | src/worker.rs:723-739 | when it could not, a run after which the job refuses its own password |
| AtaErase.ForeignNeverTouched | src/erase.rs:321-323 | a password of somebody else and the data under it are never touched |
| Buffers.BeRoundTrip | src/iomfw.rs:44-51 | a number that fits its width reads back from its big-endian bytes |
| IomPages.PageReads | src/iomfw.rs:39-54 | a page parses back to what it was made of if and only if its padded chunk leaves the length in 16 bits |
| IomPages.ChunkFits | src/iomfw.rs:146-148 | the chunk length used always does, in whole words, padded to the next |
| IomPages.ChunkLenLargest | src/iomfw.rs:146-148 | and is the largest number of whole words within what was configured and what a page holds |
| IomPages.PageZeros | src/iomfw.rs:39-54 | what is reserved in a page is zero, and so is its padding |
| IomPages.PagesAssemble | src/iomfw.rs:271-290 | an enclosure taking the pages in order has exactly the image |
| IomPages.ControlPage | src/iomfw.rs:39-54 | filling the buffer in place yields the page |
| IomPages.SendImage | src/iomfw.rs:271-290 | what was sent is a beginning of the pages, all of them exactly if every page was taken and no status before the last said failed, and then they are the image |
| IomRoll.TurnKept | src/iomfw.rs:407-486 | every step keeps one IOM at a time, in order |
| IomRoll.OneAtATime | src/iomfw.rs:407-486 | over every run: earlier IOMs done, at most one under way, later ones untouched, and never touched after a failure |
| IomRoll.FailureStops | src/iomfw.rs:459-473 | over every run: once an update failed or the paths did not come back it is over, that IOM is failed, those before it done, those after it skipped, and none is ever taken again |
| IomRoll.AllDoneExactly | src/iomfw.rs:403-486 | a run that is over has all IOMs done if and only if nothing in it failed |
| IomRoll.WholeKept | src/iomfw.rs:423-443 | every step keeps that only the IOM under way may be missing, if the counts are right when believed |
| IomRoll.WholeExactly | src/iomfw.rs:423-443 | a step keeps it if and only if every count is a full one when an IOM is taken, and every path is up when the next may follow |
| IomRoll.WholeRunExactly | src/iomfw.rs:403-486 | and a run keeps it throughout if and only if each of its steps is like that |
| IomRoll.PathAlwaysLive | src/iomfw.rs:348-486 | a drive with paths through two IOMs always has a live one in such runs |
| IomRoll.CutOffExactly | src/iomfw.rs:152-168 | while one IOM restarts a drive is cut off if and only if it has no path through another |
| IomRoll.Roll | src/iomfw.rs:403-486 | the loop is always a possible run to the end, with all IOMs done if and only if none of its steps failed, and gives up on the paths only after the whole wait |
| IomRoll.PathLossBlocker | src/iomfw.rs:152-168 | names exactly the serving drives with fewer than two paths or IOMs; none if and only if there are two IOMs and every such drive has two paths |
| IomRoll.TwoPathsOneIom | src/iomfw.rs:152-168 | a drive the check lets through and the restart cuts off |
| IomRoll.StaleCountsCutOff | src/iomfw.rs:423-443 | a run in which old counts let both IOMs be away |
| Firmware.ChunkLenLeast | src/firmware.rs:172-178 | the least multiple of the boundary not under the size asked for and 512 |
| Firmware.CdbCarries | src/scsi.rs:483-487 | the command block, byte by byte: it holds offset and length only modulo 2^24 |
| Firmware.FitsBySize | src/firmware.rs:223-249 | for a chunk that divides 16 MiB the condition of the next row is a size of at most 16 MiB, and below it for a chunk of that size |
| Firmware.WritesAreImage | src/firmware.rs:228-249 | all chunks, accepted under one mode, are the image on the drive if and only if the last of them starts below 2^24 and is shorter than that, whether the drive takes them in order or puts each at its offset |
| Firmware.FirstChunk | src/firmware.rs:236-247 | the first chunk settles the mode, resent under 0x07 exactly when 0x0E is answered ILLEGAL REQUEST |
| Firmware.OtherChunks | src/firmware.rs:233-252 | the rest follow under that mode, up to the first failure; success exactly if there is none |
| Firmware.RunScsi | src/firmware.rs:228-255 | success if and only if every chunk, after the one mode change, and the activation where there is one were sent and answered good; never activated over less |
| Firmware.ScsiTransfersImage | src/firmware.rs:228-255 | so a successful run leaves exactly the image on the drive if and only if its last chunk starts below 2^24 and is shorter than that |
| Firmware.LargeImageWraps | src/scsi.rs:483-487 | the successful run of an image of up to 32 KiB more than 16 MiB, which leaves its end over its beginning |
| Firmware.WholeChunkSaysNothing | src/scsi.rs:499 | a boundary of 2^24 makes the first chunk go out with length 0 |
| Firmware.DownloadsAreImage | src/firmware.rs:270-290 | the NVMe downloads leave the image with under four pad bytes at its end |
| Firmware.RunNvme | src/firmware.rs:270-290 | what was accepted is a beginning of them; success if and only if all were answered good |
| EventRing.EventLog.constructor | src/events.rs:56-64 | an empty log counting from 1 |
| EventRing.EventLog.Restore | src/events.rs:78-89 | the kept end of a saved log, and the next number |
| EventRing.EventLog.Push | src/events.rs:109-135 | one event more, the oldest out at capacity |
| EventRing.EventLog.SinceSeq | src/events.rs:138-140 | exactly the kept events after a number, as the end of the ring |
| EventRing.EventLog.TakeSnapshot | src/events.rs:91-95 | the newest events and the next number |
| EventRing.PushedValid | src/events.rs:109-135 | numbers in the ring stay contiguous up to the last given out |
| EventRing.RestoredExactly | src/events.rs:78-89 | a file restores to a valid log if and only if its kept events run on to the number given next |
| EventRing.RestartContinues | src/events.rs:78-95 | restoring a snapshot continues the numbers with the kept tail |
| EventRing.NoCapacityNoBound | src/events.rs:118-120 | with capacity 0 the ring keeps everything |
| EventRing.PollGives | src/events.rs:138-140 | a poll gives all that is left exactly when the client is in reach of the ring |
| EventRing.StartFaithful | src/events.rs:56-64 | a new log and a new client start where the next row begins |
| EventRing.EachEventOnce | src/events.rs:78-140 | over pushes, saves, polls and restarts from a current file, a client in reach is given each event once, in order |
| EventRing.StaleRestartHides | src/events.rs:78-89 | after a restart a client up to date sees the next event if and only if nothing was logged since the file was written |
| Damper.Damper.constructor | src/monitor.rs:151-154 | nothing pending |
| Damper.Damper.Apply | src/monitor.rs:157-180 | one drive's step; every other drive's pending count untouched |
| Damper.EachDriveByItself | src/monitor.rs:151-180 | over mixed samples each drive's status is what its own candidates alone make it |
| Damper.WorseExactly | src/monitor.rs:164-179 | a status worsens if and only if the last `hysteresis` candidates were all the new one; otherwise it stays, and improvement is immediate |
| Damper.EnoughIsTaken | src/monitor.rs:174-176 | after that many equal candidates the status is that candidate |
| Damper.WorseNeedsRow | src/monitor.rs:157-180 | over any run a status worse than the first one needs that many equal candidates in a row, at least as bad as it is |
| Damper.FirstGoodWaits | src/drive.rs:396-404 | an unknown drive becomes good only after that many good samples |
| HealthVerdict.EvaluateAcked | src/monitor.rs:30-135 | the checks in order come to the worst of what counts |
| HealthVerdict.WorstDecides | src/monitor.rs:30-135 | by field and limit: failed if and only if unusable or read-only, failing or worse if and only if also predicted, degraded, spare low, or spare or wear past its critical limit |
| HealthVerdict.OneReading | src/monitor.rs:30-135 | of a good drive, what each single reading makes of the verdict |
| HealthVerdict.OneSmartReading | src/monitor.rs:48-84 | the same of what the drive says of itself and what was acknowledged of it |
| HealthVerdict.OneCounter | src/monitor.rs:74-84 | a counter warns if and only if it is one of nine names, was acknowledged, and is above that |
| HealthVerdict.Growth | src/monitor.rs:74-84 | whether any watched counter is past what was acknowledged |
| HealthVerdict.AckNeverTouchesFailing | src/monitor.rs:30-135 | an acknowledgement never changes a verdict of failing or worse, nor makes one |
| HealthVerdict.AckSilencesExactly | src/monitor.rs:64-84 | exactly which warnings it takes back |
| InventoryMerge.GroupObserved | src/monitor.rs:603-617 | groups by drive, sorted by path, in the order of their first paths |
| InventoryMerge.GroupingOrderFree | src/monitor.rs:603-617 | the grouping does not depend on the order of the input |
| InventoryMerge.OneGroupEach | src/monitor.rs:603-617 | each observation is in one group, whose primary path is the least |
| InventoryMerge.ReplacedInBay | src/monitor.rs:972-984 | a missing, not yet replaced drive of that bay, the last seen; none exactly if there is none |
| InventoryMerge.Inventory.constructor | src/monitor.rs:771-773 | an inventory starts empty |
| InventoryMerge.Inventory.MergeObserved | src/monitor.rs:771-965 | one pass, group by group: a known drive updated, a new one entered with the drive it replaces at that moment, at the end the rest marked missing |
| InventoryMerge.NewcomerReplaces | src/monitor.rs:858-950 | the first new drive of a bay stands in for the last seen of the drives missing from it, replaced by nobody and not yet seen by the pass, and for nobody exactly if there is none |
| InventoryMerge.PathOrderDecides | src/monitor.rs:777-951 | whether it stands in for a drive the same pass finds in another bay depends on their paths |
| InventoryMerge.StandsInItsOwnBay | src/monitor.rs:972-984 | a newcomer never stands in for a drive missing from another bay, or from the same bay number of a shelf with another key |
| InventoryMerge.NoneLostMissingExactly | src/monitor.rs:952-962 | a pass loses no drive, and one is missing exactly when no group is of it |
| InventoryMerge.MissingExactlyUnobserved | src/monitor.rs:771-962 | after a pass the inventory holds what it held and what was observed, and a drive is missing exactly when no observation was of it |
| InventoryMerge.ObservedDrive | src/monitor.rs:781-857 | a drive observed has exactly the paths it was observed at, in order, the location of the first refreshed from what was known, is not missing and was seen now |
| InventoryMerge.UnobservedDrive | src/monitor.rs:952-962 | and one not observed is as it was, but missing |
| InventoryMerge.StandInsSound | src/monitor.rs:972-984 | after any number of passes, and removals of drives nobody stands in for, no two drives replace the same one and an age order goes down along replacements |
| InventoryMerge.RemovalSoundExactly | src/api/mod.rs:625-643 | a removal keeps that if and only if no other drive stands in for the one removed |
| InventoryMerge.NoCycle | src/monitor.rs:972-984 | over such runs no chain of replacements comes back |
| InventoryMerge.ForgettingMakesCycle | src/api/mod.rs:625-643 | after four passes from an empty inventory, a drive forgotten that another stands in for, and a fifth, one can |
| InventoryMerge.LocationKept | src/monitor.rs:790-806 | on the same paths and shelf a pass keeps the key and loses no field, but for a keyless shelf not found |
| DriveLocation.KeySurvives | src/drive.rs:139-144 | the merged shelf has the key both had, whichever fields it came from |
| DriveLocation.KeyIs | src/drive.rs:139-144 | a shelf's key is its logical id, else its serial, else its sysfs id |
| DriveLocation.SameBayExactly | src/drive.rs:267-273 | two places are one bay if and only if number and shelf key agree, or neither has a number and the slots agree |
| DriveLocation.RefreshedExactly | src/drive.rs:234-263 | what a refresh keeps, takes and, in one case, loses |
| DriveLocation.RefreshMovesExactly | src/drive.rs:279-281 | a refresh moves a drive if and only if something was read that differs |
| DriveLocation.RefreshTwice | src/drive.rs:234-263 | refreshing twice with the same reading changes nothing more |
| RaidShelves.Read | src/megaraid.rs:225-283 | every listed disk is on exactly one shelf, with its slot or among the unmatched, and nothing else is |
| RaidShelves.ShowsInItsEnclosure | src/megaraid.rs:246-256 | a disk in an enclosure shows on that shelf only, in its slot or, for slot 255, among the unmatched |
| RaidShelves.JoinsOnlyTheOnlyOne | src/megaraid.rs:246-256 | a disk in no enclosure shows on an enclosure's shelf if and only if the controller lists exactly one, and then on that one, named as in none; else on the shelf of no enclosure |
| RaidShelves.DeviceIdTells | src/megaraid.rs:141-143 | addresses with targets under 128 on the first two channels are told apart, a target of 128 is not |
| RaidShelves.IntoTable | src/megaraid.rs:295-297 | with distinct keys the table holds every report |
| RaidShelves.Place | src/megaraid.rs:149-166 | the shelf and bay that name the device, else the only shelf, else none |
| RaidShelves.PlacedWhereItBelongs | src/megaraid.rs:149-166 | what is found for a listed disk is its shelf and its slot |
| RaidShelves.DiskIsFound | src/megaraid.rs:149-166 | and something is always found |
| RaidShelves.Lookup | src/megaraid.rs:149-283 | list, shelves, table and address together give the disk's shelf and bay |

## Left out

- The kernel, HTTP and kube plumbing, the apiserver, metrics, rendering and access decisions: devices and the storage engine are environments that answer as they like.
- JSON: a record is one text without a newline, and a fragment followed by anything does not parse.
- Message texts, event contents beyond their numbers, and logging.
- Years past 9999, beyond the lemma that their names stop sorting.
- HistoryLog.LogDir.Prune: a file that cannot be removed is not modelled; the source only logs it.
- ChangeDetector.Findings: the findings are a map by counter, so their order in the list is not modelled.
- ChangeDetector.History.Observe: identity and temperature are carried along unexamined; what makes a record due is modelled in full.
- The summary and operator log of the history (`Summary::add`, `History::log`): sums over entries, nothing harder than the log under them.
- Gpt.Layout: GUID randomness and the check that the kernel re-reads the table are outside; names come in as UTF-16 units, so lossy decoding of lone surrogates is not modelled.
- Drain.RetiredOnlyWhenEmpty: the counters and error texts of a drain record are not modelled, and a forced removal by an operator may strand legs, which `forced` records.
- Drain.CoherentExactly: the worker's enrol step (src/worker.rs:1336-1358), which writes the same fields as a join, is not a task of its own here.
- Drain.IntentKept: health and designation decide when a drain is asked for; here anybody may ask at any time.
- DrainDaemon.TickFalls: an engine that forgets or refuses makes no progress and has no bound; only the safety and intent results cover it.
- The fault LED reconciler, labels, overcommit and thermal pushes: retried writes of computed values.
- StateFile.NeverTorn: directory changes reach the disk in the order they were made and a rename is one change; a file system that reorders them is not modelled.
- StateFile.Disk.LoadState: the note's text and the event made of it are left out.
- FormatUnit.StartExact: parameter list bytes, polling, progress and the verification after the format are left out.
- AtaErase.AtaSecurityErase: a drive that answers DISABLE PASSWORD good without doing it is left out, as the code believes that answer; the pass-through frames and the wait itself are left out; NVMe and SCSI sanitize are not modelled.
- IomRoll.PathAlwaysLive: an IOM is away only between the start of its update and its completion; failures of IOMs not being updated are not modelled.
- IomRoll.Roll: the wait for paths is counted in looks at the inventory, not in minutes.
- IomPages.SendImage: the status page and its phases after the last chunk are reduced to success or failure.
- Firmware.ScsiTransfersImage: of an image whose last chunk starts at 16 MiB or later a successful run does not promise that it is on the drive, because it is not.
- Firmware.RunScsi: waiting for the drive and reading its revision after activation are left out, and so is image verification by SHA-256.
- Firmware.ChunkLenLeast: 32-bit overflow of a size near 4 GiB is not modelled.
- EventRing.EachEventOnce: severities, drives and times of events are left out, and numbers do not wrap.
- HealthVerdict.EvaluateAcked: reasons are left out, temperatures are whole degrees against limits resolved elsewhere.
- InventoryMerge.Inventory.MergeObserved: fields copied from the primary observation are left out but for paths, location, activity, replacement and last sight; paths are numbers in their sort order.
- DriveLocation.RefreshMovesExactly: a bay key is a structured value, so keys whose text would coincide are not modelled, and a controller stands for its host label.
- RaidShelves.Read: enclosure vendor and model, per-slot address lists and an unreadable controller's empty shelf are left out.
- SMBIOS parsing, drive tests, thermal limits, placement, wildcard matching and configuration checks: apart from this model.
