# Verified models of the UGREEN NAS drivers

A Dafny model of the stateful parts of these Linux drivers, one module for each part, with
proofs of what their protocols keep. Each module has two layers:

- **The code as it stands.** Where the source updates state in place, there is a class with
  the same fields and methods, with the same branches, loops and return codes. Each method is
  proved equal to a function of the old state.
- **What the code is for.** Lemmas about those functions: whole runs of a driver against a
  device that moves on its own, all interleavings of several threads, and agreement with a
  simpler driver or a description that shares nothing with the code: bytes at addresses,
  lengths in ticks, the accesses of a command one by one.

Devices, clocks, the kernel and the network stack are inputs. A *schedule*, an *oracle* or a
stream of reads is a function from the number of an access to what happens there, and every
theorem holds for all such functions. `dafny verify dfyconfig.toml` checks the project.

| module | what it models |
|---|---|
| `Words` | machine words, `Option` |
| `EcHandshake` | the polled IBF/OBF handshake with the embedded controller, and the controller itself after section 12.3 of the ACPI specification |
| `SmnWindow` | the address/data window to the SMN space, with many threads |
| `SmuCommand` | one SMU mailbox command: two polling loops over one 32-bit budget |
| `SmuCallers` | many callers of that command |
| `SmuOverWindow` | both mutexes at once: every access of a command as a whole window call |
| `BaseAddress` | the commands that fetch the PM table's base, and where their words come from |
| `PmTable` | the PM-table read, its cached geometry, and its buffer from probe to every show |
| `ImaWindow` | the six port accesses that reach one byte of the LED controller |
| `Led201x` | the LED driver that skips writes, against one that never does |
| `Led28a48` | the LED driver over a link that loses frames |
| `PrioQueue` | the priority queue |
| `ChipWorker` | submitters, the ordered worker, completions and reference counts |
| `NetdevTrigger` | the network LED trigger's device references and link flag |
| `FanControl` | the fan-control loop |
| `ButtonMonitor` | the button state machine |

Some properties one would expect of this code do not hold of it. For each of those there is
an exact condition and a case that fails. Where the outcome depends on what a device is still
to answer, the condition is on those answers; elsewhere a caller could check it beforehand:

- A read of the embedded controller that gives up waiting for its answer leaves the answer
  behind, and the next read may return it (`ReadsExactWhen`), and the next that one's, without
  end (`ReadsStayShifted`, from an idle start). A read sets things right again exactly if the
  controller makes two steps before the host collects (`OwingRead`).
- The SMU timeout tests look for a budget of 0, but `retries--` leaves 2^32 - 1 when a loop
  runs dry. The comments above those tests describe a timeout; the code goes on and reports
  success. The model follows the code (`TimeoutNeverReported`, `CodeMeetsIntention`).
- A PM-table read whose DRAM base comes back as 1 returns that 1 as the code OK without
  filling the buffer (`OkFills`). A probe that meets it publishes the attribute before the
  table's size is known, so that a later show may overrun the buffer (`ShowsFitWhen`) or, on a
  chip with two tables, copy from a window that was never mapped (`NoShowFaultsWhen`).
- A mailbox command returns OK although the SMU was silent or refused it (`OkWhen`), so the
  base of the PM table may be made of registers nobody answered for, the driver's own
  arguments among them (`RefusalMapped`), or of a failing code of at least 0xFF
  (`FailureMapped`); `MappedBaseIs` says when it is made of what the SMU returned.
- A show copies a table of more than 4096 bytes to a sysfs page of 4096 (`PagesFitWhen`).
- The 201x driver compares 64-bit times with 32-bit caches, so a blinking request may look
  like the one before it while it is not (`ElisionInvisible`; as a bound, `ElisionBound`: safe
  below 2^32, sign extension of the cached value included).
- The 28a48 driver caches 32 bits of a time and sends 16 (`CacheAgrees`). Its colour 8, the
  yellow that the fan script asks for (root/usr/local/sbin/fancontrol.sh:105), is masked to 0
  and shows the row before the colour table, or nothing new (`ColorShownWhen`).
- A tracked network device that is unregistered stays held if it was renamed meanwhile, or is
  a bridge port, a VLAN or outside the initial name space by then (`UnregisterReleases`;
  `GoneButHeld` has such runs).
- The fan stays at 0 if the first temperature reading is in (-4, 0] (`NeverSlower`).
- The hysteresis compares with the last reading only and guards falling temperatures only: a
  slow fall never slows the fan, and a rise may (`HoldsWhen`, `SlowsWhen`; `SlowedByRise` is
  such a rise).
- A press of the reset key that lasts exactly 260 ticks, or of the power key that lasts fewer
  than 100 on machines other than the DXP2800 GT, is reported without its end (`PairedWhen`).

## Model

| member | source | states |
|---|---|---|
| EcHandshake.SendAccepted | ugreen/it55_helper.c:52-77 | a byte is written only into an empty input buffer, so whatever the controller is still doing ends as if it had drained before the byte came; a timed-out send changes nothing; at most 5 polls |
| EcHandshake.OpenAccepted | ugreen/it55_helper.c:94-123 | once both opening bytes are accepted the controller sits on the address, whatever phase an earlier transaction was abandoned in, and the memory is the drained one |
| EcHandshake.WriteLinearizes | ugreen/it55_helper.c:110-123 | a write takes effect on the atomic byte map if and only if it returns 0; one that times out anywhere has no effect, now or later; at most 15 polls |
| EcHandshake.ReadLinearizes | ugreen/it55_helper.c:94-107 | a read never changes the map; it returns the byte at its address or else the answer an earlier read left; without such an answer it is exact, and leaves one behind if and only if it gives up in its own data wait; at most 15 polls |
| EcHandshake.WriteOkWhen | ugreen/it55_helper.c:14-30 | for every start, address, value and schedule a write returns 0 if and only if in each of its three waits one of the five polls finds the input buffer empty, and then 0x81, the address and the value have gone out |
| EcHandshake.ReadOkWhen | ugreen/it55_helper.c:14-49 | a read returns 0 if and only if in each of its two input waits one of the five polls finds the input buffer empty and one of the five after them finds the output buffer full; then 0x80 and the address have gone out |
| EcHandshake.PromptSucceeds | ugreen/it55_helper.c:94-123 | with a controller that makes two steps before each access every write of every value returns 0 and stores it, and every read returns 0 and the byte at its address, even if an answer was owed |
| EcHandshake.RunIsAtomic | ugreen/it55_helper.c:94-123 | over every schedule of the controller and every sequence of transactions in which no read gives up in its data wait, driver and controller together are one atomic byte map on which timed-out operations do not act |
| EcHandshake.RunLossless | ugreen/it55_helper.c:14-91 | in every run the bytes the controller took, followed by the one in the buffer, are the bytes sent: none overwritten, lost or reordered |
| EcHandshake.OwingRead | ugreen/it55_helper.c:33-107 | with an uncollected answer a read never waits in vain: if the controller makes two steps between the address and the collection it is exact and nothing is owed any more, otherwise it returns the old answer and its own is owed |
| EcHandshake.StaleRead | ugreen/it55_helper.c:33-49 | so on a schedule that works in bursts the next read, of any address, returns the old answer and leaves its own |
| EcHandshake.BurstGivesUp | ugreen/it55_helper.c:33-49 | from any state without one, a read on such a schedule gives up in its data wait and leaves its byte behind |
| EcHandshake.ReadsStayShifted | ugreen/it55_helper.c:80-107 | from an idle start there is a schedule on which one read times out and every later one, of any addresses and however many, returns the byte of the read before it |
| EcHandshake.WritesKeepOwed | ugreen/it55_helper.c:110-123 | writes neither collect nor change an uncollected answer |
| EcHandshake.ReadsExactWhen | ugreen/it55_helper.c:80-107 | reads are exact on every schedule if and only if no answer is left behind or every cell holds that byte anyway |
| EcHandshake.Helper.ReadStatus | ugreen/it55_helper.c:8-11 | the two flags tell whether the buffers are full, after whatever steps the controller made |
| EcHandshake.Helper.WaitCommandReady | ugreen/it55_helper.c:14-30 | the loop with its countdown is the bounded wait for an empty input buffer, 0 or -ETIMEDOUT |
| EcHandshake.Helper.WaitDataReady | ugreen/it55_helper.c:33-49 | the loop with its countdown is the bounded wait for a full output buffer, 0 or -ETIMEDOUT |
| EcHandshake.Helper.SendByte | ugreen/it55_helper.c:52-77 | command and data bytes go out by the same send that `SendAccepted` is about |
| EcHandshake.Helper.ReceiveData | ugreen/it55_helper.c:80-91 | the answer is collected only after the wait succeeded |
| EcHandshake.Helper.EcReadMemory | ugreen/it55_helper.c:94-107 | is the read transaction of the lemmas, early returns included |
| EcHandshake.Helper.EcWriteMemory | ugreen/it55_helper.c:110-123 | is the write transaction of the lemmas, early returns included |
| SmnWindow.InvHolds | ugreen/ryzen-smu-amkillam/smu.c:76-96 | in every reachable state exactly the lock holder is inside, the address register is its own at its data access, and accesses and calls match one to one |
| SmnWindow.Linearizable | ugreen/ryzen-smu-amkillam/smu.c:76-96 | any number of threads, any interleaving, device writes included: each successful call acts exactly once, between its call and its return, on an atomic map that gives every value read; a failed call acts never |
| SmnWindow.RealTimeOrder | ugreen/ryzen-smu-amkillam/smu.c:76-96 | a call that returned before another was made takes effect before it |
| SmnWindow.ReturnsInOrder | ugreen/ryzen-smu-amkillam/smu.c:76-96 | successful calls return in the order in which they acted |
| SmnWindow.LockReleased | ugreen/ryzen-smu-amkillam/smu.c:93-95 | no return path, failed or not, keeps the lock |
| SmnWindow.DoneWhen | ugreen/ryzen-smu-amkillam/smu.c:82-95 | a call that returns succeeded if and only if both its PCI accesses did, and was over in four steps of its own |
| SmnWindow.NotStuck | ugreen/ryzen-smu-amkillam/smu.c:76-96 | while some call is open some thread can go on with its own |
| SmnWindow.Window.SmuSmnRwAddress | ugreen/ryzen-smu-amkillam/smu.c:76-96 | one caller: an error if and only if a PCI access fails, the addressed register alone written, and only on success |
| SmuCommand.PollLoopSilent | ugreen/ryzen-smu-amkillam/smu.c:157-166 | a wait that only ever reads 0 makes budget + 1 reads and leaves the budget at 2^32 - 1 |
| SmuCommand.PollLoopAnswered | ugreen/ryzen-smu-amkillam/smu.c:157-166 | a wait answered by the j-th read stops there, with the budget reduced by the zeros before it |
| SmuCommand.SilentOrAnswered | ugreen/ryzen-smu-amkillam/smu.c:188-196 | every stream of reads is one or the other |
| SmuCommand.OutcomeAfterAnswer | ugreen/ryzen-smu-amkillam/smu.c:157-232 | the exact result when the mailbox frees up in the first wait: silence and early errors count as success, an error is returned only from the last budgeted read; at most attempts + 2 reads |
| SmuCommand.OutcomeAfterSilence | ugreen/ryzen-smu-amkillam/smu.c:157-216 | after a silent first wait the command is issued all the same, and its own wait has 2^32 reads |
| SmuCommand.TimeoutNeverReported | ugreen/ryzen-smu-amkillam/smu.c:168-216 | the timeout code is returned only if the SMU itself answered with that word |
| SmuCommand.IntendedContract | ugreen/ryzen-smu-amkillam/smu.c:157-216 | with the tests the comments describe: a timeout if a wait stays silent, a PCI failure if a wait ends in a failed read, and otherwise the answer of the second wait as it came |
| SmuCommand.IntendedOk | ugreen/ryzen-smu-amkillam/smu.c:157-232 | intended success means exactly that both waits were answered and the second with OK |
| SmuCommand.CodeMeetsIntention | ugreen/ryzen-smu-amkillam/smu.c:157-216 | the code returns what was intended if and only if the waits are answered, and the second with OK, by a failed read or on the last budgeted read |
| SmuCommand.OkWhen | ugreen/ryzen-smu-amkillam/smu.c:157-232 | the code returns OK if and only if both waits were answered and the second with OK, or falsely, and says exactly when that is: a silent first wait with any but a failed or late second one, or an answered first wait with a second that is silent or refused before the last budgeted read |
| SmuCommand.RefusalIsOk | ugreen/ryzen-smu-amkillam/smu.c:188-232 | a command that the SMU refuses at the first look returns OK |
| SmuCommand.AccessAt | ugreen/ryzen-smu-amkillam/smu.c:157-223 | access by access: polls; RSP cleared, the six arguments in order, the command word, polls; the six arguments read in order |
| SmuCommand.UpdatedAt | ugreen/ryzen-smu-amkillam/smu.c:218-223 | each argument is what its register read back as, or stays where the read failed |
| SmuCommand.Smu.WaitRsp | ugreen/ryzen-smu-amkillam/smu.c:157-166 | the do-while loop is the polling loop of the lemmas, one SMN access for each read |
| SmuCommand.Smu.IssueCommand | ugreen/ryzen-smu-amkillam/smu.c:178-186 | RSP is cleared, then the arguments are written in order, then the command |
| SmuCommand.Smu.Exchange | ugreen/ryzen-smu-amkillam/smu.c:178-225 | issue, wait on what is left of the budget, judge, and read the arguments back on success only |
| SmuCommand.Smu.ReadBackArgs | ugreen/ryzen-smu-amkillam/smu.c:218-223 | each argument is replaced by what its register reads, and kept where the read fails |
| SmuCommand.Smu.SendCommand | ugreen/ryzen-smu-amkillam/smu.c:119-233 | result, argument block and the whole list of SMN accesses on every path; an undefined mailbox is refused untouched; the mutex is free again |
| SmuCallers.CourseKept | ugreen/ryzen-smu-amkillam/smu.c:155-225 | step by step, a call under way is where it would be alone on the same RSP reads |
| SmuCallers.BlockGrows | ugreen/ryzen-smu-amkillam/smu.c:155-225 | each access is the next one of the list the call would make alone |
| SmuCallers.NeverInterleave | ugreen/ryzen-smu-amkillam/smu.c:155-225 | under any scheduling no access of one command falls between two of another |
| SmuCallers.AsIfAlone | ugreen/ryzen-smu-amkillam/smu.c:155-225 | every finished call made exactly its own accesses, in order, and returned what it would have returned alone |
| SmuCallers.MutexFree | ugreen/ryzen-smu-amkillam/smu.c:155-225 | a caller that is not in a command does not hold the mutex |
| SmuCallers.CourseIsBounded | ugreen/ryzen-smu-amkillam/smu.c:155-225 | a call under way still has accesses to make of those it would make alone, so it ends |
| SmuCallers.NotStuck | ugreen/ryzen-smu-amkillam/smu.c:155-225 | while some call is open some thread can go on with its own |
| SmuOverWindow.RequestIs | ugreen/ryzen-smu-amkillam/smu.c:178-223 | RSP is read and cleared at its address, argument i written and read at the argument address plus 4i, and the command written to its address |
| SmuOverWindow.RunOfWindow | ugreen/ryzen-smu-amkillam/smu.c:76-96 | every run of commands and bare users with both mutexes is a run of the window |
| SmuOverWindow.RunOfCallers | ugreen/ryzen-smu-amkillam/smu.c:70-225 | and a run of the callers, for every oracle that agrees with what the window returned |
| SmuOverWindow.MatchHolds | ugreen/ryzen-smu-amkillam/smu.c:76-225 | the accesses of commands are, one for one and in order, the returned window calls for their registers, and the k-th RSP read of a call is what its k-th polling window call returned |
| SmuOverWindow.CommandsOverWindow | ugreen/ryzen-smu-amkillam/smu.c:76-232 | every finished command did and returned what it would have done alone on the values its window calls returned |
| SmuOverWindow.CommandsContiguous | ugreen/ryzen-smu-amkillam/smu.c:76-225 | in the order in which accesses reach the SMN space no access of one command comes between two of another |
| BaseAddress.MadeOfWords | ugreen/ryzen-smu-amkillam/smu.c:703-756 | the base is the value of its words: the first failing code, or the arguments read back after the commands that carry them |
| BaseAddress.GenuineWhen | ugreen/ryzen-smu-amkillam/smu.c:703-756 | all its words were returned by the SMU if and only if the SMU answered every command with OK and the registers that hold the base could be read |
| BaseAddress.RefusedAnswers | ugreen/ryzen-smu-amkillam/smu.c:119-233 | a refused command gives OK and the arguments the driver itself wrote |
| BaseAddress.SendOne | ugreen/ryzen-smu-amkillam/smu.c:119-233 | the argument block is updated in place by one whole command, whose accesses carry the function number and the arguments given |
| BaseAddress.SmuGetDramBaseAddress | ugreen/ryzen-smu-amkillam/smu.c:650-756 | the base of the lemmas, and the accesses made: for each class its commands in order, each with its own of the function numbers and its own arguments, up to the first that fails |
| PmTable.SplitBase | ugreen/ryzen-smu-amkillam/smu.c:1034-1046 | the two halves put together are the 64-bit base that was fetched, and each half is the answer to its own request |
| PmTable.OkFills | ugreen/ryzen-smu-amkillam/smu.c:1201-1328 | an OK read filled the buffer, with the map size as length, unless the base was still to be fetched and came back as 1 |
| PmTable.FaultsWhen | ugreen/ryzen-smu-amkillam/smu.c:1293-1325 | one read uses a missing second window exactly when it gets to the copy and an earlier read mapped the first window only |
| PmTable.MappedNeverFaults | ugreen/ryzen-smu-amkillam/smu.c:1293-1325 | with all windows of the chip mapped, no show of any run faults |
| PmTable.HalfMappedFaults | ugreen/ryzen-smu-amkillam/smu.c:1293-1325 | two shows of which the first maps one window and the second faults |
| PmTable.NoShowFaultsWhen | ugreen/ryzen-smu-amkillam/drv.c:388-409 | over all shows after a probe none faults if and only if the base of the probing read did not come back as 1 or the chip has one table |
| PmTable.MappedBaseIs | ugreen/ryzen-smu-amkillam/smu.c:1210-1220 | over every published probe whose base did not come back as 1, the mapped base is made of the words of the fetch; they are all the SMU's if and only if it answered every base command with OK and the registers that hold the base could be read, and a code among them is the first failing one, at least 0xFF |
| PmTable.MappedAltIs | ugreen/ryzen-smu-amkillam/smu.c:1303-1314 | on a split chip the second window shows the second word of the fetch |
| PmTable.SessionShows | ugreen/ryzen-smu-amkillam/smu.c:1210-1328 | after such a probe and any run of shows, the windows are still those of the probe's words and the size is that of the chip's version: 0x608 + 0xA4 on a split chip |
| PmTable.PagesShow | ugreen/ryzen-smu-amkillam/smu.c:1317-1325 | so the table given out is, on a split chip whose base is made of two words, the 0x608 bytes at the first followed by the 0xA4 at the second, and on others the whole table at the base |
| PmTable.PublishedWhen | ugreen/ryzen-smu-amkillam/drv.c:364-409 | the table is published exactly if the mailbox works, transfer and version commands succeed, there is a buffer, and the first read comes to a size that fits, its refresh and its mappings; or if the base comes back as 1 |
| PmTable.FirstReadCode | ugreen/ryzen-smu-amkillam/smu.c:1201-1328 | the code of a first read on every path: the base if it is a return code, the version command's failure, 0xF9, 0xF8, the first transfer that fails, 0xF7, or OK |
| PmTable.ShowOutcome | ugreen/ryzen-smu-amkillam/smu.c:1275-1288 | a later show returns OK exactly if no refresh is due or its transfers succeed, and otherwise the first failing code |
| PmTable.FailureMapped | ugreen/ryzen-smu-amkillam/smu.c:1210-1220 | a probe whose base command fails with such a code, on the last budgeted read, publishes it as the base |
| PmTable.RefusalMapped | ugreen/ryzen-smu-amkillam/smu.c:1210-1220 | a probe whose base commands are all refused at once publishes the driver's own arguments as the base, with no command failing |
| PmTable.CoherentKept | ugreen/ryzen-smu-amkillam/smu.c:1201-1328 | every read keeps sizes, parts and windows consistent |
| PmTable.ProbePublishes | ugreen/ryzen-smu-amkillam/drv.c:378-409 | what probe publishes has a known size within the buffer and its windows mapped, unless the base came back as 1 |
| PmTable.KnownForever | ugreen/ryzen-smu-amkillam/drv.c:113-119 | once known the size never changes, whatever the hardware answers, and every show fits |
| PmTable.SmallChipFits | ugreen/ryzen-smu-amkillam/drv.c:113-119 | on a chip whose tables are all small enough every show fits even when the size was not known at probe |
| PmTable.OversizeShown | ugreen/ryzen-smu-amkillam/drv.c:113-119 | answers after which a table larger than the buffer is shown, on a chip that has one |
| PmTable.ShowsFitWhen | ugreen/ryzen-smu-amkillam/drv.c:388-409 | over all shows after a probe, what is written fits what was allocated if and only if the base of the probing read did not come back as 1 or the chip has no table larger than the buffer |
| PmTable.PagesFitWhen | ugreen/ryzen-smu-amkillam/drv.c:113-119 | over all shows after a probe what is copied to the page fits it if and only if the length that probe settled on is at most 4096 |
| PmTable.Reader.SmuReadPmTable | ugreen/ryzen-smu-amkillam/smu.c:1201-1328 | code, length, cache and every byte of the buffer on every path: the primary table, then the secondary, then the old contents |
| PmTable.Reader.FetchGeometry | ugreen/ryzen-smu-amkillam/smu.c:1210-1256 | the cached geometry after the fetch, and the code of every early return |
| PmTable.Reader.SettleGeometry | ugreen/ryzen-smu-amkillam/smu.c:1213-1252 | what is made of a fetched base: a return code, or sizes from the version |
| PmTable.Reader.UpdateSize | ugreen/ryzen-smu-amkillam/smu.c:1034-1046 | split chips get both sizes and a base divided into halves that make up the old one; others their table's size, or are refused |
| PmTable.Reader.MapOnce | ugreen/ryzen-smu-amkillam/smu.c:1293-1315 | windows are mapped once, the second only after the first |
| PmTable.Reader.CopyTable | ugreen/ryzen-smu-amkillam/smu.c:1317-1325 | the two copies are the whole table at the start of the buffer, and nothing else changes |
| PmTable.Reader.CopyFromIo | ugreen/ryzen-smu-amkillam/smu.c:1317-1325 | one copy replaces its stretch of the buffer by the bytes at the physical address |
| PmTable.TableBytes | ugreen/ryzen-smu-amkillam/smu.c:1317-1325 | byte by byte, the primary part at its window and the secondary after it at its own |
| PmTable.Driver.RyzenSmuProbe | ugreen/ryzen-smu-amkillam/drv.c:364-412 | the session after probe; the attribute is published only with a buffer of the full size |
| PmTable.Driver.PmTableShow | ugreen/ryzen-smu-amkillam/drv.c:113-119 | as long as the length fits the buffer, a show gives out the whole table, nothing if the read failed, and the previous table in the one case where OK fills nothing; a known size is kept |
| ImaWindow.BytesOfWord | ugreen/ug_201x.c:222-225 | the four address bytes put together are the address |
| ImaWindow.Host2EcOutb | ugreen/ug_201x.c:215-231 | whatever the ports held before, the six writes, to ports 1, 7, 6, 5, 4 and 8 of the window, change one byte of the controller: the low byte of the value, at the 32-bit address |
| ImaWindow.Host2EcInb | ugreen/ug_201x.c:234-248 | returns the byte at that address and changes none; the same five writes and a read of port 8 |
| ImaWindow.AddressByte | ugreen/ug_201x.c:218-225 | stepping is off and the window stands on the address |
| Led201x.InitAgrees | ugreen/leds-sio-201x.c:420-444 | after initialisation cache and device agree on every LED, whatever the device held |
| Led201x.InitShows | ugreen/leds-sio-201x.c:101-114 | after initialisation every LED is at light 255 with zero times, the first on and the others off |
| Led201x.WriteIsAsked | ugreen/leds-sio-201x.c:138-411 | what the driver that never skips writes for each request, as bytes at addresses: the modes, the least times of each trigger, the sum cut to 64 bits, and the colours of each number |
| Led201x.RepeatsWhen | ugreen/leds-sio-201x.c:245-254 | the driver takes a pattern for a repetition exactly if it looks like the last one asked of the LED through a 32-bit cache |
| Led201x.PatternAgrees | ugreen/leds-sio-201x.c:240-284 | a blink or breath request that does not merely look like the last one keeps agreement and acts as if written out |
| Led201x.PerformAgrees | ugreen/leds-sio-201x.c:138-369 | every request that is not mistaken for a repetition keeps cache and device in agreement and has the effect of the write that may have been skipped |
| Led201x.MistakeShows | ugreen/leds-sio-201x.c:245-254 | one that is mistaken leaves the device as it was, with the wrong period or duty |
| Led201x.RunAgrees | ugreen/leds-sio-201x.c:138-444 | so does every sequence of such requests from initialisation; off and on go with zero period and duty, blink and breath with the last pattern, of which the cache has the low 32 bits |
| Led201x.AliasSkipped | ugreen/leds-sio-201x.c:245-254 | two requests 2^32 apart of which the second is mistaken |
| Led201x.ElisionInvisible | ugreen/leds-sio-201x.c:138-444 | for every sequence of requests from initialisation, the device equals that of a driver that never skips, at every moment, if and only if no request looks through the cache like the last pattern of its LED while having another period or duty byte |
| Led201x.ElisionBound | ugreen/leds-sio-201x.c:240-344 | as a bound on all requests, that is guaranteed exactly while on + off stays below 2^32 |
| Led201x.Isolated | ugreen/ug_201x.c:377-407 | a request to one LED changes no register and no cache of another |
| Led201x.Leds.ArgbModeSet | ugreen/ug_201x.c:398-407 | mode, period and duty bytes of the LED, through the port window |
| Led201x.Leds.ArgbLightSet | ugreen/ug_201x.c:388-396 | the light byte of the LED, if it is at most 255 |
| Led201x.Leds.ArgbRgbSet | ugreen/ug_201x.c:377-386 | the three low bytes of the packed word, each at its register |
| Led201x.Leds.InitLeds | ugreen/leds-sio-201x.c:420-444 | writes every LED's cached light and state, or nothing without the lock |
| Led201x.Leds.LedSetOnOff | ugreen/leds-sio-201x.c:138-166 | new cache, device bytes and return code for valid and invalid states, repeated states and a refused lock |
| Led201x.Leds.DoBrightnessSet | ugreen/leds-sio-201x.c:168-198 | 0 and 1 switch, other values set the light unless cached; the return code |
| Led201x.Leds.LedBlinkOrBreath | ugreen/leds-sio-201x.c:240-284 | skips what the cache repeats, with the widths of its comparisons, and otherwise writes and remembers; the return code |
| Led201x.Leds.McuLedBlinkSet | ugreen/leds-sio-201x.c:286-344 | the four triggers, their minimum times and the dropped requests; always 0 |
| Led201x.Leds.DoColorSet | ugreen/leds-sio-201x.c:346-369 | the table's colour, unless cached; the return code |
| Led201x.Leds.LedsBrightnessSet | ugreen/leds-sio-201x.c:226-238 | remembers the value and schedules the work; values out of range change nothing |
| Led201x.Leds.McuWork | ugreen/leds-sio-201x.c:200-224 | the scheduled work performs one brightness request of the run theorems, with the last value remembered, so that two quick requests become one |
| Led201x.Leds.ColorSet | ugreen/leds-sio-201x.c:371-411 | a colour request performs the step of the run theorems; numbers above 5 are refused and 0 becomes 1 |
| Led28a48.RoundTrip | ugreen/leds-mcu-28a48.c:181-210 | a frame that arrives is taken as the command it was built from |
| Led28a48.FrameBytes | ugreen/leds-mcu-28a48.c:182-210 | the twelve bytes of each command's frame |
| Led28a48.DamageDetected | ugreen/leds-mcu-28a48.c:205-210 | a frame with any single byte behind its address changed is not taken |
| Led28a48.TransmitEffect | ugreen/leds-mcu-28a48.c:214-226 | on a link that loses frames or changes a byte of them, a frame takes its own effect or none, and an acknowledged one has taken it |
| Led28a48.DeliverEffect | ugreen/leds-mcu-28a48.c:214-234 | a confirmed command has been obeyed once, an unconfirmed one perhaps; at most four frames, and no other LED is touched |
| Led28a48.DeliverWhen | ugreen/leds-mcu-28a48.c:214-234 | a command is confirmed exactly if one of its first three frames is seen acknowledged, and stops there; otherwise it takes four |
| Led28a48.RequestShows | ugreen/leds-mcu-28a48.c:181-702 | over any link, a request whose command does not run out of tries makes the LED show what it asks for, told without caches, frames or tries: 0 off, 1 on, 2 to 255 that brightness, normal off if it was blinking or breathing, a pattern its mode and the low 16 bits of its times, and the colour of the number; no other LED changes |
| Led28a48.PerfectRunShows | ugreen/leds-mcu-28a48.c:181-702 | on a perfect link every sequence of requests does |
| Led28a48.PatternAgreesWhen | ugreen/leds-mcu-28a48.c:364-449 | a pattern that is confirmed and not skipped keeps agreement if and only if its times modulo 2^32 are below 2^16 |
| Led28a48.RunAgrees | ugreen/leds-mcu-28a48.c:181-702 | every sequence of such requests keeps the caches of unspoiled LEDs in agreement, with at most four frames a request |
| Led28a48.CacheAgrees | ugreen/leds-mcu-28a48.c:181-702 | for every sequence of requests, cache and microcontroller agree at every moment on every LED on which no command ran out of tries, whatever the link loses or damages, if and only if the times of each request modulo 2^32 are below 2^16 |
| Led28a48.WideTimeDisagrees | ugreen/leds-mcu-28a48.c:387-390 | any other request breaks agreement even on a perfect link |
| Led28a48.ColorShownWhen | ugreen/leds-mcu-28a48.c:662-702 | on a perfect link a colour request shows the row of its number if and only if the number is not 8, or the bytes that 8 shows instead happen to be yellow |
| Led28a48.SpoiledMayDisagree | ugreen/leds-mcu-28a48.c:231-234 | running out of tries does break agreement: obeyed, but not cached, after four frames |
| Led28a48.ReadBackAgrees | ugreen/leds-mcu-28a48.c:510-599 | reading back an LED that is not off succeeds and brings agreement if and only if its colour is one of the first five and its cached times are those it shows |
| Led28a48.ReadBackOff | ugreen/leds-mcu-28a48.c:576-583 | reading back an LED that is off leaves the cache as it was |
| Led28a48.BadReportIgnored | ugreen/leds-mcu-28a48.c:543-594 | a report with any one byte changed is refused and changes nothing |
| Led28a48.Leds.Checksum | ugreen/leds-mcu-28a48.c:205-207 | the sum of bytes 2 to 10 |
| Led28a48.Leds.Block | ugreen/leds-mcu-28a48.c:202-209 | the filled buffer is the frame of the lemmas |
| Led28a48.Leds.Send | ugreen/leds-mcu-28a48.c:214-234 | the write and retry loop is the delivery of the lemmas |
| Led28a48.Leds.LedSetOnOff | ugreen/leds-mcu-28a48.c:181-245 | skipped if cached, cached if confirmed, spoiled if not |
| Led28a48.Leds.DoBrightnessSet | ugreen/leds-mcu-28a48.c:247-317 | 0 and 1 switch, other values set the light unless cached |
| Led28a48.Leds.LedBlinkOrBreath | ugreen/leds-mcu-28a48.c:364-449 | sends the low 16 bits of each time and caches 32; -EBUSY after the last try |
| Led28a48.Leds.Times | ugreen/leds-mcu-28a48.c:478-503 | the minimum times of each trigger; unlike the 201x driver, breath requests with a zero time are kept |
| Led28a48.Leds.McuLedBlinkSet | ugreen/leds-mcu-28a48.c:451-509 | the four triggers, dropped requests included |
| Led28a48.Leds.DoColorSet | ugreen/leds-mcu-28a48.c:601-660 | the table's colour, unless cached |
| Led28a48.Leds.LedsBrightnessSet | ugreen/leds-mcu-28a48.c:349-362 | remembers the value and schedules the work; values out of range change nothing |
| Led28a48.Leds.McuWork | ugreen/leds-mcu-28a48.c:319-347 | the scheduled work performs one brightness request of the run theorems, with the last value remembered, so that two quick requests become one |
| Led28a48.Leds.ColorSet | ugreen/leds-mcu-28a48.c:662-702 | a colour request performs the step of the run theorems; numbers above 8 are refused, 0 becomes 1 and 8 becomes 0 |
| PrioQueue.GetTakes | ugreen/tests/prio_queue.c:68-90 | what is returned was at the front of its level with every better level empty, and nothing is returned only from an empty queue |
| PrioQueue.PutAppends | ugreen/tests/prio_queue.c:52-66 | exactly the priorities 0, 1 and 2 are accepted, each to the end of its own list |
| PrioQueue.ArrivedAre | ugreen/tests/prio_queue.c:52-66 | the accepted requests of a run are its puts of those priorities, in order |
| PrioQueue.RunConserves | ugreen/tests/prio_queue.c:52-90 | in every run the counter is the number queued, and level by level the accepted requests are those returned followed by those queued, in order |
| PrioQueue.DrainIs | ugreen/tests/prio_queue.c:68-90 | draining empties the levels one after another |
| PrioQueue.DrainByLevel | ugreen/tests/prio_queue.c:68-90 | what is drained is sorted and holds each level whole and in order |
| PrioQueue.DrainSorts | ugreen/tests/prio_queue.c:52-90 | draining a filled queue returns the stable sort by priority of everything accepted |
| PrioQueue.StableSortUnique | ugreen/tests/prio_queue.c:68-90 | there is only one such sequence |
| PrioQueue.Queue.PrioQueuePut | ugreen/tests/prio_queue.c:52-66 | appends to its level and counts, or refuses a bad priority untouched |
| PrioQueue.Queue.PrioQueueGet | ugreen/tests/prio_queue.c:68-90 | the loop over the levels takes what `GetTakes` describes and keeps the count |
| ChipWorker.InvHolds | ugreen/tests/it55_functions_test.c:61-168 | the invariant behind the next lemmas, over every interleaving of submitters and worker |
| ChipWorker.NoLostWakeup | ugreen/tests/it55_functions_test.c:147-154 | a non-empty queue implies that the work is pending, the worker is in its loop, or a submitter is about to queue the work |
| ChipWorker.CountsHolders | ugreen/tests/prio_queue.c:12-20 | the reference count is the number of holders, and a request is freed once if there are none and not at all otherwise |
| ChipWorker.NoUseAfterFree | ugreen/tests/it55_functions_test.c:61-168 | no step of a submitter or the worker touches a freed request, synchronous or not, in either order of the last two puts |
| ChipWorker.WokenAfterProcessing | ugreen/tests/it55_functions_test.c:155-168 | a waiter is woken only after its request was processed, and still holds it |
| ChipWorker.RestLeavesNothing | ugreen/tests/it55_functions_test.c:61-168 | when nothing can move but new submissions, the queue is empty, what was accepted was processed exactly once, every submitter has returned and every request has been freed exactly once |
| ChipWorker.AcceptedWhen | ugreen/tests/it55_functions_test.c:147-151 | a request is accepted exactly if it was put with priority 0, 1 or 2 |
| ChipWorker.PutIsProcessed | ugreen/tests/it55_functions_test.c:61-168 | at rest the requests that were put with one of these priorities, and no others, have been processed |
| ChipWorker.StepUses | ugreen/tests/it55_functions_test.c:61-168 | every step other than a new submission uses up some of a measure |
| ChipWorker.RestIsReached | ugreen/tests/it55_functions_test.c:61-168 | so from every reachable state, once nobody submits any more, every run is over within as many steps, whatever the scheduler does, and ends with everything processed and freed |
| ChipWorker.CanSettle | ugreen/tests/it55_functions_test.c:61-168 | and there is such a run from every state |
| ChipWorker.Device.ChipWorkHandler | ugreen/tests/it55_functions_test.c:61-78 | the loop handles everything queued, in the order of the stable sort, and leaves the count at 0 |
| NetdevTrigger.TrackKeeps | ugreen/ledtrig-netdev2.c:138-168 | the three overlapping name tests keep one hold for each slot and overwrite no held slot |
| NetdevTrigger.NoticeKeeps | ugreen/ledtrig-netdev2.c:362-439 | so does every notifier event, and the link flag still implies a tracked device |
| NetdevTrigger.RunKeeps | ugreen/ledtrig-netdev2.c:119-439 | in every run of stores, events, renames and attribute writes, holds minus puts is the number of slots naming the device, a used slot has its bit set, and the link flag implies a tracked device |
| NetdevTrigger.NothingLeaks | ugreen/ledtrig-netdev2.c:538-589 | from activation to deactivation every hold has been put, on every device, and no slot is left in use |
| NetdevTrigger.SlotsHoldTheirOwn | ugreen/ledtrig-netdev2.c:138-414 | over every run a slot only ever holds a device that was presented under that slot's name |
| NetdevTrigger.StoreTracks | ugreen/ledtrig-netdev2.c:138-177 | after a store the link flag is exact, and the slot of the other name is empty |
| NetdevTrigger.StoreFills | ugreen/ledtrig-netdev2.c:138-168 | after a store of each kind of name, each slot it names is what it was if its bit was set (for "eth01", if it was in use) and otherwise what the lookup found, and the bits are 1, 16 or 17 |
| NetdevTrigger.ShortNames | ugreen/ledtrig-netdev2.c:133-158 | so too for the two names without a newline; a newline alone changes no slot |
| NetdevTrigger.LongNames | ugreen/ledtrig-netdev2.c:125-126 | names of 16 characters and more change nothing |
| NetdevTrigger.FreshStoreTracks | ugreen/ledtrig-netdev2.c:138-177 | right after activation a store of a present device with its carrier up tracks and holds it and raises the link flag |
| NetdevTrigger.NoticeDoes | ugreen/ledtrig-netdev2.c:362-439 | which events are heard, when a registration or renaming fills a slot and an unregistration empties one, and the link flag after each event: exact after up and change |
| NetdevTrigger.AttrDoes | ugreen/ledtrig-netdev2.c:215-255 | an attribute write changes its own mode bit, one of four, and nothing else |
| NetdevTrigger.UnregisterReleases | ugreen/ledtrig-netdev2.c:377-414 | after a device goes away it is not held if and only if it was not held before, or it is neither a bridge port, a VLAN nor outside the initial name space and still has the name of every slot it is in |
| NetdevTrigger.GoneButHeld | ugreen/ledtrig-netdev2.c:384-414 | two runs from activation after which a device is gone and still held: a bridge port, and one renamed |
| NetdevTrigger.TriggerData.constructor | ugreen/ledtrig-netdev2.c:538-571 | no slot, no bit, no mode, and no reference taken |
| NetdevTrigger.TriggerData.DeviceNameStore | ugreen/ledtrig-netdev2.c:119-185 | the whole new state and the returned size, too long names and empty ones included |
| NetdevTrigger.TriggerData.TrackDevices | ugreen/ledtrig-netdev2.c:138-168 | holds, puts, slots and bits of the three name tests in sequence |
| NetdevTrigger.TriggerData.NetdevTrigNotify | ugreen/ledtrig-netdev2.c:362-439 | the whole new state for every event and every reason to ignore it |
| NetdevTrigger.TriggerData.AdoptDevice | ugreen/ledtrig-netdev2.c:394-403 | a device is held only for an empty slot whose bit is set |
| NetdevTrigger.TriggerData.FollowCarrier | ugreen/ledtrig-netdev2.c:415-429 | the link flag follows the carriers of the tracked devices |
| NetdevTrigger.TriggerData.NetdevLedAttrStore | ugreen/ledtrig-netdev2.c:215-255 | one of four mode bits, never the link flag; the size, the parse error or -EINVAL |
| NetdevTrigger.TriggerData.NetdevTrigDeactivate | ugreen/ledtrig-netdev2.c:573-589 | both slots put and emptied |
| FanControl.CalcMonotone | root/usr/local/sbin/fancontrol.sh:32-54 | the curve stays between 85 and 255 and never falls as the temperature rises |
| FanControl.CalcIs | root/usr/local/sbin/fancontrol.sh:32-54 | 85 up to 80 degrees, 255 from 140, and between them the one integer p with (p - 85)(E - 1) <= 170(e(0.045(t - 80)) - 1) < (p - 84)(E - 1), E the exponential of 0.045 times 60 |
| FanControl.CycleIs | root/usr/local/sbin/fancontrol.sh:56-88 | the next speed: the old one on a drift, otherwise the curve's but never more than 4 below the old |
| FanControl.CycleSafe | root/usr/local/sbin/fancontrol.sh:135-154 | a cycle that starts on or above the curve ends there, within limits, and at most 4 slower |
| FanControl.NeverSlower | root/usr/local/sbin/fancontrol.sh:56-154 | for any curve and any temperatures the fan is never slower than the curve, if and only if the first reading is above 0 or at most -4 |
| FanControl.SlowFall | root/usr/local/sbin/fancontrol.sh:74-88 | over any n cycles of any run from any start the speed falls by at most 4n |
| FanControl.SlowsWhen | root/usr/local/sbin/fancontrol.sh:56-88 | a cycle slows the fan if and only if the reading rises or falls by at least 4 degrees and the curve is below the present speed, and keeps the speed if and only if it drifts or the curve is at that speed |
| FanControl.SlowedByRise | root/usr/local/sbin/fancontrol.sh:60-64 | a run from the start in which a rising reading slows the fan: up to 140, down to 77 by threes at 255, and one degree up to 251 |
| FanControl.HoldsWhen | root/usr/local/sbin/fancontrol.sh:56-88 | a run keeps its speed throughout if and only if every reading drifts from the one before or has its curve at that speed |
| FanControl.Loop | root/usr/local/sbin/fancontrol.sh:135-154 | the loop's commands are the speeds of the run, and at least 145 for the case fan |
| ButtonMonitor.SeenIs | ugreen/ug_gpio_btn.c:67-118 | after any samples the counter is the length of the current press, up to 1200 |
| ButtonMonitor.TraceOfPresses | ugreen/ug_gpio_btn.c:67-119 | the events are those of the presses, in order: one 1 for each press that reaches its threshold and one 0 for each completed press that reaches the other, nothing else |
| ButtonMonitor.Thresholds | ugreen/ug_gpio_btn.c:77-109 | the lengths that count: 260 and 261 ticks for the reset key; 1, or 100 on the DXP2800 GT, and 100 for the power key |
| ButtonMonitor.LastReportIs | ugreen/ug_gpio_btn.c:80-113 | the value last reported is that of the last event |
| ButtonMonitor.UnmappedIsSilent | ugreen/ug_gpio_btn.c:68 | a button whose register could not be mapped reports nothing |
| ButtonMonitor.ReleaseFollowsPress | ugreen/ug_gpio_btn.c:98-117 | every 0 comes directly after the 1 of the same press |
| ButtonMonitor.PairedWhen | ugreen/ug_gpio_btn.c:70-117 | once the button is up, every reported press has its reported end if and only if none ended between the two thresholds |
| ButtonMonitor.Monitor.Sample | ugreen/ug_gpio_btn.c:68-119 | one button's new record and its events, and no other button's |
| ButtonMonitor.Monitor.BtnMonitor | ugreen/ug_gpio_btn.c:60-122 | one tick of the timer: every button sampled, events in button order |

## Left out

- Device semantics are assumptions where the repository has no code for them. The embedded controller follows section 12.3 of the ACPI specification, finishes one byte before it takes the next, and overwrites an answer nobody collected. The LED controller behind the 201x ports steps its address only if the control port asks for it. The 28a48's microcontroller takes only frames with a right checksum, and its acknowledgement register speaks of the last frame sent and never of a damaged one.
- Timing: sleeps and delays are polls, and the one-millisecond throttle of the PM-table refresh is a flag of the environment.
- Codename, mailbox-address, PM-size and function-number tables of the SMU driver are parameters; only that sizes are positive, that split chips have two tables, and that probe clamps the attempts is used.
- SmuCallers.NeverInterleave: speaks of commands; users of the bare SMN window may come between two accesses of a command, as in the source.
- SmuCallers.AsIfAlone: the refusal of an undefined mailbox is in SmuCommand only, because it takes no lock and makes no access.
- SmuCommand.Smu.SendCommand: one object is one command, with its own stream of reads; the second command of a caller is a new object.
- PmTable.MappedBaseIs: an OK in the RSP register counts as the SMU's answer to the command that was just issued; the version and transfer commands' return codes are inputs.
- EcHandshake.OwingRead: the controller overwrites an uncollected answer with the next one; one that waited for it to be collected would be another device.
- Led201x.ElisionInvisible: requests are serialised; most caches are updated after the mutex is released, so two callers at once can leave them apart.
- Led201x.InitAgrees: is about an `init_leds` that gets its lock; without it the caches claim writes that were never made.
- Led28a48.TransmitEffect: at most one byte of a frame is damaged, and not its address byte, which the checksum leaves out.
- Led28a48.CacheAgrees: starts from agreement and takes requests one at a time; the unacknowledged writes of its `init_leds` are not modelled.
- Led28a48.ColorShownWhen: colour 8 indexes the row before the table (ugreen/leds-mcu-28a48.c:686 and 614-618), whose contents C leaves undefined; here it is three bytes given from outside.
- Led201x.Leds.LedSetOnOff: its range check lets the number 4 through (ugreen/leds-sio-201x.c:139); no caller passes it, and LED numbers here are 0 to 3.
- ChipWorker.RestLeavesNothing: interrupted waiters and `prio_queue_cleanup` are excluded, because the queue holds no reference of its own and the cleanup passes by the counter and the reference counts.
- NetdevTrigger.RunKeeps: the periodic work function with its statistics (whose activity sum starts uninitialised when only eth1 is tracked, ugreen/ledtrig-netdev2.c:480) and the LED output are not modelled.
- FanControl.NeverSlower: the exponential is any function that is 1 at 0, never falls and exceeds 1 at the end of the curve; quotients are exact where `bc` keeps 20 digits, and a reading is always present. The power LED's colours are not modelled.
- ButtonMonitor.TraceOfPresses: the key codes are those of the Linux input headers, which are not part of this model.
- Registration, removal, procfs and sysfs plumbing, DMI matching and module parameters have no hard property.
- The beeper, SATA, Super-IO fan and the remaining LED drivers are register writes or variants of the modelled drivers with less state.
