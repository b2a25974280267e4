# EtherCAT master (IHMC) in Dafny

This project models the core of the IHMC EtherCAT master. That master is a
Java library driving EtherCAT slaves through the SOEM C library. A small C
helper sits between them (`swig/ethercathelper.c`). The model covers:

- **The C helper.** Bounds-checked accessors into SOEM's slave, sync-manager
  and FMMU tables, process-image offsets, and the FoE size adapter. Also the
  two procedures that bring a slave back to PRE-OP and to SAFE-OP. They take
  the transport's answers as parameters and return the register writes they
  issue, in order.
- **Process-image layout.** The bit/byte cursor `BufferOffsetHolder`, the
  PDO binding (`PDO.linkBuffer`), sync managers (PDO registration, sizes,
  linking, PDO-assignment writes), and mailbox set-up from the SII EEPROM.
- **The master.** Mapping discovered slaves to registered slaves by
  alias:position address, and SDO registration. Also the RFC 1889 jitter
  estimate on receive, the overall state, and the expected working counter.
- **The slave view.** AL-state decoding, the sign-magnitude DC time
  difference, and the PDO watchdog arithmetic. Also the householding step
  that drives a slave to OP once its distributed clock is stable.
- **The householding state machine and pipeline.** Read → wait for the
  master → every slave's state control → check for lost slaves, or final.
  Also round-robin SDO servicing, the per-slave pipeline routing, and the
  round-robin pipeline executor.
- **Asynchronous SDOs.** The master package's `SDO`/`ReadSDO` flags and
  decoding, and the wrapper package's three-state request and `WriteSDO`.
- **The realtime thread's arithmetic.** Cycle timestamps from DC time, the
  PI controller that locks the loop to the DC sync pulse, and the guard on a
  second transfer within one cycle.
- **Slave drivers.**
  - The CiA 402 drive state machine of `DSP402Slave`.
  - The Copley AEM bit fields.
  - The Elmo Twitter TCB digital outputs and enable latch.
  - The Elmo error-code table.
  - The EasyCAT frame copy and the EasyCAT load-cell decoding and
    calibration.

The model follows the source's form. Objects whose fields change are
classes whose methods are proved against pure specification functions.
Pure computations are functions with lemmas. Loops are `while` loops with
invariants. Java's truncating `/` and `%`, its 32-bit `int`, and its
narrowing casts are written out explicitly in module `JavaMath`. SOEM's
table sizes, register addresses and state codes (`EC_MAXSM = 8`,
`EC_MAXFMMU = 4`, `ECT_REG_ALCTL = 0x120`, `ECT_REG_SM0 = 0x800`,
`ECT_REG_FMMU0 = 0x600`, `sizeof(ec_smt) = 8`, `sizeof(ec_fmmut) = 16`, the
`EC_STATE_*` values and the SII mailbox word addresses) come from the SOEM
headers. SOEM itself is not part of this model.

## Model

| member | source | states |
|---|---|---|
| EtherCatHelper.SlaveAt | swig/ethercathelper.c:162-170 | absent exactly when the index exceeds the slave count (index slaveCount itself is in the table); otherwise the entry at that index |
| EtherCatHelper.SmAt | swig/ethercathelper.c:172-180 | absent exactly for an index >= EC_MAXSM; otherwise that SM record |
| EtherCatHelper.SmType | swig/ethercathelper.c:182-190 | 0 for an index past the table, the stored type byte otherwise |
| EtherCatHelper.FmmuAt | swig/ethercathelper.c:192-200 | absent exactly for an index >= EC_MAXFMMU; otherwise that FMMU record |
| EtherCatHelper.PointerOffset | swig/ethercathelper.c:202-205 | the 64-bit pointer difference truncated to int32: a valid int32, equal to the true offset when that fits, and congruent to it modulo 2^32 always |
| EtherCatHelper.InputOffset | swig/ethercathelper.c:202-205 | an int32 that is the start of the slave's inputs relative to the buffer whenever that offset fits |
| EtherCatHelper.OutputOffset | swig/ethercathelper.c:218-221 | an int32 that is the start of the slave's outputs relative to the buffer whenever that offset fits |
| EtherCatHelper.FoeReadResult | swig/ethercathelper.c:283-296 | a positive FoE result is replaced by the size read; a zero or negative result is passed through |
| EtherCatHelper.FoeReadResultAmbiguous | swig/ethercathelper.c:283-296 | a successful empty read and a failed read returning 0 give the same value |
| EtherCatHelper.SmWritesSound | swig/ethercathelper.c:247-254 | every write of the SM loop goes to register 0x800 + 8·n of an SM whose start address is non-zero, carrying that SM's record |
| EtherCatHelper.SmWritesComplete | swig/ethercathelper.c:247-254 | every SM with a non-zero start address is written |
| EtherCatHelper.SmWritesAscending | swig/ethercathelper.c:247-254 | the SM writes go out in increasing register order |
| EtherCatHelper.FmmuWritesExact | swig/ethercathelper.c:275-279 | exactly FMMUunused FMMU writes, the c-th to register 0x600 + 16·c with FMMU record c |
| EtherCatHelper.ReconfigToPreOp | swig/ethercathelper.c:230-260 | the method issues the writes and returns the state that the PRE-OP plan prescribes for the given transport answers |
| EtherCatHelper.PreOpInitWriteFails | swig/ethercathelper.c:236-239 | a failed INIT write returns 0 and issues nothing after it |
| EtherCatHelper.PreOpInitNotReached | swig/ethercathelper.c:243-257 | when INIT is not observed, no SM is written, PRE-OP is never requested, and the observed state is returned |
| EtherCatHelper.PreOpInitReached | swig/ethercathelper.c:244-259 | when INIT is observed: INIT request, EEPROM to PDI, the SM writes, the PRE-OP request, in that order; the PRE-OP check's state is returned |
| EtherCatHelper.ReconfigToSafeOp | swig/ethercathelper.c:262-281 | the method issues the writes of the SAFE-OP plan; as the state it returns the last state the state check observed (the C function returns nothing) |
| EtherCatHelper.SafeOpFmmuWrites | swig/ethercathelper.c:269-279 | from PRE-OP: one AL write followed by exactly the configured FMMU writes, FMMU c at position 1 + c; the SAFE-OP check's state is returned |
| EtherCatHelper.SafeOpNotPreOp | swig/ethercathelper.c:269-270 | without PRE-OP observed nothing is written and the observed state is returned |
| BufferOffset.IncreasedSpec | src/us/ihmc/etherCAT/master/BufferOffsetHolder.java:72-88 | an advance succeeds iff the new bit position is within the limit; it then moves by exactly bytes·8 + bits and keeps the bit offset in 0..7 |
| BufferOffset.AlignedSpec | src/us/ihmc/etherCAT/master/BufferOffsetHolder.java:55-63 | before something of one byte or more, the position moves to the first byte boundary at or after it; otherwise it is unchanged |
| BufferOffset.BufferOffsetHolder.constructor | src/us/ihmc/etherCAT/master/BufferOffsetHolder.java:32-36 | the limit is the start position plus bitSize bits, and the cursor starts at the start position |
| BufferOffset.BufferOffsetHolder.Increase | src/us/ihmc/etherCAT/master/BufferOffsetHolder.java:72-88 | returns true iff the advance fits; then the position moves by exactly the amount; otherwise nothing changes |
| BufferOffset.BufferOffsetHolder.Align | src/us/ihmc/etherCAT/master/BufferOffsetHolder.java:55-63 | the cursor becomes the aligned position |
| BufferOffset.StartCapacity | src/us/ihmc/etherCAT/master/BufferOffsetHolder.java:32-36 | a holder created with room for n bits accepts an advance of k bits iff k <= n |
| BufferOffset.IncreaseTrace | src/test/java/us/ihmc/etherCAT/master/BufferOffsetHolderTest.java:27-59 | unit-test replay: the cursor trace from 0:0 with 128 bits, ending with a refused advance |
| BufferOffset.OffsetStartTrace | src/test/java/us/ihmc/etherCAT/master/BufferOffsetHolderTest.java:61-68 | unit-test replay: a holder started at 12:5 takes 15 bytes 3 bits, 1 bit and 4 bits, then refuses 1 more bit |
| BufferOffset.AlignTrace | src/test/java/us/ihmc/etherCAT/master/BufferOffsetHolderTest.java:72-86 | unit-test replay of the alignment test: aligning before 3 bits does nothing, and aligning before one byte moves 0:3 to 1:0 |
| Pdo.SizeOf | src/main/java/us/ihmc/etherCAT/master/PDO.java:45-46 | the leftover bits are in 0..7 and bytes·8 + bits equals the bits the struct occupies |
| Pdo.LinkSpec | src/main/java/us/ihmc/etherCAT/master/PDO.java:43-56 | a PDO of a byte or more never starts inside a byte; it is bound less than a byte after the cursor; linking fails exactly when the advance passes the limit |
| Pdo.Pdo.constructor | src/main/java/us/ihmc/etherCAT/master/PDO.java:45-46 | a new PDO has its size from its layout and is unbound |
| Pdo.Pdo.LinkBuffer | src/main/java/us/ihmc/etherCAT/master/PDO.java:43-56 | binds the PDO at the aligned cursor and advances the cursor by its size, or reports an error with the cursor aligned but not moved on |
| Pdo.LinkTrace | test/us/ihmc/etherCAT/master/PDOTest.java:55-90 | unit-test replay: five PDOs linked from byte 12: three 4-bit PDOs share bytes 12-13, a 4-byte PDO starts at byte 14, and the last lands at byte 18 |
| SyncManagers.ConfigurePlan | src/us/ihmc/soem/wrapper/SyncManager.java:46-83 | the PDO-assignment downloads to 0x1C10 + index: count 0 as a 1-byte download, each PDO address at subindex i+1 as a 2-byte short, then the count as a 1-byte byte |
| SyncManagers.SyncManager.constructor | src/us/ihmc/soem/wrapper/SyncManager.java:35-44 | a new sync manager has no PDOs and an unknown direction |
| SyncManagers.SyncManager.RegisterRxPdo | src/us/ihmc/soem/wrapper/SyncManager.java:101-113 | refused iff a TxPDO is registered; otherwise the direction becomes RxPDO and the PDO is appended |
| SyncManagers.SyncManager.RegisterTxPdo | src/us/ihmc/soem/wrapper/SyncManager.java:123-135 | refused iff an RxPDO is registered; otherwise the direction becomes TxPDO and the PDO is appended |
| SyncManagers.SyncManager.ProcessDataSize | src/us/ihmc/soem/wrapper/SyncManager.java:149-157 | the loop returns the sum of the registered PDO sizes |
| SyncManagers.SyncManager.LinkBuffers | src/us/ihmc/soem/wrapper/SyncManager.java:168-177 | PDO i is bound at start plus the sizes of the PDOs before it; the result is start plus the total size |
| SyncManagers.SyncManager.Configure | src/us/ihmc/soem/wrapper/SyncManager.java:46-83 | issues the assignment downloads of ConfigurePlan, widths included, up to and including the first one with working counter 0, which reports an error; nothing when configuration is off |
| Mailbox.LoWord | src/us/ihmc/etherCAT/master/Mailbox.java:17-20 | the low 16 bits, in 0..0xFFFF |
| Mailbox.HiWord | src/us/ihmc/etherCAT/master/Mailbox.java:22-25 | the value shifted right by 16, as an int32 |
| Mailbox.SplitPack | src/us/ihmc/etherCAT/master/Mailbox.java:17-25 | splitting a 32-bit EEPROM entry into high and low words loses nothing |
| Mailbox.PackSplit | src/us/ihmc/etherCAT/master/Mailbox.java:17-25 | two words packed into an entry split back into the same words |
| Mailbox.MailboxWords | src/us/ihmc/etherCAT/master/Mailbox.java:32-41 | the bootstrap mailbox SII words for BOOT, the standard ones otherwise |
| Mailbox.WithMailboxes | src/us/ihmc/etherCAT/master/Mailbox.java:47-66 | the slave record stays well formed after SM0/SM1 and the mailbox fields are set |
| Mailbox.WithMailboxesHoldsEntries | src/us/ihmc/etherCAT/master/Mailbox.java:51-66 | SM0 and the write mailbox hold the receive entry, SM1 and the read mailbox the transmit entry; no other SM or field changes |
| Mailbox.Setup | src/us/ihmc/etherCAT/master/Mailbox.java:27-75 | the slave's mailboxes are set from the EEPROM entries that the configuration selects |
| EtherCatSlave.StateFromEcSlave | src/main/java/us/ihmc/etherCAT/master/Slave.java:830-864 | each known AL code decodes to its state; exactly the codes outside the table read as OFFLINE |
| EtherCatSlave.StateCodeRoundTrip | src/main/java/us/ihmc/etherCAT/master/Slave.java:830-864 | every state other than OFFLINE is read back from its own code |
| EtherCatSlave.Sm32ToInt32 | src/main/java/us/ihmc/etherCAT/master/Slave.java:866-875 | a non-negative value is unchanged; a negative one (sign bit set) becomes minus its 31-bit magnitude |
| EtherCatSlave.Sm32RoundTrip | src/main/java/us/ihmc/etherCAT/master/Slave.java:866-875 | decoding undoes sign-magnitude encoding for every difference in (-2^31, 2^31) |
| EtherCatSlave.Sm32NegativeZero | src/main/java/us/ihmc/etherCAT/master/Slave.java:866-875 | both sign-magnitude zeros read as 0 |
| EtherCatSlave.DcSyncOffset | src/main/java/us/ihmc/etherCAT/master/Slave.java:903-914 | Integer.MAX_VALUE when no frame came back; otherwise the decoded difference |
| EtherCatSlave.WatchdogPdoTimeout | src/main/java/us/ihmc/etherCAT/master/Slave.java:166-173 | an error iff the divider 40·(raw+2) is 0; otherwise the timeout divided by the divider with Java's truncating division: for every sign |q|·|div| ≤ |timeout| < (|q|+1)·|div|, q ≥ 0 when the signs agree and q ≤ 0 when they differ |
| EtherCatSlave.WatchdogExample | src/main/java/us/ihmc/etherCAT/master/Slave.java:169-172 | worked example of the source's comment: divider register 2498 gives 100 µs, and a 100 ms timeout is written as 1000 |
| EtherCatSlave.SlotSumUpdate | src/main/java/us/ihmc/etherCAT/master/Slave.java:671-683 | registering a sync manager in an empty slot adds exactly its size to the slave's process data size |
| EtherCatSlave.DcSample | src/main/java/us/ihmc/etherCAT/master/Slave.java:1024-1047 | a sample outside the window changes nothing; inside it, a non-zero sample or one from the reference clock counts one more, and a zero sample from another slave resets the count; stability is never lost |
| EtherCatSlave.DcRunCounts | src/main/java/us/ihmc/etherCAT/master/Slave.java:1028-1041 | consecutive good samples count up one by one, and the clock becomes stable exactly at the 12th, because of the post-increment test |
| EtherCatSlave.DcStableAfterTwelve | src/main/java/us/ihmc/etherCAT/master/Slave.java:1033-1036 | twelve good samples from a reset counter make the clock stable; eleven do not |
| EtherCatSlave.HouseholdOpOnlyWhenStable | src/main/java/us/ihmc/etherCAT/master/Slave.java:992-1061 | with DC, a SAFE-OP slave is asked for OP only once its clock is stable; without DC it is asked at once; PRE-OP and SAFE-OP error reset the counter |
| EtherCatSlave.Slave.constructor | src/main/java/us/ihmc/etherCAT/master/Slave.java:101-111 | a new slave has its identity, no sync managers or SDOs, is unconfigured, and is OFFLINE |
| EtherCatSlave.Slave.MarkConfigured | src/main/java/us/ihmc/etherCAT/master/Slave.java:143-201 | after configuration the slave is bound, its DC sync is on exactly when the master asks for it, and it is in SAFE-OP; registrations, watchdog request, maximum DC offset, DC counter and householder state are unchanged |
| EtherCatSlave.Slave.UpdateStateVariables | src/main/java/us/ihmc/etherCAT/master/Slave.java:1226-1229 | the published state becomes the householder's state; every other field is unchanged |
| EtherCatSlave.Slave.ConfigurePdoWatchdog | src/main/java/us/ihmc/etherCAT/master/Slave.java:124-133 | refused iff the slave is already configured; otherwise the watchdog is requested with that timeout; no other field changes |
| EtherCatSlave.Slave.RegisterSyncManager | src/main/java/us/ihmc/etherCAT/master/Slave.java:230-238 | refused iff the index is outside 0..3 or the slot is taken; otherwise only that slot changes, and no other field does |
| EtherCatSlave.Slave.ProcessDataSize | src/main/java/us/ihmc/etherCAT/master/Slave.java:671-683 | the loop returns the sum of the registered sync managers' sizes |
| EtherCatSlave.Slave.RegisterSdo | src/main/java/us/ihmc/etherCAT/master/Slave.java:1203-1221 | refused iff the SDO belongs to another slave or is already registered; otherwise appended; no other field changes |
| EtherCatSlave.Slave.UpdateEtherCatState | src/main/java/us/ihmc/etherCAT/master/Slave.java:920-943 | succeeds iff the working counter is positive; then the householder state is the decoded AL status, otherwise unchanged; no other field changes |
| EtherCatSlave.Slave.DoEtherCatStateControl | src/main/java/us/ihmc/etherCAT/master/Slave.java:992-1061 | the issued call and the new DC counter are those of HouseholdStep on the old state, DC settings and counter and the decoded DC offset; a PRE-OP slave without DC is reconfigured and its published state becomes SAFE-OP, in every other case the published state is unchanged; no other field changes |
| EtherCatMaster.AddressesFrom | src/us/ihmc/etherCAT/master/Master.java:243-259 | one address per discovered slave |
| EtherCatMaster.AddressesShape | src/us/ihmc/etherCAT/master/Master.java:245-259 | positions are never negative; a slave with a non-zero alias is addressed under it; each slave either continues its predecessor's alias one position further on or starts a new alias at position 0 |
| EtherCatMaster.AddressesExample | src/us/ihmc/etherCAT/master/Master.java:245-259 | worked example: without aliases the slaves are 0:0, 0:1, 0:2; aliases 5 and 7 restart the count under each |
| EtherCatMaster.AliasesOf | src/us/ihmc/etherCAT/master/Master.java:247-250 | the EEPROM alias of each discovered slave, in bus order |
| EtherCatMaster.ExpectedWorkingCounterMonotone | src/us/ihmc/etherCAT/master/Master.java:327 | outputs·2 + inputs grows strictly with each count: fewer answering output or input slaves give a smaller counter, equal only when all answered |
| EtherCatMaster.Master.SetExpectedWorkingCounter | src/us/ihmc/etherCAT/master/Master.java:327 | the expected working counter is set from the output and input counts; nothing else changes |
| EtherCatMaster.JitterBetween | src/us/ihmc/etherCAT/master/Master.java:455-459 | the new jitter estimate lies between the old one and the deviation, and equals them when they agree |
| EtherCatMaster.Deviation | src/us/ihmc/etherCAT/master/Master.java:455-456 | the absolute difference between the measured period and the cycle time |
| EtherCatMaster.Master.constructor | src/us/ihmc/etherCAT/master/Master.java:162-167 | a new master has the registered slaves and DC settings, no SDOs, no mapping, and a zero jitter estimate |
| EtherCatMaster.Master.GetSlave | src/us/ihmc/etherCAT/master/Master.java:86-106 | an error iff two or more registered slaves have the address; none iff no slave does; otherwise a registered slave with that address |
| EtherCatMaster.Master.MatchSlaves | src/us/ihmc/etherCAT/master/Master.java:243-290 | the slaves matched before the first failure, each the only registered slave at its discovered slave's address and of that slave's vendor and product code; no failure iff every discovered address is carried by exactly one registered slave of the right kind, and then every discovered slave is matched |
| EtherCatMaster.Master.EnterSlaves | src/us/ihmc/etherCAT/master/Master.java:271-272 | each matched slave is configured with the master's DC setting and appended, in order, to the slave map; slaves not matched keep their configured flag, DC enable and state; no slave's registrations, watchdog or DC counter change; the master's other fields are unchanged |
| EtherCatMaster.Master.MapSlaves | src/us/ihmc/etherCAT/master/Master.java:227-292 | differing slave counts give an error and leave the slave map as it was; succeeds iff the counts agree and each discovered slave's address is carried by exactly one registered slave, of the same vendor and product code; on success the slave map is the result and maps each discovered slave to that slave; every slave entered in the new map is configured with the master's DC setting and in SAFE-OP; unmapped slaves and the master's other fields are unchanged |
| EtherCatMaster.Master.RegisterSdo | src/us/ihmc/etherCAT/master/Master.java:143-153 | refused iff the SDO is already registered; otherwise appended; the slaves, the jitter bookkeeping and the working counters are unchanged |
| EtherCatMaster.Master.Receive | src/us/ihmc/etherCAT/master/Master.java:439-470 | no frame changes nothing; otherwise the working counter is recorded and, with DC and a previous arrival, the jitter estimate takes one RFC 1889 step |
| EtherCatMaster.Master.GetState | src/us/ihmc/etherCAT/master/Master.java:605-616 | the lowest state among the mapped slaves, or OP when there is none |
| EtherCatStateMachine.ChainVisitsEverySlave | src/main/java/us/ihmc/etherCAT/master/EtherCATStateMachine.java:47-61 | the slave chain runs every slave once, in bus order, and then returns to Read |
| EtherCatStateMachine.ScanSpec | src/main/java/us/ihmc/etherCAT/master/EtherCATStateMachine.java:99-120 | the SDO scan stops at the first SDO that transacts in round-robin order; if none does, it has stepped over all it tried |
| EtherCatStateMachine.FullScanMissesNothing | src/main/java/us/ihmc/etherCAT/master/EtherCATStateMachine.java:99-120 | a full pass that finds nothing means no SDO had a transfer pending |
| EtherCatStateMachine.WaitForMasterGate | src/main/java/us/ihmc/etherCAT/master/EtherCATStateMachine.java:156-182 | WaitForMaster is left iff there is no DC, or there are at least 1000 samples and a non-zero estimate within the maximum; it is left for the slave chain |
| EtherCatStateMachine.ReadAndFinal | src/main/java/us/ihmc/etherCAT/master/EtherCATStateMachine.java:128-149 | Read goes to Final iff all slaves are OP with recovery off, to CheckForLost iff all are OP with it on; Final is never left |
| EtherCatStateMachine.StateMachine.constructor | src/main/java/us/ihmc/etherCAT/master/EtherCATStateMachine.java:40-45 | starts at Read with recovery enabled |
| EtherCatStateMachine.StateMachine.SetSlaves | src/main/java/us/ihmc/etherCAT/master/EtherCATStateMachine.java:47-61 | the backwards loop builds the chain entry (first slave, or Read without slaves) and resets to Read; the SDO cursor, recovery flag and previous working counter are unchanged |
| EtherCatStateMachine.StateMachine.DisableRecovery | src/main/java/us/ihmc/etherCAT/master/EtherCATStateMachine.java:68-71 | recovery is disabled; nothing else changes |
| EtherCatStateMachine.StateMachine.DoSdoTransfer | src/main/java/us/ihmc/etherCAT/master/EtherCATStateMachine.java:99-120 | the loop ends with the index and the SDO found that the round-robin scan prescribes |
| EtherCatStateMachine.StateMachine.DoStateControl | src/main/java/us/ihmc/etherCAT/master/EtherCATStateMachine.java:128-265 | the next state and the tick's action follow the transition table; SDOs are serviced exactly on an SDO-transfer tick; Final records the working counter |
| RoundRobin.CycleCovers | src/main/java/us/ihmc/etherCAT/master/EtherCATStateMachine.java:105-110 | n round-robin steps from any index visit every index |
| RoundRobin.CycleClosed | src/main/java/us/ihmc/etherCAT/master/pipeline/LightWeightPipelineExecutor.java:64-71 | j <= n round-robin steps from an index land j further on, wrapping past the end at most once; so n steps return to the start |
| Pipeline.StateControlRouteSpec | src/main/java/us/ihmc/etherCAT/master/SubDeviceStatePipeline.java:32-47 | reaching OP is never forgotten and is recorded exactly in OP; a slave goes to the final task iff it has left OP after reaching it with recovery disabled; it goes to SDO transfers iff it is in OP |
| Pipeline.FirstPending | src/main/java/us/ihmc/etherCAT/master/SubDeviceStatePipeline.java:126-146 | the first SDO at or after the index that transacts, with none before it; or none at all |
| Pipeline.SubDeviceStatePipeline.constructor | src/main/java/us/ihmc/etherCAT/master/SubDeviceStatePipeline.java:116-119 | starts at SDO 0 with OP not yet reached |
| Pipeline.SubDeviceStatePipeline.CheckWorkingCounterNext | src/main/java/us/ihmc/etherCAT/master/SubDeviceStatePipeline.java:51-66 | a changed working counter leads to reading the state; otherwise to the error counters if asked for, else to state control; the counter is recorded |
| Pipeline.SubDeviceStatePipeline.StateControlNext | src/main/java/us/ihmc/etherCAT/master/SubDeviceStatePipeline.java:32-47 | follows the state-control route |
| Pipeline.SubDeviceStatePipeline.DoSdoTransfersExecute | src/main/java/us/ihmc/etherCAT/master/SubDeviceStatePipeline.java:116-152 | the index moves to the first SDO at or after it that transacts (not finished), or back to 0 when none does (finished); with no SDOs it is finished at once |
| Pipeline.FirstRunnableSpec | src/main/java/us/ihmc/etherCAT/master/pipeline/LightWeightPipelineExecutor.java:33-45 | the chosen task is in the list and not skipped, and every task before it in round-robin order is skipped |
| Pipeline.NothingRunnable | src/main/java/us/ihmc/etherCAT/master/pipeline/LightWeightPipelineExecutor.java:36-44 | when the executor runs nothing, every task asked to be skipped |
| Pipeline.LightWeightPipelineExecutor.constructor | src/main/java/us/ihmc/etherCAT/master/pipeline/LightWeightPipelineExecutor.java:11-15 | no tasks, index 0 |
| Pipeline.LightWeightPipelineExecutor.AddTasks | src/main/java/us/ihmc/etherCAT/master/pipeline/LightWeightPipelineExecutor.java:28-31 | the number of tasks grows by the number added, and the index is kept |
| Pipeline.LightWeightPipelineExecutor.Execute | src/main/java/us/ihmc/etherCAT/master/pipeline/LightWeightPipelineExecutor.java:33-52 | no tasks is an error; otherwise the first runnable task in round-robin order runs, and the index moves on only when it finishes |
| Realtime.RoundToCycleSpec | src/us/ihmc/etherCAT/master/EtherCATRealtimeThread.java:148-159 | for a non-negative DC time the cycle timestamp is the last sync pulse: a whole number of cycles, at most the DC time and within one cycle of it |
| Realtime.CycleTimestampOnPulse | src/us/ihmc/etherCAT/master/EtherCATRealtimeThread.java:148-181 | a DC time on a sync pulse is its own timestamp; without DC the monotonic clock is used |
| Realtime.OffsetErrorSpec | src/us/ihmc/etherCAT/master/EtherCATRealtimeThread.java:362-370 | the phase error is congruent to DC time minus sync offset modulo the cycle and at most half a cycle; at or after the offset it is also at least minus half a cycle |
| Realtime.IntegralStep | src/us/ihmc/etherCAT/master/EtherCATRealtimeThread.java:371-378 | the integral counts the sign of the error |
| Realtime.CorrectionOpposes | src/us/ihmc/etherCAT/master/EtherCATRealtimeThread.java:362-380 | the correction never pushes further in the direction of the error, and is 0 for small error and integral |
| Realtime.DcController.constructor | src/us/ihmc/etherCAT/master/EtherCATRealtimeThread.java:32-44 | the error and the integral start at 0 |
| Realtime.DcController.CalculateDcOffsetTime | src/us/ihmc/etherCAT/master/EtherCATRealtimeThread.java:362-380 | one PI step: the stored error, the updated integral and the returned correction |
| Realtime.SecondaryTransfer | src/us/ihmc/etherCAT/master/EtherCATRealtimeThread.java:324-350 | transfers iff the time budget fits before the next cycle; succeeds iff a frame came back with the expected working counter |
| Realtime.SecondaryTransferNeedsEverySlave | src/us/ihmc/etherCAT/master/EtherCATRealtimeThread.java:336-338 | checked against the master's expected working counter, a frame all mapped output and input slaves answered is transferred, and one fewer of them answered is a mismatch |
| MasterSdo.LittleEndian | src/main/java/us/ihmc/etherCAT/master/SDO.java:27-36 | the little-endian value of n bytes is below 256^n |
| MasterSdo.UnsignedInt | src/us/ihmc/etherCAT/master/ReadSDO.java:86-89 | the int modulo 2^32: in range, congruent, the identity on non-negative values, +2^32 on negative ones |
| MasterSdo.UnsignedShort | src/us/ihmc/etherCAT/master/ReadSDO.java:106-109 | the short modulo 2^16, with the same four facts |
| MasterSdo.UnsignedByte | src/us/ihmc/etherCAT/master/ReadSDO.java:126-129 | the byte modulo 2^8, with the same four facts |
| MasterSdo.UnsignedIntRoundTrip | src/us/ihmc/etherCAT/master/ReadSDO.java:76-89 | getUnsignedInt after getInt reads 4 bytes back as their unsigned value |
| MasterSdo.UnsignedShortRoundTrip | src/us/ihmc/etherCAT/master/ReadSDO.java:96-109 | getUnsignedShort after getShort reads 2 bytes back as their unsigned value |
| MasterSdo.UnsignedByteRoundTrip | src/us/ihmc/etherCAT/master/ReadSDO.java:116-129 | getUnsignedByte after getByte reads the byte itself |
| MasterSdo.Sdo.constructor | src/main/java/us/ihmc/etherCAT/master/SDO.java:27-36 | a new SDO has nothing queued and no valid data |
| MasterSdo.Sdo.Queue | src/main/java/us/ihmc/etherCAT/master/SDO.java:48-59 | refused iff a transfer is pending; otherwise one is queued and the data is invalid |
| MasterSdo.Sdo.Update | src/main/java/us/ihmc/etherCAT/master/SDO.java:83-97 | true iff a transfer was pending; it completes (valid data) iff the working counter is positive, and otherwise stays pending |
| MasterSdo.ReadSdo.constructor | src/us/ihmc/etherCAT/master/ReadSDO.java:29-33 | a new read has nothing queued and no valid data |
| MasterSdo.ReadSdo.RequestNewData | src/us/ihmc/etherCAT/master/ReadSDO.java:40-43 | behaves exactly as Queue |
| MasterSdo.ReadSdo.Update | src/us/ihmc/etherCAT/master/ReadSDO.java:150-153 | a pending read fills the buffer with what the transfer read; completion as in Sdo.Update |
| MasterSdo.ReadSdo.GetData | src/us/ihmc/etherCAT/master/ReadSDO.java:52-59 | the buffer iff the last read succeeded, an error otherwise |
| MasterSdo.ReadSdo.GetUnsigned | src/us/ihmc/etherCAT/master/ReadSDO.java:84-129 | valid data with n bytes gives their little-endian unsigned value, below 256^n; otherwise an error |
| WrapperSdo.RequestCycle | src/us/ihmc/soem/wrapper/SDO.java:39-78 | the request only goes round IDLE → REQUEST_NEW_DATA → REQUEST_SUCCESS → IDLE, each operation taking only its own step |
| WrapperSdo.SdoRequest.constructor | src/us/ihmc/soem/wrapper/SDO.java:27-37 | a new request is IDLE |
| WrapperSdo.SdoRequest.CheckIfRequestSuccess | src/us/ihmc/soem/wrapper/SDO.java:39-42 | compare-and-set REQUEST_SUCCESS → IDLE; true iff it took place |
| WrapperSdo.SdoRequest.RequestUpdateOnNextTick | src/us/ihmc/soem/wrapper/SDO.java:44-47 | compare-and-set IDLE → REQUEST_NEW_DATA |
| WrapperSdo.SdoRequest.UpdateInMasterThread | src/us/ihmc/soem/wrapper/SDO.java:61-78 | REQUEST_NEW_DATA → REQUEST_SUCCESS when the transaction succeeds; otherwise unchanged |
| WrapperSdo.WriteSdo.constructor | src/us/ihmc/soem/wrapper/WriteSDO.java:21-26 | a new write is IDLE with an empty buffer |
| WrapperSdo.WriteSdo.Write | src/us/ihmc/soem/wrapper/WriteSDO.java:53-131 | accepted iff the SDO is ready and the value fits; then the value is buffered and requested; otherwise nothing changes |
| WrapperSdo.WriteSdo.UpdateInMasterThread | src/us/ihmc/soem/wrapper/WriteSDO.java:166-171 | a requested write is sent and succeeds |
| WrapperSdo.WriteSdo.CheckIfSuccessful | src/us/ihmc/soem/wrapper/WriteSDO.java:36-44 | corrected: reports success and resets the SDO to ready, as its documentation says |
| WrapperSdo.WriteSdoStuckAsWritten | src/us/ihmc/soem/wrapper/WriteSDO.java:41-44 | as written, once a write has succeeded no sequence of operations makes the SDO ready again |
| WrapperSdo.WriteSdoSecondWriteRefused | src/us/ihmc/soem/wrapper/WriteSDO.java:31-44 | as written: write, tick, a successful check, and the SDO is still not ready |
| WrapperSdo.WriteSdoCorrectedRecovers | src/us/ihmc/soem/wrapper/WriteSDO.java:36-44 | corrected: a tick and a check return any state to ready, and a following write succeeds |
| Dsp402.GetStatusAsWritten | src/main/java/us/ihmc/etherCAT/slaves/DSP402Slave.java:102-138 | as written (mask 0x8F), only NOT READY, QUICK STOP (low nibble 7) and FAULT (low nibble 8) can come out |
| Dsp402.GetStatusAsWrittenMisreads | src/main/java/us/ihmc/etherCAT/slaves/DSP402Slave.java:15 | as written, 0x27 (operation enabled) reads as quick stop, and 0x40 and 0x23 read as not ready |
| Dsp402.GetStatus | src/main/java/us/ihmc/etherCAT/slaves/DSP402Slave.java:26-39 | corrected: each state is recognised exactly by its CiA 402 mask and value |
| Dsp402.SetControlWord | src/main/java/us/ihmc/etherCAT/slaves/DSP402Slave.java:62-100 | the manufacturer-specific bits are kept, and bits 0-3 and 7 carry exactly the command's bits |
| Dsp402.NextStep | src/main/java/us/ihmc/etherCAT/slaves/DSP402Slave.java:140-212 | a fault disables the drive; the command is never withdrawn once given; NOT READY and QUICK STOP change nothing |
| Dsp402.EnableLadder | src/main/java/us/ihmc/etherCAT/slaves/DSP402Slave.java:146-185 | an enabled drive is walked shutdown → switch on → enable operation, and held in enable operation |
| Dsp402.FaultResetToggles | src/main/java/us/ihmc/etherCAT/slaves/DSP402Slave.java:189-203 | in a fault, fault-reset and no-action alternate; leaving the fault withdraws the reset |
| Dsp402.DisabledNeverEnables | src/main/java/us/ihmc/etherCAT/slaves/DSP402Slave.java:146-185 | a drive that is not enabled is never newly commanded to enable operation or to shut down; it only keeps such a command in a state where nothing changes |
| Dsp402.Dsp402Drive.constructor | src/main/java/us/ihmc/etherCAT/slaves/DSP402Slave.java:51-59 | no command, not enabled, zero words |
| Dsp402.Dsp402Drive.DoStateControl | src/main/java/us/ihmc/etherCAT/slaves/DSP402Slave.java:140-212 | corrected: takes one step of NextStep on the status decoded with the corrected mask (GetStatus); the control word is written only once there is a command |
| Dsp402.Dsp402Drive.SetEnableDrive | src/main/java/us/ihmc/etherCAT/slaves/DSP402Slave.java:229-232 | sets the enable flag; nothing else changes |
| Dsp402.Dsp402Drive.Shutdown | src/main/java/us/ihmc/etherCAT/slaves/DSP402Slave.java:250-254 | corrected: disables the drive and takes one state-control step on the status decoded with the corrected mask; the statusword is unchanged |
| Dsp402.ShutdownLeavesOperation | src/main/java/us/ihmc/etherCAT/slaves/DSP402Slave.java:250-260 | shutting down a drive in operation sends disable-voltage (command bits 0x05) |
| CopleyAem.WithBit | src/us/ihmc/soem/slaves/copley/CopleyAEM.java:285-295 | the bit ends up as the value and no other bit changes |
| CopleyAem.WithCaptureMode | src/us/ihmc/soem/slaves/copley/CopleyAEM.java:207-229 | bit 0 is set iff falling edge, bit 1 iff rising edge, and the other bits are unchanged |
| CopleyAem.GetBitValue | src/us/ihmc/soem/slaves/copley/CopleyAEM.java:164-167 | true iff every bit of the mask is set in the register |
| CopleyAem.HasSeenIndexPulse | src/us/ihmc/soem/slaves/copley/CopleyAEM.java:238-241 | true iff the capture status register is odd |
| CopleyAem.CopleyAem.constructor | src/us/ihmc/soem/slaves/copley/CopleyAEM.java:106-107 | both control words start at 0 |
| CopleyAem.CopleyAem.SetDigitalOutput | src/us/ihmc/soem/slaves/copley/CopleyAEM.java:244-277 | refused iff the port is outside 0..15; otherwise only that output bit changes and the value is copied to the PDO |
| CopleyAem.CopleyAem.SetCaptureIndexPositionMode | src/us/ihmc/soem/slaves/copley/CopleyAEM.java:207-229 | the capture bits follow the mode and are copied to the PDO; the outputs are unchanged |
| CopleyAem.CopleyAem.SetClearOnIndex | src/us/ihmc/soem/slaves/copley/CopleyAEM.java:231-235 | bit 12 of the capture word follows the flag and is copied to the PDO |
| CopleyAem.CopleyAem.SetPositionCaptureControlRegister | src/us/ihmc/soem/slaves/copley/CopleyAEM.java:285-295 | sets or clears the bit without writing the PDO |
| CopleyAem.StatusFlags | src/us/ihmc/soem/slaves/copley/CopleyAEM.java:14-18 | each status flag reads exactly its own bit (2, 3, 5, 7, 8) of the event register |
| ElmoTwitterTcb.OutputMaskIsShift | src/us/ihmc/etherCAT/slaves/elmo/ElmoTwitterTCB.java:86 | the output mask is 1 << (16 + output) |
| ElmoTwitterTcb.OutputBitSet | src/us/ihmc/etherCAT/slaves/elmo/ElmoTwitterTCB.java:87-91 | setting an output sets its bit |
| ElmoTwitterTcb.OutputBitCleared | src/us/ihmc/etherCAT/slaves/elmo/ElmoTwitterTCB.java:92-96 | clearing an output clears its bit |
| ElmoTwitterTcb.SetLeavesOthers | src/us/ihmc/etherCAT/slaves/elmo/ElmoTwitterTCB.java:87-91 | setting an output changes no other bit |
| ElmoTwitterTcb.ClearLeavesOthers | src/us/ihmc/etherCAT/slaves/elmo/ElmoTwitterTCB.java:92-96 | clearing an output also clears the upper 32 bits of the long, and changes no other bit |
| ElmoTwitterTcb.WithOutputKeepsOthers | src/us/ihmc/etherCAT/slaves/elmo/ElmoTwitterTCB.java:79-101 | on a bit string within the output bits, only the written output changes |
| ElmoTwitterTcb.WithOutputKeepsOutputBits | src/us/ihmc/etherCAT/slaves/elmo/ElmoTwitterTCB.java:79-101 | a bit string within bits 16-21 stays within them |
| ElmoTwitterTcb.Latch | src/us/ihmc/etherCAT/slaves/elmo/ElmoTwitterTCB.java:146-149 | the latch is set iff it was set or the drive is in operation enabled; once set it stays set |
| ElmoTwitterTcb.LatchNeverResets | src/us/ihmc/etherCAT/slaves/elmo/ElmoTwitterTCB.java:143-153 | over any run of ticks, the latch is set iff it started set or the drive was once in operation enabled |
| ElmoTwitterTcb.ElmoTwitterTcb.constructor | src/us/ihmc/etherCAT/slaves/elmo/ElmoTwitterTCB.java:28-30 | all outputs off and the latch clear |
| ElmoTwitterTcb.ElmoTwitterTcb.SetDigitalOutput | src/us/ihmc/etherCAT/slaves/elmo/ElmoTwitterTCB.java:79-101 | refused iff the output is outside 0..5; otherwise the bit string is updated and copied to the 32-bit PDO entry, keeping only output bits set |
| ElmoTwitterTcb.ElmoTwitterTcb.DoStateControl | src/us/ihmc/etherCAT/slaves/elmo/ElmoTwitterTCB.java:143-153 | corrected: latches on the status decoded with the corrected mask (as written the latch could never set), then takes the drive's DSP402 step; the outputs and the drive's statusword are unchanged |
| ElmoErrorCodes.Slot | src/us/ihmc/soem/slaves/ElmoErrorCodes.java:6-151 | only codes inside the 246-slot table have a text |
| ElmoErrorCodes.Slots0To24 | src/us/ihmc/soem/slaves/ElmoErrorCodes.java:10-25 | the table's texts for slots 0-24, and no text for any code outside them |
| ElmoErrorCodes.Slots25To49 | src/us/ihmc/soem/slaves/ElmoErrorCodes.java:26-39 | the table's texts for slots 25-49, and no text for any code outside them |
| ElmoErrorCodes.Slots50To74 | src/us/ihmc/soem/slaves/ElmoErrorCodes.java:40-52 | the table's texts for slots 50-74, and no text for any code outside them |
| ElmoErrorCodes.Slots75To99 | src/us/ihmc/soem/slaves/ElmoErrorCodes.java:53-65 | the table's texts for slots 75-99, and no text for any code outside them |
| ElmoErrorCodes.Slots100To124 | src/us/ihmc/soem/slaves/ElmoErrorCodes.java:66-76 | the table's texts for slots 100-124, and no text for any code outside them |
| ElmoErrorCodes.Slots125To149 | src/us/ihmc/soem/slaves/ElmoErrorCodes.java:77-95 | the table's texts for slots 125-149, and no text for any code outside them |
| ElmoErrorCodes.Slots150To174 | src/us/ihmc/soem/slaves/ElmoErrorCodes.java:96-114 | the table's texts for slots 150-174, and no text for any code outside them |
| ElmoErrorCodes.Slots175To199 | src/us/ihmc/soem/slaves/ElmoErrorCodes.java:115-128 | the table's texts for slots 175-199, and no text for any code outside them |
| ElmoErrorCodes.Slots200To224 | src/us/ihmc/soem/slaves/ElmoErrorCodes.java:129-145 | the table's texts for slots 200-224, and no text for any code outside them |
| ElmoErrorCodes.Slots225To245 | src/us/ihmc/soem/slaves/ElmoErrorCodes.java:146-151 | the table's texts for slots 225-245, and no text for any code outside them |
| ElmoErrorCodes.ErrorCodeToString | src/us/ihmc/soem/slaves/ElmoErrorCodes.java:155-163 | nothing for a code outside the table; otherwise the slot's text, or nothing for a slot without one |
| ElmoErrorCodes.ErrorCodeExamples | src/us/ihmc/soem/slaves/ElmoErrorCodes.java:10-162 | worked example: code 0 is "No error", code 5 has no text, 243 is "Over temperature protection", and 246 and -1 have no text |
| EasyCatSlave.Low8 | src/main/java/us/ihmc/etherCAT/slaves/easyCAT/EasyCATSlave.java:81-84 | an Unsigned8 keeps the low 8 bits: congruent modulo 256, and the identity on 0..255 |
| EasyCatSlave.GetTransmitBytesAsWritten | src/main/java/us/ihmc/etherCAT/slaves/easyCAT/EasyCATSlave.java:61-71 | as written, it can succeed only for a valid range starting at 0 |
| EasyCatSlave.GetTransmitBytesAsWrittenFails | src/main/java/us/ihmc/etherCAT/slaves/easyCAT/EasyCATSlave.java:67-70 | as written, a valid range succeeds iff it starts at 0; reading byte 1 into a one-entry array fails |
| EasyCatSlave.TransmitRange | src/main/java/us/ihmc/etherCAT/slaves/easyCAT/EasyCATSlave.java:61-71 | corrected: entry k is frame byte start + k, for the range's length |
| EasyCatSlave.AsWrittenAgreesFromZero | src/main/java/us/ihmc/etherCAT/slaves/easyCAT/EasyCATSlave.java:67-70 | from index 0, the as-written copy and the corrected one agree |
| EasyCatSlave.ReceiveFrame | src/main/java/us/ihmc/etherCAT/slaves/easyCAT/EasyCATSlave.java:74-86 | the first values' low bytes replace the frame's first bytes; the rest is unchanged |
| EasyCatSlave.EasyCatSlave.constructor | src/main/java/us/ihmc/etherCAT/slaves/easyCAT/EasyCATSlave.java:45-58 | two distinct frames of the given length |
| EasyCatSlave.EasyCatSlave.GetTransmitBytes | src/main/java/us/ihmc/etherCAT/slaves/easyCAT/EasyCATSlave.java:61-71 | succeeds iff the range is valid; then the array holds the range, otherwise it is unchanged |
| EasyCatSlave.EasyCatSlave.SetReceiveBytes | src/main/java/us/ihmc/etherCAT/slaves/easyCAT/EasyCATSlave.java:74-86 | succeeds iff the values fit in the frame; then the frame is ReceiveFrame of the old frame, otherwise it is unchanged |
| EasyCatLoadCell.RawValues | src/main/java/us/ihmc/etherCAT/slaves/EasyCATLoadCellSlave.java:27-34 | cell i is the five decimal digits in bytes 5i+1 to 5i+5 |
| EasyCatLoadCell.DecodeEncode | src/main/java/us/ihmc/etherCAT/slaves/EasyCATLoadCellSlave.java:27-34 | a frame carrying four values below 100000 as decimal digits decodes to those values |
| EasyCatLoadCell.Processed | src/main/java/us/ihmc/etherCAT/slaves/EasyCATLoadCellSlave.java:46-72 | raw minus offset when that is not negative, 0 otherwise; never negative |
| EasyCatLoadCell.EasyCatLoadCellSlave.constructor | src/main/java/us/ihmc/etherCAT/slaves/EasyCATLoadCellSlave.java:9-18 | offsets zero and a calibration pending |
| EasyCatLoadCell.EasyCatLoadCellSlave.ProcessLoadCellData | src/main/java/us/ihmc/etherCAT/slaves/EasyCATLoadCellSlave.java:20-44 | raw values are decoded from the frame and processed with the old offsets; a pending calibration turns the raw values into the offsets and ends |
| EasyCatLoadCell.EasyCatLoadCellSlave.RequestCalibration | src/main/java/us/ihmc/etherCAT/slaves/EasyCATLoadCellSlave.java:85-87 | a calibration is pending; the values are unchanged |
| EasyCatLoadCell.CalibrationZeroes | src/main/java/us/ihmc/etherCAT/slaves/EasyCATLoadCellSlave.java:65-83 | after a calibration the same raw values read 0, and so does any cell that drops below its offset |

## Left out

- Creating and destroying the SOEM context, the fast-IRQ socket set-up, and
  `ecx_writembxconfig`: these are foreign calls and operating-system I/O.
- The OD/OE list name accessors and the trivial context getters
  (`ecx_ecaterror`, `ecx_dcTime`, `ecx_slavecount`) are field reads in the
  C helper. The context record carries those fields.
- `ecx_SDOread_java_helper` is a plain pass-through to SOEM and is not part
  of this model.
- Threads, volatile fields and atomic compare-and-set are not modelled.
  The wrapper SDO request is modelled as a single-threaded state machine.
  Every compare-and-set is one atomic step.
- Clocks (monotonic time, DC time) are parameters. So is what SOEM
  returns: working counters, AL states, the EEPROM and the FoE transfer.
- Lost-slave recovery in `Slave.doEtherCATStateControl` (the OFFLINE
  branch) and the SOEM transactions of the BOOT/INIT/PRE-OP reconfiguration
  are not modelled. The step records the call it asks for and, for a PRE-OP
  slave without DC, the SAFE-OP state that configure publishes.
- EtherCatSlave.Slave.RegisterSdo: the SDO's slave is represented by its
  slave id, assumed unique among slaves. Java compares the slave object
  itself (Slave.java:1205).
- EtherCatMaster.Master.MapSlaves: after a failed match, Java's slave map
  keeps empty (null) entries for the slaves not reached. The model's map
  holds only the slaves configured before the failure. The model matches
  all discovered slaves first and then configures the matched ones, where
  Java alternates the two. The outcome is the same, because matching reads
  only a slave's fixed address, vendor and product code.
- The running process-data size and the SDO complete-access flag that init
  writes into SOEM's slave records are not modelled. The size of one slave
  is Slave.ProcessDataSize.
- EtherCatHelper.ReconfigToSafeOp: the C function ends without a return
  statement, while the Java caller tests its result for `> 0`. In C that
  value is undefined. The model returns the last AL state a state check
  observed: the SAFE-OP check's result when the slave was in PRE-OP,
  otherwise the PRE-OP check's result.
- Realtime.RoundToCycleSpec: states the rounding only for non-negative DC
  times, because DC time is never negative.
- The realtime functions require a positive cycle time. Java would throw
  an ArithmeticException on 0.
- Dsp402.Dsp402Drive.DoStateControl: the drive class, and the Elmo TCB built on it,
  decode the statusword with the corrected mask 0x6F (see Findings), not with
  the source's 0x8F. The as-written decoding is Dsp402.GetStatusAsWritten.
- BufferOffset.BufferOffsetHolder.Increase: the Java computes the bit position
  as `byteOffset << 3` plus the bit offset in 32-bit `int` arithmetic, which
  wraps past 2^31 bits. The model uses unbounded integers, so it does not
  capture that wrap-around. The same holds for BufferOffset.IncreasedSpec.
- Overflow of `long` jitter and time arithmetic is not modelled.
  Integers are unbounded there.
- The pipeline's task objects and the SubDevice/main-device wiring are not
  modelled. Whether a task asks to be skipped, and whether it finishes, are
  parameters.
- The 16-bit narrowing of values that the SWIG setters store into SOEM's
  records is not modelled.
- Slaves hold their sync managers as sizes only. A sync manager's own PDO
  list is modelled in module SyncManagers.
- The byte position inside ReadSDO's buffer is not modelled. The
  `getLong`, `getDouble` and `getFloat` readers are not modelled, because
  floating point is out of scope.
- WrapperSdo.WriteSdo.Write: records the value and its width, not its byte encoding
  in the buffer. The `double` and `float` overloads are not modelled.
- CopleyAem: the control words are 16-bit. The upper 16 bits of the Java
  ints are never set, because every bit index used is below 16.
  Commutation of independent output writes is not proved.
- The torque, position, velocity and current setters and getters of the
  drivers are PDO pass-throughs and are not modelled.
  `getActualCurrent` and similar readers scale by a floating-point factor.
- The intermediate `ElmoTwitter` class is not part of this model. The TCB's
  state control is the DSP402 one it inherits.
- The load cell's superclass `us.ihmc.etherCAT.slaves.EasyCATSlave` is not
  part of this model. The load cell is built on the `easyCAT.EasyCATSlave`
  model, with a 32-byte frame.
- Null arrays, and the partial copy that the as-written `getTransmitBytes`
  makes before its exception, are not modelled. Neither is aliasing of the
  arrays returned by getters.
- Javolution struct layout (length, word size, bits used) is taken as given.
  So are the EtherCAT status callbacks and tracing.

## Findings

| source | as written | input that shows it | evidently intended | confidence | as-written member | corrected member |
|---|---|---|---|---|---|---|
| src/main/java/us/ihmc/etherCAT/slaves/DSP402Slave.java:15 | the statusword is masked with 0x8F before decoding. That clears bits 5 and 6, which the state table needs. | statusword 0x27 (operation enabled) decodes as QUICKSTOPACTIVE, and 0x40 (switch on disabled) as NOTREADYTOSWITCHON. The drive can never be seen as operational, and the Elmo TCB's hasBeenEnabled can never latch. | mask 0x6F, which keeps bits 0-3, 5 and 6 | not executed | Dsp402.GetStatusAsWrittenMisreads | Dsp402.GetStatus |
| src/main/java/us/ihmc/etherCAT/slaves/easyCAT/EasyCATSlave.java:67-70 | the copy writes `arrayToPack[i]` for i from startIndex to endIndex, but the array has only endIndex - startIndex + 1 entries | startIndex = 1, endIndex = 1, one-entry array: the argument check passes, then index 1 is out of bounds | `arrayToPack[i - startIndex]` | not executed | EasyCatSlave.GetTransmitBytesAsWrittenFails | EasyCatSlave.EasyCatSlave.GetTransmitBytes |
| src/us/ihmc/soem/wrapper/WriteSDO.java:41-44 | checkIfSuccessful only reports transactionIsDone. It never resets the request, although its documentation and write's say it should. | write, master tick, checkIfSuccessful() returns true: the state stays REQUEST_SUCCESS, isReady() stays false, and every later write throws | reset REQUEST_SUCCESS to IDLE, as checkIfRequestSuccess does | not executed | WrapperSdo.WriteSdoStuckAsWritten | WrapperSdo.WriteSdoCorrectedRecovers |
