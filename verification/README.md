# A verified model of PhxSQL

PhxSQL replicates MySQL's binary log through Paxos. This project models the parts of it whose
correctness is hardest to see from the code, and proves what they promise:

- **Group commit** (`GroupCommit*.dfy`). Sessions pass through the FLUSH, SYNC and COMMIT stages as
  leaders or followers. A run is a sequence of steps, one for each point at which another session or
  a log rotation may come in between. A session stands for one call of `ordered_commit`. The
  invariants in `Shape`, `Order`, `Flags`, `Engine`, `Xids` and `Files` hold in every reachable
  state; `GroupCommitTheorems` draws the conclusions, and `GroupCommitProgress` shows that every call
  returns.
- **The stage queue** (`MutexQueue.dfy`). The linked list behind each stage, with its pointer to the
  last link, on the heap.
- **The cache writer** (`Cache*.dfy`, `Bytes.dfy`). `do_write_cache` rewrites event headers while it
  copies the transaction cache buffer by buffer. `CacheFormat` says what has to be written,
  `CacheWriter` is the code, `CacheTheorems` what a reader of the log can rely on. The checksum is
  any function that folds one byte after the other into a 32-bit value.
- **The log index** (`IndexText.dfy`, `LogIndex.dfy`, `LogPurge.dfy`, `LogLives.dfy`). Index,
  crash-safe index, purge register and logs on a disk whose process may stop after any write. A stop
  keeps what was written before it.
- **Recovery and GTID lookup** (`Recovery.dfy`, `GtidSearch.dfy`).
- **The replicated state machines** (`MasterLease*.dfy`, `EventStore.dfy`). Paxos is given: one order
  of chosen values, of which every replica executes a prefix; a proposal may be chosen long after it
  was sent. A master record replaces another when
  its version is not smaller and its instance is newer; it is timed out once its expiry has passed.
- **Wire formats** (`EventList.dfy`, `GtidText.dfy`, `Strings.dfy`, `Proxy*.dfy`).

Clocks, randomness, arrivals, the moment of a stop, buffer sizes and socket contents are parameters;
every theorem holds for all of their values.

Some promises hold only under a condition, which the model states exactly:

- Creating a log replaces the index safely if and only if the crash-safe index that an earlier stop
  may have left behind is not longer than the new index, because `open_crash_safe_index_file` does
  not cut the file (`OverIsNewExactlyWhen`, `CreateLog`). As long as no log gets a shorter name than
  one before it, this holds over any number of lives of the server, and nothing is left behind when
  logs are purged (`Lives`). A server that is given its index by `--log-bin-index`, so that a new
  base name keeps the old index, and comes back with a shorter base name meets the failing case
  (`BackWithOtherName`, `Mixture`); without that option a new base name opens another index.
- Master leases exclude each other if and only if nodes take in records within bounds: executing or
  loading another node's record, clock and extension together have reached the record's date; and a
  node that loads its own record from a checkpoint does not extend it, that is, clock and extension
  together have not passed its date (`SafeExactlyWhenBounded`, `LoadIsSafeExactlyWhen`). As nodes
  propose only themselves, no record is dated in its owner's future (`DatedReached`); and as the load
  always grants a whole new lease from the clock on, a node that loads its own record later than in
  the second of its date breaks the bound.
- The first GTID that `find_first_log_not_in_gtid_set` returns is that of the log it found if and
  only if that log has one or no later log has (`FirstIsOwnExactlyWhen`). With well-kept logs that
  is always so (`FirstIsOwn`); with an unreadable log in between it is not (`FirstOfAnotherLog`).
- End positions are right modulo 2^32, since the field has 32 bits.

## Model

| member | source | states |
|---|---|---|
| GroupCommitShape.ShapeKept | phx_percona/percona/sql/binlog.cc:7343-7578 | every step keeps: the mutexes are held by whom the program counters say, each stage queue has one unfinished leader, and whoever carries a batch is its head |
| GroupCommitOrder.OrderKept | phx_percona/percona/sql/binlog.cc:7343-7578 | every step keeps: sessions through, in COMMIT, in SYNC and flushed, put one after the other, are the flush order, and with the unflushed ones the order of enrolment, without duplicates |
| GroupCommitFlags.FlagsKept | phx_percona/percona/sql/binlog.h:203-209 | every step keeps: the pending sessions are those still in a stage and those in a batch their leader has yet to signal |
| GroupCommitEngine.EngineKept | phx_percona/percona/sql/binlog.cc:6921-6975 | every step keeps: with ordered commits the engine calls are the wanted sessions among those through, in order |
| GroupCommitXids.XidsKept | phx_percona/percona/sql/binlog.h:318-359 | every step keeps: the prepared-XID counter equals the number of raised flags, and raised flags belong to flushed sessions still inside |
| GroupCommitXids.FilesKept | phx_percona/percona/sql/binlog.cc:5094-5112 | every step keeps: XID transactions in closed logs that asked for an engine commit have had it, durably |
| GroupCommitTheorems.InvReached | phx_percona/percona/sql/binlog.cc:7343-7578 | all these invariants hold after every run |
| GroupCommitTheorems.EngineOrderIsFlushOrder | phx_percona/percona/sql/binlog.cc:7343-7578 | with ordered commits the engine-commit order is, at every moment, the flush order of a prefix, restricted to sessions that ask for an engine commit, each once |
| GroupCommitTheorems.FlushedOnceInOrder | phx_percona/percona/sql/binlog.cc:6844-6904 | sessions are flushed in the order of enrolment, each at most once, and engine-committed at most once |
| GroupCommitTheorems.AllDoneAllFlushed | phx_percona/percona/sql/binlog.cc:7343-7578 | when all calls have returned, all sessions were flushed, exactly those that asked were engine-committed, and the counter is zero |
| GroupCommitTheorems.OneLeaderPerQueue | phx_percona/percona/sql/binlog.cc:1552-1591 | a stage queue is non-empty if and only if it has an unfinished leader, and it never has two |
| GroupCommitTheorems.WaitsOnOwnFlag | phx_percona/percona/sql/binlog.cc:1552-1591 | the batch a leader carries starts with the leader, so `enroll_for` waits on the flag of its own caller |
| GroupCommitTheorems.KeepingLogAlwaysLeads | phx_percona/percona/sql/binlog.cc:7343-7578 | with `sync_binlog` 1 the session that keeps `LOCK_log` finds the SYNC queue empty, so it becomes the leader |
| GroupCommitTheorems.PendingInOnePlace | phx_percona/percona/sql/binlog.cc:7049-7072 | a pending session is in exactly one queue, stage or leader's batch |
| GroupCommitTheorems.OrderedFinishCommitsNothing | phx_percona/percona/sql/binlog.cc:7158-7233 | with ordered commits `finish_commit` never finds an engine commit left to make |
| GroupCommitTheorems.CounterCountsFlags | phx_percona/percona/sql/binlog.h:318-359 | `m_prep_xids` is the number of sessions with `xid_written` set, after every run |
| GroupCommitTheorems.DrainedLogIsCommitted | phx_percona/percona/sql/binlog.cc:5094-5108 | once a rotation is past its wait, every XID transaction of the closing log that asked for an engine commit has been through it |
| GroupCommitTheorems.CrashNeedsLastLogOnly | phx_percona/percona/sql/binlog.cc:6457-6485 | wherever a run stops, every XID transaction in a closed log that asked for an engine commit has had it durably, so recovery need only scan the last log |
| GroupCommitTheorems.NoDeadlock | phx_percona/percona/sql/binlog.cc:7343-7578 | while a call has not returned or a rotation is under way, some step other than a new arrival can be taken |
| GroupCommitProgress.WorkShrinks | phx_percona/percona/sql/binlog.cc:7343-7578 | every step but an arrival or the start of a rotation leaves less to do |
| GroupCommitProgress.RunsEnd | phx_percona/percona/sql/binlog.cc:7343-7578 | a run without new arrivals and rotations has at most as many steps as there is left to do |
| GroupCommitProgress.StoppedMeansDone | phx_percona/percona/sql/binlog.cc:7343-7578 | a run that only an arrival could continue is one in which every call has returned and no rotation is under way |
| GroupCommitProgress.EveryCallReturns | phx_percona/percona/sql/binlog.cc:7343-7578 | from every reachable state all calls can return without new arrivals |
| MutexQueue.Queue.Append | phx_percona/percona/sql/binlog.cc:1492-1521 | the contents become the old contents followed by the whole list appended; the result tells whether the queue was empty |
| MutexQueue.Queue.PopFront | phx_percona/percona/sql/binlog.cc:1524-1549 | the first session leaves, the others stay in order; the result tells whether there are any |
| MutexQueue.Queue.FetchAndEmpty | phx_percona/percona/sql/binlog.cc:1594-1611 | the list returned is the whole contents; the queue is empty and valid |
| MutexQueue.Queue.constructor | phx_percona/percona/sql/binlog.h:33-90 | a new queue is empty and its last link is the first |
| MutexQueue.ProcessFlushStageQueue | phx_percona/percona/sql/binlog.cc:6844-6904 | for every interleaving of arrivals and every time budget, the list from `first_seen` is exactly the sessions flushed, in order; they and those still to enroll are all sessions, in order |
| MutexQueue.SignalDone | phx_percona/percona/sql/binlog.h:203-209 | no session of the list is pending any more |
| CacheFormat.ChecksumOfSum | phx_percona/percona/sql/binlog.cc:5770-5782 | a checksum taken in parts is the checksum of the whole |
| CacheWriter.PatchHeader | phx_percona/percona/sql/binlog.cc:5972-5987 | length and position of a header are fixed in place and nothing else in the buffer changes |
| CacheWriter.Writer.AssembleHeader | phx_percona/percona/sql/binlog.cc:5860-5905 | a header split between two buffers: after its first part is written, log plus what is due is still the whole output |
| CacheWriter.Writer.PassBuffer | phx_percona/percona/sql/binlog.cc:5918-5935 | a buffer inside one event is written and checksummed whole, with the checksum appended when the event ends with it |
| CacheWriter.Writer.FinishBefore | phx_percona/percona/sql/binlog.cc:5944-5962 | the rest of the event before is written and its checksum appended |
| CacheWriter.Writer.FullHeader | phx_percona/percona/sql/binlog.cc:5970-6007 | a header in one piece: its event, or its first part, is accounted for |
| CacheWriter.Writer.WriteBuffer | phx_percona/percona/sql/binlog.cc:5854-6031 | one buffer: log plus what is due for the unread rest of the cache stays the same |
| CacheWriter.DoWriteCache | phx_percona/percona/sql/binlog.cc:5801-6038 | for every way of cutting a cache of well-formed events into buffers, the log grows by exactly the events, each with fixed header and checksum; nothing is carried over at the end |
| CacheTheorems.EveryEventTruthful | phx_percona/percona/sql/binlog.cc:5844-5880 | when the cache holds relative ends, every event in the log carries the file offset of its end modulo 2^32, its true length, and a checksum over exactly the bytes before it |
| CacheTheorems.EventInLog | phx_percona/percona/sql/binlog.cc:5801-6038 | event by event, the bytes written are found at the offset that all events and checksums before it add up to |
| CacheTheorems.WriteThenRestore | phx_percona/percona/sql/binlog.cc:5801-6038 | every event of the cache can be restored from the log: only length, position and checksum were changed |
| IndexText.LinesOfText | phx_percona/percona/sql/binlog.cc:4632-4655 | the names written to a register are the names read back |
| IndexText.ListedInText | phx_percona/percona/sql/binlog.cc:3751-3828 | a name is found in an index text if and only if it was written there |
| IndexText.OverIsNewExactlyWhen | phx_percona/percona/sql/binlog.cc:4097-4118 | writing over a crash-safe index left behind yields the new text if and only if the old file is not longer |
| LogIndex.Disk.FillSafe | phx_percona/percona/sql/binlog.cc:2302-2327 | the crash-safe index holds the text written, and the end of a longer file left behind |
| LogIndex.Disk.MoveSafe | phx_percona/percona/sql/binlog.cc:3541-3594 | after any stop the index is the old one, or missing with the crash-safe one complete, or the new one |
| LogIndex.Disk.ReplaceIndex | phx_percona/percona/sql/binlog.cc:3541-3594 | without a longer file left behind, recovery finds the old or the new index after any stop |
| LogIndex.Disk.AddLogToIndex | phx_percona/percona/sql/binlog.cc:3610-3658 | the new index is the old one and the new name |
| LogIndex.Disk.CreateLog | phx_percona/percona/sql/binlog.cc:3312-3500 | if a crash-safe index left behind is not longer than the new index, creation of a log stopped anywhere leaves a disk consistent with the old or the new index; completed, index and logs agree if and only if it is not longer |
| LogIndex.Disk.PurgeRegistered | phx_percona/percona/sql/binlog.cc:4613-4792 | logs named in the index stay; completed, no other log exists |
| LogIndex.Disk.Recover | phx_percona/percona/sql/binlog.cc:2651-2735 | from a consistent disk, recovery that gets through makes index and logs agree; one that stops leaves the disk consistent |
| LogIndex.Disk.RemoveLogsFromIndex | phx_percona/percona/sql/binlog.cc:4319-4358 | the new index is the rest of the old one, and readers' offsets are adjusted |
| LogIndex.AdjustOffsets | phx_percona/percona/sql/binlog.cc:1974-1999 | every reader's offset is moved back by the purged bytes, or the reader is marked when it was inside them |
| LogIndex.LogInUse | phx_percona/percona/sql/binlog.cc:2002-2033 | the count is positive if and only if some thread reads the log |
| LogPurge.PurgeEndMeans | phx_percona/percona/sql/binlog.cc:4423-4459 | the logs that go are the longest prefix that reaches neither past the given log nor to one that is active or being read |
| LogPurge.RegisterPurged | phx_percona/percona/sql/binlog.cc:4413-4459 | the register names exactly the logs that go, and the offset is where the first one that stays starts |
| LogPurge.PurgeLogs | phx_percona/percona/sql/binlog.cc:4385-4517 | purged names and new index together are the old index; if a crash-safe index left behind is not longer than the new index, the disk is consistent with the old or the new index wherever the purge stops; completed, index and logs agree if and only if it is not longer |
| LogPurge.BusyStays | phx_percona/percona/sql/binlog.cc:4425-4448 | the active log and every log being read stay in the index |
| LogPurge.ReadersGoOn | phx_percona/percona/sql/binlog.cc:1974-1999 | after a purge every reader is at the same next entry of the new index, and none becomes fatal |
| LogPurge.Restarts | phx_percona/percona/sql/binlog.cc:2682-2731 | after any number of restarts that stop again, one that gets through leaves the index before or after the interrupted operation, in agreement with the logs |
| LogLives.Create | phx_percona/percona/sql/mysqld.cc:5382-5387 | with a name not shorter than those before, a creation that gets through leaves index and logs in agreement and nothing behind; one that stops leaves no more behind than the next creation covers |
| LogLives.Lives | phx_percona/percona/sql/mysqld.cc:5127-5400 | over any number of lives, each a recovery, a creation and then rotations and purges, stopped at any write, index and logs agree whenever the server is up, nothing is left behind when logs are purged, and the index names the logs of the start and those made since, in order, but for the oldest, which were purged |
| LogLives.LeftBehind | phx_percona/percona/sql/binlog.cc:3610-3658 | a stop before the move leaves the full crash-safe index on disk, also after recovery |
| LogLives.BackWithOtherName | phx_percona/percona/sql/mysqld.cc:5382-5387 | the first creation after such a stop leaves index and logs in agreement if and only if its name is not shorter than that of the creation cut off |
| LogLives.Mixture | phx_percona/percona/sql/binlog.cc:4097-4118 | with a shorter name the index is then neither the old one nor that of either creation |
| Recovery.Recover | phx_percona/percona/sql/binlog.cc:7594-7684 | the valid position and the XIDs are those of the scan over the events that lie within the bytes on disk |
| Recovery.TornLog | phx_percona/percona/sql/binlog.cc:7594-7684 | wherever a log of whole groups was torn, the scan finds its longest prefix of complete groups and exactly the XIDs in it |
| Recovery.IntactIsLongest | phx_percona/percona/sql/binlog.cc:7620-7665 | a number of groups lies within the bytes on disk if and only if it is at most the number found |
| Recovery.OpenAfterCrash | phx_percona/percona/sql/binlog.cc:6457-6524 | a log in use is cut back to its last complete group and no longer marked in use; any other log stays as it is |
| Recovery.TrimmingIsStable | phx_percona/percona/sql/binlog.cc:6496-6524 | recovering the trimmed log again finds the same groups |
| GtidSearch.ReadGtids | phx_percona/percona/sql/binlog.cc:2768-2974 | for every log, whether it has previous GTIDs, GTIDs, neither or is malformed, the previous GTIDs in it, and its first GTID |
| GtidSearch.StartIsRead | phx_percona/percona/sql/binlog.cc:2768-2974 | from a log that starts as the server writes it, exactly its previous GTIDs are read |
| GtidSearch.FindFirstLogNotInGtidSet | phx_percona/percona/sql/binlog.cc:2976-3087 | for every list of logs, the newest log that either suits or stops the search decides the result, with the error code for its kind; the first GTID is that of the log found or of the next log that has one |
| GtidSearch.FoundIsRight | phx_percona/percona/sql/binlog.cc:2976-3087 | with well-kept logs, no GTID missing from the given set lies before the log found, and when it is not the last log it holds one |
| GtidSearch.FailureMeansPurged | phx_percona/percona/sql/binlog.cc:3067-3079 | with well-kept logs the search fails if and only if a purged GTID is missing from the given set |
| GtidSearch.FirstIsOwnExactlyWhen | phx_percona/percona/sql/binlog.h:463-478 | the first GTID returned is that of the log found if and only if that log has one or no later log has |
| GtidSearch.FirstIsOwn | phx_percona/percona/sql/binlog.h:463-478 | with well-kept logs the first GTID returned is that of the log found |
| GtidSearch.FirstOfAnotherLog | phx_percona/percona/sql/binlog.cc:3026-3072 | with an unreadable log in between, the first GTID of a later log is returned |
| GtidSearch.NothingMissedBefore | phx_percona/percona/sql/binlog.h:463-474 | every GTID not in the given set lies in the log found or after it |
| GtidSearch.ReadFromIsUnique | phx_percona/percona/sql/binlog.h:463-474 | only one log can be the answer |
| MasterLease.Replica.SetMaster | phxbinlogsvr/core/storage/master_storage.cpp:118-140 | the record is replaced, with the next version, exactly when it is nobody's or the new one has a newer instance and no smaller version |
| MasterLease.Replica.Execute | phxbinlogsvr/core/paxos/master_executer.cpp:42-63 | the named node's lease ends one lease after the proposal, other nodes count from their own clock; acceptance does not depend on the clock |
| MasterLease.Replica.Propose | phxbinlogsvr/core/paxos/master_agent.cpp:104-117 | a proposal is made exactly when the draft has timed out or the node is master |
| MasterLeaseTheorems.VersionsGrow | phxbinlogsvr/core/storage/master_storage.cpp:127-134 | along the chosen order versions only grow, and one version is one record |
| MasterLeaseTheorems.Separated | phxbinlogsvr/core/paxos/master_agent.cpp:104-117 | accepted records of different owners lie more than a lease apart |
| MasterLease.Replica.ProposeSelf | phxbinlogsvr/core/handler/master_manager.cpp:80-89 | the proposal made with the node's own address names the node itself, exactly when the record has timed out or the node is master |
| MasterLease.Replica.ChangeAccounts | phxbinlogsvr/core/handler/master_manager.cpp:142-178 | a change of accounts is proposed by the master only, and names it |
| MasterLeaseTheorems.DatedReached | phxbinlogsvr/core/paxos/master_agent.cpp:104-117 | in every run, timely or not, a node's clock has reached the date of every record that it owns |
| MasterLeaseTheorems.InvKept | phxbinlogsvr/core/paxos/master_executer.cpp:52-62 | every timely step, in any interleaving of drafts, proposals, choices, executions, restarts and loads, keeps what the nodes know true of the chosen order |
| MasterLeaseTheorems.OlderMasterIsSlow | phxbinlogsvr/core/handler/master_manager.cpp:91-97 | of two masters, the one with the older record runs on a strictly slower clock |
| MasterLeaseTheorems.LeaseExclusion | phxbinlogsvr/core/paxos/master_executer.cpp:53-60 | in every run within the bounds, with proposals chosen in any order and however late, two nodes whose clocks agree are never both master |
| MasterLeaseTheorems.AtMostOneMaster | phxbinlogsvr/core/handler/master_manager.cpp:80-97 | with one time for all nodes, and no node extending its own lease by loading it, there is at most one master, in every run of renewals, takeovers, lagging replicas and replays |
| MasterLeaseLimits.SafeExactlyWhenBounded | phxbinlogsvr/core/paxos/master_executer.cpp:53-60 | for every lease and every way of taking in a record, given by owner, date, clock and extension: it is safe in all runs, besides the timely ways, if and only if it keeps the bounds or cannot occur |
| MasterLeaseLimits.OthersNeverGo | phxbinlogsvr/core/paxos/master_executer.cpp:38-40 | no step of any run takes in an own record dated in the future, or executes with an extension of ten or more |
| MasterLeaseLimits.LoadIsSafeExactlyWhen | phxbinlogsvr/core/storage/master_storage.cpp:41-49 | loading one's own record from a checkpoint is safe in all runs if and only if clock and extension together have not passed the record's date |
| MasterLeaseLimits.ShortLease | phxbinlogsvr/core/paxos/master_executer.cpp:57-59 | whenever clock and extension have not reached the date of another node's record that is executed or loaded, some run has two masters |
| MasterLeaseLimits.LongLease | phxbinlogsvr/core/storage/master_storage.cpp:41-49 | whenever a load extends a node's own lease, some run on one clock for all has two masters |
| MasterLeaseLimits.TwoMastersAfterLoad | phxbinlogsvr/core/storage/master_storage.cpp:41-49 | a run with lease 10 in which a master loads its record, dated 1, at 11 |
| MasterLeaseLimits.TwoMastersOnSlowClock | phxbinlogsvr/core/paxos/master_executer.cpp:53-60 | a run with lease 10 in which a node executes a record dated 100 at 0 |
| EventStore.GetCheckSum | phxcomm/utils/phx_utils.cpp:44-50 | the loop computes the wrapping 64-bit fold over signed characters |
| EventStore.CheckSumOfSum | phxcomm/utils/phx_utils.cpp:44-50 | the fold over a concatenation continues from the fold over its first part |
| EventStore.Events.AddEvent | phxbinlogsvr/core/storage/event_storage.cpp:179-228 | the event is appended exactly when its instance is newer than the newest |
| EventStore.Events.Execute | phxbinlogsvr/core/paxos/event_executer.cpp:54-133 | store and return code after an event was executed, for every reason to refuse it |
| EventStore.Events.SendValue | phxbinlogsvr/core/paxos/event_agent.cpp:56-100 | a proposal is built exactly when there is something to send and the node is master, with the checksum of the local store continued over it |
| EventStore.ReplicasAgree | phxbinlogsvr/core/paxos/event_executer.cpp:71-118 | replicas that execute the same chosen master and event values end with equal event stores and equal master records but for the expiry, whatever their clocks and lease extensions |
| EventStore.ChainedAlways | phxbinlogsvr/core/paxos/event_executer.cpp:78-118 | in every run each saved event's base is its predecessor's GTID, instances grow, and every saved checksum covers all bytes up to it |
| EventStore.NewestCoversAll | phxbinlogsvr/core/paxos/event_executer.cpp:95-118 | in every reachable store the newest checksum is the fold over all saved buffers |
| EventStore.OnePerBase | phxbinlogsvr/core/paxos/event_executer.cpp:78-93 | with fresh event GTIDs, and proposals sent any number of times, at most one event is saved on each base |
| EventStore.ResendOfNewest | phxbinlogsvr/core/paxos/event_executer.cpp:81-87 | the newest event sent again by the master is refused as existing, and the store stays |
| EventStore.SentIsAppended | phxbinlogsvr/core/paxos/event_agent.cpp:71-81 | a proposal built against a store is appended by every replica whose store is still that one |
| EventList.ParseEvent | phxbinlogsvr/core/mysql/gtid_handler.cpp:55-87 | size and GTID of the event at the start of a buffer; failure exactly when the header is short or its type unknown |
| EventList.ParseEventList | phxbinlogsvr/core/mysql/gtid_handler.cpp:94-136 | success exactly when the buffer is a sequence of whole events; then the events, their GTIDs and the last GTID present |
| EventList.AcceptedIsWhole | phxbinlogsvr/core/mysql/gtid_handler.cpp:94-136 | an accepted buffer is the concatenation of the events returned, none of them empty |
| EventList.ParseInvertsConcat | phxbinlogsvr/core/mysql/gtid_handler.cpp:94-136 | parsing the concatenation of well-formed events returns exactly these, each with the GTID in its own bytes |
| GtidText.GenUUID | phxbinlogsvr/core/mysql/gtid_handler.cpp:209-230 | the loops print the sixteen bytes as five groups of hexadecimal digits |
| GtidText.UuidRoundTrip | phxbinlogsvr/core/mysql/gtid_handler.cpp:209-230 | the bytes can be read back from the printed UUID |
| GtidText.GtidRoundTrip | phxbinlogsvr/core/mysql/gtid_handler.cpp:240-265 | parsing a printed GTID gives back its UUID and number |
| GtidText.PrintsApart | phxbinlogsvr/core/mysql/gtid_handler.cpp:213-265 | different UUIDs or numbers print to different texts |
| GtidText.CmpIsAntisymmetric | phxbinlogsvr/core/mysql/gtid_handler.cpp:232-238 | comparing any two texts the other way round gives the opposite, and 0 exactly when they parse alike |
| GtidText.CmpIsTransitive | phxbinlogsvr/core/mysql/gtid_handler.cpp:232-238 | the comparison of any texts is transitive |
| GtidText.CmpOfPrinted | phxbinlogsvr/core/mysql/gtid_handler.cpp:232-265 | on printed GTIDs only equal ones compare equal, and within a UUID numbers decide |
| ProxyText.SplitStr | phxsqlproxy/phxsqlproxyutil.cpp:255-267 | the parts between delimiters, empty ones too, except an empty one at the end |
| ProxyText.Ntop4RoundTrip | phxsqlproxy/phxsqlproxyutil.cpp:62-77 | a printed IPv4 address is parsed back |
| ProxyHeader.Handler.MakeProxyHeaderV1 | phxsqlproxy/proxy_protocol_handler.cpp:291-316 | the line for two addresses of one family, or the unknown line |
| ProxyHeader.Handler.MakeProxyHeaderV2 | phxsqlproxy/proxy_protocol_handler.cpp:318-347 | signature, command, family, length, addresses and ports, or the unspecified header |
| ProxyHeader.Handler.ParseProxyHeaderV1 | phxsqlproxy/proxy_protocol_handler.cpp:185-225 | result and both addresses after parsing any text, also where parsing fails half way |
| ProxyHeader.Handler.ParseProxyHeaderV2 | phxsqlproxy/proxy_protocol_handler.cpp:227-262 | result and both addresses after parsing any buffer |
| ProxyHeader.Handler.ProcessProxyHeader | phxsqlproxy/proxy_protocol_handler.cpp:144-183 | which parser a peeked buffer goes to |
| ProxyTheorems.SetAddrRoundTrip | phxsqlproxy/phxsqlproxyutil.cpp:62-94 | setting an address from its own text gives the address, also where the text is one of the special ones |
| ProxyTheorems.RoundTripV1 | phxsqlproxy/proxy_protocol_handler.cpp:144-225 | a version 1 header followed by any payload is parsed by version 1; addresses and ports arrive, or with mixed families the connection's own stay, and exactly the header is consumed |
| ProxyTheorems.RoundTripV2 | phxsqlproxy/proxy_protocol_handler.cpp:227-347 | the same for version 2 |
| ProxyTheorems.SendAndReceive | phxsqlproxy/proxy_protocol_handler.cpp:144-183 | one handler sends, another receives: in either version the receiver has the sender's addresses, or keeps its own when families are mixed, and what is left unread is the payload |

## Left out

- Paxos, storage engines, sockets, coroutines, leveldb and protobuf: foreign code.
- Changes of `sync_binlog` and `binlog_order_commits` during a run, logs that are closed, write errors and fault injection: the pipeline is modelled with the log open and fixed settings.
- `reset_logs`: the source itself calls its order of deletion not crash safe.
- Power failure: a stop keeps all writes made before it, whether they were synced or not.
- Transactions ended by ROLLBACK in `recover`: the scan does not take ROLLBACK for the end of a group.
- MasterLease.Replica.Propose: the address to propose is a parameter of the source; every caller passes the node's own, so in the runs of the model nodes propose only themselves.
- `MasterNotify` and cluster initialisation: they resend a record with its expiry set.
- EventStore.Events.AddEvent: the store is not restarted from a checkpoint, so the lookup that keeps an event already on disk from being written again never finds one.
- CacheWriter.DoWriteCache: every buffer but the first and the last holds at least 18 bytes, so that a split header is complete with the next one, and event and buffer together fit 32 bits, as the source assumes.
- EventList.ParseEvent: a GTID event of fewer than 19 bytes is taken to have no GTID; the code reads past the buffer there. Events that list previous GTIDs are parsed only for their size.
- ProxyHeader.Handler.ParseProxyHeaderV1: a line of the single word PROXY, on which the code reads a missing token, counts as a failure; port numbers that overflow an `int` count as too large.
- The text of IPv6 addresses: `inet_ntop` and `inet_pton` are parameters, of which `Lawful` states what the C library promises.
- `IsProxyHeaderNeed`, the group status cache, statistics, configuration, account statements and the monitors: easy next to the rest.
