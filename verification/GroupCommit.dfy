/**
  Binary log group commit: the three-stage leader/follower pipeline of
  `MYSQL_BIN_LOG::ordered_commit` as a transition system.

  A session here is one call of `ordered_commit`.  Its program counter carries the local
  variables of that call (the batch it leads).  Queues, mutexes, session flags, the prepared-XID
  counter and the binary log files are shared state.  Every step below is one critical section
  or one mutex operation of the source; steps of different sessions interleave freely.
 */
module GroupCommit {

  type Session = nat

  /** `sync_binlog == 1` and `binlog_order_commits`, both fixed during a run. */
  datatype Config = Config(syncEvery: bool, ordered: bool)

  datatype Pc =
    // FLUSH stage
    | WaitLog                                    // first in the FLUSH queue, blocked on LOCK_log
    | Flushing(done: seq<Session>, todo: seq<Session>, more: bool)
    | LeaveFlush(leads: bool, flag: Session)     // appended to SYNC, LOCK_log not yet released
    // SYNC stage
    | WaitSync
    | AtSync                                     // owns LOCK_sync, queue not yet fetched
    | Syncing(batch: seq<Session>)
    | Synced(batch: seq<Session>)
    | LeaveSync(leads: bool, flag: Session)      // appended to COMMIT, LOCK_sync not yet released
    // COMMIT stage
    | WaitCommit
    | AtCommit
    | Committing(done: seq<Session>, todo: seq<Session>, stored: bool)
    // leaving
    | Signalling(batch: seq<Session>)            // all stage mutexes released, followers not yet told
    | Waiting(flag: Session)                     // follower asleep on the pending flag of `flag`
    | Finishing(stored: bool)                    // inside finish_commit
    | Done

  /** Where a rotation stands; it owns LOCK_log throughout. */
  datatype RotPhase = Draining | Drained | EnginesFlushed | Switched

  datatype LogLock = LogFree | LogHeld(owner: Session) | Rotating(phase: RotPhase)
  datatype Lock = Free | Held(owner: Session)

  /** Program counters, stage queues and stage mutexes. */
  datatype Stages = Stages(
    pc: map<Session, Pc>,
    fq: seq<Session>,              // m_queue[FLUSH_STAGE]
    sq: seq<Session>,              // m_queue[SYNC_STAGE]
    cq: seq<Session>,              // m_queue[COMMIT_STAGE]
    log: LogLock,                  // LOCK_log
    syn: Lock,                     // LOCK_sync
    com: Lock)                     // LOCK_commit

  datatype State = State(
    g: Stages,
    pending: set<Session>,         // transaction.flags.pending
    commitLow: set<Session>,       // transaction.flags.commit_low
    xid: set<Session>,             // transaction.flags.xid_written
    prep: int,                     // m_prep_xids
    // what the run has done so far
    enrolled: seq<Session>,        // order of appending to the FLUSH queue
    wanted: set<Session>,          // enrolled without skip_commit
    flushed: seq<Session>,         // order of writing to the binary log
    through: seq<Session>,         // order of leaving the last stage
    led: map<Session, Session>,    // who led a session out of the last stage
    engine: seq<Session>,          // order of ha_commit_low calls
    durable: set<Session>,         // engine commits made durable by ha_flush_logs
    closed: seq<set<Session>>,     // rotated binary logs, oldest first: the XID transactions in each
    current: set<Session>)         // XID transactions in the last indexed log

  const Init: State :=
    State(Stages(map[], [], [], [], LogFree, Free, Free), {}, {}, {}, 0, [], {}, [], [], map[], [], {}, [], {})

  datatype Step =
    | Enroll(s: Session, low: bool)
    | LockLog(s: Session)
    | PopFront(s: Session)
    | FetchFlush(s: Session)
    | FlushOne(s: Session, withXid: bool)
    | EnrollSync(s: Session)
    | ReleaseLog(s: Session)
    | LockSync(s: Session)
    | FetchSync(s: Session)
    | SyncFile(s: Session)
    | EnrollCommit(s: Session)
    | ReleaseSync(s: Session)
    | SkipCommit(s: Session)
    | LockCommit(s: Session)
    | FetchCommit(s: Session)
    | EngineCommit(s: Session)
    | DropXid(s: Session)
    | ReleaseCommit(s: Session)
    | SignalDone(s: Session)
    | Wake(s: Session)
    | FinishEngine(s: Session)
    | FinishXid(s: Session)
    | RotLock
    | RotDrain
    | RotFlushEngines
    | RotSwitch
    | RotUnlock

  // ---------------------------------------------------------------- moves of the stages

  predicate At(g: Stages, s: Session) {
    s in g.pc
  }

  /** When the program counters, queues and mutexes allow a step. */
  predicate CanMove(c: Config, g: Stages, st: Step) {
    match st
    case Enroll(s, low) => s !in g.pc
    case LockLog(s) => At(g, s) && g.pc[s].WaitLog? && g.log.LogFree?
    case PopFront(s) => At(g, s) && g.pc[s].Flushing? && g.pc[s].more && g.pc[s].todo == [] && g.fq != []
    case FetchFlush(s) => At(g, s) && g.pc[s].Flushing? && g.pc[s].more && g.pc[s].todo == []
    case FlushOne(s, withXid) => At(g, s) && g.pc[s].Flushing? && g.pc[s].todo != []
    case EnrollSync(s) =>
      At(g, s) && g.pc[s].Flushing? && !g.pc[s].more && g.pc[s].todo == [] && g.pc[s].done != []
    case ReleaseLog(s) => At(g, s) && g.pc[s].LeaveFlush?
    case LockSync(s) => At(g, s) && g.pc[s].WaitSync? && g.syn.Free?
    case FetchSync(s) => At(g, s) && g.pc[s].AtSync?
    case SyncFile(s) => At(g, s) && g.pc[s].Syncing?
    case EnrollCommit(s) => At(g, s) && g.pc[s].Synced? && c.ordered && g.pc[s].batch != []
    case ReleaseSync(s) => At(g, s) && g.pc[s].LeaveSync?
    case SkipCommit(s) => At(g, s) && g.pc[s].Synced? && !c.ordered
    case LockCommit(s) => At(g, s) && g.pc[s].WaitCommit? && g.com.Free?
    case FetchCommit(s) => At(g, s) && g.pc[s].AtCommit?
    case EngineCommit(s) => At(g, s) && g.pc[s].Committing? && g.pc[s].todo != [] && !g.pc[s].stored
    case DropXid(s) => At(g, s) && g.pc[s].Committing? && g.pc[s].todo != [] && g.pc[s].stored
    case ReleaseCommit(s) => At(g, s) && g.pc[s].Committing? && g.pc[s].todo == []
    case SignalDone(s) => At(g, s) && g.pc[s].Signalling?
    case Wake(s) => At(g, s) && g.pc[s].Waiting?
    case FinishEngine(s) => At(g, s) && g.pc[s].Finishing? && !g.pc[s].stored
    case FinishXid(s) => At(g, s) && g.pc[s].Finishing? && g.pc[s].stored
    case RotLock => g.log.LogFree?
    case RotDrain => g.log == Rotating(Draining)
    case RotFlushEngines => g.log == Rotating(Drained)
    case RotSwitch => g.log == Rotating(EnginesFlushed)
    case RotUnlock => g.log == Rotating(Switched)
  }

  /** What a step does to the program counters, queues and mutexes. */
  function Move(c: Config, g: Stages, st: Step): Stages
    requires CanMove(c, g, st)
  {
    match st
    // change_stage(FLUSH_STAGE, thd, NULL, &LOCK_log)
    case Enroll(s, low) =>
      g.(pc := g.pc[s := if g.fq == [] then WaitLog else Waiting(s)], fq := g.fq + [s])
    case LockLog(s) => g.(pc := g.pc[s := Flushing([], [], true)], log := LogHeld(s))
    // process_flush_stage_queue: pop one, or out of time: fetch the rest; then flush one by one
    case PopFront(s) =>
      g.(pc := g.pc[s := Flushing(g.pc[s].done, [g.fq[0]], g.fq[1..] != [])], fq := g.fq[1..])
    case FetchFlush(s) => g.(pc := g.pc[s := Flushing(g.pc[s].done, g.fq, false)], fq := [])
    case FlushOne(s, withXid) =>
      g.(pc := g.pc[s := Flushing(g.pc[s].done + [g.pc[s].todo[0]], g.pc[s].todo[1..], g.pc[s].more)])
    // change_stage(SYNC_STAGE, wait_queue, need_LOCK_log ? NULL : &LOCK_log, &LOCK_sync)
    case EnrollSync(s) =>
      var leads, head := g.sq == [], g.pc[s].done[0];
      g.(pc := g.pc[s := if !c.syncEvery then LeaveFlush(leads, head)
                         else if leads then WaitSync
                         else Waiting(head)],
         sq := g.sq + g.pc[s].done)
    case ReleaseLog(s) =>
      g.(pc := g.pc[s := if g.pc[s].leads then WaitSync else Waiting(g.pc[s].flag)], log := LogFree)
    case LockSync(s) => g.(pc := g.pc[s := AtSync], syn := Held(s))
    case FetchSync(s) => g.(pc := g.pc[s := Syncing(g.sq)], sq := [])
    // sync_binlog_file, then the unlock of LOCK_log when it was kept
    case SyncFile(s) =>
      g.(pc := g.pc[s := Synced(g.pc[s].batch)], log := if c.syncEvery then LogFree else g.log)
    // change_stage(COMMIT_STAGE, final_queue, &LOCK_sync, &LOCK_commit)
    case EnrollCommit(s) =>
      g.(pc := g.pc[s := LeaveSync(g.cq == [], g.pc[s].batch[0])], cq := g.cq + g.pc[s].batch)
    case ReleaseSync(s) =>
      g.(pc := g.pc[s := if g.pc[s].leads then WaitCommit else Waiting(g.pc[s].flag)], syn := Free)
    // commits are not ordered: leave the last stage at once
    case SkipCommit(s) => g.(pc := g.pc[s := Signalling(g.pc[s].batch)], syn := Free)
    case LockCommit(s) => g.(pc := g.pc[s := AtCommit], com := Held(s))
    case FetchCommit(s) => g.(pc := g.pc[s := Committing([], g.cq, false)], cq := [])
    // process_commit_stage_queue: engine commit, then drop the prepared XID
    case EngineCommit(s) => g.(pc := g.pc[s := Committing(g.pc[s].done, g.pc[s].todo, true)])
    case DropXid(s) =>
      g.(pc := g.pc[s := Committing(g.pc[s].done + [g.pc[s].todo[0]], g.pc[s].todo[1..], false)])
    case ReleaseCommit(s) => g.(pc := g.pc[s := Signalling(g.pc[s].done)], com := Free)
    case SignalDone(s) => g.(pc := g.pc[s := Finishing(false)])
    case Wake(s) => g.(pc := g.pc[s := Finishing(false)])
    // finish_commit
    case FinishEngine(s) => g.(pc := g.pc[s := Finishing(true)])
    case FinishXid(s) => g.(pc := g.pc[s := Done])
    // rotate and new_file_impl
    case RotLock => g.(log := Rotating(Draining))
    case RotDrain => g.(log := Rotating(Drained))
    case RotFlushEngines => g.(log := Rotating(EnginesFlushed))
    case RotSwitch => g.(log := Rotating(Switched))
    case RotUnlock => g.(log := LogFree)
  }

  // ---------------------------------------------------------------- flags, counter, logs

  /** A follower sleeps while the flag is up; a rotation sleeps while the counter is positive. */
  predicate Enabled(c: Config, v: State, st: Step) {
    && CanMove(c, v.g, st)
    && (st.Wake? ==> v.g.pc[st.s].flag !in v.pending)
    && (st.RotDrain? ==> v.prep <= 0)
  }

  function Elems(s: seq<Session>): set<Session> {
    set x | x in s
  }

  /** The calls of ha_commit_low so far, after the guarded call for `t` (it clears commit_low). */
  function HaCommitLow(v: State, t: Session): seq<Session> {
    if t in v.commitLow then v.engine + [t] else v.engine
  }

  /** The prepared-XID counter after the guarded dec_prep_xids for `t` (it clears xid_written). */
  function DecPrepXids(v: State, t: Session): int {
    if t in v.xid then v.prep - 1 else v.prep
  }

  function Next(c: Config, v: State, st: Step): State
    requires Enabled(c, v, st)
  {
    var g := Move(c, v.g, st);
    match st
    // ordered_commit entry
    case Enroll(s, low) =>
      v.(g := g,
         pending := v.pending + {s},
         commitLow := if low then v.commitLow + {s} else v.commitLow - {s},
         wanted := if low then v.wanted + {s} else v.wanted,
         xid := v.xid - {s},
         enrolled := v.enrolled + [s])
    // flush_thread_caches, with inc_prep_xids when an XID event was written
    case FlushOne(s, withXid) =>
      var t := v.g.pc[s].todo[0];
      v.(g := g,
         flushed := v.flushed + [t],
         prep := if withXid then v.prep + 1 else v.prep,
         xid := if withXid then v.xid + {t} else v.xid,
         current := if withXid then v.current + {t} else v.current)
    case SkipCommit(s) =>
      v.(g := g,
         through := v.through + v.g.pc[s].batch,
         led := v.led + (map t | t in v.g.pc[s].batch :: s))
    case FetchCommit(s) =>
      v.(g := g, led := v.led + (map t | t in v.g.cq :: s))
    case EngineCommit(s) =>
      var t := v.g.pc[s].todo[0];
      v.(g := g, engine := HaCommitLow(v, t), commitLow := v.commitLow - {t})
    case DropXid(s) =>
      var t := v.g.pc[s].todo[0];
      v.(g := g, prep := DecPrepXids(v, t), xid := v.xid - {t}, through := v.through + [t])
    // signal_done clears the pending flag of the whole chain under m_lock_done
    case SignalDone(s) =>
      v.(g := g, pending := v.pending - Elems(v.g.pc[s].batch))
    case FinishEngine(s) =>
      v.(g := g, engine := HaCommitLow(v, s), commitLow := v.commitLow - {s})
    case FinishXid(s) =>
      v.(g := g, prep := DecPrepXids(v, s), xid := v.xid - {s})
    // ha_flush_logs, then the switch to the next log file
    case RotFlushEngines =>
      v.(g := g, durable := v.durable + Elems(v.engine))
    case RotSwitch =>
      v.(g := g, closed := v.closed + [v.current], current := {})
    case _ => v.(g := g)
  }

  /** The state after a sequence of steps, Stuck when some step was not enabled. */
  datatype Outcome = Stuck | Reached(state: State)

  function Exec(c: Config, steps: seq<Step>): Outcome {
    if steps == [] then Reached(Init)
    else
      var n := |steps| - 1;
      var r := Exec(c, steps[..n]);
      if r.Reached? && Enabled(c, r.state, steps[n]) then Reached(Next(c, r.state, steps[n])) else Stuck
  }
}
