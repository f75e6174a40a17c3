/**
  What every run of the group commit pipeline guarantees.
 */
module GroupCommitTheorems {
  import opened GroupCommit
  import opened GroupCommitShape
  import opened GroupCommitOrder
  import opened GroupCommitFlags
  import opened GroupCommitEngine
  import opened GroupCommitXids

  ghost predicate Inv(c: Config, v: State) {
    Shape(c, v.g) && Order(c, v) && Flags(v) && Engine(c, v) && Xids(c, v) && Files(v)
  }

  lemma NextMoves(c: Config, v: State, st: Step)
    requires Enabled(c, v, st)
    ensures Next(c, v, st).g == Move(c, v.g, st)
  {
  }

  lemma ShapeStep(c: Config, v: State, st: Step)
    requires Shape(c, v.g) && Enabled(c, v, st)
    ensures Shape(c, Next(c, v, st).g)
  {
    NextMoves(c, v, st);
    ShapeKept(c, v.g, st);
  }

  lemma StagesKept(c: Config, v: State, st: Step)
    requires Shape(c, v.g) && Order(c, v) && Flags(v) && Enabled(c, v, st)
    ensures var w := Next(c, v, st); Shape(c, w.g) && Order(c, w) && Flags(w)
  {
    ShapeStep(c, v, st);
    OrderKept(c, v, st);
    FlagsKept(c, v, st);
  }

  lemma RecordsKept(c: Config, v: State, st: Step)
    requires Inv(c, v) && Enabled(c, v, st)
    ensures var w := Next(c, v, st); Engine(c, w) && Xids(c, w) && Files(w)
  {
    EngineKept(c, v, st);
    XidsKept(c, v, st);
    FilesKept(c, v, st);
  }

  lemma InvKept(c: Config, v: State, st: Step)
    requires Inv(c, v) && Enabled(c, v, st)
    ensures Inv(c, Next(c, v, st))
  {
    StagesKept(c, v, st);
    RecordsKept(c, v, st);
  }

  lemma {:induction false} InvReached(c: Config, steps: seq<Step>)
    requires Exec(c, steps).Reached?
    ensures Inv(c, Exec(c, steps).state)
  {
    if steps != [] {
      var n := |steps| - 1;
      InvReached(c, steps[..n]);
      InvKept(c, Exec(c, steps[..n]).state, steps[n]);
    }
  }

  // ---------------------------------------------------------------- order and multiplicity

  /**
    With ordered commits the calls of ha_commit_low are, at every moment, exactly the wanted
    sessions among the first `k` flushed ones, in flush order and each once.
   */
  lemma EngineOrderIsFlushOrder(c: Config, steps: seq<Step>) returns (k: nat)
    requires c.ordered && Exec(c, steps).Reached?
    ensures var v := Exec(c, steps).state;
      k <= |v.flushed| && v.engine == Select(v.flushed[..k], v.wanted) && NoDup(v.flushed) && NoDup(v.engine)
  {
    InvReached(c, steps);
    var v := Exec(c, steps).state;
    var head := v.through + Stored(v.g);
    k := |head|;
    assert head <= v.flushed by {
      assert Stored(v.g) <= CommitTodo(v.g);
      Regroup(CommitTodo(v.g), v.g.cq, SyncBatch(v.g), v.g.sq, FlushDone(v.g));
      assert CommitTodo(v.g) <= InFlight(v.g);
    }
    assert v.flushed[..k] == head;
    assert v.flushed <= v.enrolled;
  }

  /** Sessions are flushed in the order of enrolment, each once, whatever the mode. */
  lemma FlushedOnceInOrder(c: Config, steps: seq<Step>)
    requires Exec(c, steps).Reached?
    ensures var v := Exec(c, steps).state;
      NoDup(v.enrolled) && v.flushed <= v.enrolled && v.through <= v.flushed && NoDup(v.engine)
  {
    InvReached(c, steps);
  }

  ghost predicate AllDone(v: State) {
    forall s :: s in v.g.pc ==> v.g.pc[s].Done?
  }

  lemma HasMember(q: seq<Session>)
    ensures q != [] ==> exists s :: s in q
  {
    assert q != [] ==> q[0] in q;
  }

  /** When every call has returned, all were flushed, and the engines committed all that asked. */
  lemma AllDoneAllFlushed(c: Config, steps: seq<Step>)
    requires Exec(c, steps).Reached? && AllDone(Exec(c, steps).state)
    ensures var v := Exec(c, steps).state;
      v.flushed == v.enrolled && Elems(v.engine) == v.wanted && v.prep == 0
  {
    InvReached(c, steps);
    var v := Exec(c, steps).state;
    Members(v);
    assert forall s :: s in v.enrolled ==> s in v.through;
    HasMember(Unflushed(v.g));
    assert v.xid == {};
  }

  // ---------------------------------------------------------------- leaders, flags, places

  datatype StageId = FlushStage | SyncStage | CommitStage

  function Queue(g: Stages, stage: StageId): seq<Session> {
    match stage case FlushStage => g.fq case SyncStage => g.sq case CommitStage => g.cq
  }

  /** `l` is the leader of a stage queue and has not finished emptying it. */
  predicate Leads(g: Stages, l: Session, stage: StageId) {
    && l in g.pc
    && match stage
       case FlushStage => g.pc[l].WaitLog? || (g.pc[l].Flushing? && g.pc[l].more)
       case SyncStage => LeadsSync(g.pc[l])
       case CommitStage => LeadsCommit(g.pc[l])
  }

  lemma ShapeLeaders(c: Config, g: Stages, stage: StageId)
    requires Shape(c, g)
    ensures Queue(g, stage) != [] <==> exists l :: Leads(g, l, stage)
    ensures forall l, m :: Leads(g, l, stage) && Leads(g, m, stage) ==> l == m
  {
    assert forall l :: l in g.pc ==> Heads(g, l, g.pc[l]);
    if Queue(g, stage) != [] {
      assert Leads(g, if stage.FlushStage? && Popping(g) then g.log.owner else Queue(g, stage)[0], stage);
    }
  }

  /** A non-empty stage queue has exactly one unfinished leader, an empty one has none. */
  lemma OneLeaderPerQueue(c: Config, steps: seq<Step>, stage: StageId)
    requires Exec(c, steps).Reached?
    ensures var g := Exec(c, steps).state.g;
      && (Queue(g, stage) != [] <==> exists l :: Leads(g, l, stage))
      && (forall l, m :: Leads(g, l, stage) && Leads(g, m, stage) ==> l == m)
  {
    InvReached(c, steps);
    ShapeLeaders(c, Exec(c, steps).state.g, stage);
  }

  /**
    A leader is the first session of the batch it hands on, so enroll_for, which waits on the flag
    of the first session of that batch, waits on the flag of its own caller.
   */
  lemma WaitsOnOwnFlag(c: Config, steps: seq<Step>, l: Session)
    requires Exec(c, steps).Reached? && l in Exec(c, steps).state.g.pc
    ensures var p := Exec(c, steps).state.g.pc[l];
      && (p.Waiting? || p.LeaveFlush? || p.LeaveSync? ==> p.flag == l)
      && (p.Flushing? && p.done != [] ==> p.done[0] == l)
      && (p.Syncing? || p.Synced? || p.Signalling? ==> p.batch != [] && p.batch[0] == l)
  {
    InvReached(c, steps);
    assert Heads(Exec(c, steps).state.g, l, Exec(c, steps).state.g.pc[l]);
  }

  lemma ShapeKeepsLog(c: Config, g: Stages, s: Session)
    requires c.syncEvery && Shape(c, g) && CanMove(c, g, EnrollSync(s))
    ensures g.sq == []
  {
  }

  /** With sync_binlog = 1 a session that keeps LOCK_log always finds the SYNC queue empty. */
  lemma KeepingLogAlwaysLeads(c: Config, steps: seq<Step>, s: Session)
    requires c.syncEvery && Exec(c, steps).Reached? && Enabled(c, Exec(c, steps).state, EnrollSync(s))
    ensures Exec(c, steps).state.g.sq == []
  {
    InvReached(c, steps);
    ShapeKeepsLog(c, Exec(c, steps).state.g, s);
  }

  datatype Place = InQueue(stage: StageId) | InStage(stage: StageId) | BatchOf(leader: Session)

  predicate InPlace(v: State, s: Session, p: Place) {
    match p
    case InQueue(stage) => s in Queue(v.g, stage)
    case InStage(FlushStage) => s in FlushDone(v.g) || s in FlushTodo(v.g)
    case InStage(SyncStage) => s in SyncBatch(v.g)
    case InStage(CommitStage) => s in CommitTodo(v.g)
    case BatchOf(l) => l in v.g.pc && s in Unsignalled(v.g.pc[l])
  }

  /** Two different segments of a chain without duplicates share nothing. */
  lemma DisjointSegments(all: seq<Session>, a: seq<Session>, b: seq<Session>, s: Session)
    requires NoDup(all) && a + b <= all && s in a
    ensures s !in b
  {
    var i :| 0 <= i < |a| && a[i] == s;
    assert all[i] == s;
    assert forall j :: 0 <= j < |b| ==> all[|a| + j] == b[j];
  }

  lemma SegmentsDisjoint(v: State, s: Session)
    requires Chain(v)
    ensures s in CommitTodo(v.g) ==> s !in v.g.cq && s !in SyncBatch(v.g) && s !in v.g.sq && s !in FlushDone(v.g)
    ensures s in v.g.cq ==> s !in SyncBatch(v.g) && s !in v.g.sq && s !in FlushDone(v.g)
    ensures s in SyncBatch(v.g) ==> s !in v.g.sq && s !in FlushDone(v.g)
    ensures s in v.g.sq ==> s !in FlushDone(v.g)
    ensures s in FlushTodo(v.g) ==> s !in v.g.fq
  {
    var g := v.g;
    var (a, b, x, y, z) := (CommitTodo(g), g.cq, SyncBatch(g), g.sq, FlushDone(g));
    var f := InFlight(g);
    assert NoDup(f) by {
      assert forall i :: 0 <= i < |f| ==> f[i] == v.enrolled[|v.through| + i];
    }
    assert NoDup(Unflushed(g)) by {
      assert forall i :: 0 <= i < |Unflushed(g)| ==> Unflushed(g)[i] == v.enrolled[|v.flushed| + i];
    }
    assert f == a + (b + x + y + z) && f == (a + b) + (x + y + z);
    assert f == (a + b + x) + (y + z) && f == (a + b + x + y) + z;
    if s in a { DisjointSegments(f, a, b + x + y + z, s); }
    if s in b { assert s in a + b; DisjointSegments(f, a + b, x + y + z, s); }
    if s in x { assert s in a + b + x; DisjointSegments(f, a + b + x, y + z, s); }
    if s in y { assert s in a + b + x + y; DisjointSegments(f, a + b + x + y, z, s); }
    if s in FlushTodo(g) { DisjointSegments(Unflushed(g), FlushTodo(g), g.fq, s); }
  }

  function PlaceOf(v: State, s: Session): Place {
    if s in v.through && s in v.led then BatchOf(v.led[s])
    else if s in v.g.fq then InQueue(FlushStage)
    else if s in v.g.sq then InQueue(SyncStage)
    else if s in v.g.cq then InQueue(CommitStage)
    else if s in SyncBatch(v.g) then InStage(SyncStage)
    else if s in CommitTodo(v.g) then InStage(CommitStage)
    else InStage(FlushStage)
  }

  lemma SomePlace(c: Config, v: State, s: Session)
    requires Order(c, v) && Flags(v) && s in v.pending
    ensures InPlace(v, s, PlaceOf(v, s))
  {
    Members(v);
    Parts(v.g);
  }

  lemma OnlyPlace(v: State, s: Session, p: Place, q: Place)
    requires Chain(v) && Signals(v) && InPlace(v, s, p) && InPlace(v, s, q)
    ensures p == q
  {
    Members(v);
    Parts(v.g);
    SegmentsDisjoint(v, s);
  }

  /** A pending session is in exactly one queue or one leader's batch. */
  lemma PendingInOnePlace(c: Config, steps: seq<Step>, s: Session)
    requires Exec(c, steps).Reached? && s in Exec(c, steps).state.pending
    ensures exists p :: InPlace(Exec(c, steps).state, s, p)
    ensures forall p, q :: InPlace(Exec(c, steps).state, s, p) && InPlace(Exec(c, steps).state, s, q) ==> p == q
  {
    InvReached(c, steps);
    var v := Exec(c, steps).state;
    SomePlace(c, v, s);
    forall p, q | InPlace(v, s, p) && InPlace(v, s, q) ensures p == q {
      OnlyPlace(v, s, p, q);
    }
  }

  lemma NothingLeft(c: Config, v: State, s: Session)
    requires c.ordered && Order(c, v) && Flags(v) && Engine(c, v) && s in v.g.pc && Out(v.g.pc[s])
    ensures s !in v.commitLow
  {
    FinishFacts(c, v, s);
    OrderedThrough(c, v);
  }

  /** With ordered commits finish_commit never finds commit_low set. */
  lemma OrderedFinishCommitsNothing(c: Config, steps: seq<Step>, s: Session)
    requires c.ordered && Exec(c, steps).Reached? && Enabled(c, Exec(c, steps).state, FinishEngine(s))
    ensures s !in Exec(c, steps).state.commitLow
  {
    InvReached(c, steps);
    NothingLeft(c, Exec(c, steps).state, s);
  }

  // ---------------------------------------------------------------- prepared XIDs, rotation, crash

  /** m_prep_xids is the number of sessions with xid_written set. */
  lemma CounterCountsFlags(c: Config, steps: seq<Step>)
    requires Exec(c, steps).Reached?
    ensures Exec(c, steps).state.prep == |Exec(c, steps).state.xid|
  {
    InvReached(c, steps);
  }

  /** Once rotation is past its wait, every XID transaction of the closing log met its engine commit. */
  lemma DrainedLogIsCommitted(c: Config, steps: seq<Step>)
    requires Exec(c, steps).Reached? && Exec(c, steps).state.g.log == Rotating(Drained)
    ensures var v := Exec(c, steps).state; forall s :: s in v.current && s in v.wanted ==> s in v.engine
  {
    InvReached(c, steps);
  }

  /**
    Stop the run anywhere: an XID transaction whose engine commit may be lost is in the last log,
    the only one recovery scans.
   */
  lemma CrashNeedsLastLogOnly(c: Config, steps: seq<Step>, i: nat, s: Session)
    requires Exec(c, steps).Reached?
    requires i < |Exec(c, steps).state.closed| && s in Exec(c, steps).state.closed[i]
    requires s in Exec(c, steps).state.wanted
    ensures s in Exec(c, steps).state.durable && s in Exec(c, steps).state.engine
  {
    InvReached(c, steps);
  }

  // ---------------------------------------------------------------- progress

  /** Nobody is inside a stage. */
  ghost predicate StagesEmpty(g: Stages) {
    g.com.Free? && g.cq == [] && g.syn.Free? && g.sq == [] && !g.log.LogHeld?
  }

  /** Somebody in a stage: the oldest stage in use can go on. */
  lemma StageMoves(c: Config, v: State) returns (st: Step)
    requires Inv(c, v) && !StagesEmpty(v.g)
    ensures Enabled(c, v, st) && !st.Enroll? && !st.RotLock?
  {
    var g := v.g;
    if g.com.Held? {
      var l := g.com.owner;
      st := if g.pc[l].AtCommit? then FetchCommit(l)
            else if g.pc[l].todo == [] then ReleaseCommit(l)
            else if g.pc[l].stored then DropXid(l)
            else EngineCommit(l);
    } else if g.cq != [] {
      var l := g.cq[0];
      st := if g.pc[l].LeaveSync? then ReleaseSync(l) else LockCommit(l);
    } else if g.syn.Held? {
      var l := g.syn.owner;
      assert Heads(g, l, g.pc[l]);
      st := if g.pc[l].AtSync? then FetchSync(l)
            else if g.pc[l].Syncing? then SyncFile(l)
            else if g.pc[l].LeaveSync? then ReleaseSync(l)
            else if c.ordered then EnrollCommit(l)
            else SkipCommit(l);
    } else if g.sq != [] {
      var l := g.sq[0];
      st := if g.pc[l].LeaveFlush? then ReleaseLog(l) else LockSync(l);
    } else {
      var l := g.log.owner;
      assert Heads(g, l, g.pc[l]);
      st := if g.pc[l].LeaveFlush? then ReleaseLog(l)
            else if g.pc[l].todo != [] then FlushOne(l, false)
            else if g.pc[l].more then FetchFlush(l)
            else EnrollSync(l);
    }
  }

  /** A session that left the last stage can go on, or its leader can. */
  lemma LeaverMoves(c: Config, v: State, s: Session) returns (st: Step)
    requires Inv(c, v) && StagesEmpty(v.g) && s in v.through && s in v.g.pc && !v.g.pc[s].Done?
    ensures Enabled(c, v, st) && !st.Enroll? && !st.RotLock?
  {
    var g := v.g;
    assert Heads(g, s, g.pc[s]);
    if s in v.pending {
      var l := v.led[s];
      assert s in Unsignalled(g.pc[l]);
      assert !HoldsCommit(g.pc[l]);
      st := SignalDone(l);
    } else {
      Members(v);
      assert !g.pc[s].WaitLog? by {
        Parts(g);
      }
      assert !g.pc[s].Signalling? by {
        assert g.pc[s].Signalling? ==> s in Unsignalled(g.pc[s]);
      }
      assert !HoldsLog(c, g.pc[s]) && !HoldsSync(g.pc[s]) && !HoldsCommit(g.pc[s]);
      st := if g.pc[s].Waiting? then Wake(s)
            else if !g.pc[s].stored then FinishEngine(s)
            else FinishXid(s);
    }
  }

  /**
    No deadlock: as long as some call has not returned or a rotation is under way, some step other
    than a new arrival is enabled.
   */
  lemma NoDeadlock(c: Config, steps: seq<Step>) returns (st: Step)
    requires Exec(c, steps).Reached?
    requires !AllDone(Exec(c, steps).state) || Exec(c, steps).state.g.log.Rotating?
    ensures Enabled(c, Exec(c, steps).state, st) && !st.Enroll? && !st.RotLock?
  {
    InvReached(c, steps);
    var v := Exec(c, steps).state;
    Members(v);
    Parts(v.g);
    if !StagesEmpty(v.g) {
      st := StageMoves(c, v);
    } else if v.g.log.Rotating? {
      if v.g.log.phase.Draining? && v.prep > 0 {
        var s :| s in v.xid;
        st := LeaverMoves(c, v, s);
      } else {
        st := match v.g.log.phase
          case Draining => RotDrain
          case Drained => RotFlushEngines
          case EnginesFlushed => RotSwitch
          case Switched => RotUnlock;
      }
    } else if v.g.fq != [] {
      st := LockLog(v.g.fq[0]);
    } else {
      var s :| s in v.g.pc && !v.g.pc[s].Done?;
      st := LeaverMoves(c, v, s);
    }
  }
}
