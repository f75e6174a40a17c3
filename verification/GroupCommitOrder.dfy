/**
  The order of sessions in the pipeline: the flush order is the concatenation, from the oldest
  segment to the youngest, of what every stage still holds.
 */
module GroupCommitOrder {
  import opened GroupCommit
  import opened GroupCommitShape

  // ---------------------------------------------------------------- what each stage holds

  function FlushDone(g: Stages): seq<Session> {
    if g.log.LogHeld? && g.log.owner in g.pc && g.pc[g.log.owner].Flushing? then g.pc[g.log.owner].done else []
  }

  function FlushTodo(g: Stages): seq<Session> {
    if g.log.LogHeld? && g.log.owner in g.pc && g.pc[g.log.owner].Flushing? then g.pc[g.log.owner].todo else []
  }

  function SyncBatch(g: Stages): seq<Session> {
    if g.syn.Held? && g.syn.owner in g.pc && (g.pc[g.syn.owner].Syncing? || g.pc[g.syn.owner].Synced?)
    then g.pc[g.syn.owner].batch
    else []
  }

  function CommitTodo(g: Stages): seq<Session> {
    if g.com.Held? && g.com.owner in g.pc && g.pc[g.com.owner].Committing? then g.pc[g.com.owner].todo else []
  }

  /** Flushed but not yet through, oldest first. */
  function InFlight(g: Stages): seq<Session> {
    CommitTodo(g) + g.cq + SyncBatch(g) + g.sq + FlushDone(g)
  }

  /** Enrolled but not yet flushed, oldest first. */
  function Unflushed(g: Stages): seq<Session> {
    FlushTodo(g) + g.fq
  }

  ghost predicate NoDup(s: seq<Session>) {
    forall i, j :: 0 <= i < j < |s| ==> s[i] != s[j]
  }

  ghost predicate Chain(v: State) {
    && v.flushed == v.through + InFlight(v.g)
    && v.enrolled == v.flushed + Unflushed(v.g)
    && NoDup(v.enrolled)
  }

  ghost predicate Order(c: Config, v: State) {
    && Chain(v)
    && (forall s :: s in v.g.pc <==> s in v.enrolled)
    && (!c.ordered ==> v.g.cq == [] && v.g.com.Free?)
  }

  // ---------------------------------------------------------------- how a step moves the segments

  ghost predicate SameSegments(g: Stages, w: Stages) {
    && FlushDone(w) == FlushDone(g) && FlushTodo(w) == FlushTodo(g)
    && SyncBatch(w) == SyncBatch(g) && CommitTodo(w) == CommitTodo(g)
  }

  /** Steps that take nothing out of a queue or batch and put nothing into one. */
  predicate Still(st: Step) {
    || st.LockLog? || st.ReleaseLog? || st.LockSync? || st.SyncFile? || st.ReleaseSync? || st.LockCommit?
    || st.EngineCommit? || st.ReleaseCommit? || st.SignalDone? || st.Wake? || st.FinishEngine? || st.FinishXid?
  }

  lemma StillFlushing(c: Config, g: Stages, st: Step)
    requires Shape(c, g) && (st.LockLog? || st.ReleaseLog?) && CanMove(c, g, st)
    ensures SameSegments(g, Move(c, g, st))
  {
  }

  lemma StillSyncing(c: Config, g: Stages, st: Step)
    requires Shape(c, g) && (st.LockSync? || st.SyncFile? || st.ReleaseSync?) && CanMove(c, g, st)
    ensures SameSegments(g, Move(c, g, st))
  {
  }

  lemma StillLocking(c: Config, g: Stages, st: Step)
    requires Shape(c, g) && (st.LockCommit? || st.ReleaseCommit?) && CanMove(c, g, st)
    ensures SameSegments(g, Move(c, g, st))
  {
  }

  lemma StillCommitting(c: Config, g: Stages, st: Step)
    requires Shape(c, g) && (st.EngineCommit? || st.SignalDone?) && CanMove(c, g, st)
    ensures SameSegments(g, Move(c, g, st))
  {
  }

  /** A session that holds no stage mutex moves: no segment changes. */
  lemma OutsideSegments(c: Config, g: Stages, l: Session, q: Pc)
    requires Shape(c, g) && l in g.pc
    requires !HoldsLog(c, g.pc[l]) && !HoldsSync(g.pc[l]) && !HoldsCommit(g.pc[l])
    ensures SameSegments(g, g.(pc := g.pc[l := q]))
  {
  }

  lemma StillLate(c: Config, g: Stages, st: Step)
    requires Shape(c, g) && (st.Wake? || st.FinishEngine? || st.FinishXid?) && CanMove(c, g, st)
    ensures SameSegments(g, Move(c, g, st))
  {
    OutsideSegments(c, g, st.s, Move(c, g, st).pc[st.s]);
  }

  lemma StillSegments(c: Config, g: Stages, st: Step)
    requires Shape(c, g) && Still(st) && CanMove(c, g, st)
    ensures SameSegments(g, Move(c, g, st))
  {
    match st
    case LockCommit(_) => StillLocking(c, g, st);
    case EngineCommit(_) => StillCommitting(c, g, st);
    case ReleaseCommit(_) => StillLocking(c, g, st);
    case SignalDone(_) => StillCommitting(c, g, st);
    case Wake(_) => StillLate(c, g, st);
    case FinishEngine(_) => StillLate(c, g, st);
    case FinishXid(_) => StillLate(c, g, st);
    case LockLog(_) => StillFlushing(c, g, st);
    case ReleaseLog(_) => StillFlushing(c, g, st);
    case _ => StillSyncing(c, g, st);
  }

  lemma RotationSegments(c: Config, g: Stages, st: Step)
    requires Shape(c, g) && CanMove(c, g, st)
    requires st.RotLock? || st.RotDrain? || st.RotFlushEngines? || st.RotSwitch? || st.RotUnlock?
    ensures SameSegments(g, Move(c, g, st))
  {
  }

  lemma EnrollSegments(c: Config, g: Stages, st: Step)
    requires Shape(c, g) && st.Enroll? && CanMove(c, g, st)
    ensures SameSegments(g, Move(c, g, st))
  {
  }

  lemma PopSegments(c: Config, g: Stages, st: Step)
    requires Shape(c, g) && (st.PopFront? || st.FetchFlush?) && CanMove(c, g, st)
    ensures var w := Move(c, g, st);
      && FlushDone(w) == FlushDone(g) && FlushTodo(g) == [] && FlushTodo(w) + w.fq == g.fq
      && SyncBatch(w) == SyncBatch(g) && CommitTodo(w) == CommitTodo(g)
  {
  }

  lemma FlushSegments(c: Config, g: Stages, st: Step)
    requires Shape(c, g) && st.FlushOne? && CanMove(c, g, st)
    ensures var w, t := Move(c, g, st), g.pc[st.s].todo[0];
      && FlushDone(w) == FlushDone(g) + [t] && FlushTodo(g) == [t] + FlushTodo(w)
      && SyncBatch(w) == SyncBatch(g) && CommitTodo(w) == CommitTodo(g)
  {
  }

  lemma EnrollSyncSegments(c: Config, g: Stages, st: Step)
    requires Shape(c, g) && st.EnrollSync? && CanMove(c, g, st)
    ensures var w := Move(c, g, st);
      && SyncBatch(w) + w.sq + FlushDone(w) == SyncBatch(g) + g.sq + FlushDone(g)
      && FlushTodo(w) == FlushTodo(g) && CommitTodo(w) == CommitTodo(g)
  {
  }

  lemma FetchSyncSegments(c: Config, g: Stages, st: Step)
    requires Shape(c, g) && st.FetchSync? && CanMove(c, g, st)
    ensures var w := Move(c, g, st);
      && SyncBatch(w) + w.sq + FlushDone(w) == SyncBatch(g) + g.sq + FlushDone(g)
      && FlushTodo(w) == FlushTodo(g) && CommitTodo(w) == CommitTodo(g)
  {
  }

  lemma SyncSegments(c: Config, g: Stages, st: Step)
    requires Shape(c, g) && (st.EnrollSync? || st.FetchSync?) && CanMove(c, g, st)
    ensures var w := Move(c, g, st);
      && SyncBatch(w) + w.sq + FlushDone(w) == SyncBatch(g) + g.sq + FlushDone(g)
      && FlushTodo(w) == FlushTodo(g) && CommitTodo(w) == CommitTodo(g)
  {
    if st.EnrollSync? {
      EnrollSyncSegments(c, g, st);
    } else {
      FetchSyncSegments(c, g, st);
    }
  }

  lemma EnrollCommitSegments(c: Config, g: Stages, st: Step)
    requires Shape(c, g) && st.EnrollCommit? && CanMove(c, g, st)
    ensures var w := Move(c, g, st);
      && CommitTodo(w) + w.cq + SyncBatch(w) == CommitTodo(g) + g.cq + SyncBatch(g)
      && FlushDone(w) == FlushDone(g) && FlushTodo(w) == FlushTodo(g)
  {
  }

  lemma FetchCommitSegments(c: Config, g: Stages, st: Step)
    requires Shape(c, g) && st.FetchCommit? && CanMove(c, g, st)
    ensures var w := Move(c, g, st);
      && CommitTodo(w) + w.cq + SyncBatch(w) == CommitTodo(g) + g.cq + SyncBatch(g)
      && FlushDone(w) == FlushDone(g) && FlushTodo(w) == FlushTodo(g)
  {
  }

  lemma CommitSegments(c: Config, g: Stages, st: Step)
    requires Shape(c, g) && (st.EnrollCommit? || st.FetchCommit?) && CanMove(c, g, st)
    ensures var w := Move(c, g, st);
      && CommitTodo(w) + w.cq + SyncBatch(w) == CommitTodo(g) + g.cq + SyncBatch(g)
      && FlushDone(w) == FlushDone(g) && FlushTodo(w) == FlushTodo(g)
  {
    if st.EnrollCommit? {
      EnrollCommitSegments(c, g, st);
    } else {
      FetchCommitSegments(c, g, st);
    }
  }

  lemma SkipSegments(c: Config, g: Stages, st: Step)
    requires Shape(c, g) && st.SkipCommit? && CanMove(c, g, st)
    ensures var w := Move(c, g, st);
      && SyncBatch(g) == g.pc[st.s].batch && SyncBatch(w) == []
      && FlushDone(w) == FlushDone(g) && FlushTodo(w) == FlushTodo(g) && CommitTodo(w) == CommitTodo(g)
  {
  }

  lemma DropSegments(c: Config, g: Stages, st: Step)
    requires Shape(c, g) && st.DropXid? && CanMove(c, g, st)
    ensures var w := Move(c, g, st);
      && CommitTodo(g) == [g.pc[st.s].todo[0]] + CommitTodo(w)
      && FlushDone(w) == FlushDone(g) && FlushTodo(w) == FlushTodo(g) && SyncBatch(w) == SyncBatch(g)
  {
  }

  // ---------------------------------------------------------------- the order is kept

  lemma MovedKeys(c: Config, g: Stages, st: Step)
    requires CanMove(c, g, st)
    ensures forall s :: s in Move(c, g, st).pc <==> s in g.pc || (st.Enroll? && s == st.s)
  {
  }

  lemma KeysKept(c: Config, v: State, st: Step)
    requires (forall s :: s in v.g.pc <==> s in v.enrolled) && Enabled(c, v, st)
    ensures var w := Next(c, v, st); forall s :: s in w.g.pc <==> s in w.enrolled
  {
    MovedKeys(c, v.g, st);
  }

  predicate InCommit(st: Step) {
    st.EnrollCommit? || st.LockCommit? || st.FetchCommit? || st.ReleaseCommit?
  }

  lemma OutsideCommit(c: Config, g: Stages, st: Step)
    requires !InCommit(st) && CanMove(c, g, st)
    ensures Move(c, g, st).cq == g.cq && Move(c, g, st).com == g.com
  {
  }

  lemma NoCommitStage(c: Config, g: Stages, st: Step)
    requires Shape(c, g) && CanMove(c, g, st) && !c.ordered && g.cq == [] && g.com.Free?
    ensures !InCommit(st)
  {
    assert st.LockCommit? ==> Heads(g, st.s, g.pc[st.s]);
  }

  lemma UnorderedKept(c: Config, g: Stages, st: Step)
    requires Shape(c, g) && CanMove(c, g, st) && !c.ordered && g.cq == [] && g.com.Free?
    ensures Move(c, g, st).cq == [] && Move(c, g, st).com.Free?
  {
    NoCommitStage(c, g, st);
    OutsideCommit(c, g, st);
  }

  /** Concatenation can be regrouped. */
  lemma Regroup(a: seq<Session>, b: seq<Session>, x: seq<Session>, y: seq<Session>, z: seq<Session>)
    ensures a + b + x + y + z == (a + b) + (x + y + z)
    ensures a + b + x + y + z == (a + b + x) + (y + z)
  {
  }

  lemma RegroupFirst(t: seq<Session>, a: seq<Session>, b: seq<Session>, x: seq<Session>, y: seq<Session>,
                     z: seq<Session>)
    ensures (t + a) + b + x + y + z == t + (a + b + x + y + z)
  {
  }

  lemma RegroupLast(a: seq<Session>, b: seq<Session>, x: seq<Session>, y: seq<Session>, z: seq<Session>,
                    t: seq<Session>)
    ensures a + b + x + y + (z + t) == (a + b + x + y + z) + t
  {
  }

  lemma RegroupEmpty(x: seq<Session>, y: seq<Session>, z: seq<Session>)
    ensures [] + [] + x + y + z == x + ([] + [] + [] + y + z)
  {
  }

  lemma Regroup3(a: seq<Session>, b: seq<Session>, x: seq<Session>)
    ensures (a + b) + x == a + (b + x)
  {
  }

  lemma RegroupBoth(g: Stages, w: Stages)
    ensures InFlight(g) == (CommitTodo(g) + g.cq) + (SyncBatch(g) + g.sq + FlushDone(g))
    ensures InFlight(w) == (CommitTodo(w) + w.cq) + (SyncBatch(w) + w.sq + FlushDone(w))
    ensures InFlight(g) == (CommitTodo(g) + g.cq + SyncBatch(g)) + (g.sq + FlushDone(g))
    ensures InFlight(w) == (CommitTodo(w) + w.cq + SyncBatch(w)) + (w.sq + FlushDone(w))
  {
    Regroup(CommitTodo(g), g.cq, SyncBatch(g), g.sq, FlushDone(g));
    Regroup(CommitTodo(w), w.cq, SyncBatch(w), w.sq, FlushDone(w));
  }

  /** Steps that neither flush a session, nor let one through, nor enroll one. */
  predicate Shuffle(st: Step) {
    !st.Enroll? && !st.FlushOne? && !st.SkipCommit? && !st.DropXid?
  }

  lemma ShuffleKept(c: Config, g: Stages, st: Step)
    requires Shape(c, g) && Shuffle(st) && CanMove(c, g, st)
    ensures var w := Move(c, g, st); InFlight(w) == InFlight(g) && Unflushed(w) == Unflushed(g)
  {
    var w := Move(c, g, st);
    if st.PopFront? || st.FetchFlush? {
      PopSegments(c, g, st);
    } else if st.EnrollSync? || st.FetchSync? {
      SyncSegments(c, g, st);
      RegroupBoth(g, w);
    } else if st.EnrollCommit? || st.FetchCommit? {
      CommitSegments(c, g, st);
      RegroupBoth(g, w);
    } else if Still(st) {
      StillSegments(c, g, st);
    } else {
      RotationSegments(c, g, st);
    }
  }

  lemma FlushOrder(c: Config, v: State, st: Step)
    requires Shape(c, v.g) && Chain(v) && st.FlushOne? && Enabled(c, v, st)
    ensures Chain(Next(c, v, st))
  {
    var g, w, t := v.g, Next(c, v, st), v.g.pc[st.s].todo[0];
    FlushSegments(c, g, st);
    RegroupLast(CommitTodo(g), g.cq, SyncBatch(g), g.sq, FlushDone(g), [t]);
    Regroup3(v.through, InFlight(g), [t]);
    Regroup3([t], FlushTodo(w.g), g.fq);
    Regroup3(v.flushed, [t], Unflushed(w.g));
  }

  lemma DropOrder(c: Config, v: State, st: Step)
    requires Shape(c, v.g) && Chain(v) && st.DropXid? && Enabled(c, v, st)
    ensures Chain(Next(c, v, st))
  {
    var g, w, t := v.g, Next(c, v, st), v.g.pc[st.s].todo[0];
    DropSegments(c, g, st);
    RegroupFirst([t], CommitTodo(w.g), g.cq, SyncBatch(g), g.sq, FlushDone(g));
    Regroup3(v.through, [t], InFlight(w.g));
  }

  lemma SkipFlight(c: Config, g: Stages, st: Step)
    requires Shape(c, g) && st.SkipCommit? && CanMove(c, g, st) && g.cq == [] && g.com.Free?
    ensures var w := Move(c, g, st);
      SyncBatch(g) == g.pc[st.s].batch && InFlight(g) == SyncBatch(g) + InFlight(w) && Unflushed(w) == Unflushed(g)
  {
    SkipSegments(c, g, st);
    RegroupEmpty(SyncBatch(g), g.sq, FlushDone(g));
  }

  lemma SkipOrder(c: Config, v: State, st: Step)
    requires Shape(c, v.g) && Order(c, v) && st.SkipCommit? && Enabled(c, v, st)
    ensures Chain(Next(c, v, st))
  {
    var g, w := v.g, Next(c, v, st);
    SkipFlight(c, g, st);
    Regroup3(v.through, SyncBatch(g), InFlight(w.g));
  }

  lemma EnrollOrder(c: Config, v: State, st: Step)
    requires Shape(c, v.g) && Order(c, v) && st.Enroll? && Enabled(c, v, st)
    ensures Chain(Next(c, v, st))
  {
    EnrollSegments(c, v.g, st);
    assert st.s !in v.enrolled;
  }

  lemma ShuffleOrder(c: Config, v: State, st: Step)
    requires Shape(c, v.g) && Chain(v) && Shuffle(st) && Enabled(c, v, st)
    ensures Chain(Next(c, v, st))
  {
    ShuffleKept(c, v.g, st);
  }

  lemma ChainKept(c: Config, v: State, st: Step)
    requires Shape(c, v.g) && Order(c, v) && Enabled(c, v, st)
    ensures Chain(Next(c, v, st))
  {
    match st
    case Enroll(_, _) => EnrollOrder(c, v, st);
    case FlushOne(_, _) => FlushOrder(c, v, st);
    case DropXid(_) => DropOrder(c, v, st);
    case SkipCommit(_) => SkipOrder(c, v, st);
    case _ => ShuffleOrder(c, v, st);
  }

  lemma OrderKept(c: Config, v: State, st: Step)
    requires Shape(c, v.g) && Order(c, v) && Enabled(c, v, st)
    ensures Order(c, Next(c, v, st))
  {
    ChainKept(c, v, st);
    KeysKept(c, v, st);
    if !c.ordered {
      UnorderedKept(c, v.g, st);
    }
  }
}
