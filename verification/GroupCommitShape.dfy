/**
  The shape of the group commit pipeline: who owns which mutex, who leads which queue, and the
  preservation of both by every step.
 */
module GroupCommitShape {
  import opened GroupCommit

  // ---------------------------------------------------------------- mutex ownership

  predicate HoldsLog(c: Config, p: Pc) {
    p.Flushing? || p.LeaveFlush? || (c.syncEvery && (p.WaitSync? || p.AtSync? || p.Syncing?))
  }

  predicate HoldsSync(p: Pc) {
    p.AtSync? || p.Syncing? || p.Synced? || p.LeaveSync?
  }

  predicate HoldsCommit(p: Pc) {
    p.AtCommit? || p.Committing?
  }

  ghost predicate Locks(c: Config, g: Stages) {
    && (g.log.LogHeld? ==> g.log.owner in g.pc && HoldsLog(c, g.pc[g.log.owner]))
    && (forall l :: l in g.pc && HoldsLog(c, g.pc[l]) ==> g.log == LogHeld(l))
    && (c.syncEvery ==> forall l :: l in g.pc ==> !g.pc[l].LeaveFlush?)
    && (g.syn.Held? ==> g.syn.owner in g.pc && HoldsSync(g.pc[g.syn.owner]))
    && (forall l :: l in g.pc && HoldsSync(g.pc[l]) ==> g.syn == Held(l))
    && (g.com.Held? ==> g.com.owner in g.pc && HoldsCommit(g.pc[g.com.owner]))
    && (forall l :: l in g.pc && HoldsCommit(g.pc[l]) ==> g.com == Held(l))
  }

  // ---------------------------------------------------------------- leaders

  /** Some session is popping the FLUSH queue and will come back for more. */
  predicate Popping(g: Stages) {
    g.log.LogHeld? && g.log.owner in g.pc && g.pc[g.log.owner].Flushing? && g.pc[g.log.owner].more
  }

  predicate LeadsSync(p: Pc) {
    (p.LeaveFlush? && p.leads) || p.WaitSync? || p.AtSync?
  }

  predicate LeadsCommit(p: Pc) {
    (p.LeaveSync? && p.leads) || p.WaitCommit? || p.AtCommit?
  }

  /** A non-empty queue has a leader: for FLUSH the popping session or the waiting first one. */
  ghost predicate Leaders(g: Stages) {
    && (g.fq != [] && !Popping(g) ==> g.fq[0] in g.pc && g.pc[g.fq[0]].WaitLog?)
    && (Popping(g) ==> g.fq != [])
    && (g.sq != [] ==> g.sq[0] in g.pc && LeadsSync(g.pc[g.sq[0]]))
    && (g.cq != [] ==> g.cq[0] in g.pc && LeadsCommit(g.pc[g.cq[0]]))
  }

  /** A leader is the first session of what it leads; a follower sleeps on its own flag. */
  predicate Heads(g: Stages, l: Session, p: Pc) {
    && (p.WaitLog? ==> g.fq != [] && g.fq[0] == l && !Popping(g))
    && (p.Flushing? ==>
          if p.done != [] then p.done[0] == l
          else if p.todo != [] then p.todo[0] == l
          else p.more && g.fq != [] && g.fq[0] == l)
    && (LeadsSync(p) ==> g.sq != [] && g.sq[0] == l)
    && (LeadsCommit(p) ==> g.cq != [] && g.cq[0] == l)
    && (p.Syncing? || p.Synced? || p.Signalling? ==> p.batch != [] && p.batch[0] == l)
    && (p.Committing? ==> if p.done != [] then p.done[0] == l else p.todo != [] && p.todo[0] == l)
    && (p.LeaveFlush? || p.LeaveSync? || p.Waiting? ==> p.flag == l)
  }

  ghost predicate AllHeads(g: Stages) {
    forall l :: l in g.pc ==> Heads(g, l, g.pc[l])
  }

  ghost predicate Shape(c: Config, g: Stages) {
    Locks(c, g) && Leaders(g) && AllHeads(g)
  }

  /** Two program counters with the same mutexes and the same leadership. */
  predicate SameRole(c: Config, p: Pc, q: Pc) {
    && HoldsLog(c, p) == HoldsLog(c, q) && HoldsSync(p) == HoldsSync(q) && HoldsCommit(p) == HoldsCommit(q)
    && p.WaitLog? == q.WaitLog? && LeadsSync(p) == LeadsSync(q) && LeadsCommit(p) == LeadsCommit(q)
    && p.LeaveFlush? == q.LeaveFlush? && (p.Flushing? && p.more) == (q.Flushing? && q.more)
  }

  /** A step inside one role keeps the shape. */
  lemma RoleShape(c: Config, g: Stages, s: Session, q: Pc)
    requires Shape(c, g) && s in g.pc && SameRole(c, g.pc[s], q) && Heads(g, s, q)
    ensures Shape(c, g.(pc := g.pc[s := q]))
  {
    var w := g.(pc := g.pc[s := q]);
    assert Popping(w) == Popping(g);
    assert Heads(w, s, q);
  }

  lemma EnrollShape(c: Config, g: Stages, st: Step)
    requires Shape(c, g) && st.Enroll? && CanMove(c, g, st)
    ensures Shape(c, Move(c, g, st))
  {
    var w := Move(c, g, st);
    assert Popping(w) == Popping(g);
    assert Locks(c, w);
    assert w.fq[0] == if g.fq == [] then st.s else g.fq[0];
    forall l | l in w.pc ensures Heads(w, l, w.pc[l]) {
      if l != st.s {
        assert Heads(g, l, g.pc[l]);
      }
    }
  }

  lemma LockLogShape(c: Config, g: Stages, st: Step)
    requires Shape(c, g) && st.LockLog? && CanMove(c, g, st)
    ensures Shape(c, Move(c, g, st))
  {
  }

  lemma PopFrontShape(c: Config, g: Stages, st: Step)
    requires Shape(c, g) && st.PopFront? && CanMove(c, g, st)
    ensures Shape(c, Move(c, g, st))
  {
  }

  lemma FetchFlushShape(c: Config, g: Stages, st: Step)
    requires Shape(c, g) && st.FetchFlush? && CanMove(c, g, st)
    ensures Shape(c, Move(c, g, st))
  {
  }

  lemma EnrollSyncShape(c: Config, g: Stages, st: Step)
    requires Shape(c, g) && st.EnrollSync? && CanMove(c, g, st)
    ensures Shape(c, Move(c, g, st))
  {
    var w := Move(c, g, st);
    assert Locks(c, w);
    forall l | l in w.pc ensures Heads(w, l, w.pc[l]) {
      if l != st.s {
        assert Heads(g, l, g.pc[l]);
      }
    }
  }

  lemma ReleaseLogShape(c: Config, g: Stages, st: Step)
    requires Shape(c, g) && st.ReleaseLog? && CanMove(c, g, st)
    ensures Shape(c, Move(c, g, st))
  {
    var w := Move(c, g, st);
    forall l | l in w.pc ensures Heads(w, l, w.pc[l]) {
      assert Heads(g, l, g.pc[l]);
    }
  }

  lemma LockSyncShape(c: Config, g: Stages, st: Step)
    requires Shape(c, g) && st.LockSync? && CanMove(c, g, st)
    ensures Shape(c, Move(c, g, st))
  {
  }

  lemma FetchSyncShape(c: Config, g: Stages, st: Step)
    requires Shape(c, g) && st.FetchSync? && CanMove(c, g, st)
    ensures Shape(c, Move(c, g, st))
  {
    var w := Move(c, g, st);
    assert Locks(c, w);
    forall l | l in w.pc ensures Heads(w, l, w.pc[l]) {
      if l != st.s {
        assert Heads(g, l, g.pc[l]);
      }
    }
  }

  lemma SyncFileShape(c: Config, g: Stages, st: Step)
    requires Shape(c, g) && st.SyncFile? && CanMove(c, g, st)
    ensures Shape(c, Move(c, g, st))
  {
    var w := Move(c, g, st);
    assert Locks(c, w);
    forall l | l in w.pc ensures Heads(w, l, w.pc[l]) {
      assert Heads(g, l, g.pc[l]);
    }
  }

  lemma EnrollCommitShape(c: Config, g: Stages, st: Step)
    requires Shape(c, g) && st.EnrollCommit? && CanMove(c, g, st)
    ensures Shape(c, Move(c, g, st))
  {
    var w := Move(c, g, st);
    assert Locks(c, w);
    forall l | l in w.pc ensures Heads(w, l, w.pc[l]) {
      if l != st.s {
        assert Heads(g, l, g.pc[l]);
      }
    }
  }

  lemma ReleaseSyncShape(c: Config, g: Stages, st: Step)
    requires Shape(c, g) && st.ReleaseSync? && CanMove(c, g, st)
    ensures Shape(c, Move(c, g, st))
  {
    var w := Move(c, g, st);
    assert Locks(c, w);
    forall l | l in w.pc ensures Heads(w, l, w.pc[l]) {
      if l != st.s {
        assert Heads(g, l, g.pc[l]);
      }
    }
  }

  lemma SkipCommitShape(c: Config, g: Stages, st: Step)
    requires Shape(c, g) && st.SkipCommit? && CanMove(c, g, st)
    ensures Shape(c, Move(c, g, st))
  {
    var w := Move(c, g, st);
    assert Locks(c, w);
    forall l | l in w.pc ensures Heads(w, l, w.pc[l]) {
      if l != st.s {
        assert Heads(g, l, g.pc[l]);
      }
    }
  }

  lemma LockCommitShape(c: Config, g: Stages, st: Step)
    requires Shape(c, g) && st.LockCommit? && CanMove(c, g, st)
    ensures Shape(c, Move(c, g, st))
  {
  }

  lemma FetchCommitShape(c: Config, g: Stages, st: Step)
    requires Shape(c, g) && st.FetchCommit? && CanMove(c, g, st)
    ensures Shape(c, Move(c, g, st))
  {
    var w := Move(c, g, st);
    assert Locks(c, w);
    forall l | l in w.pc ensures Heads(w, l, w.pc[l]) {
      if l != st.s {
        assert Heads(g, l, g.pc[l]);
      }
    }
  }

  lemma ReleaseCommitShape(c: Config, g: Stages, st: Step)
    requires Shape(c, g) && st.ReleaseCommit? && CanMove(c, g, st)
    ensures Shape(c, Move(c, g, st))
  {
    var w := Move(c, g, st);
    assert Locks(c, w);
    forall l | l in w.pc ensures Heads(w, l, w.pc[l]) {
      if l != st.s {
        assert Heads(g, l, g.pc[l]);
      }
    }
  }

  /** Steps that stay inside one role. */
  predicate Inside(st: Step) {
    || st.FlushOne? || st.EngineCommit? || st.DropXid? || st.SignalDone? || st.Wake? || st.FinishEngine?
    || st.FinishXid?
  }

  lemma LeaderRole(c: Config, g: Stages, st: Step)
    requires (st.FlushOne? || st.EngineCommit? || st.DropXid?) && CanMove(c, g, st) && Heads(g, st.s, g.pc[st.s])
    ensures var w := Move(c, g, st);
      && st.s in w.pc && w == g.(pc := g.pc[st.s := w.pc[st.s]])
      && SameRole(c, g.pc[st.s], w.pc[st.s]) && Heads(g, st.s, w.pc[st.s])
  {
  }

  lemma LeaverRole(c: Config, g: Stages, st: Step)
    requires (st.SignalDone? || st.Wake? || st.FinishEngine? || st.FinishXid?) && CanMove(c, g, st)
    ensures var w := Move(c, g, st);
      && st.s in w.pc && w == g.(pc := g.pc[st.s := w.pc[st.s]])
      && SameRole(c, g.pc[st.s], w.pc[st.s]) && Heads(g, st.s, w.pc[st.s])
  {
  }

  lemma InsideShape(c: Config, g: Stages, st: Step)
    requires Shape(c, g) && Inside(st) && CanMove(c, g, st)
    ensures Shape(c, Move(c, g, st))
  {
    assert Heads(g, st.s, g.pc[st.s]);
    if st.FlushOne? || st.EngineCommit? || st.DropXid? {
      LeaderRole(c, g, st);
    } else {
      LeaverRole(c, g, st);
    }
    RoleShape(c, g, st.s, Move(c, g, st).pc[st.s]);
  }

  lemma RotationShape(c: Config, g: Stages, st: Step)
    requires Shape(c, g) && CanMove(c, g, st)
    requires st.RotLock? || st.RotDrain? || st.RotFlushEngines? || st.RotSwitch? || st.RotUnlock?
    ensures Shape(c, Move(c, g, st))
  {
    var w := Move(c, g, st);
    assert !Popping(g) && !Popping(w);
    forall l | l in w.pc ensures Heads(w, l, w.pc[l]) {
      assert Heads(g, l, g.pc[l]);
    }
  }

  lemma ShapeKept(c: Config, g: Stages, st: Step)
    requires Shape(c, g) && CanMove(c, g, st)
    ensures Shape(c, Move(c, g, st))
  {
    match st
    case Enroll(_, _) => EnrollShape(c, g, st);
    case LockLog(_) => LockLogShape(c, g, st);
    case PopFront(_) => PopFrontShape(c, g, st);
    case FetchFlush(_) => FetchFlushShape(c, g, st);
    case FlushOne(_, _) => InsideShape(c, g, st);
    case EnrollSync(_) => EnrollSyncShape(c, g, st);
    case ReleaseLog(_) => ReleaseLogShape(c, g, st);
    case LockSync(_) => LockSyncShape(c, g, st);
    case FetchSync(_) => FetchSyncShape(c, g, st);
    case SyncFile(_) => SyncFileShape(c, g, st);
    case EnrollCommit(_) => EnrollCommitShape(c, g, st);
    case ReleaseSync(_) => ReleaseSyncShape(c, g, st);
    case SkipCommit(_) => SkipCommitShape(c, g, st);
    case LockCommit(_) => LockCommitShape(c, g, st);
    case FetchCommit(_) => FetchCommitShape(c, g, st);
    case ReleaseCommit(_) => ReleaseCommitShape(c, g, st);
    case RotLock => RotationShape(c, g, st);
    case RotDrain => RotationShape(c, g, st);
    case RotFlushEngines => RotationShape(c, g, st);
    case RotSwitch => RotationShape(c, g, st);
    case RotUnlock => RotationShape(c, g, st);
    case _ => InsideShape(c, g, st);
  }
}
