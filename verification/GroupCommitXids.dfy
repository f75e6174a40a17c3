/**
  Prepared XIDs and rotation: the counter counts the raised flags, and a log file is closed only
  after every XID transaction in it went through its engine commit and that commit is durable.
 */
module GroupCommitXids {
  import opened GroupCommit
  import opened GroupCommitShape
  import opened GroupCommitOrder
  import opened GroupCommitFlags
  import opened GroupCommitEngine

  ghost predicate Xids(c: Config, v: State) {
    && v.prep == |v.xid|
    && (forall s :: s in v.xid ==> s in v.flushed && s in v.g.pc && !v.g.pc[s].Done?)
    && (c.ordered ==> forall s :: s in v.xid ==> s !in v.through)
  }

  /** What recovery relies on: only the last log can hold a transaction the engines may have lost. */
  ghost predicate Files(v: State) {
    && (forall s :: s in v.current ==> s in v.flushed && (s in v.wanted ==> s in v.xid || s in v.engine))
    && (forall s :: s in v.durable ==> s in v.engine)
    && (forall i, s :: 0 <= i < |v.closed| && s in v.closed[i] ==>
          s in v.flushed && (s in v.wanted ==> s in v.durable))
    && (v.g.log == Rotating(Drained) || v.g.log == Rotating(EnginesFlushed) ==> v.xid == {})
    && (v.g.log == Rotating(EnginesFlushed) ==> forall s :: s in v.current && s in v.wanted ==> s in v.durable)
  }

  // ---------------------------------------------------------------- the counter

  /** A guarded decrement for `t`, whoever makes it. */
  lemma DecXids(c: Config, v: State, w: State, t: Session)
    requires Xids(c, v)
    requires w.prep == DecPrepXids(v, t) && w.xid == v.xid - {t} && w.flushed == v.flushed
    requires forall s :: s in v.xid && s != t ==> s in w.g.pc && !w.g.pc[s].Done?
    requires c.ordered ==> forall s :: s in w.through ==> s in v.through || s == t
    ensures Xids(c, w)
  {
    if t in v.xid {
      assert v.xid == w.xid + {t};
    } else {
      assert w.xid == v.xid;
    }
  }

  predicate MovesXid(st: Step) {
    st.Enroll? || st.FlushOne? || st.SkipCommit? || st.DropXid? || st.FinishXid?
  }

  lemma CalmXids(c: Config, v: State, st: Step)
    requires Xids(c, v) && !MovesXid(st) && Enabled(c, v, st)
    ensures Xids(c, Next(c, v, st))
  {
    var w := Next(c, v, st);
    assert w.xid == v.xid && w.prep == v.prep && w.flushed == v.flushed && w.through == v.through;
    assert forall s :: s in v.g.pc && !v.g.pc[s].Done? ==> s in w.g.pc && !w.g.pc[s].Done?;
  }

  lemma FlushXids(c: Config, v: State, st: Step)
    requires Shape(c, v.g) && Order(c, v) && Xids(c, v) && st.FlushOne? && Enabled(c, v, st)
    requires Flags(v)
    ensures Xids(c, Next(c, v, st))
  {
    var t := v.g.pc[st.s].todo[0];
    assert t !in v.flushed && t !in v.through && t in v.enrolled by {
      Members(v);
      Parts(v.g);
    }
    assert t !in v.xid && t in v.pending;
  }

  lemma EnrollXids(c: Config, v: State, st: Step)
    requires Chain(v) && Order(c, v) && Xids(c, v) && st.Enroll? && Enabled(c, v, st)
    ensures Xids(c, Next(c, v, st))
  {
    assert st.s !in v.xid by {
      Members(v);
    }
    assert Next(c, v, st).xid == v.xid;
  }

  lemma DropXids(c: Config, v: State, st: Step)
    requires Xids(c, v) && (st.SkipCommit? || st.DropXid? || st.FinishXid?) && Enabled(c, v, st)
    ensures Xids(c, Next(c, v, st))
  {
    if !st.SkipCommit? {
      DecXids(c, v, Next(c, v, st), if st.DropXid? then v.g.pc[st.s].todo[0] else st.s);
    }
  }

  lemma XidsKept(c: Config, v: State, st: Step)
    requires Shape(c, v.g) && Order(c, v) && Flags(v) && Xids(c, v) && Enabled(c, v, st)
    ensures Xids(c, Next(c, v, st))
  {
    if st.FlushOne? {
      FlushXids(c, v, st);
    } else if st.Enroll? {
      EnrollXids(c, v, st);
    } else if MovesXid(st) {
      DropXids(c, v, st);
    } else {
      CalmXids(c, v, st);
    }
  }

  // ---------------------------------------------------------------- the log files

  /** A flag is dropped only after the engine commit of its session. */
  lemma DroppedIsCommitted(c: Config, v: State, st: Step)
    requires Shape(c, v.g) && Order(c, v) && Engine(c, v) && (st.DropXid? || st.FinishXid?) && Enabled(c, v, st)
    ensures var t := if st.DropXid? then v.g.pc[st.s].todo[0] else st.s; t in v.wanted ==> t in v.engine
  {
    if st.DropXid? {
      assert Stored(v.g) == [v.g.pc[st.s].todo[0]];
      assert c.ordered;
      OrderedThrough(c, v);
    }
  }

  lemma DropFiles(c: Config, v: State, st: Step)
    requires Shape(c, v.g) && Order(c, v) && Engine(c, v) && Files(v)
    requires (st.DropXid? || st.FinishXid?) && Enabled(c, v, st)
    ensures Files(Next(c, v, st))
  {
    DroppedIsCommitted(c, v, st);
    FilesWithout(v, Next(c, v, st), if st.DropXid? then v.g.pc[st.s].todo[0] else st.s);
  }

  /** The flag of `t` is lowered after its engine commit. */
  lemma FilesWithout(v: State, w: State, t: Session)
    requires Files(v) && (t in v.wanted ==> t in v.engine) && w.xid == v.xid - {t}
    requires w.current == v.current && w.flushed == v.flushed && w.wanted == v.wanted && w.engine == v.engine
    requires w.durable == v.durable && w.closed == v.closed && w.g.log == v.g.log
    ensures Files(w)
  {
  }

  lemma EnrollFiles(c: Config, v: State, st: Step)
    requires Order(c, v) && Files(v) && st.Enroll? && Enabled(c, v, st)
    ensures Files(Next(c, v, st))
  {
    assert st.s !in v.flushed by {
      Members(v);
    }
  }

  lemma FlushFiles(c: Config, v: State, st: Step)
    requires Shape(c, v.g) && Files(v) && st.FlushOne? && Enabled(c, v, st)
    ensures Files(Next(c, v, st))
  {
    assert HoldsLog(c, v.g.pc[st.s]);
  }

  lemma RotationFiles(c: Config, v: State, st: Step)
    requires Xids(c, v) && Files(v) && Enabled(c, v, st)
    requires st.RotDrain? || st.RotFlushEngines? || st.RotSwitch?
    ensures Files(Next(c, v, st))
  {
    var w := Next(c, v, st);
    assert st.RotSwitch? ==> forall i :: 0 <= i < |v.closed| ==> w.closed[i] == v.closed[i];
  }

  /** Steps that neither change a log file nor a flag recovery relies on. */
  predicate KeepsFiles(st: Step) {
    && !st.DropXid? && !st.FinishXid? && !st.Enroll? && !st.FlushOne?
    && !st.RotDrain? && !st.RotFlushEngines? && !st.RotSwitch?
  }

  lemma CalmFiles(c: Config, v: State, st: Step)
    requires Files(v) && KeepsFiles(st) && Enabled(c, v, st)
    ensures Files(Next(c, v, st))
  {
    var w := Next(c, v, st);
    assert w.closed == v.closed && w.current == v.current && w.flushed == v.flushed && w.wanted == v.wanted;
    assert w.durable == v.durable && w.xid == v.xid && (forall s :: s in v.engine ==> s in w.engine);
  }

  lemma FilesKept(c: Config, v: State, st: Step)
    requires Shape(c, v.g) && Order(c, v) && Engine(c, v) && Xids(c, v) && Files(v) && Enabled(c, v, st)
    ensures Files(Next(c, v, st))
  {
    if st.DropXid? || st.FinishXid? {
      DropFiles(c, v, st);
    } else if st.Enroll? {
      EnrollFiles(c, v, st);
    } else if st.FlushOne? {
      FlushFiles(c, v, st);
    } else if KeepsFiles(st) {
      CalmFiles(c, v, st);
    } else {
      RotationFiles(c, v, st);
    }
  }
}
