/**
  Pending flags: a session is pending from its enrolment until the leader that took it out of the
  last stage signals it, and until then it is in exactly one queue or batch.
 */
module GroupCommitFlags {
  import opened GroupCommit
  import opened GroupCommitShape
  import opened GroupCommitOrder

  // ---------------------------------------------------------------- membership

  /** Every segment of the chain is disjoint from what already left. */
  lemma Members(v: State)
    requires Chain(v)
    ensures forall s :: s in v.through ==> s in v.flushed
    ensures forall s :: s in v.flushed ==> s in v.enrolled
    ensures forall s :: s in InFlight(v.g) ==> s in v.flushed && s !in v.through
    ensures forall s :: s in Unflushed(v.g) ==> s in v.enrolled && s !in v.flushed
    ensures forall s :: s in v.flushed ==> s in v.through || s in InFlight(v.g)
    ensures forall s :: s in v.enrolled ==> s in v.flushed || s in Unflushed(v.g)
  {
    forall s | s in InFlight(v.g) ensures s !in v.through {
      var j :| 0 <= j < |InFlight(v.g)| && InFlight(v.g)[j] == s;
      assert v.enrolled[|v.through| + j] == s;
      assert forall i :: 0 <= i < |v.through| ==> v.enrolled[i] == v.through[i];
    }
    forall s | s in Unflushed(v.g) ensures s !in v.flushed {
      var j :| 0 <= j < |Unflushed(v.g)| && Unflushed(v.g)[j] == s;
      assert v.enrolled[|v.flushed| + j] == s;
      assert forall i :: 0 <= i < |v.flushed| ==> v.enrolled[i] == v.flushed[i];
    }
  }

  lemma Parts(g: Stages)
    ensures forall s :: s in CommitTodo(g) || s in g.cq || s in SyncBatch(g) || s in g.sq || s in FlushDone(g)
                   <==> s in InFlight(g)
    ensures forall s :: s in FlushTodo(g) || s in g.fq <==> s in Unflushed(g)
  {
  }

  // ---------------------------------------------------------------- the invariant

  predicate Out(p: Pc) {
    p.Finishing? || p.Done?
  }

  /** The sessions a leader has taken through the last stage and not yet signalled. */
  function Unsignalled(p: Pc): seq<Session> {
    if p.Signalling? then p.batch else if p.Committing? then p.done else []
  }

  ghost predicate Pending(v: State) {
    && (forall s :: s in v.enrolled && s !in v.through ==> s in v.pending)
    && (forall s :: s in v.pending ==> s in v.g.pc)
    && (forall l :: l in v.g.pc && Out(v.g.pc[l]) ==> l !in v.pending)
  }

  ghost predicate Signals(v: State) {
    && (forall l, s :: l in v.g.pc && s in Unsignalled(v.g.pc[l]) ==>
          s in v.through && s in v.pending && s in v.led && v.led[s] == l)
    && (forall s :: s in v.through && s in v.pending ==>
          s in v.led && v.led[s] in v.g.pc && s in Unsignalled(v.g.pc[v.led[s]]))
    && (forall s :: s in CommitTodo(v.g) ==> s in v.led && v.led[s] == v.g.com.owner)
  }

  ghost predicate Flags(v: State) {
    Pending(v) && Signals(v)
  }

  // ---------------------------------------------------------------- preservation

  /** What the commit leader still has to do is the same, and so is that leader. */
  ghost predicate SameCommit(g: Stages, w: Stages) {
    CommitTodo(w) == CommitTodo(g) && (CommitTodo(g) != [] ==> w.com == g.com)
  }

  /** One session moves, keeps what it has to signal, and no flag changes. */
  lemma MoveFlags(v: State, w: State, l: Session, q: Pc)
    requires Flags(v) && l in v.g.pc && w.g.pc == v.g.pc[l := q]
    requires Unsignalled(q) == Unsignalled(v.g.pc[l]) && (Out(q) ==> Out(v.g.pc[l]) || l !in v.pending)
    requires w.enrolled == v.enrolled && w.through == v.through && w.pending == v.pending && w.led == v.led
    requires SameCommit(v.g, w.g)
    ensures Flags(w)
  {
    assert Pending(w);
    forall m, s | m in w.g.pc && s in Unsignalled(w.g.pc[m])
      ensures s in w.through && s in w.pending && s in w.led && w.led[s] == m
    {
      assert s in Unsignalled(v.g.pc[m]);
    }
    forall s | s in w.through && s in w.pending
      ensures s in w.led && w.led[s] in w.g.pc && s in Unsignalled(w.g.pc[w.led[s]])
    {
      assert s in Unsignalled(v.g.pc[v.led[s]]);
    }
  }

  lemma EnrollFlags(v: State, w: State, l: Session, q: Pc)
    requires Flags(v) && l !in v.g.pc && w.g.pc == v.g.pc[l := q]
    requires Unsignalled(q) == [] && !Out(q) && l !in v.through
    requires w.enrolled == v.enrolled + [l] && w.through == v.through && w.pending == v.pending + {l}
    requires w.led == v.led && SameCommit(v.g, w.g)
    ensures Flags(w)
  {
  }

  lemma SignalPending(v: State, w: State, l: Session, b: seq<Session>)
    requires Flags(v) && l in v.g.pc && Unsignalled(v.g.pc[l]) == b && l in b
    requires w.g.pc == v.g.pc[l := Finishing(false)]
    requires w.enrolled == v.enrolled && w.through == v.through && w.pending == v.pending - Elems(b)
    ensures Pending(w)
  {
    assert forall s :: s in b ==> s in Unsignalled(v.g.pc[l]);
  }

  lemma SignalFlags(v: State, w: State, l: Session, b: seq<Session>)
    requires Flags(v) && l in v.g.pc && v.g.pc[l] == Signalling(b) && l in b
    requires w.g.pc == v.g.pc[l := Finishing(false)]
    requires w.enrolled == v.enrolled && w.through == v.through && w.pending == v.pending - Elems(b)
    requires w.led == v.led && SameCommit(v.g, w.g)
    ensures Flags(w)
  {
    assert Unsignalled(v.g.pc[l]) == b;
    SignalPending(v, w, l, b);
    forall m, s | m in w.g.pc && s in Unsignalled(w.g.pc[m])
      ensures s in w.through && s in w.pending && s in w.led && w.led[s] == m
    {
      assert m != l && s in Unsignalled(v.g.pc[m]);
    }
    forall s | s in w.through && s in w.pending
      ensures s in w.led && w.led[s] in w.g.pc && s in Unsignalled(w.g.pc[w.led[s]])
    {
      assert s in Unsignalled(v.g.pc[v.led[s]]);
    }
  }

  /** A batch leaves the last stage under leader `l`. */
  ghost predicate LeavesBatch(v: State, w: State, l: Session, q: Pc, b: seq<Session>) {
    && l in v.g.pc && w.g.pc == v.g.pc[l := q] && !Out(q)
    && Unsignalled(q) == Unsignalled(v.g.pc[l]) + b
    && w.enrolled == v.enrolled && w.through == v.through + b && w.pending == v.pending
    && (forall s :: s in b ==> s in v.enrolled && s !in v.through && s in w.led && w.led[s] == l)
    && (forall s :: s in v.through && s in v.led ==> s in w.led && w.led[s] == v.led[s])
  }

  lemma ThroughBatches(v: State, w: State, l: Session, q: Pc, b: seq<Session>)
    requires Flags(v) && LeavesBatch(v, w, l, q, b)
    ensures forall m, s :: m in w.g.pc && s in Unsignalled(w.g.pc[m]) ==>
              s in w.through && s in w.pending && s in w.led && w.led[s] == m
  {
    forall m, s | m in w.g.pc && s in Unsignalled(w.g.pc[m])
      ensures s in w.through && s in w.pending && s in w.led && w.led[s] == m
    {
      if m != l || s !in b {
        assert s in Unsignalled(v.g.pc[m]);
      }
    }
  }

  lemma ThroughHolders(v: State, w: State, l: Session, q: Pc, b: seq<Session>)
    requires Flags(v) && LeavesBatch(v, w, l, q, b)
    ensures forall s :: s in w.through && s in w.pending ==>
              s in w.led && w.led[s] in w.g.pc && s in Unsignalled(w.g.pc[w.led[s]])
  {
    forall s | s in w.through && s in w.pending
      ensures s in w.led && w.led[s] in w.g.pc && s in Unsignalled(w.g.pc[w.led[s]])
    {
      if s !in b {
        assert s in Unsignalled(v.g.pc[v.led[s]]);
      }
    }
  }

  lemma ThroughPending(v: State, w: State, l: Session, q: Pc, b: seq<Session>)
    requires Pending(v) && LeavesBatch(v, w, l, q, b)
    ensures Pending(w)
  {
  }

  lemma ThroughFlags(v: State, w: State, l: Session, q: Pc, b: seq<Session>)
    requires Flags(v) && LeavesBatch(v, w, l, q, b)
    requires forall s :: s in CommitTodo(w.g) ==> s in w.led && w.led[s] == w.g.com.owner
    ensures Flags(w)
  {
    ThroughPending(v, w, l, q, b);
    assert Signals(w) by {
      ThroughBatches(v, w, l, q, b);
      ThroughHolders(v, w, l, q, b);
    }
  }

  /** Steps that move no flag and let nobody through. */
  predicate Plain(st: Step) {
    && !st.Enroll? && !st.SkipCommit? && !st.FetchCommit? && !st.DropXid? && !st.SignalDone?
    && !st.RotLock? && !st.RotDrain? && !st.RotFlushEngines? && !st.RotSwitch? && !st.RotUnlock?
  }

  lemma PlainCommit(c: Config, g: Stages, st: Step)
    requires Shape(c, g) && Plain(st) && CanMove(c, g, st)
    ensures SameCommit(g, Move(c, g, st))
  {
  }

  lemma PlainPcs(c: Config, g: Stages, st: Step)
    requires Plain(st) && CanMove(c, g, st) && Heads(g, st.s, g.pc[st.s])
    ensures var w := Move(c, g, st);
      && st.s in w.pc && w.pc == g.pc[st.s := w.pc[st.s]] && Unsignalled(w.pc[st.s]) == Unsignalled(g.pc[st.s])
      && (Out(w.pc[st.s]) ==> Out(g.pc[st.s]) || (st.Wake? && g.pc[st.s].flag == st.s))
  {
  }

  lemma PlainKept(c: Config, v: State, st: Step)
    requires Shape(c, v.g) && Flags(v) && Plain(st) && Enabled(c, v, st)
    ensures Flags(Next(c, v, st))
  {
    PlainCommit(c, v.g, st);
    assert Heads(v.g, st.s, v.g.pc[st.s]);
    PlainPcs(c, v.g, st);
    MoveFlags(v, Next(c, v, st), st.s, Next(c, v, st).g.pc[st.s]);
  }

  lemma SkipLeaves(c: Config, v: State, st: Step)
    requires Shape(c, v.g) && Order(c, v) && st.SkipCommit? && Enabled(c, v, st)
    ensures var w, b := Next(c, v, st), v.g.pc[st.s].batch;
      LeavesBatch(v, w, st.s, Signalling(b), b) && CommitTodo(w.g) == []
  {
    Members(v);
    Parts(v.g);
    SkipSegments(c, v.g, st);
  }

  lemma DropLeaves(c: Config, v: State, st: Step)
    requires Shape(c, v.g) && Order(c, v) && st.DropXid? && Enabled(c, v, st)
    requires st.s == v.g.com.owner && v.g.pc[st.s].todo[0] in v.led && v.led[v.g.pc[st.s].todo[0]] == st.s
    ensures var w := Next(c, v, st);
      LeavesBatch(v, w, st.s, w.g.pc[st.s], [v.g.pc[st.s].todo[0]])
  {
    Members(v);
    Parts(v.g);
    DropSegments(c, v.g, st);
  }

  lemma FetchLeaves(c: Config, v: State, st: Step)
    requires Shape(c, v.g) && Order(c, v) && st.FetchCommit? && Enabled(c, v, st)
    ensures var w := Next(c, v, st); LeavesBatch(v, w, st.s, w.g.pc[st.s], [])
  {
    assert forall s :: s in v.g.cq ==> s !in v.through by {
      Members(v);
      Parts(v.g);
    }
    FetchPcs(c, v.g, st);
  }

  lemma FetchPcs(c: Config, g: Stages, st: Step)
    requires st.FetchCommit? && CanMove(c, g, st)
    ensures var w := Move(c, g, st);
      && st.s in w.pc && w.pc == g.pc[st.s := w.pc[st.s]] && !Out(w.pc[st.s])
      && Unsignalled(w.pc[st.s]) == Unsignalled(g.pc[st.s]) + []
  {
  }

  lemma LeavesKept(c: Config, v: State, st: Step)
    requires Shape(c, v.g) && Order(c, v) && Flags(v) && (st.SkipCommit? || st.FetchCommit?) && Enabled(c, v, st)
    ensures Flags(Next(c, v, st))
  {
    var w := Next(c, v, st);
    if st.SkipCommit? {
      SkipLeaves(c, v, st);
      ThroughFlags(v, w, st.s, w.g.pc[st.s], v.g.pc[st.s].batch);
    } else {
      FetchLeaves(c, v, st);
      ThroughFlags(v, w, st.s, w.g.pc[st.s], []);
    }
  }

  lemma DropLed(c: Config, v: State, st: Step)
    requires Shape(c, v.g) && Signals(v) && st.DropXid? && Enabled(c, v, st)
    ensures st.s == v.g.com.owner && v.g.pc[st.s].todo[0] in v.led && v.led[v.g.pc[st.s].todo[0]] == st.s
    ensures var w := Next(c, v, st); forall s :: s in CommitTodo(w.g) ==> s in w.led && w.led[s] == w.g.com.owner
  {
    DropSegments(c, v.g, st);
  }

  lemma DropKept(c: Config, v: State, st: Step)
    requires Shape(c, v.g) && Order(c, v) && Flags(v) && st.DropXid? && Enabled(c, v, st)
    ensures Flags(Next(c, v, st))
  {
    DropLed(c, v, st);
    DropLeaves(c, v, st);
    ThroughFlags(v, Next(c, v, st), st.s, Next(c, v, st).g.pc[st.s], [v.g.pc[st.s].todo[0]]);
  }

  lemma EnrollKept(c: Config, v: State, st: Step)
    requires Shape(c, v.g) && Order(c, v) && Flags(v) && st.Enroll? && Enabled(c, v, st)
    ensures Flags(Next(c, v, st))
  {
    var w := Next(c, v, st);
    assert st.s !in v.through by {
      Members(v);
    }
    assert SameCommit(v.g, w.g) by {
      EnrollSegments(c, v.g, st);
    }
    EnrollFlags(v, w, st.s, w.g.pc[st.s]);
  }

  lemma SignalKept(c: Config, v: State, st: Step)
    requires Shape(c, v.g) && Flags(v) && st.SignalDone? && Enabled(c, v, st)
    ensures Flags(Next(c, v, st))
  {
    StillSegments(c, v.g, st);
    assert Heads(v.g, st.s, v.g.pc[st.s]);
    SignalFlags(v, Next(c, v, st), st.s, v.g.pc[st.s].batch);
  }

  lemma RotationCommit(c: Config, g: Stages, st: Step)
    requires st.RotLock? || st.RotDrain? || st.RotFlushEngines? || st.RotSwitch? || st.RotUnlock?
    requires CanMove(c, g, st)
    ensures Move(c, g, st).pc == g.pc && SameCommit(g, Move(c, g, st))
  {
  }

  lemma SameFlags(v: State, w: State)
    requires Flags(v) && w.g.pc == v.g.pc && SameCommit(v.g, w.g)
    requires w.enrolled == v.enrolled && w.through == v.through && w.pending == v.pending && w.led == v.led
    ensures Flags(w)
  {
  }

  lemma RotationKept(c: Config, v: State, st: Step)
    requires Flags(v) && Enabled(c, v, st)
    requires st.RotLock? || st.RotDrain? || st.RotFlushEngines? || st.RotSwitch? || st.RotUnlock?
    ensures Flags(Next(c, v, st))
  {
    RotationCommit(c, v.g, st);
    SameFlags(v, Next(c, v, st));
  }

  lemma GoneKept(c: Config, v: State, st: Step)
    requires Shape(c, v.g) && Order(c, v) && Flags(v) && Enabled(c, v, st)
    requires st.SkipCommit? || st.FetchCommit? || st.DropXid?
    ensures Flags(Next(c, v, st))
  {
    if st.DropXid? {
      DropKept(c, v, st);
    } else {
      LeavesKept(c, v, st);
    }
  }

  lemma FlagsKept(c: Config, v: State, st: Step)
    requires Shape(c, v.g) && Order(c, v) && Flags(v) && Enabled(c, v, st)
    ensures Flags(Next(c, v, st))
  {
    if Plain(st) {
      PlainKept(c, v, st);
    } else if st.Enroll? {
      EnrollKept(c, v, st);
    } else if st.SignalDone? {
      SignalKept(c, v, st);
    } else if st.SkipCommit? || st.FetchCommit? || st.DropXid? {
      GoneKept(c, v, st);
    } else {
      RotationKept(c, v, st);
    }
  }
}
