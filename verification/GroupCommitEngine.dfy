/** Engine commits: with ordered commits the engines commit in the order of flushing. */
module GroupCommitEngine {
  import opened GroupCommit
  import opened GroupCommitShape
  import opened GroupCommitOrder
  import opened GroupCommitFlags

  // ---------------------------------------------------------------- selection

  /** The subsequence of `s` of the sessions in `keep`. */
  ghost function Select(s: seq<Session>, keep: set<Session>): seq<Session> {
    if s == [] then []
    else
      var n := |s| - 1;
      if s[n] in keep then Select(s[..n], keep) + [s[n]] else Select(s[..n], keep)
  }

  lemma SelectSnoc(s: seq<Session>, t: Session, keep: set<Session>)
    ensures Select(s + [t], keep) == if t in keep then Select(s, keep) + [t] else Select(s, keep)
  {
    assert (s + [t])[..|s|] == s;
  }

  lemma {:induction false} SelectFresh(s: seq<Session>, t: Session, keep: set<Session>)
    requires t !in s
    ensures Select(s, keep + {t}) == Select(s, keep)
  {
    if s != [] {
      SelectFresh(s[..|s| - 1], t, keep);
    }
  }

  lemma {:induction false} SelectMembers(s: seq<Session>, keep: set<Session>)
    ensures forall t :: t in Select(s, keep) <==> t in s && t in keep
  {
    if s != [] {
      SelectMembers(s[..|s| - 1], keep);
      assert s == s[..|s| - 1] + [s[|s| - 1]];
    }
  }

  // ---------------------------------------------------------------- engine commits

  /** The session whose engine commit was called but which is not yet through. */
  function Stored(g: Stages): seq<Session> {
    if g.com.Held? && g.com.owner in g.pc && g.pc[g.com.owner].Committing? && g.pc[g.com.owner].stored
       && g.pc[g.com.owner].todo != []
    then [g.pc[g.com.owner].todo[0]]
    else []
  }

  /** The session needs no further engine commit. */
  predicate Finished(p: Pc) {
    p.Done? || (p.Finishing? && p.stored)
  }

  ghost predicate Engine(c: Config, v: State) {
    && (forall s :: s in v.commitLow ==> s in v.wanted)
    && (forall s :: s in v.wanted ==> s in v.enrolled && (s in v.commitLow <==> s !in v.engine))
    && (forall s :: s in v.engine ==> s in v.wanted && s in v.flushed)
    && NoDup(v.engine)
    && (c.ordered ==> v.engine == Select(v.through + Stored(v.g), v.wanted))
    && (forall l :: l in v.g.pc && Finished(v.g.pc[l]) ==> l !in v.commitLow)
  }

  /** With ordered commits nothing is left for finish_commit to commit. */
  lemma OrderedThrough(c: Config, v: State)
    requires Engine(c, v) && c.ordered
    ensures forall s :: s in v.through || s in Stored(v.g) ==> s !in v.commitLow
  {
    SelectMembers(v.through + Stored(v.g), v.wanted);
  }

  /** Steps that call no engine, let nobody through and flush nobody. */
  predicate Calm(st: Step) {
    !st.Enroll? && !st.FlushOne? && !st.SkipCommit? && !st.EngineCommit? && !st.DropXid? && !st.FinishEngine?
  }

  lemma CommitStored(c: Config, g: Stages, st: Step)
    requires Shape(c, g) && (st.LockCommit? || st.FetchCommit? || st.ReleaseCommit?) && CanMove(c, g, st)
    ensures Stored(Move(c, g, st)) == Stored(g)
  {
  }

  lemma CalmStored(c: Config, g: Stages, st: Step)
    requires Shape(c, g) && Calm(st) && CanMove(c, g, st)
    ensures Stored(Move(c, g, st)) == Stored(g)
  {
    if st.LockCommit? || st.FetchCommit? || st.ReleaseCommit? {
      CommitStored(c, g, st);
    }
  }

  lemma CalmPcs(c: Config, g: Stages, st: Step)
    requires Calm(st) && CanMove(c, g, st)
    ensures var w := Move(c, g, st);
      forall l :: l in w.pc && Finished(w.pc[l]) ==> l in g.pc && Finished(g.pc[l])
  {
  }

  lemma SameEngine(c: Config, v: State, w: State)
    requires Engine(c, v) && Stored(w.g) == Stored(v.g)
    requires w.commitLow == v.commitLow && w.wanted == v.wanted && w.enrolled == v.enrolled
    requires w.engine == v.engine && w.flushed == v.flushed && w.through == v.through
    requires forall l :: l in w.g.pc && Finished(w.g.pc[l]) ==> l in v.g.pc && Finished(v.g.pc[l])
    ensures Engine(c, w)
  {
  }

  lemma CalmEngine(c: Config, v: State, st: Step)
    requires Shape(c, v.g) && Engine(c, v) && Calm(st) && Enabled(c, v, st)
    ensures Engine(c, Next(c, v, st))
  {
    CalmStored(c, v.g, st);
    CalmPcs(c, v.g, st);
    SameEngine(c, v, Next(c, v, st));
  }

  lemma EnrollEngine(c: Config, v: State, st: Step)
    requires Shape(c, v.g) && Order(c, v) && Engine(c, v) && st.Enroll? && Enabled(c, v, st)
    ensures Engine(c, Next(c, v, st))
  {
    var w := Next(c, v, st);
    Members(v);
    Parts(v.g);
    assert Stored(w.g) == Stored(v.g);
    assert st.s !in v.through + Stored(v.g);
    SelectFresh(v.through + Stored(v.g), st.s, v.wanted);
  }

  lemma FlushEngine(c: Config, v: State, st: Step)
    requires Shape(c, v.g) && Engine(c, v) && (st.FlushOne? || st.SkipCommit?) && Enabled(c, v, st)
    ensures Engine(c, Next(c, v, st))
  {
    assert Stored(Next(c, v, st).g) == Stored(v.g);
  }

  /** The guarded engine call for `t`, whoever makes it. */
  lemma CallEngine(c: Config, v: State, w: State, l: Session, q: Pc, t: Session)
    requires Engine(c, v) && t in v.flushed
    requires l in v.g.pc && w.g.pc == v.g.pc[l := q]
    requires Finished(q) ==> l == t
    requires w.engine == HaCommitLow(v, t) && w.commitLow == v.commitLow - {t}
    requires w.wanted == v.wanted && w.flushed == v.flushed && w.enrolled == v.enrolled
    requires c.ordered ==> w.engine == Select(w.through + Stored(w.g), w.wanted)
    ensures Engine(c, w)
  {
  }

  lemma CommitFacts(c: Config, v: State, st: Step)
    requires Shape(c, v.g) && Order(c, v) && st.EngineCommit? && Enabled(c, v, st)
    ensures var w, t := Next(c, v, st), v.g.pc[st.s].todo[0];
      && t in v.flushed && t in v.enrolled && t !in v.through
      && Stored(v.g) == [] && Stored(w.g) == [t] && w.through == v.through
  {
    Members(v);
    Parts(v.g);
  }

  lemma CommitSelects(c: Config, v: State, t: Session)
    requires c.ordered && Engine(c, v) && Stored(v.g) == [] && t !in v.through
    ensures HaCommitLow(v, t) == Select(v.through + [t], v.wanted)
  {
    SelectSnoc(v.through, t, v.wanted);
    SelectMembers(v.through, v.wanted);
    assert v.through + [] == v.through;
  }

  lemma CommitEngine(c: Config, v: State, st: Step)
    requires Shape(c, v.g) && Order(c, v) && Engine(c, v) && st.EngineCommit? && Enabled(c, v, st)
    ensures Engine(c, Next(c, v, st))
  {
    var w, t := Next(c, v, st), v.g.pc[st.s].todo[0];
    CommitFacts(c, v, st);
    if c.ordered {
      CommitSelects(c, v, t);
    }
    CallEngine(c, v, w, st.s, w.g.pc[st.s], t);
  }

  lemma DropEngine(c: Config, v: State, st: Step)
    requires Shape(c, v.g) && Engine(c, v) && st.DropXid? && Enabled(c, v, st)
    ensures Engine(c, Next(c, v, st))
  {
    var w, t := Next(c, v, st), v.g.pc[st.s].todo[0];
    assert Stored(v.g) == [t] && Stored(w.g) == [];
    assert w.through + [] == v.through + [t];
  }

  /** A session in finish_commit has left the last stage. */
  lemma FinishFacts(c: Config, v: State, s: Session)
    requires Order(c, v) && Flags(v) && s in v.g.pc && Out(v.g.pc[s])
    ensures s in v.through && s in v.flushed
  {
    Members(v);
  }

  lemma FinishStored(c: Config, g: Stages, st: Step)
    requires Shape(c, g) && st.FinishEngine? && CanMove(c, g, st)
    ensures Stored(Move(c, g, st)) == Stored(g)
  {
  }

  lemma FinishEngineKept(c: Config, v: State, st: Step)
    requires Shape(c, v.g) && Order(c, v) && Flags(v) && Engine(c, v) && st.FinishEngine? && Enabled(c, v, st)
    ensures Engine(c, Next(c, v, st))
  {
    FinishFacts(c, v, st.s);
    FinishStored(c, v.g, st);
    if c.ordered {
      OrderedThrough(c, v);
    }
    CallEngine(c, v, Next(c, v, st), st.s, Finishing(true), st.s);
  }

  lemma CallKept(c: Config, v: State, st: Step)
    requires Shape(c, v.g) && Order(c, v) && Flags(v) && Engine(c, v) && Enabled(c, v, st)
    requires st.EngineCommit? || st.DropXid? || st.FinishEngine?
    ensures Engine(c, Next(c, v, st))
  {
    match st
    case EngineCommit(_) => CommitEngine(c, v, st);
    case DropXid(_) => DropEngine(c, v, st);
    case FinishEngine(_) => FinishEngineKept(c, v, st);
  }

  lemma EngineKept(c: Config, v: State, st: Step)
    requires Shape(c, v.g) && Order(c, v) && Flags(v) && Engine(c, v) && Enabled(c, v, st)
    ensures Engine(c, Next(c, v, st))
  {
    if Calm(st) {
      CalmEngine(c, v, st);
    } else if st.Enroll? {
      EnrollEngine(c, v, st);
    } else if st.FlushOne? || st.SkipCommit? {
      FlushEngine(c, v, st);
    } else {
      CallKept(c, v, st);
    }
  }
}
