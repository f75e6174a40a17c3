/** Every call returns: a run without new arrivals and rotations is of bounded length and ends with all calls done. */
module GroupCommitProgress {
  import opened GroupCommit
  import opened GroupCommitShape
  import opened GroupCommitOrder
  import opened GroupCommitTheorems

  /** The steps a session at `p` may still take, with those for the sessions it carries. */
  function Rank(p: Pc): nat {
    match p
    case WaitLog => 15
    case Flushing(done, todo, more) => 13 + (if more then 1 else 0) + 2 * |done| + 3 * |todo|
    case LeaveFlush(_, _) => 12
    case WaitSync => 11
    case AtSync => 10
    case Syncing(batch) => 9 + 2 * |batch|
    case Synced(batch) => 8 + 2 * |batch|
    case LeaveSync(_, _) => 7
    case WaitCommit => 6
    case AtCommit => 5
    case Committing(_, todo, stored) => 4 + 2 * |todo| - (if stored && todo != [] then 1 else 0)
    case Signalling(_) => 3
    case Waiting(_) => 3
    case Finishing(stored) => if stored then 1 else 2
    case Done => 0
  }

  /** The steps a rotation under way may still take. */
  function RotRank(log: LogLock): nat {
    if log == Rotating(Draining) then 4 else if log == Rotating(Drained) then 3
    else if log == Rotating(EnginesFlushed) then 2 else if log == Rotating(Switched) then 1 else 0
  }

  /** The steps due for the sessions in the queues. */
  function Queued(g: Stages): nat {
    4 * |g.fq| + 2 * |g.sq| + 2 * |g.cq|
  }

  predicate Arrival(st: Step) {
    st.Enroll? || st.RotLock?
  }

  predicate Rotates(st: Step) {
    st.RotDrain? || st.RotFlushEngines? || st.RotSwitch? || st.RotUnlock?
  }

  /** The session moves, and costs more of its own rank than it adds to the queues. */
  ghost predicate Costs(g: Stages, w: Stages, s: Session) {
    && s in g.pc && s in w.pc && w.pc == g.pc[s := w.pc[s]]
    && Rank(w.pc[s]) + Queued(w) < Rank(g.pc[s]) + Queued(g) && RotRank(w.log) <= RotRank(g.log)
  }

  predicate Flushes(st: Step) {
    st.LockLog? || st.PopFront? || st.FetchFlush? || st.FlushOne? || st.EnrollSync? || st.ReleaseLog?
  }

  lemma FlushStepCosts(c: Config, g: Stages, st: Step)
    requires Flushes(st) && CanMove(c, g, st)
    ensures Costs(g, Move(c, g, st), st.s)
  {
  }

  lemma LaterStepCosts(c: Config, g: Stages, st: Step)
    requires !Flushes(st) && !Arrival(st) && !Rotates(st) && CanMove(c, g, st)
    ensures Costs(g, Move(c, g, st), st.s)
  {
  }

  lemma RotationStepCosts(c: Config, g: Stages, st: Step)
    requires Rotates(st) && CanMove(c, g, st)
    ensures var w := Move(c, g, st);
      w.pc == g.pc && Queued(w) == Queued(g) && RotRank(w.log) < RotRank(g.log)
  {
  }

  function Total(pc: map<Session, Pc>, q: seq<Session>): nat
    requires forall s :: s in q ==> s in pc
  {
    if q == [] then 0 else Rank(pc[q[|q| - 1]]) + Total(pc, q[..|q| - 1])
  }

  lemma {:induction false} TotalOfOthers(pc: map<Session, Pc>, q: seq<Session>, l: Session, p: Pc)
    requires (forall s :: s in q ==> s in pc) && l !in q
    ensures Total(pc[l := p], q) == Total(pc, q)
  {
    if q != [] {
      TotalOfOthers(pc, q[..|q| - 1], l, p);
    }
  }

  lemma {:induction false} TotalMoves(pc: map<Session, Pc>, q: seq<Session>, l: Session, p: Pc)
    requires (forall s :: s in q ==> s in pc) && l in q && NoDup(q)
    ensures Total(pc[l := p], q) + Rank(pc[l]) == Total(pc, q) + Rank(p)
  {
    var n := |q| - 1;
    if q[n] == l {
      TotalOfOthers(pc, q[..n], l, p);
    } else {
      assert l in q[..n];
      TotalMoves(pc, q[..n], l, p);
    }
  }

  /** What is left to do. */
  function Work(v: State): nat
    requires forall s :: s in v.enrolled ==> s in v.g.pc
  {
    Total(v.g.pc, v.enrolled) + Queued(v.g) + RotRank(v.g.log)
  }

  lemma WorkMoves(v: State, w: State, s: Session)
    requires (forall t :: t in v.enrolled ==> t in v.g.pc) && NoDup(v.enrolled) && s in v.enrolled
    requires Costs(v.g, w.g, s) && w.enrolled == v.enrolled
    ensures Work(w) < Work(v)
  {
    TotalMoves(v.g.pc, v.enrolled, s, w.g.pc[s]);
  }

  lemma WorkShrinks(c: Config, v: State, st: Step)
    requires Order(c, v) && Enabled(c, v, st) && !Arrival(st)
    ensures var w := Next(c, v, st); (forall s :: s in w.enrolled ==> s in w.g.pc) && Work(w) < Work(v)
  {
    if Rotates(st) {
      RotationStepCosts(c, v.g, st);
    } else {
      if Flushes(st) {
        FlushStepCosts(c, v.g, st);
      } else {
        LaterStepCosts(c, v.g, st);
      }
      WorkMoves(v, Next(c, v, st), st.s);
    }
  }

  predicate NoArrivals(steps: seq<Step>) {
    forall i :: 0 <= i < |steps| ==> !Arrival(steps[i])
  }

  lemma ExecMore(c: Config, steps: seq<Step>, st: Step)
    ensures Exec(c, steps + [st]).Reached? <==> Exec(c, steps).Reached? && Enabled(c, Exec(c, steps).state, st)
    ensures Exec(c, steps + [st]).Reached? ==> Exec(c, steps + [st]).state == Next(c, Exec(c, steps).state, st)
  {
    assert (steps + [st])[..|steps|] == steps;
  }

  /** What is left to do in a reachable state. */
  function Left(c: Config, steps: seq<Step>): nat
    requires Exec(c, steps).Reached?
  {
    InvReached(c, steps);
    Work(Exec(c, steps).state)
  }

  lemma OneStepLess(c: Config, steps: seq<Step>, st: Step)
    requires Exec(c, steps).Reached? && Enabled(c, Exec(c, steps).state, st) && !Arrival(st)
    ensures Exec(c, steps + [st]).Reached? && Left(c, steps + [st]) < Left(c, steps)
  {
    ExecMore(c, steps, st);
    InvReached(c, steps);
    WorkShrinks(c, Exec(c, steps).state, st);
  }

  /** Without new arrivals and rotations a run has at most as many steps as there is left to do. */
  lemma {:induction false} RunsEnd(c: Config, steps: seq<Step>, more: seq<Step>)
    requires Exec(c, steps + more).Reached? && NoArrivals(more)
    ensures Exec(c, steps).Reached? && |more| + Left(c, steps + more) <= Left(c, steps)
    decreases |more|
  {
    if more == [] {
      assert steps + more == steps;
    } else {
      var n := |more| - 1;
      assert steps + more == (steps + more[..n]) + [more[n]];
      ExecMore(c, steps + more[..n], more[n]);
      RunsEnd(c, steps, more[..n]);
      OneStepLess(c, steps + more[..n], more[n]);
    }
  }

  /** A run that only an arrival could continue is one in which every call has returned. */
  lemma StoppedMeansDone(c: Config, steps: seq<Step>)
    requires Exec(c, steps).Reached? && forall st :: Enabled(c, Exec(c, steps).state, st) ==> Arrival(st)
    ensures AllDone(Exec(c, steps).state) && !Exec(c, steps).state.g.log.Rotating?
  {
    if !AllDone(Exec(c, steps).state) || Exec(c, steps).state.g.log.Rotating? {
      var st := NoDeadlock(c, steps);
    }
  }

  lemma SomeStep(c: Config, steps: seq<Step>) returns (st: Step)
    requires Exec(c, steps).Reached? && !AllDone(Exec(c, steps).state)
    ensures !Arrival(st) && Exec(c, steps + [st]).Reached? && Left(c, steps + [st]) < Left(c, steps)
  {
    st := NoDeadlock(c, steps);
    OneStepLess(c, steps, st);
  }

  /** After `more`, every call has returned. */
  ghost predicate Finishes(c: Config, steps: seq<Step>, more: seq<Step>) {
    NoArrivals(more) && Exec(c, steps + more).Reached? && AllDone(Exec(c, steps + more).state)
  }

  lemma FinishesNow(c: Config, steps: seq<Step>)
    requires Exec(c, steps).Reached? && AllDone(Exec(c, steps).state)
    ensures Finishes(c, steps, [])
  {
    assert steps + [] == steps;
  }

  lemma FinishesLater(c: Config, steps: seq<Step>, st: Step, rest: seq<Step>)
    requires !Arrival(st) && Finishes(c, steps + [st], rest)
    ensures Finishes(c, steps, [st] + rest)
  {
    assert steps + ([st] + rest) == steps + [st] + rest;
  }

  /** From every reachable state all calls that have not returned can return. */
  lemma {:induction false} EveryCallReturns(c: Config, steps: seq<Step>) returns (more: seq<Step>)
    requires Exec(c, steps).Reached?
    ensures Finishes(c, steps, more)
    decreases Left(c, steps)
  {
    if AllDone(Exec(c, steps).state) {
      more := [];
      FinishesNow(c, steps);
    } else {
      var st := SomeStep(c, steps);
      var rest := EveryCallReturns(c, steps + [st]);
      FinishesLater(c, steps, st, rest);
      more := [st] + rest;
    }
  }
}
