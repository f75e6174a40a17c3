/** The conditions of the lease argument are exact: one step beyond any of them, and two nodes are master. */
module MasterLeaseLimits {
  import opened MasterLease
  import opened MasterLeaseTheorems

  /** A way to take in a record, timely or not. */
  datatype Way = Way(own: bool, load: bool, update: nat, clock: nat, extra: nat)

  predicate Goes(w: Way, c: Cluster, s: Step)
    requires Enabled(c, s)
  {
    && Takes(c, s) && s.Load? == w.load && s.extra == w.extra
    && c.nodes[s.node].clock == w.clock
    && Taken(c, s).update == w.update && (Taken(c, s).owner == s.node + 1) == w.own
  }

  /** The step is timely or goes this way. */
  predicate May(w: Way, c: Cluster, s: Step)
    requires Enabled(c, s)
  {
    Timely(c, s) || Goes(w, c, s)
  }

  predicate AllMay(w: Way, lease: nat, c: Cluster, steps: seq<Step>)
    decreases |steps|
  {
    steps == [] || (Enabled(c, steps[0]) ==>
      May(w, c, steps[0]) && AllMay(w, lease, Next(lease, c, steps[0]), steps[1..]))
  }

  /** Some two nodes are both master, at the same time by their clocks. */
  ghost predicate TwoMasters(c: Cluster) {
    exists a, b :: 0 <= a < b < |c.nodes| && c.nodes[a].clock == c.nodes[b].clock && Masters(c, a) && Masters(c, b)
  }

  predicate Masters(c: Cluster, i: nat)
    requires i < |c.nodes|
  {
    IsMaster(c.nodes[i].record, i + 1, c.nodes[i].clock)
  }

  /** A run from the start, with steps that go the way `w` besides timely ones, to the state `at`. */
  ghost predicate Leads(w: Way, lease: nat, c: Cluster, steps: seq<Step>, at: Cluster) {
    Fresh(c) && AllMay(w, lease, c, steps) && Run(lease, c, steps) == Reached(at)
  }

  /** No run that takes records in this way, besides the timely ones, has two masters. */
  ghost predicate Safe(w: Way, lease: nat) {
    forall c, steps, at :: Leads(w, lease, c, steps, at) ==> !TwoMasters(at)
  }

  // ---------------------------------------------------------------- within the bounds

  /** Ways that steps can go at all: own records are not dated in the future, extensions are short. */
  predicate CanGo(w: Way) {
    (w.own ==> 0 < w.update <= w.clock) && (!w.load ==> w.extra < EXTRA_END)
  }

  /** No step of any run, timely or not, goes another way. */
  lemma OthersNeverGo(w: Way, lease: nat, c: Cluster, steps: seq<Step>, s: Step)
    requires Fresh(c) && Run(lease, c, steps).Reached? && Enabled(Run(lease, c, steps).cluster, s)
    requires Goes(w, Run(lease, c, steps).cluster, s)
    ensures CanGo(w)
  {
    DatedReached(lease, c, steps);
    GoesOnlyThere(w, Run(lease, c, steps).cluster, s);
  }

  lemma GoesOnlyThere(w: Way, c: Cluster, s: Step)
    requires AllDated(c) && Enabled(c, s) && Goes(w, c, s)
    ensures CanGo(w)
  {
    if s.Load? {
      LedgerIsDated(c, s.k);
    } else {
      assert Dated(c.nodes, c.log[c.nodes[s.node].executed]);
    }
  }

  predicate WithinBounds(w: Way) {
    Bounded(w.own, w.load, w.update, w.clock, w.extra)
  }

  lemma {:induction false} BoundedIsTimely(w: Way, lease: nat, c: Cluster, steps: seq<Step>)
    requires (WithinBounds(w) || !CanGo(w)) && AllDated(c) && AllMay(w, lease, c, steps)
    ensures AllTimely(lease, c, steps)
    decreases |steps|
  {
    if steps != [] && Enabled(c, steps[0]) {
      if Goes(w, c, steps[0]) {
        GoesOnlyThere(w, c, steps[0]);
      }
      DatedKept(lease, c, steps[0]);
      BoundedIsTimely(w, lease, Next(lease, c, steps[0]), steps[1..]);
    }
  }

  lemma BoundedIsSafe(w: Way, lease: nat)
    requires WithinBounds(w) || !CanGo(w)
    ensures Safe(w, lease)
  {
    forall c, steps, at | Leads(w, lease, c, steps, at) ensures !TwoMasters(at) {
      BoundedIsTimely(w, lease, c, steps);
      forall a, b | 0 <= a < b < |at.nodes| && at.nodes[a].clock == at.nodes[b].clock
        ensures !(Masters(at, a) && Masters(at, b))
      {
        LeaseExclusion(lease, c, steps, a, b);
      }
    }
  }

  // ---------------------------------------------------------------- building runs

  /** Clocks advance only together. */
  predicate OneClock(steps: seq<Step>) {
    forall i :: 0 <= i < |steps| ==> !steps[i].Tick?
  }

  lemma {:induction false} Longer(w: Way, lease: nat, c: Cluster, steps: seq<Step>, s: Step)
    requires AllMay(w, lease, c, steps) && Run(lease, c, steps).Reached?
    requires var d := Run(lease, c, steps).cluster; Enabled(d, s) && May(w, d, s)
    ensures AllMay(w, lease, c, steps + [s])
    ensures Run(lease, c, steps + [s]) == Reached(Next(lease, Run(lease, c, steps).cluster, s))
    decreases |steps|
  {
    if steps == [] {
      assert steps + [s] == [s] && [s][1..] == [];
    } else {
      assert (steps + [s])[0] == steps[0] && (steps + [s])[1..] == steps[1..] + [s];
      Longer(w, lease, Next(lease, c, steps[0]), steps[1..], s);
    }
  }

  /** One step more. */
  lemma Go(w: Way, lease: nat, c: Cluster, steps: seq<Step>, at: Cluster, s: Step)
    returns (more: seq<Step>, next: Cluster)
    requires Leads(w, lease, c, steps, at) && Enabled(at, s) && May(w, at, s)
    ensures next == Next(lease, at, s) && Leads(w, lease, c, more, next)
    ensures OneClock(steps) && !s.Tick? ==> OneClock(more)
  {
    Longer(w, lease, c, steps, s);
    more, next := steps + [s], Next(lease, at, s);
  }

  /** Node `i` drafts its record and proposes it, and the proposal is chosen at once. */
  lemma GoPropose(w: Way, lease: nat, c: Cluster, steps: seq<Step>, at: Cluster, i: nat)
    returns (more: seq<Step>, next: Cluster)
    requires Leads(w, lease, c, steps, at) && i < |at.nodes|
    requires var n := at.nodes[i];
             IsTimeOut(n.record, n.clock) || IsMaster(n.record, i + 1, n.clock)
    ensures Leads(w, lease, c, more, next) && (OneClock(steps) ==> OneClock(more))
    ensures var n := at.nodes[i];
            && next.nodes == at.nodes[i := n.(drafts := n.drafts + {n.record})]
            && next.log == at.log + [Proposal(lease, n.record, i + 1, n.clock)]
  {
    var n := at.nodes[i];
    var p := Proposal(lease, n.record, i + 1, n.clock);
    more, next := Go(w, lease, c, steps, at, Draft(i));
    more, next := Go(w, lease, c, more, next, Propose(i, n.record));
    more, next := Go(w, lease, c, more, next, Choose(p));
  }

  /** Node `i` executes a proposal that is accepted. */
  lemma GoExecute(w: Way, lease: nat, c: Cluster, steps: seq<Step>, at: Cluster, i: nat, extra: nat)
    returns (more: seq<Step>, next: Cluster)
    requires Leads(w, lease, c, steps, at) && Enabled(at, Execute(i, extra))
    requires May(w, at, Execute(i, extra))
    requires Takes(at, Execute(i, extra)) && at.log[at.nodes[i].executed].expire == 0
    ensures Leads(w, lease, c, more, next) && (OneClock(steps) ==> OneClock(more))
    ensures var n := at.nodes[i]; var p := at.log[n.executed];
            && next.log == at.log
            && next.nodes == at.nodes[i := n.(executed := n.executed + 1, record :=
                 p.(version := p.version + 1, instance := n.executed + 1,
                    expire := if p.owner == i + 1 then p.update + p.lease else n.clock + p.lease + extra))]
  {
    more, next := Go(w, lease, c, steps, at, Execute(i, extra));
  }

  /** The second node has let the first one's record time out; it takes over. */
  lemma GoTakeOver(w: Way, lease: nat, c: Cluster, steps: seq<Step>, at: Cluster, update: nat, expire: nat)
    returns (more: seq<Step>, next: Cluster)
    requires Leads(w, lease, c, steps, at) && |at.nodes| == 2 && |at.log| == 1
    requires at.nodes[1].executed == 1 && at.nodes[1].record == Record(1, 1, 1, update, lease, expire)
    requires expire < at.nodes[1].clock
    ensures Leads(w, lease, c, more, next) && (OneClock(steps) ==> OneClock(more))
    ensures |next.nodes| == 2 && next.nodes[0] == at.nodes[0]
    ensures var t := at.nodes[1].clock;
            next.nodes[1].clock == t && next.nodes[1].record == Record(2, 2, 2, t, lease, t + lease)
  {
    more, next := GoPropose(w, lease, c, steps, at, 1);
    assert next.log[1] == Record(2, 1, 1, at.nodes[1].clock, lease, 0);
    more, next := GoExecute(w, lease, c, more, next, 1, 0);
  }

  /** Two nodes; the first one, whose clock stands at `update`, has proposed itself. */
  lemma GoStart(w: Way, lease: nat, update: nat, clock: nat) returns (c: Cluster, steps: seq<Step>, at: Cluster)
    requires update > 0
    ensures Leads(w, lease, c, steps, at) && OneClock(steps) && |at.nodes| == 2
    ensures clock == update ==> Synced(c, update)
    ensures at.log == [Record(1, 0, 0, update, lease, 0)]
    ensures at.nodes[0].clock == update && at.nodes[0].executed == 0 && at.nodes[0].record == NOBODY
    ensures at.nodes[1] == Node(clock, 0, NOBODY, {})
  {
    c := Cluster([Node(update, 0, NOBODY, {}), Node(clock, 0, NOBODY, {})], {}, []);
    steps, at := GoPropose(w, lease, c, [], c, 0);
  }

  lemma LedgerOfOne(log: seq<Record>)
    requires |log| > 0
    ensures Ledger(log, 1) == log[0].(instance := 1, version := log[0].version + 1)
  {
    assert Ledger(log, 0) == NOBODY;
  }

  // ---------------------------------------------------------------- beyond the bounds

  /**
    A node gives another node's record a lease that ends before the owner's, by executing it or by
    loading it.  It takes over while the owner is still master.
   */
  lemma ShortLease(w: Way, lease: nat) returns (c: Cluster, steps: seq<Step>, at: Cluster)
    requires !w.own && CanGo(w) && w.clock + w.extra < w.update
    ensures Leads(w, lease, c, steps, at) && TwoMasters(at)
  {
    var u, end := w.update, w.update + lease;
    c, steps, at := GoStart(w, lease, u, w.clock);
    steps, at := GoExecute(w, lease, c, steps, at, 0, 0);
    LedgerOfOne(at.log);
    steps, at := Go(w, lease, c, steps, at, if w.load then Load(1, 1, w.extra) else Execute(1, w.extra));
    assert at.nodes[1] == Node(w.clock, 1, Record(1, 1, 1, u, lease, w.clock + lease + w.extra), {});
    steps, at := Go(w, lease, c, steps, at, Tick(0, lease));
    steps, at := Go(w, lease, c, steps, at, Tick(1, end - w.clock));
    steps, at := GoTakeOver(w, lease, c, steps, at, u, w.clock + lease + w.extra);
    assert at.nodes[0].record == Record(1, 1, 1, u, lease, end) && at.nodes[0].clock == end == at.nodes[1].clock;
  }

  /**
    A node loads its own record and thereby extends its lease.  Another node takes over when the
    lease it knows of has ended.  All clocks are one.
   */
  lemma LongLease(w: Way, lease: nat) returns (c: Cluster, steps: seq<Step>, at: Cluster)
    requires w.own && w.load && CanGo(w) && w.update < w.clock + w.extra
    ensures Leads(w, lease, c, steps, at) && TwoMasters(at) && Synced(c, w.update) && OneClock(steps)
  {
    var u, later := w.update, if w.clock <= w.update + lease then w.update + lease + 1 else w.clock;
    c, steps, at := GoStart(w, lease, u, u);
    steps, at := GoExecute(w, lease, c, steps, at, 0, 0);
    steps, at := GoExecute(w, lease, c, steps, at, 1, 0);
    assert at.nodes[1].record == Record(1, 1, 1, u, lease, u + lease);
    LedgerOfOne(at.log);
    steps, at := Go(w, lease, c, steps, at, TickAll(w.clock - u));
    steps, at := Go(w, lease, c, steps, at, Load(0, 1, w.extra));
    assert at.nodes[0].record == Record(1, 1, 1, u, lease, w.clock + lease + w.extra);
    steps, at := Go(w, lease, c, steps, at, TickAll(later - w.clock));
    steps, at := GoTakeOver(w, lease, c, steps, at, u, u + lease);
    assert at.nodes[0].clock == later == at.nodes[1].clock;
  }

  /**
    Taking in records in some way, besides the timely ones, is safe in all runs if and only if that
    way keeps the bounds, another node's lease not cut short and one's own not extended, or no step
    can ever go it.
   */
  lemma SafeExactlyWhenBounded(w: Way, lease: nat)
    ensures Safe(w, lease) <==> WithinBounds(w) || !CanGo(w)
  {
    if WithinBounds(w) || !CanGo(w) {
      BoundedIsSafe(w, lease);
    } else if w.own {
      var c, steps, at := LongLease(w, lease);
    } else {
      var c, steps, at := ShortLease(w, lease);
    }
  }

  /** The case of loading one's own record, with values at hand at the load. */
  lemma LoadIsSafeExactlyWhen(lease: nat, update: nat, clock: nat, extra: nat)
    requires 0 < update <= clock
    ensures Safe(Way(true, true, update, clock, extra), lease) <==> clock + extra <= update
  {
    SafeExactlyWhenBounded(Way(true, true, update, clock, extra), lease);
  }

  /** An instance: the first master comes back after ten seconds and loads its own record, dated 1. */
  lemma TwoMastersAfterLoad() returns (c: Cluster, steps: seq<Step>, at: Cluster)
    ensures Leads(Way(true, true, 1, 11, 0), 10, c, steps, at) && TwoMasters(at) && Synced(c, 1) && OneClock(steps)
  {
    c, steps, at := LongLease(Way(true, true, 1, 11, 0), 10);
  }

  /** An instance: the second node executes a record dated 100 when its own clock shows 0. */
  lemma TwoMastersOnSlowClock() returns (c: Cluster, steps: seq<Step>, at: Cluster)
    ensures Leads(Way(false, false, 100, 0, 0), 10, c, steps, at) && TwoMasters(at)
  {
    c, steps, at := ShortLease(Way(false, false, 100, 0, 0), 10);
  }
}
