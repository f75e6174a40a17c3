/** No two nodes are master at the same time. */
module MasterLeaseTheorems {
  import opened MasterLease

  // ---------------------------------------------------------------- the chosen order

  /** A proposal never runs ahead of the record `r` in force, and one that replaces it respects its lease. */
  ghost predicate Respects(lease: nat, r: Record, p: Record) {
    && p.expire == 0 && p.owner != 0 && p.lease == lease && p.version <= r.version
    && (p.version == r.version && r.owner != 0 ==>
          r.update <= p.update && (p.owner != r.owner ==> r.update + lease < p.update))
  }

  ghost predicate Fair(lease: nat, log: seq<Record>, k: nat)
    requires k < |log|
  {
    Respects(lease, Ledger(log, k), log[k])
  }

  ghost predicate LogInv(lease: nat, log: seq<Record>) {
    forall k :: 0 <= k < |log| ==> Fair(lease, log, k)
  }

  /** Executing one more proposal changes nothing, or makes the next version of the record. */
  lemma {:induction false} OneMore(lease: nat, log: seq<Record>, k: nat)
    requires LogInv(lease, log) && k <= |log|
    ensures var r := Ledger(log, k);
            && (r.owner == 0 <==> r.version == 0) && r.instance <= k && r.expire == 0
            && (r.owner != 0 ==> r.lease == lease)
    ensures k < |log| && log[k].version == Ledger(log, k).version ==>
              Ledger(log, k + 1) == log[k].(instance := k + 1, version := log[k].version + 1)
    ensures k < |log| && log[k].version < Ledger(log, k).version ==> Ledger(log, k + 1) == Ledger(log, k)
  {
    if k > 0 {
      OneMore(lease, log, k - 1);
      assert Fair(lease, log, k - 1);
    }
    if k < |log| {
      assert Fair(lease, log, k);
    }
  }

  /** Versions only grow; one version is one record. */
  lemma {:induction false} VersionsGrow(lease: nat, log: seq<Record>, j: nat, k: nat)
    requires LogInv(lease, log) && j <= k <= |log|
    ensures Ledger(log, j).version <= Ledger(log, k).version
    ensures Ledger(log, j).version == Ledger(log, k).version ==> Ledger(log, j) == Ledger(log, k)
    decreases k
  {
    if j < k {
      VersionsGrow(lease, log, j, k - 1);
      OneMore(lease, log, k - 1);
      assert Fair(lease, log, k - 1);
    }
  }

  /** Between two records of different owners lies more than a lease. */
  lemma {:induction false} Separated(lease: nat, log: seq<Record>, j: nat, k: nat)
    requires LogInv(lease, log) && j <= k <= |log| && Ledger(log, j).owner != 0
    ensures Ledger(log, k).owner != 0 && Ledger(log, j).update <= Ledger(log, k).update
    ensures Ledger(log, k).owner != Ledger(log, j).owner ==> Ledger(log, j).update + lease < Ledger(log, k).update
    decreases k
  {
    if j < k {
      Separated(lease, log, j, k - 1);
      OneMore(lease, log, k - 1);
      assert Fair(lease, log, k - 1);
    }
  }

  lemma {:induction false} LedgerOfPrefix(log: seq<Record>, p: Record, k: nat)
    requires k <= |log|
    ensures Ledger(log + [p], k) == Ledger(log, k)
  {
    if k > 0 {
      LedgerOfPrefix(log, p, k - 1);
    }
  }

  // ---------------------------------------------------------------- dates

  /** The owner's clock has reached the record's date. */
  ghost predicate Dated(nodes: seq<Node>, r: Record) {
    0 < r.owner <= |nodes| && 0 < r.update <= nodes[r.owner - 1].clock
  }

  /** Every record is dated by its owner, since nodes propose only themselves. */
  ghost predicate AllDated(c: Cluster) {
    && (forall p :: p in c.pool ==> Dated(c.nodes, p))
    && (forall k :: 0 <= k < |c.log| ==> Dated(c.nodes, c.log[k]))
    && (forall i :: 0 <= i < |c.nodes| && c.nodes[i].record.owner != 0 ==> Dated(c.nodes, c.nodes[i].record))
  }

  lemma {:induction false} LedgerIsDated(c: Cluster, k: nat)
    requires AllDated(c) && k <= |c.log|
    ensures Ledger(c.log, k).owner != 0 ==> Dated(c.nodes, Ledger(c.log, k))
  {
    if k > 0 {
      LedgerIsDated(c, k - 1);
      assert Dated(c.nodes, c.log[k - 1]);
    }
  }

  lemma ClocksGrow(c: Cluster, nodes: seq<Node>)
    requires AllDated(c) && |nodes| == |c.nodes|
    requires forall i :: 0 <= i < |nodes| ==> c.nodes[i].clock <= nodes[i].clock
    requires forall i :: 0 <= i < |nodes| && nodes[i].record.owner != 0 ==> Dated(c.nodes, nodes[i].record)
    ensures AllDated(c.(nodes := nodes))
  {
  }

  /** Whatever the step, timely or not. */
  lemma DatedKept(lease: nat, c: Cluster, s: Step)
    requires AllDated(c) && Enabled(c, s)
    ensures AllDated(Next(lease, c, s))
  {
    var d := Next(lease, c, s);
    match s
    case Propose(i, draft) =>
    case Choose(p) =>
    case Load(i, k, _) =>
      LedgerIsDated(c, k);
      ClocksGrow(c, d.nodes);
    case Execute(i, _) =>
      assert Dated(c.nodes, c.log[c.nodes[i].executed]);
      ClocksGrow(c, d.nodes);
    case _ => ClocksGrow(c, d.nodes);
  }

  /** In every run a node's clock has reached the date of each record it owns. */
  lemma {:induction false} DatedReached(lease: nat, c: Cluster, steps: seq<Step>)
    requires AllDated(c) && Run(lease, c, steps).Reached?
    ensures AllDated(Run(lease, c, steps).cluster)
    decreases |steps|
  {
    if steps != [] {
      DatedKept(lease, c, steps[0]);
      DatedReached(lease, Next(lease, c, steps[0]), steps[1..]);
    }
  }

  // ---------------------------------------------------------------- what every node knows

  /** `r` is the ledger after `k` proposals, with an expiry this node may act on. */
  ghost predicate Known(lease: nat, log: seq<Record>, id: nat, r: Record, k: nat) {
    && k <= |log| && r.(expire := 0) == Ledger(log, k)
    && (r.owner != 0 && r.owner == id ==> r.expire <= r.update + lease)
    && (r.owner != 0 && r.owner != id ==> r.update + lease <= r.expire)
  }

  ghost predicate NodeInv(lease: nat, log: seq<Record>, id: nat, n: Node) {
    && Known(lease, log, id, n.record, n.executed)
    && (forall d :: d in n.drafts ==> exists k: nat :: k <= n.executed && Known(lease, log, id, d, k))
  }

  ghost predicate Inv(lease: nat, c: Cluster) {
    && LogInv(lease, c.log)
    && (forall p :: p in c.pool ==> Respects(lease, Ledger(c.log, |c.log|), p))
    && (forall i :: 0 <= i < |c.nodes| ==> NodeInv(lease, c.log, i + 1, c.nodes[i]))
  }

  lemma LogGrows(lease: nat, log: seq<Record>, p: Record)
    requires LogInv(lease, log) && Respects(lease, Ledger(log, |log|), p)
    ensures LogInv(lease, log + [p])
  {
    forall k | 0 <= k < |log + [p]| ensures Fair(lease, log + [p], k) {
      LedgerOfPrefix(log, p, k);
      if k < |log| {
        assert Fair(lease, log, k);
      }
    }
  }

  lemma ChooseKeeps(lease: nat, c: Cluster, p: Record)
    requires Inv(lease, c) && p in c.pool
    ensures Inv(lease, Next(lease, c, Choose(p)))
  {
    var log, all := c.log + [p], |c.log|;
    LogGrows(lease, c.log, p);
    LedgerOfPrefix(c.log, p, all);
    OneMore(lease, log, all);
    forall i | 0 <= i < |c.nodes| ensures NodeInv(lease, log, i + 1, c.nodes[i]) {
      NodeLogGrows(lease, c.log, p, i + 1, c.nodes[i]);
    }
  }

  lemma NodeLogGrows(lease: nat, log: seq<Record>, p: Record, id: nat, n: Node)
    requires NodeInv(lease, log, id, n)
    ensures NodeInv(lease, log + [p], id, n)
  {
    LedgerOfPrefix(log, p, n.executed);
    forall d | d in n.drafts ensures exists k: nat :: k <= n.executed && Known(lease, log + [p], id, d, k) {
      var k: nat :| k <= n.executed && Known(lease, log, id, d, k);
      LedgerOfPrefix(log, p, k);
      assert Known(lease, log + [p], id, d, k);
    }
  }

  lemma ProposeKeeps(lease: nat, c: Cluster, i: nat, draft: Record)
    requires Inv(lease, c) && AllDated(c) && Enabled(c, Propose(i, draft))
    ensures Inv(lease, Next(lease, c, Propose(i, draft)))
  {
    var n, id, all := c.nodes[i], i + 1, |c.log|;
    assert NodeInv(lease, c.log, id, n);
    var k: nat :| k <= n.executed && Known(lease, c.log, id, draft, k);
    var p := Proposal(lease, draft, id, n.clock);
    LedgerIsDated(c, k);
    VersionsGrow(lease, c.log, k, n.executed);
    VersionsGrow(lease, c.log, n.executed, all);
    assert Respects(lease, Ledger(c.log, all), p);
  }

  lemma ExecuteKeeps(lease: nat, c: Cluster, i: nat, extra: nat)
    requires Inv(lease, c) && Enabled(c, Execute(i, extra)) && Timely(c, Execute(i, extra))
    ensures Inv(lease, Next(lease, c, Execute(i, extra)))
  {
    var n, id := c.nodes[i], i + 1;
    assert NodeInv(lease, c.log, id, n);
    OneMore(lease, c.log, n.executed);
    assert Fair(lease, c.log, n.executed);
    var m := Next(lease, c, Execute(i, extra)).nodes[i];
    assert Known(lease, c.log, id, m.record, m.executed);
    forall d | d in m.drafts ensures exists k: nat :: k <= m.executed && Known(lease, c.log, id, d, k) {
      var k: nat :| k <= n.executed && Known(lease, c.log, id, d, k);
      assert Known(lease, c.log, id, d, k);
    }
  }

  /** A node whose drafts are still known may change its clock, or lose its record. */
  lemma NodeKeeps(lease: nat, c: Cluster, i: nat, m: Node)
    requires Inv(lease, c) && i < |c.nodes|
    requires m == c.nodes[i].(clock := m.clock) || m == Node(m.clock, 0, NOBODY, {})
    ensures Inv(lease, c.(nodes := c.nodes[i := m]))
  {
    assert NodeInv(lease, c.log, i + 1, c.nodes[i]);
    assert NodeInv(lease, c.log, i + 1, m);
  }

  lemma DraftKeeps(lease: nat, c: Cluster, i: nat)
    requires Inv(lease, c) && i < |c.nodes|
    ensures Inv(lease, Next(lease, c, Draft(i)))
  {
    var n, m := c.nodes[i], Next(lease, c, Draft(i)).nodes[i];
    assert NodeInv(lease, c.log, i + 1, n);
    assert Known(lease, c.log, i + 1, n.record, n.executed);
    assert NodeInv(lease, c.log, i + 1, m);
  }

  lemma TickAllKeeps(lease: nat, c: Cluster, delta: nat)
    requires Inv(lease, c)
    ensures Inv(lease, Next(lease, c, TickAll(delta)))
  {
    forall i | 0 <= i < |c.nodes| ensures NodeInv(lease, c.log, i + 1, Next(lease, c, TickAll(delta)).nodes[i]) {
      assert NodeInv(lease, c.log, i + 1, c.nodes[i]);
    }
  }

  lemma LoadKeeps(lease: nat, c: Cluster, i: nat, k: nat, extra: nat)
    requires Inv(lease, c) && Enabled(c, Load(i, k, extra)) && Timely(c, Load(i, k, extra))
    ensures Inv(lease, Next(lease, c, Load(i, k, extra)))
  {
    OneMore(lease, c.log, k);
  }

  lemma InvKept(lease: nat, c: Cluster, s: Step)
    requires Inv(lease, c) && AllDated(c) && Enabled(c, s) && Timely(c, s)
    ensures Inv(lease, Next(lease, c, s))
  {
    match s
    case Tick(i, delta) => NodeKeeps(lease, c, i, Next(lease, c, s).nodes[i]);
    case TickAll(delta) => TickAllKeeps(lease, c, delta);
    case Draft(i) => DraftKeeps(lease, c, i);
    case Propose(i, draft) => ProposeKeeps(lease, c, i, draft);
    case Choose(p) => ChooseKeeps(lease, c, p);
    case Execute(i, extra) => ExecuteKeeps(lease, c, i, extra);
    case Restart(i) => NodeKeeps(lease, c, i, Next(lease, c, s).nodes[i]);
    case Load(i, k, extra) => LoadKeeps(lease, c, i, k, extra);
  }

  lemma {:induction false} InvReached(lease: nat, c: Cluster, steps: seq<Step>)
    requires Inv(lease, c) && AllDated(c) && AllTimely(lease, c, steps) && Run(lease, c, steps).Reached?
    ensures Inv(lease, Run(lease, c, steps).cluster) && AllDated(Run(lease, c, steps).cluster)
    decreases |steps|
  {
    if steps != [] {
      InvKept(lease, c, steps[0]);
      DatedKept(lease, c, steps[0]);
      InvReached(lease, Next(lease, c, steps[0]), steps[1..]);
    }
  }

  // ---------------------------------------------------------------- theorems

  /** Of two masters, the one that has executed less runs on a clock strictly behind the other's. */
  lemma OlderMasterIsSlow(lease: nat, c: Cluster, a: nat, b: nat)
    requires Inv(lease, c) && AllDated(c) && a < |c.nodes| && b < |c.nodes| && a != b
    requires IsMaster(c.nodes[a].record, a + 1, c.nodes[a].clock)
    requires IsMaster(c.nodes[b].record, b + 1, c.nodes[b].clock)
    requires c.nodes[a].executed <= c.nodes[b].executed
    ensures c.nodes[a].clock < c.nodes[b].clock
  {
    assert NodeInv(lease, c.log, a + 1, c.nodes[a]) && NodeInv(lease, c.log, b + 1, c.nodes[b]);
    Separated(lease, c.log, c.nodes[a].executed, c.nodes[b].executed);
  }

  /**
    In every run of renewals, takeovers, lagging replicas, restarts and replays whose steps are
    timely, two nodes whose clocks agree are never both master.
   */
  lemma LeaseExclusion(lease: nat, c: Cluster, steps: seq<Step>, a: nat, b: nat)
    requires Fresh(c) && AllTimely(lease, c, steps) && Run(lease, c, steps).Reached?
    requires var n := Run(lease, c, steps).cluster.nodes; a < |n| && b < |n| && a != b && n[a].clock == n[b].clock
    ensures var n := Run(lease, c, steps).cluster.nodes;
            !(IsMaster(n[a].record, a + 1, n[a].clock) && IsMaster(n[b].record, b + 1, n[b].clock))
  {
    InvReached(lease, c, steps);
    var d := Run(lease, c, steps).cluster;
    if IsMaster(d.nodes[a].record, a + 1, d.nodes[a].clock) && IsMaster(d.nodes[b].record, b + 1, d.nodes[b].clock) {
      if d.nodes[a].executed <= d.nodes[b].executed {
        OlderMasterIsSlow(lease, d, a, b);
      } else {
        OlderMasterIsSlow(lease, d, b, a);
      }
    }
  }

  // ---------------------------------------------------------------- one time for all

  /** Clocks agree, and no proposal is dated after them. */
  ghost predicate Synced(c: Cluster, now: nat) {
    && (forall i :: 0 <= i < |c.nodes| ==> c.nodes[i].clock == now)
    && (forall p :: p in c.pool ==> p.update <= now)
    && (forall k :: 0 <= k < |c.log| ==> c.log[k].update <= now)
  }

  lemma {:induction false} LedgerDated(log: seq<Record>, k: nat, now: nat)
    requires k <= |log| && forall j :: 0 <= j < |log| ==> log[j].update <= now
    ensures Ledger(log, k).update <= now
  {
    if k > 0 {
      LedgerDated(log, k - 1, now);
    }
  }

  /** Steps of nodes that share one clock, none of which extends its own lease by loading it. */
  predicate Shared(c: Cluster, s: Step)
    requires Enabled(c, s)
  {
    && !s.Tick?
    && (s.Load? && Ledger(c.log, s.k).owner == s.node + 1 ==>
          c.nodes[s.node].clock + s.extra <= Ledger(c.log, s.k).update)
  }

  predicate AllShared(lease: nat, c: Cluster, steps: seq<Step>)
    decreases |steps|
  {
    steps == [] || (Enabled(c, steps[0]) ==>
      Shared(c, steps[0]) && AllShared(lease, Next(lease, c, steps[0]), steps[1..]))
  }

  lemma {:induction false} SharedIsTimely(lease: nat, c: Cluster, now: nat, steps: seq<Step>) returns (end: nat)
    requires Synced(c, now) && AllShared(lease, c, steps) && Run(lease, c, steps).Reached?
    ensures AllTimely(lease, c, steps) && Synced(Run(lease, c, steps).cluster, end)
    decreases |steps|
  {
    end := now;
    if steps != [] {
      var s := steps[0];
      if s.Load? {
        LedgerDated(c.log, s.k, now);
      }
      end := SharedIsTimely(lease, Next(lease, c, s), if s.TickAll? then now + s.delta else now, steps[1..]);
    }
  }

  /** With one time for all nodes, at most one node is master, whatever the run. */
  lemma AtMostOneMaster(lease: nat, c: Cluster, now: nat, steps: seq<Step>, a: nat, b: nat)
    requires Fresh(c) && Synced(c, now) && AllShared(lease, c, steps) && Run(lease, c, steps).Reached?
    requires var n := Run(lease, c, steps).cluster.nodes; a < |n| && b < |n|
    requires var n := Run(lease, c, steps).cluster.nodes;
             IsMaster(n[a].record, a + 1, n[a].clock) && IsMaster(n[b].record, b + 1, n[b].clock)
    ensures a == b
  {
    var end := SharedIsTimely(lease, c, now, steps);
    if a != b {
      LeaseExclusion(lease, c, steps, a, b);
    }
  }
}
