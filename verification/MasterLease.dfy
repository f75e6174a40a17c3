/**
  The master record of a cluster and its lease.  Records are proposed by one node, put into one
  order by Paxos, and executed by every node in that order, each reading its own clock.
 */
module MasterLease {

  const OK := 0
  const MASTER_CONFLICT := 2000
  const MASTER_VERSION_CONFLICT := 4000

  /** `GetExtLeaseTime` yields less than this. */
  const EXTRA_END := 10

  /** `MasterInfo`.  Owner 0 is nobody; a proposal carries expiry 0. */
  datatype Record = Record(owner: nat, version: nat, instance: nat, update: nat, lease: nat, expire: nat)

  const NOBODY := Record(0, 0, 0, 0, 0, 0)

  // ---------------------------------------------------------------- what the code computes

  predicate IsTimeOut(r: Record, now: nat) {
    r.expire < now
  }

  /** `CheckMasterBySvrID`, with the node's own id: `IsMaster`. */
  predicate IsMaster(r: Record, id: nat, now: nat) {
    r.owner > 0 && r.owner == id && !IsTimeOut(r, now)
  }

  predicate Accepts(current: Record, info: Record) {
    current.owner == 0 || (info.instance > current.instance && info.version >= current.version)
  }

  function Stored(current: Record, info: Record): Record {
    if Accepts(current, info) then info.(version := info.version + 1) else current
  }

  /** The expiry the executing node gives a proposal; other nodes add up to ten seconds. */
  function Timed(info: Record, instance: nat, id: nat, now: nat, extra: nat): Record {
    info.(instance := instance,
          expire := if info.expire != 0 then info.expire
                    else if info.owner == id then info.update + info.lease
                    else now + info.lease + extra)
  }

  /** The replica of one node: `MasterStorage` and the executer and agent that use it. */
  class Replica {
    const id: nat
    var master: Record

    constructor (id: nat)
      ensures this.id == id && master == NOBODY
    {
      this.id := id;
      master := NOBODY;
    }

    /** `MasterStorage::SetMaster`. */
    method SetMaster(info: Record) returns (code: nat)
      modifies this
      ensures master == Stored(old(master), info)
      ensures code == if Accepts(old(master), info) then OK else MASTER_VERSION_CONFLICT
    {
      if master.owner == 0 || (info.instance > master.instance && info.version >= master.version) {
        master := info;
        master := master.(version := master.version + 1);
        code := OK;
      } else {
        code := MASTER_VERSION_CONFLICT;
      }
    }

    /** `MasterExecuter::SMExecute`. */
    method Execute(instance: nat, proposal: Record, now: nat, extra: nat) returns (code: nat)
      modifies this
      ensures master == Stored(old(master), Timed(proposal, instance, id, now, extra))
      ensures code == OK <==> Accepts(old(master), proposal.(instance := instance))
    {
      var info := proposal.(instance := instance);
      if info.expire == 0 {
        if info.owner == id {
          info := info.(expire := info.update + info.lease);
        } else {
          info := info.(expire := now + info.lease + extra);
        }
      }
      code := SetMaster(info);
    }

    /**
      `MasterAgent::SetMaster`: `draft` is a copy of the record taken before, naming the node that
      is to be master.  Nothing is proposed while the draft is in force, except by the master.
     */
    method Propose(draft: Record, lease: nat, now: nat) returns (code: nat, proposal: Record)
      ensures code == OK <==> IsTimeOut(draft, now) || IsMaster(master, id, now)
      ensures code == OK ==> proposal == draft.(update := now, lease := lease, expire := 0)
    {
      proposal := draft;
      if !IsTimeOut(draft, now) {
        if !IsMaster(master, id, now) {
          return MASTER_CONFLICT, proposal;
        }
      }
      proposal := proposal.(update := now);
      proposal := proposal.(lease := lease);
      proposal := proposal.(expire := 0);
      code := OK;
    }

    /** `MasterAgent::SetMaster` with the node's own address: the record, naming the node itself. */
    method ProposeSelf(lease: nat, now: nat) returns (code: nat, proposal: Record)
      ensures code == OK <==> IsTimeOut(master, now) || IsMaster(master, id, now)
      ensures code == OK ==> proposal == Proposal(lease, master, id, now)
    {
      code, proposal := Propose(master.(owner := id), lease, now);
    }

    /** `SetMySqlAdminInfo` and `SetMySqlReplicaInfo`: a change of accounts is for the master only. */
    method ChangeAccounts(lease: nat, now: nat) returns (code: nat, proposal: Record)
      ensures code == OK <==> IsMaster(master, id, now)
      ensures code == OK ==> proposal == Proposal(lease, master, id, now)
    {
      proposal := master;
      if !IsMaster(master, id, now) {
        return MASTER_CONFLICT, proposal;
      }
      code, proposal := Propose(master, lease, now);
    }
  }

  // ---------------------------------------------------------------- a cluster

  /** A node: its clock, how much of the chosen order it has executed, its record, and drafts. */
  datatype Node = Node(clock: nat, executed: nat, record: Record, drafts: set<Record>)

  /**
    `pool` holds the proposals sent, `log` is the order Paxos chose from them; the one at `k` has
    instance id `k + 1`.  A proposal may be chosen long after it was sent, or never, or again.
   */
  datatype Cluster = Cluster(nodes: seq<Node>, pool: set<Record>, log: seq<Record>)

  /** Node `i` has id `i + 1`. */
  datatype Step =
    | Tick(node: nat, delta: nat)                    // one clock advances
    | TickAll(delta: nat)                            // all clocks advance together
    | Draft(node: nat)                               // copy the record
    | Propose(node: nat, draft: Record)              // propose oneself
    | Choose(proposal: Record)                       // Paxos chooses a proposal
    | Execute(node: nat, extra: nat)                 // execute the next chosen proposal
    | Restart(node: nat)                             // forget all; execute again from the start
    | Load(node: nat, k: nat, extra: nat)            // restart from a checkpoint

  /** The record after the first `k` chosen proposals, but for its expiry. */
  function Ledger(log: seq<Record>, k: nat): Record
    requires k <= |log|
  {
    if k == 0 then NOBODY else Stored(Ledger(log, k - 1), log[k - 1].(instance := k))
  }

  predicate Enabled(c: Cluster, s: Step) {
    (s.TickAll? || s.Choose? || s.node < |c.nodes|) &&
    match s
    case Propose(i, draft) =>
      var n := c.nodes[i];
      draft in n.drafts && (IsTimeOut(draft, n.clock) || IsMaster(n.record, i + 1, n.clock))
    case Choose(p) => p in c.pool
    case Execute(i, extra) => c.nodes[i].executed < |c.log| && extra < EXTRA_END
    case Load(_, k, _) => k <= |c.log| && Ledger(c.log, k).version > 0
    case _ => true
  }

  /** What `MasterAgent::SetMaster` sends for a draft. */
  function Proposal(lease: nat, draft: Record, owner: nat, now: nat): Record {
    draft.(owner := owner, update := now, lease := lease, expire := 0)
  }

  function Next(lease: nat, c: Cluster, s: Step): Cluster
    requires Enabled(c, s)
  {
    match s
    case Tick(i, delta) => c.(nodes := c.nodes[i := c.nodes[i].(clock := c.nodes[i].clock + delta)])
    case TickAll(delta) =>
      c.(nodes := seq(|c.nodes|, i requires 0 <= i < |c.nodes| => c.nodes[i].(clock := c.nodes[i].clock + delta)))
    case Draft(i) => c.(nodes := c.nodes[i := c.nodes[i].(drafts := c.nodes[i].drafts + {c.nodes[i].record})])
    case Propose(i, draft) => c.(pool := c.pool + {Proposal(lease, draft, i + 1, c.nodes[i].clock)})
    case Choose(p) => c.(log := c.log + [p])
    case Execute(i, extra) =>
      var n := c.nodes[i];
      var info := Timed(c.log[n.executed], n.executed + 1, i + 1, n.clock, extra);
      c.(nodes := c.nodes[i := n.(executed := n.executed + 1, record := Stored(n.record, info))])
    case Restart(i) => c.(nodes := c.nodes[i := c.nodes[i].(executed := 0, record := NOBODY, drafts := {})])
    case Load(i, k, extra) =>
      var n := c.nodes[i];
      var loaded := Ledger(c.log, k).(expire := n.clock + lease + extra);
      c.(nodes := c.nodes[i := n.(executed := k, record := loaded, drafts := {})])
  }

  /** A cluster that has not started; clocks may differ. */
  predicate Fresh(c: Cluster) {
    && c.log == [] && c.pool == {}
    && forall i :: 0 <= i < |c.nodes| ==> c.nodes[i] == Node(c.nodes[i].clock, 0, NOBODY, {})
  }

  /** The step makes a node take in another record. */
  predicate Takes(c: Cluster, s: Step)
    requires Enabled(c, s)
  {
    s.Load? ||
    (s.Execute? && var n := c.nodes[s.node]; Accepts(n.record, c.log[n.executed].(instance := n.executed + 1)))
  }

  function Taken(c: Cluster, s: Step): Record
    requires Enabled(c, s) && Takes(c, s)
  {
    if s.Execute? then c.log[c.nodes[s.node].executed] else Ledger(c.log, s.k)
  }

  /**
    The lease a node gives a record it takes in does not end before the owner's, if it is another
    node's, nor after it, if it is its own.
   */
  predicate Bounded(own: bool, load: bool, update: nat, clock: nat, extra: nat) {
    if own then load ==> clock + extra <= update else update <= clock + extra
  }

  /** What the lease argument asks of a step. */
  predicate Timely(c: Cluster, s: Step)
    requires Enabled(c, s)
  {
    Takes(c, s) ==>
      var r := Taken(c, s);
      Bounded(r.owner == s.node + 1, s.Load?, r.update, c.nodes[s.node].clock, s.extra)
  }

  datatype Outcome = Stuck | Reached(cluster: Cluster)

  function Run(lease: nat, c: Cluster, steps: seq<Step>): Outcome
    decreases |steps|
  {
    if steps == [] then Reached(c)
    else if !Enabled(c, steps[0]) then Stuck
    else Run(lease, Next(lease, c, steps[0]), steps[1..])
  }

  /** Every step of the run is timely. */
  predicate AllTimely(lease: nat, c: Cluster, steps: seq<Step>)
    decreases |steps|
  {
    steps == [] || (Enabled(c, steps[0]) ==>
      Timely(c, steps[0]) && AllTimely(lease, Next(lease, c, steps[0]), steps[1..]))
  }
}
