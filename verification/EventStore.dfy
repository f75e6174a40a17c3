/**
  The replicated event log: every chosen event is compared with the newest one saved and appended,
  under a running checksum.
 */
module EventStore {
  import opened Bytes
  import MasterLease

  const OK := 0
  const BUFFER_FAIL := 500
  const GTID_EVENT_FAIL := 502
  const GTID_CONFLICT := 503
  const MASTER_CONFLICT := 2000
  const EVENT_EXIST := 3000

  const TWO_TO_64 := 0x1_0000_0000_0000_0000

  // ---------------------------------------------------------------- the running checksum

  /** The value of a `char`, which is signed. */
  function Signed(b: byte): int {
    if b < 128 then b else b - 256
  }

  function CheckSum(c: nat, s: seq<byte>): nat
    decreases |s|
  {
    if s == [] then c else CheckSum((c * 257 + Signed(s[0])) % TWO_TO_64, s[1..])
  }

  lemma {:induction false} CheckSumOfSum(c: nat, a: seq<byte>, b: seq<byte>)
    ensures CheckSum(c, a + b) == CheckSum(CheckSum(c, a), b)
    decreases |a|
  {
    if a == [] {
      assert a + b == b;
    } else {
      assert (a + b)[1..] == a[1..] + b;
      CheckSumOfSum((c * 257 + Signed(a[0])) % TWO_TO_64, a[1..], b);
    }
  }

  /** `Utils::GetCheckSum`. */
  method GetCheckSum(start: nat, value: seq<byte>) returns (checksum: nat)
    ensures checksum == CheckSum(start, value)
  {
    checksum := start;
    for i := 0 to |value|
      invariant CheckSum(checksum, value[i..]) == CheckSum(start, value)
    {
      assert value[i..][1..] == value[i + 1..];
      checksum := (checksum * 257 + Signed(value[i])) % TWO_TO_64;
    }
    assert value[|value|..] == [];
  }

  // ---------------------------------------------------------------- the store

  /** `PaxosEventData`: `event` is to follow `current`. */
  datatype Proposal = Proposal(svrid: nat, current: string, event: string, buffer: seq<byte>, checksum: nat)

  /** A saved event; `base` is the GTID its proposal was to follow. */
  datatype Saved = Saved(gtid: string, base: string, buffer: seq<byte>, checksum: nat, instance: nat)

  type Store = seq<Saved>

  function NewestGtid(st: Store): string {
    if st == [] then "" else st[|st| - 1].gtid
  }

  function NewestCheckSum(st: Store): nat {
    if st == [] then 0 else st[|st| - 1].checksum
  }

  function NewestInstance(st: Store): nat {
    if st == [] then 0 else st[|st| - 1].instance
  }

  /** What becomes of a proposal. */
  datatype Verdict = Ignored | Refused(code: nat) | Appended

  function Judge(st: Store, master: MasterLease.Record, p: Proposal, instance: nat): Verdict {
    if p.buffer == [] || p.event == "" then Ignored
    else if !(master.owner > 0 && master.owner == p.svrid) then Refused(MASTER_CONFLICT)
    else if NewestGtid(st) != "" && p.current != NewestGtid(st) then
      Refused(if p.event == NewestGtid(st) then EVENT_EXIST else GTID_CONFLICT)
    else if p.checksum != CheckSum(NewestCheckSum(st), p.buffer) then Refused(BUFFER_FAIL)
    else if instance <= NewestInstance(st) then Refused(EVENT_EXIST)
    else Appended
  }

  function Executed(st: Store, master: MasterLease.Record, p: Proposal, instance: nat): Store {
    if Judge(st, master, p, instance).Appended? then st + [Saved(p.event, p.current, p.buffer, p.checksum, instance)]
    else st
  }

  /** The event side of one node: its store and the master record beside it. */
  class Events {
    var saved: Store
    const replica: MasterLease.Replica

    constructor (replica: MasterLease.Replica)
      ensures saved == [] && this.replica == replica
    {
      saved := [];
      this.replica := replica;
    }

    /** `EventStorage::AddEvent`. */
    method AddEvent(e: Saved) returns (code: nat)
      modifies this
      ensures code == OK ==> saved == old(saved) + [e]
      ensures code != OK ==> saved == old(saved) && code == EVENT_EXIST
      ensures code == OK <==> NewestInstance(old(saved)) < e.instance
    {
      if e.instance <= NewestInstance(saved) {
        return EVENT_EXIST;
      }
      saved := saved + [e];
      code := OK;
    }

    /** `EventExecuter::SMExecute`. */
    method Execute(instance: nat, data: Proposal) returns (code: nat)
      modifies this
      ensures saved == Executed(old(saved), replica.master, data, instance)
      ensures code == match Judge(old(saved), replica.master, data, instance)
                      case Refused(c) => c
                      case _ => OK
    {
      if |data.buffer| == 0 || |data.event| == 0 {
        return OK;
      }
      if !(replica.master.owner > 0 && replica.master.owner == data.svrid) {
        return MASTER_CONFLICT;
      }
      var newest := NewestGtid(saved);
      if |newest| > 0 && data.current != newest {
        if data.event == newest {
          return EVENT_EXIST;
        } else {
          return GTID_CONFLICT;
        }
      }
      var checksum := GetCheckSum(NewestCheckSum(saved), data.buffer);
      if checksum != data.checksum {
        return BUFFER_FAIL;
      }
      code := AddEvent(Saved(data.event, data.current, data.buffer, data.checksum, instance));
    }

    /** `EventAgent::SendValue`, up to handing the proposal to Paxos. */
    method SendValue(oldGtid: string, newGtid: string, value: seq<byte>, now: nat) returns (code: nat, data: Proposal)
      ensures code == OK <==> newGtid != "" && value != [] && MasterLease.IsMaster(replica.master, replica.id, now)
      ensures code == OK ==>
                data == Proposal(replica.id, oldGtid, newGtid, value, CheckSum(NewestCheckSum(saved), value))
    {
      data := Proposal(0, "", "", [], 0);
      if |newGtid| == 0 || |value| == 0 {
        return GTID_EVENT_FAIL, data;
      }
      if !MasterLease.IsMaster(replica.master, replica.id, now) {
        return MASTER_CONFLICT, data;
      }
      var checksum := GetCheckSum(NewestCheckSum(saved), value);
      data := Proposal(replica.id, oldGtid, newGtid, value, checksum);
      code := OK;
    }
  }

  // ---------------------------------------------------------------- runs

  /** What Paxos chose, in order: records for the master machine and events for this one. */
  datatype Value = Master(record: MasterLease.Record) | Event(data: Proposal)

  datatype Machine = Machine(master: MasterLease.Record, store: Store)

  /** What is local to a replica when it executes a value: its clock and its lease extension. */
  datatype Local = Local(now: nat, extra: nat)

  function Step(id: nat, m: Machine, v: Value, instance: nat, here: Local): Machine {
    match v
    case Master(r) =>
      m.(master := MasterLease.Stored(m.master, MasterLease.Timed(r, instance, id, here.now, here.extra)))
    case Event(p) => m.(store := Executed(m.store, m.master, p, instance))
  }

  /** The machine of node `id` after `values`; the first has instance id `first`. */
  function Machines(id: nat, m: Machine, values: seq<Value>, first: nat, locals: seq<Local>): Machine
    requires |locals| == |values|
    decreases |values|
  {
    if values == [] then m
    else Machines(id, Step(id, m, values[0], first, locals[0]), values[1..], first + 1, locals[1..])
  }

  /** Equal but for the expiry of the master record. */
  predicate Agree(m: Machine, n: Machine) {
    m.store == n.store && m.master.(expire := 0) == n.master.(expire := 0)
  }

  /** Replicas that execute the same values agree, whoever they are and whatever their clocks. */
  lemma {:induction false} ReplicasAgree(a: nat, b: nat, m: Machine, n: Machine, values: seq<Value>, first: nat,
                                         here: seq<Local>, there: seq<Local>)
    requires Agree(m, n) && |here| == |values| == |there|
    ensures Agree(Machines(a, m, values, first, here), Machines(b, n, values, first, there))
    decreases |values|
  {
    if values != [] {
      ReplicasAgree(a, b, Step(a, m, values[0], first, here[0]), Step(b, n, values[0], first, there[0]),
                    values[1..], first + 1, here[1..], there[1..]);
    }
  }

  // ---------------------------------------------------------------- what every store is

  function Buffers(st: Store): seq<byte> {
    if st == [] then [] else Buffers(st[..|st| - 1]) + st[|st| - 1].buffer
  }

  /** Every saved checksum covers all the bytes saved up to it. */
  ghost predicate Summed(st: Store) {
    st == [] || (Summed(st[..|st| - 1]) && st[|st| - 1].checksum == CheckSum(0, Buffers(st)))
  }

  /** Every event follows its base, and the checksums are those of all that was saved. */
  ghost predicate Chained(st: Store) {
    && (forall i :: 0 <= i < |st| ==> st[i].gtid != "")
    && (forall i, j :: 0 <= i < |st| && j == i + 1 < |st| ==>
          st[j].base == st[i].gtid && st[i].instance < st[j].instance)
    && Summed(st)
  }

  lemma BuffersOf(st: Store, e: Saved)
    ensures Buffers(st + [e]) == Buffers(st) + e.buffer
  {
    assert (st + [e])[..|st|] == st;
  }

  lemma ChainedAppend(st: Store, e: Saved)
    requires Chained(st) && e.gtid != "" && NewestInstance(st) < e.instance
    requires (st != [] ==> e.base == NewestGtid(st)) && e.checksum == CheckSum(NewestCheckSum(st), e.buffer)
    ensures Chained(st + [e])
  {
    assert (st + [e])[..|st|] == st;
    BuffersOf(st, e);
    CheckSumOfSum(0, Buffers(st), e.buffer);
  }

  lemma ChainedStep(st: Store, master: MasterLease.Record, p: Proposal, instance: nat)
    requires Chained(st)
    ensures Chained(Executed(st, master, p, instance))
  {
    if Judge(st, master, p, instance).Appended? {
      ChainedAppend(st, Saved(p.event, p.current, p.buffer, p.checksum, instance));
    }
  }

  lemma {:induction false} ChainedAlways(id: nat, m: Machine, values: seq<Value>, first: nat, locals: seq<Local>)
    requires Chained(m.store) && |locals| == |values|
    ensures Chained(Machines(id, m, values, first, locals).store)
    decreases |values|
  {
    if values != [] {
      if values[0].Event? {
        ChainedStep(m.store, m.master, values[0].data, first);
      }
      ChainedAlways(id, Step(id, m, values[0], first, locals[0]), values[1..], first + 1, locals[1..]);
    }
  }

  /** In every reachable store the newest checksum covers all the bytes ever saved. */
  lemma NewestCoversAll(id: nat, values: seq<Value>, first: nat, locals: seq<Local>)
    requires |locals| == |values|
    ensures var st := Machines(id, Machine(MasterLease.NOBODY, []), values, first, locals).store;
            NewestCheckSum(st) == CheckSum(0, Buffers(st))
  {
    ChainedAlways(id, Machine(MasterLease.NOBODY, []), values, first, locals);
  }

  // ---------------------------------------------------------------- one event on each base

  /** A proposal whose GTID is new, or one sent again. */
  ghost predicate FreshOrResent(st: Store, p: Proposal) {
    && (forall i :: 0 <= i < |st| && st[i].gtid == p.event ==> st[i].base == p.current)
    && p.event != (if st == [] then p.current else st[0].base)
  }

  ghost predicate AllFresh(id: nat, m: Machine, values: seq<Value>, first: nat, locals: seq<Local>)
    requires |locals| == |values|
    decreases |values|
  {
    values == [] ||
    (&& (values[0].Event? ==> FreshOrResent(m.store, values[0].data))
     && AllFresh(id, Step(id, m, values[0], first, locals[0]), values[1..], first + 1, locals[1..]))
  }

  ghost predicate Distinct(st: Store) {
    && (forall i, j :: 0 <= i < j < |st| ==> st[i].gtid != st[j].gtid)
    && (forall i :: 0 <= i < |st| ==> st[i].gtid != st[0].base)
  }

  lemma DistinctStep(st: Store, master: MasterLease.Record, p: Proposal, instance: nat)
    requires Chained(st) && Distinct(st) && FreshOrResent(st, p)
    ensures Distinct(Executed(st, master, p, instance))
  {
    if st != [] && Judge(st, master, p, instance).Appended? {
      forall i | 0 <= i < |st| ensures st[i].gtid != p.event {
        if i > 0 {
          assert st[i].base == st[i - 1].gtid;
        }
      }
    }
  }

  lemma {:induction false} DistinctAlways(id: nat, m: Machine, values: seq<Value>, first: nat, locals: seq<Local>)
    requires |locals| == |values| && Chained(m.store) && Distinct(m.store) && AllFresh(id, m, values, first, locals)
    ensures Distinct(Machines(id, m, values, first, locals).store)
    decreases |values|
  {
    if values != [] {
      if values[0].Event? {
        ChainedStep(m.store, m.master, values[0].data, first);
        DistinctStep(m.store, m.master, values[0].data, first);
      }
      DistinctAlways(id, Step(id, m, values[0], first, locals[0]), values[1..], first + 1, locals[1..]);
    }
  }

  /** However many proposals were made on one base, and however often each was sent, one is saved. */
  lemma OnePerBase(id: nat, values: seq<Value>, first: nat, locals: seq<Local>, i: nat, j: nat)
    requires |locals| == |values| && AllFresh(id, Machine(MasterLease.NOBODY, []), values, first, locals)
    requires var st := Machines(id, Machine(MasterLease.NOBODY, []), values, first, locals).store;
             i < |st| && j < |st| && st[i].base == st[j].base
    ensures i == j
  {
    var m := Machine(MasterLease.NOBODY, []);
    ChainedAlways(id, m, values, first, locals);
    DistinctAlways(id, m, values, first, locals);
    var st := Machines(id, m, values, first, locals).store;
    if i < j {
      SameBase(st, i, j);
    } else if j < i {
      SameBase(st, j, i);
    }
  }

  lemma SameBase(st: Store, i: nat, j: nat)
    requires Chained(st) && Distinct(st) && i < j < |st|
    ensures st[i].base != st[j].base
  {
    assert st[j].base == st[j - 1].gtid;
    if i > 0 {
      assert st[i].base == st[i - 1].gtid;
    }
  }

  /** The newest event, sent again: it is there, and the store stays as it is. */
  lemma ResendOfNewest(st: Store, master: MasterLease.Record, p: Proposal, instance: nat)
    requires Chained(st) && Distinct(st) && st != [] && master.owner == p.svrid > 0
    requires p.event == NewestGtid(st) && p.current == st[|st| - 1].base && p.buffer != []
    ensures Judge(st, master, p, instance) == Refused(EVENT_EXIST) && Executed(st, master, p, instance) == st
  {
    if |st| > 1 {
      assert st[|st| - 1].base == st[|st| - 2].gtid;
    }
  }

  /** A proposal made against a store is appended by every replica whose store has not moved on. */
  lemma SentIsAppended(st: Store, master: MasterLease.Record, id: nat, event: string, value: seq<byte>, instance: nat)
    requires event != "" && value != [] && master.owner == id > 0 && NewestInstance(st) < instance
    ensures var p := Proposal(id, NewestGtid(st), event, value, CheckSum(NewestCheckSum(st), value));
            && Judge(st, master, p, instance).Appended?
            && NewestGtid(Executed(st, master, p, instance)) == event
            && Buffers(Executed(st, master, p, instance)) == Buffers(st) + value
  {
    var p := Proposal(id, NewestGtid(st), event, value, CheckSum(NewestCheckSum(st), value));
    var after := Executed(st, master, p, instance);
    assert after[..|after| - 1] == st;
  }
}
