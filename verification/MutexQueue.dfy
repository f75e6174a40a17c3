/**
  `Stage_manager::Mutex_queue`: the intrusive list of sessions behind each stage, linked through
  `THD::next_to_commit`, with a pointer to its last link.
 */
module MutexQueue {

  class Thd {
    var next: Thd?       // next_to_commit
    var pending: bool    // transaction.flags.pending

    constructor ()
      ensures next == null && pending
    {
      next := null;
      pending := true;
    }
  }

  /** `THD **m_last`: either `&m_first` or the `next_to_commit` field of the last session. */
  datatype Link = First | NextOf(thd: Thd)

  ghost predicate Distinct(s: seq<Thd>) {
    forall i, j :: 0 <= i < j < |s| ==> s[i] != s[j]
  }

  ghost predicate Disjoint(s: seq<Thd>, t: seq<Thd>) {
    forall i, j :: 0 <= i < |s| && 0 <= j < |t| ==> s[i] != t[j]
  }

  /** The sessions of `s`, in order, are what one meets following `next` from the first to null. */
  ghost predicate Linked(s: seq<Thd>)
    reads s
  {
    && (forall i, j :: 0 <= i < j < |s| && j == i + 1 ==> s[i].next == s[j])
    && (s != [] ==> s[|s| - 1].next == null)
  }

  ghost function Head(s: seq<Thd>): Thd? {
    if s == [] then null else s[0]
  }

  lemma SuffixOfSuffix(s: seq<Thd>, i: nat, j: nat)
    requires i + j <= |s|
    ensures s[i..][j..] == s[i + j..]
  {
  }

  lemma SnocSlice(s: seq<Thd>, i: nat)
    requires i < |s|
    ensures s[..i] + [s[i]] == s[..i + 1]
  {
  }

  class Queue {
    var first: Thd?
    var last: Link
    ghost var contents: seq<Thd>

    ghost predicate Valid()
      reads this, contents
    {
      && Distinct(contents)
      && Linked(contents)
      && first == Head(contents)
      && last == (if contents == [] then First else NextOf(contents[|contents| - 1]))
    }

    constructor ()
      ensures Valid() && contents == []
    {
      first := null;
      last := First;
      contents := [];
    }

    /** Append the list of sessions that starts at `head`; true when the queue was empty. */
    method Append(head: Thd, ghost chain: seq<Thd>) returns (empty: bool)
      requires Valid()
      requires chain != [] && chain[0] == head && Distinct(chain) && Linked(chain)
      requires Disjoint(contents, chain)
      modifies this, if contents == [] then {} else {contents[|contents| - 1]}`next
      ensures Valid()
      ensures contents == old(contents) + chain
      ensures empty == (old(contents) == [])
    {
      empty := first == null;
      match last {
        case First => first := head;
        case NextOf(t) => t.next := head;
      }
      assert Linked(chain);
      var end := head;
      ghost var k := 0;
      while end.next != null
        invariant 0 <= k < |chain| && end == chain[k]
        invariant if k < |chain| - 1 then end.next == chain[k + 1] else end.next == null
        decreases |chain| - k
      {
        end := end.next;
        k := k + 1;
      }
      last := NextOf(end);
      contents := contents + chain;
    }

    /** Take the first session off; its link is left in place. */
    method PopFront() returns (more: bool, result: Thd?)
      requires Valid()
      modifies this
      ensures Valid()
      ensures result == Head(old(contents))
      ensures contents == if old(contents) == [] then [] else old(contents)[1..]
      ensures more == (contents != [])
    {
      result := first;
      more := true;
      if result != null {
        first := result.next;
        contents := contents[1..];
      }
      if first == null {
        more := false;
        last := First;
      }
    }

    method FetchAndEmpty() returns (result: Thd?)
      requires Valid()
      modifies this
      ensures Valid() && contents == []
      ensures result == Head(old(contents)) && Linked(old(contents))
    {
      result := first;
      first := null;
      last := First;
      contents := [];
    }
  }

  // ---------------------------------------------------------------- process_flush_stage_queue

  /** The first `j` sessions of `all` form one list, the others are not linked yet. */
  ghost predicate Threaded(all: seq<Thd>, j: nat)
    reads all
  {
    && j <= |all|
    && (forall k, m :: 0 <= k < m < j && m == k + 1 ==> all[k].next == all[m])
    && (forall k :: 0 <= k < |all| && j - 1 <= k ==> all[k].next == null)
  }

  lemma ThreadedPrefix(all: seq<Thd>, j: nat)
    requires Distinct(all) && Threaded(all, j)
    ensures Linked(all[..j]) && Distinct(all[..j])
  {
  }

  /** One session enrolls while the queue holds `all[i..j]`. */
  method EnrollOne(q: Queue, t: Thd, ghost all: seq<Thd>, ghost i: nat, ghost j: nat)
    requires q.Valid() && i < j < |all| && q.contents == all[i..j] && t == all[j]
    requires Distinct(all) && Threaded(all, j)
    modifies q, {all[j - 1]}`next
    ensures q.Valid() && q.contents == all[i..j + 1] && Threaded(all, j + 1)
  {
    assert q.contents[|q.contents| - 1] == all[j - 1] && all[j].next == null;
    var _ := q.Append(t, [t]);
    assert q.contents[j - 1 - i] == all[j - 1] && q.contents[j - i] == all[j];
  }

  /** The queue holds `all[i..j]`; the sessions before have left it, the others have yet to enroll. */
  ghost predicate Holds(q: Queue, all: seq<Thd>, i: nat, j: nat)
    reads q, q.contents, all
  {
    q.Valid() && i <= j && Distinct(all) && Threaded(all, j) && q.contents == all[i..j]
  }

  /** As far as the flush leader has come: `flushed` has left the queue, `waiting` has yet to enroll. */
  ghost predicate Draining(q: Queue, all: seq<Thd>, flushed: seq<Thd>, waiting: seq<Thd>)
    reads q, q.contents, all
  {
    && |flushed| + |waiting| <= |all| && flushed == all[..|flushed|] && waiting == all[|all| - |waiting|..]
    && Holds(q, all, |flushed|, |all| - |waiting|)
  }

  lemma Start(q: Queue, arrivals: seq<Thd>)
    requires q.Valid() && Distinct(q.contents + arrivals)
    requires forall k :: 0 <= k < |arrivals| ==> arrivals[k].next == null
    ensures Draining(q, q.contents + arrivals, [], arrivals)
  {
  }

  lemma SplitAt(s: seq<Thd>, i: nat)
    requires i <= |s|
    ensures s[..i] + s[i..] == s
  {
  }

  /** The first `count` of the waiting sessions enroll, one after the other. */
  method Enroll(q: Queue, waiting: seq<Thd>, count: nat, ghost all: seq<Thd>, ghost i: nat, ghost j: nat)
    requires i < j && Holds(q, all, i, j) && waiting == all[j..] && count <= |waiting|
    modifies q, (set t | t in all)`next
    ensures Holds(q, all, i, j + count)
  {
    for k := 0 to count
      invariant Holds(q, all, i, j + k)
    {
      EnrollOne(q, waiting[k], all, i, j + k);
    }
  }

  method PopOne(q: Queue, ghost all: seq<Thd>, ghost i: nat, ghost j: nat) returns (more: bool, t: Thd)
    requires i < j && Holds(q, all, i, j)
    modifies q
    ensures Holds(q, all, i + 1, j) && t == all[i] && more == (i + 1 < j)
  {
    var first;
    more, first := q.PopFront();
    t := first;
  }

  /** Some of the waiting sessions enroll, then the leader pops one and flushes it. */
  method Round(q: Queue, flushed: seq<Thd>, waiting: seq<Thd>, count: nat, ghost all: seq<Thd>)
    returns (more: bool, t: Thd)
    requires Draining(q, all, flushed, waiting) && |flushed| + |waiting| < |all| && count <= |waiting|
    modifies q, (set t | t in all)`next
    ensures Draining(q, all, flushed + [t], waiting[count..])
    ensures more == (|flushed| + 1 + |waiting| - count < |all|)
  {
    ghost var i, j := |flushed|, |all| - |waiting|;
    Enroll(q, waiting, count, all, i, j);
    more, t := PopOne(q, all, i, j + count);
    SuffixOfSuffix(all, j, count);
    SnocSlice(all, i);
  }

  /** Follow a list to its end. */
  method Walk(head: Thd?, ghost chain: seq<Thd>) returns (seen: seq<Thd>)
    requires Linked(chain) && head == Head(chain)
    ensures seen == chain
  {
    seen := [];
    var t := head;
    while t != null
      invariant |seen| <= |chain| && seen == chain[..|seen|]
      invariant t == (if |seen| < |chain| then chain[|seen|] else null)
      decreases |chain| - |seen|
    {
      seen := seen + [t];
      t := t.next;
    }
  }

  /**
    First half of the flush leader: pop and flush while there is more and time is left.
    `schedule[r]` of the waiting sessions enroll before round `r`; time runs out after `budget`
    rounds, if at all.
   */
  method PopRounds(q: Queue, arrivals: seq<Thd>, schedule: seq<nat>, timed: bool, budget: nat,
                   ghost all: seq<Thd>)
    returns (hasMore: bool, firstSeen: Thd?, flushed: seq<Thd>, waiting: seq<Thd>)
    requires Draining(q, all, [], arrivals) && |arrivals| < |all|
    modifies q, (set t | t in all)`next
    ensures Draining(q, all, flushed, waiting) && |waiting| <= |arrivals|
    ensures firstSeen == Head(flushed) && hasMore == (|flushed| + |waiting| < |all|)
  {
    hasMore, firstSeen, flushed, waiting := true, null, [], arrivals;
    var round := 0;
    while (!timed || round < budget) && hasMore
      invariant Draining(q, all, flushed, waiting) && |waiting| <= |arrivals|
      invariant firstSeen == Head(flushed) && hasMore == (|flushed| + |waiting| < |all|)
      decreases |all| - |flushed|
    {
      var count := if round < |schedule| && schedule[round] <= |waiting| then schedule[round] else 0;
      var t;
      hasMore, t := Round(q, flushed, waiting, count, all);
      flushed, waiting := flushed + [t], waiting[count..];
      if firstSeen == null {
        firstSeen := t;
      }
      round := round + 1;
    }
  }

  /** Take the whole queue and walk it. */
  method FetchAll(q: Queue, ghost all: seq<Thd>, ghost i: nat, ghost j: nat) returns (queue: Thd?, walked: seq<Thd>)
    requires Holds(q, all, i, j)
    modifies q
    ensures q.Valid() && q.contents == [] && Threaded(all, j)
    ensures walked == all[i..j] && queue == Head(walked)
  {
    ghost var rest := q.contents;
    queue := q.FetchAndEmpty();
    walked := Walk(queue, rest);
  }

  lemma Joined(s: seq<Thd>, i: nat, j: nat)
    requires i <= j <= |s|
    ensures s[..i] + s[i..j] == s[..j]
  {
  }

  /** Second half: when time ran out, fetch what the queue then holds and flush it. */
  method FetchRest(q: Queue, hasMore: bool, seen: Thd?, popped: seq<Thd>, arrivals: seq<Thd>, late: nat,
                   ghost all: seq<Thd>)
    returns (firstSeen: Thd?, flushed: seq<Thd>, waiting: seq<Thd>)
    requires Draining(q, all, popped, arrivals) && |arrivals| < |all|
    requires seen == Head(popped) && hasMore == (|popped| + |arrivals| < |all|)
    modifies q, (set t | t in all)`next
    ensures q.Valid() && q.contents == [] && |waiting| <= |arrivals|
    ensures flushed + waiting == all && Threaded(all, |flushed|) && firstSeen == Head(flushed)
  {
    firstSeen, flushed, waiting := seen, popped, arrivals;
    if hasMore {
      var count := if late <= |arrivals| then late else 0;
      ghost var i, j := |popped|, |all| - |arrivals|;
      Enroll(q, arrivals, count, all, i, j);
      waiting := arrivals[count..];
      SuffixOfSuffix(all, j, count);
      var queue, walked := FetchAll(q, all, i, j + count);
      flushed := flushed + walked;
      Joined(all, i, j + count);
      if firstSeen == null {
        firstSeen := queue;
      }
    }
    SplitAt(all, |flushed|);
  }

  /**
    The flush leader.  The list that starts at `firstSeen` is exactly what was flushed, in the
    order of flushing, whether the queue was drained by popping or fetched when time ran out.
    `late` sessions enroll between the last round and the fetch.
   */
  method ProcessFlushStageQueue(q: Queue, arrivals: seq<Thd>, schedule: seq<nat>, late: nat, timed: bool, budget: nat)
    returns (firstSeen: Thd?, flushed: seq<Thd>, waiting: seq<Thd>)
    requires q.Valid() && q.contents != [] && Distinct(q.contents + arrivals)
    requires forall k :: 0 <= k < |arrivals| ==> arrivals[k].next == null
    modifies q, (set t | t in q.contents + arrivals)`next
    ensures q.Valid() && q.contents == []
    ensures flushed + waiting == old(q.contents) + arrivals && |old(q.contents)| <= |flushed|
    ensures firstSeen == flushed[0] && Linked(flushed)
  {
    ghost var all := q.contents + arrivals;
    Start(q, arrivals);
    var hasMore, seen, popped, left;
    hasMore, seen, popped, left := PopRounds(q, arrivals, schedule, timed, budget, all);
    firstSeen, flushed, waiting := FetchRest(q, hasMore, seen, popped, left, late, all);
    assert flushed == all[..|flushed|];
    ThreadedPrefix(all, |flushed|);
  }

  /** signal_done: clear the pending flag of every session of the list. */
  method SignalDone(queue: Thd?, ghost chain: seq<Thd>)
    requires Linked(chain) && queue == Head(chain)
    modifies (set t | t in chain)`pending
    ensures forall t :: t in chain ==> !t.pending
  {
    var t := queue;
    ghost var k := 0;
    while t != null
      invariant 0 <= k <= |chain| && t == (if k < |chain| then chain[k] else null)
      invariant forall i :: 0 <= i < k ==> !chain[i].pending
      decreases |chain| - k
    {
      t.pending := false;
      t := t.next;
      k := k + 1;
    }
  }
}
