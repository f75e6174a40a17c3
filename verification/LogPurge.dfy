/** `purge_logs`: which logs go, and what is left of index, logs and readers. */
module LogPurge {
  import opened IndexText
  import opened LogIndex

  /** The first entry from `i` on that stays. */
  function PurgeEnd(names: seq<Name>, i: nat, toLog: Name, included: bool, busy: set<Name>): (m: nat)
    requires i <= |names|
    ensures i <= m <= |names|
    decreases |names| - i
  {
    if i == |names| || (names[i] == toLog && !included) || names[i] in busy then i
    else if names[i] == toLog then i + 1
    else PurgeEnd(names, i + 1, toLog, included, busy)
  }

  /** Logs go from the oldest on, up to the given one, and never past one that is active or read. */
  lemma {:induction false} PurgeEndMeans(names: seq<Name>, i: nat, toLog: Name, included: bool, busy: set<Name>)
    requires i <= |names|
    ensures var m := PurgeEnd(names, i, toLog, included, busy);
            && (forall k :: i <= k < m ==> names[k] !in busy && (names[k] == toLog ==> included && k == m - 1))
            && (m < |names| ==>
                  names[m] in busy || (names[m] == toLog && !included) || (i < m && names[m - 1] == toLog))
    decreases |names| - i
  {
    if !(i == |names| || (names[i] == toLog && !included) || names[i] in busy) && names[i] != toLog {
      PurgeEndMeans(names, i + 1, toLog, included, busy);
    }
  }

  /** The log being written, and those being read. */
  ghost function Busy(active: Name, readers: seq<Reader>): set<Name> {
    {active} + set i | 0 <= i < |readers| :: readers[i].file
  }

  /** The line of the index text that starts at `at`; none at the end. */
  method ReadEntry(text: string, at: nat, ghost names: seq<Name>, ghost i: nat)
    returns (eof: bool, name: Name, next: nat)
    requires AllNames(names) && text == Text(names) && i <= |names| && at == Offset(names, i)
    ensures eof <==> i == |names|
    ensures !eof ==> name == names[i] && next == Offset(names, i + 1)
  {
    TextFrom(names, i);
    assert i < |names| ==> names[i..][0] == names[i];
    eof, name, next := true, "", at;
    if at < |text| {
      assert names[i..] != [];
      LineLengthOf(names[i], Text(names[i..][1..]));
      OffsetNext(names, i);
      var length := LineLength(text[at..]);
      if length > 1 {
        eof, name, next := false, text[at..at + length - 1], at + length;
        assert text[at..][..length - 1] == text[at..at + length - 1];
      }
    }
  }

  /** Register the logs to go; the result is the offset of the first entry that stays. */
  method RegisterPurged(d: Disk, toLog: Name, included: bool, active: Name, readers: array<Reader>,
                        ghost names: seq<Name>)
    returns (start: nat, ghost m: nat)
    requires AllNames(names) && d.index == Holds(Text(names)) && toLog in names
    requires d.left > 0 ==> d.register == Holds("")
    modifies d`register, d`left
    ensures d.left <= old(d.left)
    ensures m == PurgeEnd(names, 0, toLog, included, Busy(active, readers[..])) && start == Offset(names, m)
    ensures d.left > 0 ==> d.register == Holds(Text(names[..m]))
  {
    ghost var busy := Busy(active, readers[..]);
    var text := d.index.text;
    assert Offset(names, 0) == 0;
    var eof, name, next := ReadEntry(text, 0, names, 0);
    start, m := 0, 0;
    var exitLoop := false;
    while name != toLog || included
      invariant m < |names| && name == names[m] && start == Offset(names, m) && next == Offset(names, m + 1)
      invariant !exitLoop && PurgeEnd(names, m, toLog, included, busy) == PurgeEnd(names, 0, toLog, included, busy)
      invariant d.left <= old(d.left) && d.index == old(d.index)
      invariant d.left > 0 ==> d.register == Holds(Text(names[..m]))
      decreases |names| - m
    {
      if name == toLog {
        exitLoop := included;
      }
      if name == active {
        break;
      }
      var users := LogInUse(name, readers);
      if users > 0 {
        break;
      }
      assert name !in busy;
      d.Register(name);
      RegisteredMore(names, m);
      start := next;
      m := m + 1;
      eof, name, next := ReadEntry(text, start, names, m);
      if eof || exitLoop {
        break;
      }
    }
  }

  lemma RegisteredMore(names: seq<Name>, m: nat)
    requires m < |names|
    ensures Text(names[..m + 1]) == Text(names[..m]) + names[m] + "\n"
  {
    assert names[..m + 1] == names[..m] + [names[m]];
    TextOfSum(names[..m], [names[m]]);
    assert Text([names[m]]) == names[m] + "\n";
  }

  /** The rest of a consistent index is consistent with the same logs once the others are registered. */
  lemma RestIsReady(d: Disk, names: seq<Name>, m: nat)
    requires d.Good(names) && m <= |names| && d.register == Holds(Text(names[..m]))
    ensures d.Ready(names) && d.Ready(names[m..])
  {
    LinesOfText(names[..m]);
    assert names == names[..m] + names[m..];
    NameSetOfSum(names[..m], names[m..]);
  }

  const LOG_INFO_EOF := -1

  /**
    Purged names and new index together are the old index; whatever the moment of a stop, recovery
    finds the old index or the new one; the readers go on where they were.  All that provided no
    crash-safe index longer than the new index is in the way; otherwise the purge leaves a mixture.
   */
  method PurgeLogs(d: Disk, toLog: Name, included: bool, active: Name, readers: array<Reader>, ghost names: seq<Name>)
    returns (error: int, ghost m: nat)
    requires d.Good(names)
    modifies d, readers
    ensures d.left <= old(d.left)
    ensures error == (if toLog in names then 0 else LOG_INFO_EOF)
    ensures error != 0 ==> d.Good(names) && m == 0 && d.safe == old(d.safe)
    ensures error == 0 ==> m == PurgeEnd(names, 0, toLog, included, Busy(active, old(readers[..])))
    ensures |TextOf(old(d.safe))| <= |Text(names[m..])| ==> d.Consistent(names) || d.Consistent(names[m..])
    ensures d.left > 0 && error == 0 ==> (d.Good(names[m..]) <==> |TextOf(old(d.safe))| <= |Text(names[m..])|)
    ensures d.left > 0 && error == 0 ==> d.safe == Missing
    ensures |TextOf(d.safe)| <= |TextOf(old(d.safe))| || |TextOf(d.safe)| <= |Text(names[m..])|
    ensures d.left > 0 && error == 0 ==>
              forall i :: 0 <= i < readers.Length ==> readers[i] == Adjusted(old(readers[i]), Offset(names, m))
  {
    m := 0;
    ListedInText(names, toLog);
    if !Listed(d.index.text, toLog) {
      error := LOG_INFO_EOF;
      d.DropRegister();
      return;
    }
    error := 0;
    d.NewRegister();
    var start;
    start, m := RegisterPurged(d, toLog, included, active, readers, names);
    if d.left > 0 {
      RestIsReady(d, names, m);
    }
    d.RemoveLogsFromIndex(start, readers, names, m);
    OverIsNewExactlyWhen(TextOf(old(d.safe)), Text(names[m..]));
    d.PurgeRegistered(if d.Consistent(names[m..]) then names[m..] else names);
    d.DropRegister();
  }

  /** The log being written and those being read stay. */
  lemma BusyStays(names: seq<Name>, toLog: Name, included: bool, active: Name, readers: seq<Reader>, k: nat)
    requires k < |names| && names[k] in Busy(active, readers)
    ensures PurgeEnd(names, 0, toLog, included, Busy(active, readers)) <= k
  {
    PurgeEndMeans(names, 0, toLog, included, Busy(active, readers));
  }

  /** Every reader goes on to the same next entry, and none is marked fatal. */
  lemma ReadersGoOn(names: seq<Name>, toLog: Name, included: bool, active: Name, readers: seq<Reader>, i: nat, k: nat)
    requires i < |readers| && Reading(names, readers[i], k)
    ensures var m := PurgeEnd(names, 0, toLog, included, Busy(active, readers));
            var r := Adjusted(readers[i], Offset(names, m));
            m <= k && Reading(names[m..], r, k - m) && r.fatal == readers[i].fatal
  {
    assert readers[i].file in Busy(active, readers);
    BusyStays(names, toLog, included, active, readers, k);
    ReaderKept(names, readers[i], k, PurgeEnd(names, 0, toLog, included, Busy(active, readers)));
  }

  /**
    Any number of restarts, each of which may stop again: once one of them gets through, the index
    is the one before or the one after the operation that was interrupted.
   */
  method Restarts(d: Disk, writes: seq<nat>, ghost before: seq<Name>, ghost after: seq<Name>)
    requires d.Consistent(before) || d.Consistent(after)
    modifies d
    ensures d.Consistent(before) || d.Consistent(after)
    ensures |writes| > 0 && d.left > 0 ==> d.Good(before) || d.Good(after)
  {
    for k := 0 to |writes|
      invariant d.Consistent(before) || d.Consistent(after)
      invariant k > 0 && d.left > 0 ==> d.Good(before) || d.Good(after)
    {
      d.left := writes[k];
      d.Recover(if d.Consistent(before) then before else after);
    }
  }
}
