/**
  The index of the binary logs on disk, and how it changes.  The process may stop after any write
  to the disk; `open_index_file` then makes index and logs agree again.
 */
module LogIndex {
  import opened IndexText

  datatype File = Missing | Holds(text: string)

  function TextOf(f: File): string {
    if f.Holds? then f.text else ""
  }

  /**
    The index, the crash-safe index, the purge register and the logs.  `left` is the number of
    writes the process still makes before it stops; once it is 0 nothing on disk changes.
   */
  class Disk {
    var index: File
    var safe: File
    var register: File
    var logs: set<Name>
    var left: nat

    /** The names recovery will find in the index. */
    ghost predicate Indexed(names: seq<Name>)
      reads this
    {
      index == Holds(Text(names)) || (index == Missing && safe == Holds(Text(names)))
    }

    /** Every named log exists; every other log is registered. */
    ghost predicate Consistent(names: seq<Name>)
      reads this
    {
      && AllNames(names) && Distinct(names) && Indexed(names)
      && NameSet(names) <= logs <= NameSet(names) + NameSet(Lines(TextOf(register)))
    }

    /** The index names exactly the logs that exist. */
    ghost predicate Good(names: seq<Name>)
      reads this
    {
      AllNames(names) && Distinct(names) && index == Holds(Text(names)) && logs == NameSet(names)
    }

    // ------------------------------------------------------------ single writes

    method DropRegister()
      modifies this`register, this`left
      ensures left <= old(left)
      ensures register == if old(left) > 0 then Missing else old(register)
    {
      if left > 0 {
        register, left := Missing, left - 1;
      }
    }

    /** Open the register, creating it if need be. */
    method MakeRegister()
      modifies this`register, this`left
      ensures left <= old(left)
      ensures register == if old(left) > 0 && old(register).Missing? then Holds("") else old(register)
    {
      if left > 0 && register.Missing? {
        register, left := Holds(""), left - 1;
      }
    }

    method GrowRegister(c: char)
      requires left > 0 ==> register.Holds?
      modifies this`register, this`left
      ensures left <= old(left)
      ensures register == if old(left) > 0 then Holds(old(register).text + [c]) else old(register)
    {
      if left > 0 {
        register, left := Holds(register.text + [c]), left - 1;
      }
    }

    /** Open the crash-safe index, creating it if need be but never cutting it. */
    method OpenSafe()
      modifies this`safe, this`left
      ensures left <= old(left)
      ensures safe == if old(left) > 0 && old(safe).Missing? then Holds("") else old(safe)
    {
      if left > 0 && safe.Missing? {
        safe, left := Holds(""), left - 1;
      }
    }

    method PutSafe(at: nat, c: char)
      requires left > 0 ==> safe.Holds? && at <= |safe.text|
      modifies this`safe, this`left
      ensures left <= old(left) && (old(left) == 0 ==> safe == old(safe))
      ensures old(left) > 0 ==>
                safe == Holds(if at < |old(safe).text| then old(safe).text[at := c] else old(safe).text + [c])
    {
      if left > 0 {
        safe := Holds(if at < |safe.text| then safe.text[at := c] else safe.text + [c]);
        left := left - 1;
      }
    }

    method DropIndex()
      modifies this`index, this`left
      ensures left <= old(left)
      ensures index == if old(left) > 0 then Missing else old(index)
    {
      if left > 0 {
        index, left := Missing, left - 1;
      }
    }

    method Rename()
      modifies this`index, this`safe, this`left
      ensures left <= old(left)
      ensures index == if old(left) > 0 then old(safe) else old(index)
      ensures safe == if old(left) > 0 then Missing else old(safe)
    {
      if left > 0 {
        index, safe, left := safe, Missing, left - 1;
      }
    }

    method MakeIndex()
      modifies this`index, this`left
      ensures left <= old(left)
      ensures index == if old(left) > 0 && old(index).Missing? then Holds("") else old(index)
    {
      if left > 0 && index.Missing? {
        index, left := Holds(""), left - 1;
      }
    }

    method MakeLog(n: Name)
      modifies this`logs, this`left
      ensures left <= old(left)
      ensures logs == if old(left) > 0 then old(logs) + {n} else old(logs)
    {
      if left > 0 {
        logs, left := logs + {n}, left - 1;
      }
    }

    method DeleteLog(n: Name)
      modifies this`logs, this`left
      ensures left <= old(left)
      ensures logs == if old(left) > 0 then old(logs) - {n} else old(logs)
    {
      if left > 0 {
        logs, left := logs - {n}, left - 1;
      }
    }

    // ------------------------------------------------------------ the files

    /** `register_purge_index_entry`. */
    method Register(n: Name)
      requires left > 0 ==> register.Holds?
      modifies this`register, this`left
      ensures left <= old(left)
      ensures left > 0 ==> register == Holds(old(register).text + n + "\n")
    {
      ghost var before := TextOf(register);
      var line := n + "\n";
      for k := 0 to |line|
        invariant left <= old(left)
        invariant left > 0 ==> register == Holds(before + line[..k])
      {
        GrowRegister(line[k]);
        assert before + line[..k] + [line[k]] == before + line[..k + 1];
      }
      assert line[..|line|] == line;
      assert before + line == before + n + "\n";
    }

    /** Write `t` into the crash-safe index, from its start. */
    method FillSafe(t: string)
      modifies this`safe, this`left
      ensures left <= old(left)
      ensures left > 0 ==> safe == Holds(Over(TextOf(old(safe)), t))
      ensures |TextOf(safe)| <= |TextOf(old(safe))| || |TextOf(safe)| <= |t|
    {
      ghost var stale := TextOf(safe);
      OpenSafe();
      for k := 0 to |t|
        invariant left <= old(left) && (|TextOf(safe)| <= |stale| || |TextOf(safe)| <= k)
        invariant left > 0 ==> safe == Holds(Over(stale, t[..k]))
      {
        PutSafe(k, t[k]);
        OverOneMore(stale, t, k);
      }
      assert t[..|t|] == t;
    }

    /** `move_crash_safe_index_file_to_index_file`. */
    method MoveSafe()
      requires left > 0 ==> index.Holds? && safe.Holds?
      modifies this`index, this`safe, this`left
      ensures left <= old(left)
      ensures left > 0 ==> index == old(safe) && safe == Missing
      ensures safe == old(safe) || safe == Missing
      ensures || index == old(index)
              || (old(left) > 0 && (index == old(safe) || (index == Missing && safe == old(safe))))
    {
      DropIndex();
      Rename();
    }

    /** Both the names in the index and `names` fit the logs on disk. */
    ghost predicate Ready(names: seq<Name>)
      reads this
    {
      && AllNames(names) && Distinct(names)
      && NameSet(names) <= logs <= NameSet(names) + NameSet(Lines(TextOf(register)))
    }

    /**
      Write a new index by way of the crash-safe one.  A longer crash-safe index left behind by an
      earlier stop shows through at its end.
     */
    method ReplaceIndex(t: string, ghost now: seq<Name>, ghost next: seq<Name>)
      requires left > 0 ==> Ready(now) && index == Holds(Text(now)) && Ready(next) && t == Text(next)
      requires Consistent(now) || Consistent(next)
      modifies this`index, this`safe, this`left
      ensures left <= old(left)
      ensures old(left) == 0 || |TextOf(old(safe))| <= |t| ==> Consistent(now) || Consistent(next)
      ensures left > 0 ==> index == Holds(Over(TextOf(old(safe)), t)) && safe == Missing
      ensures |TextOf(safe)| <= |TextOf(old(safe))| || |TextOf(safe)| <= |t|
    {
      if left == 0 {
        return;
      }
      ghost var stale := TextOf(safe);
      FillSafe(t);
      OverIsNewExactlyWhen(stale, t);
      MoveSafe();
    }

    /** `add_log_to_index`. */
    method AddLogToIndex(n: Name, ghost names: seq<Name>)
      requires left > 0 ==> Ready(names) && index == Holds(Text(names)) && Ready(names + [n])
      requires Consistent(names) || Consistent(names + [n])
      modifies this`index, this`safe, this`left
      ensures left <= old(left)
      ensures |TextOf(old(safe))| <= |Text(names + [n])| ==> Consistent(names) || Consistent(names + [n])
      ensures left > 0 ==> index == Holds(Over(TextOf(old(safe)), Text(names + [n]))) && safe == Missing
      ensures |TextOf(safe)| <= |TextOf(old(safe))| || |TextOf(safe)| <= |Text(names + [n])|
    {
      if left == 0 {
        return;
      }
      TextOfSum(names, [n]);
      assert Text([n]) == n + "\n";
      assert Text(names + [n]) == Text(names) + n + "\n" by {
        assert Text(names) + (n + "\n") == Text(names) + n + "\n";
      }
      ReplaceIndex(TextOf(index) + n + "\n", names, names + [n]);
    }

    /** `open_purge_index_file`, destroying what the register held. */
    method NewRegister()
      modifies this`register, this`left
      ensures left <= old(left)
      ensures left > 0 ==> register == Holds("")
    {
      DropRegister();
      MakeRegister();
    }

    /** `purge_index_entry`: delete the registered logs that the index does not name. */
    method PurgeRegistered(ghost names: seq<Name>)
      requires left > 0 ==> index.Holds?
      modifies this`logs, this`left
      ensures left <= old(left)
      ensures old(Consistent(names)) ==> Consistent(names) && (left > 0 ==> logs == NameSet(names))
    {
      if left == 0 {
        return;
      }
      ghost var sound := Consistent(names);
      var lines := Lines(TextOf(register));
      for k := 0 to |lines|
        invariant left <= old(left)
        invariant sound ==> NameSet(names) <= logs <= old(logs)
        invariant sound && left > 0 ==> logs <= NameSet(names) + NameSet(lines[k..])
      {
        if sound {
          ListedInText(names, lines[k]);
        }
        assert lines[k..] == [lines[k]] + lines[k + 1..];
        assert NameSet(lines[k..]) == {lines[k]} + NameSet(lines[k + 1..]);
        if lines[k] in logs && !Listed(index.text, lines[k]) {
          DeleteLog(lines[k]);
        }
      }
      assert lines[|lines|..] == [];
    }

    /** Register a log, then create it. */
    method MakeRegistered(n: Name, ghost names: seq<Name>)
      requires Good(names) && IsName(n) && n !in names
      modifies this`register, this`logs, this`left
      ensures left <= old(left) && Consistent(names)
      ensures left > 0 ==> Ready(names) && Ready(names + [n]) && logs == NameSet(names + [n])
    {
      NewRegister();
      Register(n);
      LinesOfText([n]);
      assert Text([n]) == n + "\n" && "" + n + "\n" == n + "\n";
      NameSetOfSum(names, [n]);
      assert NameSet([n]) == {n};
      MakeLog(n);
    }

    /** Creation of a log: `open_binlog` from the registration on. */
    method CreateLog(n: Name, ghost names: seq<Name>)
      requires Good(names) && IsName(n) && n !in names
      modifies this
      ensures left <= old(left)
      ensures |TextOf(old(safe))| <= |Text(names + [n])| ==> Consistent(names) || Consistent(names + [n])
      ensures left > 0 ==> (Good(names + [n]) <==> |TextOf(old(safe))| <= |Text(names + [n])|)
      ensures left > 0 ==> safe == Missing && index == Holds(Over(TextOf(old(safe)), Text(names + [n])))
      ensures |TextOf(safe)| <= |TextOf(old(safe))| || |TextOf(safe)| <= |Text(names + [n])|
    {
      MakeRegistered(n, names);
      AddLogToIndex(n, names);
      OverIsNewExactlyWhen(TextOf(old(safe)), Text(names + [n]));
      DropRegister();
    }

    /** `open_index_file` after a restart. */
    method Recover(ghost names: seq<Name>)
      requires Consistent(names)
      modifies this
      ensures left <= old(left) && Consistent(names)
      ensures left > 0 ==> Good(names) && register == Missing
      ensures index.Holds? ==> safe == if old(index).Holds? then old(safe) else Missing
    {
      if index.Missing? && safe.Holds? {
        Rename();
      }
      MakeIndex();
      MakeRegister();
      PurgeRegistered(names);
      DropRegister();
    }

    /** `remove_logs_from_index`: keep what follows the first `m` entries. */
    method RemoveLogsFromIndex(offset: nat, readers: array<Reader>, ghost names: seq<Name>, ghost m: nat)
      requires m <= |names| && offset == Offset(names, m)
      requires left > 0 ==> Ready(names) && index == Holds(Text(names)) && Ready(names[m..])
      requires Consistent(names)
      modifies this`index, this`safe, this`left, readers
      ensures left <= old(left)
      ensures old(left) == 0 || |TextOf(old(safe))| <= |Text(names[m..])| ==>
                Consistent(names) || Consistent(names[m..])
      ensures left > 0 ==> index == Holds(Over(TextOf(old(safe)), Text(names[m..]))) && safe == Missing
      ensures |TextOf(safe)| <= |TextOf(old(safe))| || |TextOf(safe)| <= |Text(names[m..])|
      ensures left > 0 ==> forall i :: 0 <= i < readers.Length ==> readers[i] == Adjusted(old(readers[i]), offset)
    {
      if left == 0 {
        return;
      }
      TextFrom(names, m);
      ReplaceIndex(index.text[offset..], names, names[m..]);
      AdjustOffsets(readers, offset);
    }
  }

  // ---------------------------------------------------------------- readers of the index

  /** `LOG_INFO` of a thread: the log it reads, where the next entry of the index starts. */
  datatype Reader = Reader(file: Name, offset: nat, fatal: bool)

  function Adjusted(r: Reader, purgeOffset: nat): Reader {
    if r.offset < purgeOffset then r.(fatal := r.offset != 0) else r.(offset := r.offset - purgeOffset)
  }

  /** `adjust_linfo_offsets`. */
  method AdjustOffsets(readers: array<Reader>, purgeOffset: nat)
    modifies readers
    ensures forall i :: 0 <= i < readers.Length ==> readers[i] == Adjusted(old(readers[i]), purgeOffset)
  {
    for k := 0 to readers.Length
      invariant forall i :: 0 <= i < k ==> readers[i] == Adjusted(old(readers[i]), purgeOffset)
      invariant forall i :: k <= i < readers.Length ==> readers[i] == old(readers[i])
    {
      if readers[k].offset < purgeOffset {
        readers[k] := readers[k].(fatal := readers[k].offset != 0);
      } else {
        readers[k] := readers[k].(offset := readers[k].offset - purgeOffset);
      }
    }
  }

  /** `log_in_use`: how many threads read this log. */
  method LogInUse(n: Name, readers: array<Reader>) returns (count: nat)
    ensures count > 0 <==> exists i :: 0 <= i < readers.Length && readers[i].file == n
  {
    count := 0;
    for k := 0 to readers.Length
      invariant count > 0 <==> exists i :: 0 <= i < k && readers[i].file == n
    {
      if readers[k].file == n {
        count := count + 1;
      }
    }
  }

  /** The reader is in entry `k`. */
  ghost predicate Reading(names: seq<Name>, r: Reader, k: nat) {
    k < |names| && r.file == names[k] && r.offset == Offset(names, k + 1)
  }

  /** A reader of an entry that stays goes on to the same next entry. */
  lemma ReaderKept(names: seq<Name>, r: Reader, k: nat, m: nat)
    requires Reading(names, r, k) && m <= k
    ensures Reading(names[m..], Adjusted(r, Offset(names, m)), k - m)
    ensures Adjusted(r, Offset(names, m)).fatal == r.fatal
  {
    assert names[..k + 1] == names[..m] + names[m..k + 1];
    TextOfSum(names[..m], names[m..k + 1]);
    assert names[m..][..k - m + 1] == names[m..k + 1];
  }

  lemma OverOneMore(stale: string, t: string, k: nat)
    requires k < |t|
    ensures |Over(stale, t[..k])| >= k
    ensures var s := Over(stale, t[..k]);
            Over(stale, t[..k + 1]) == if k < |s| then s[k := t[k]] else s + [t[k]]
  {
  }
}
