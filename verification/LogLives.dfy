/**
  A server over many lives: every start recovers the index and creates a log before anything is
  purged, and every life may end after any write.
 */
module LogLives {
  import opened IndexText
  import opened LogIndex
  import opened LogPurge

  datatype Event =
    | Start(writes: nat, first: Name)           // open_index_file, then open_binlog
    | Rotate(n: Name)                           // new_file_impl
    | Purge(toLog: Name, included: bool)

  predicate Creates(e: Event) {
    e.Start? || e.Rotate?
  }

  function NameOf(e: Event): Name
    requires Creates(e)
  {
    if e.Start? then e.first else e.n
  }

  /** No log gets a name shorter than one before it: the number at its end only grows. */
  predicate NamesGrow(w: nat, events: seq<Event>)
    decreases |events|
  {
    events == [] ||
    if Creates(events[0]) then w <= |NameOf(events[0])| && NamesGrow(|NameOf(events[0])|, events[1..])
    else NamesGrow(w, events[1..])
  }

  /**
    Between two lives: index and logs can be brought to agree, and a crash-safe index left behind is
    no longer than the index with one more name of length `w`.
   */
  ghost predicate Leftover(d: Disk, names: seq<Name>, w: nat)
    reads d
  {
    d.Consistent(names) && (d.index.Holds? ==> |TextOf(d.safe)| <= |Text(names)| + w + 1)
  }

  lemma TextMore(names: seq<Name>, n: Name)
    ensures |Text(names + [n])| == |Text(names)| + |n| + 1
  {
    TextOfSum(names, [n]);
    assert Text([n]) == n + "\n";
  }

  lemma TextLess(names: seq<Name>, m: nat)
    requires m <= |names|
    ensures |Text(names[m..])| <= |Text(names)|
  {
    TextFrom(names, m);
  }

  /** `open_binlog`; without a new name for the log the server gives up. */
  method Create(d: Disk, n: Name, ghost names: seq<Name>, ghost w: nat) returns (ghost after: seq<Name>)
    requires d.left > 0 && d.Good(names) && |TextOf(d.safe)| <= |Text(names)| + w + 1 && w <= |n|
    modifies d
    ensures Leftover(d, after, |n|) && (after == names || after == names + [n])
    ensures d.left > 0 ==> d.Good(after) && d.safe == Missing && after == names + [n]
  {
    after := names;
    if !IsName(n) || n in d.logs {
      d.left := 0;
      return;
    }
    TextMore(names, n);
    d.CreateLog(n, names);
    if d.left > 0 || !d.Consistent(names) {
      after := names + [n];
    }
  }

  method PurgeOld(d: Disk, toLog: Name, included: bool, active: Name, readers: array<Reader>, ghost names: seq<Name>,
                  ghost w: nat)
    returns (ghost after: seq<Name>)
    requires d.Good(names) && d.safe == Missing
    modifies d, readers
    ensures Leftover(d, after, w) && |after| <= |names| && after == names[|names| - |after|..]
    ensures d.left > 0 ==> d.Good(after) && d.safe == Missing
  {
    after := names;
    var _, m := PurgeLogs(d, toLog, included, active, readers, names);
    TextLess(names, m);
    if d.left > 0 || !d.Consistent(names) {
      after := names[m..];
    }
  }

  /** One event; a server that has stopped does nothing until its next start. */
  method Handle(d: Disk, e: Event, active: Name, readers: array<Reader>, ghost names: seq<Name>, ghost w: nat)
    returns (ghost after: seq<Name>)
    requires Leftover(d, names, w) && (d.left > 0 ==> d.Good(names) && d.safe == Missing)
    requires Creates(e) ==> w <= |NameOf(e)|
    modifies d, readers
    ensures Leftover(d, after, if Creates(e) then |NameOf(e)| else w)
    ensures d.left > 0 ==> d.Good(after) && d.safe == Missing
    ensures Creates(e) ==> after == names || after == names + [NameOf(e)]
    ensures Creates(e) && d.left > 0 ==> after == names + [NameOf(e)]
    ensures e.Purge? ==> |after| <= |names| && after == names[|names| - |after|..]
  {
    after := names;
    if e.Start? {
      d.left := e.writes;
      d.Recover(names);
    }
    if d.left > 0 {
      if Creates(e) {
        after := Create(d, NameOf(e), names, w);
      } else {
        after := PurgeOld(d, e.toLog, e.included, active, readers, names, w);
      }
    }
  }

  /** The names of all logs the events would create, in order. */
  function Wanted(events: seq<Event>): seq<Name> {
    if events == [] then []
    else
      var n := |events| - 1;
      Wanted(events[..n]) + if Creates(events[n]) then [NameOf(events[n])] else []
  }

  /** `a` is what is left of `b` when some of it is dropped. */
  ghost predicate Part(a: seq<Name>, b: seq<Name>) {
    a == [] ||
    (b != [] &&
     var n := |b| - 1;
     Part(a, b[..n]) || (a[|a| - 1] == b[n] && Part(a[..|a| - 1], b[..n])))
  }

  lemma PartMore(a: seq<Name>, b: seq<Name>, n: Name)
    requires Part(a, b)
    ensures Part(a, b + [n]) && Part(a + [n], b + [n])
  {
    assert (b + [n])[..|b|] == b && (a + [n])[..|a|] == a;
  }

  lemma WantedMore(events: seq<Event>, i: nat)
    requires i < |events|
    ensures Wanted(events[..i + 1]) == Wanted(events[..i]) + if Creates(events[i]) then [NameOf(events[i])] else []
  {
    assert events[..i + 1][..i] == events[..i];
  }

  /**
    What the index names after some events: the logs there were at the start and then those made, in
    order, but for the oldest, which were purged.  Of the logs wanted some may not have been made.
   */
  ghost predicate Follows(names: seq<Name>, start: seq<Name>, made: seq<Name>, wanted: seq<Name>) {
    Part(made, wanted) && |names| <= |start + made| && names == (start + made)[|start + made| - |names|..]
  }

  lemma FollowsCreate(names: seq<Name>, start: seq<Name>, made: seq<Name>, wanted: seq<Name>, n: Name)
    requires Follows(names, start, made, wanted)
    ensures Follows(names, start, made, wanted + [n])
    ensures Follows(names + [n], start, made + [n], wanted + [n])
  {
    PartMore(made, wanted, n);
    assert start + (made + [n]) == start + made + [n];
  }

  lemma FollowsPurge(names: seq<Name>, start: seq<Name>, made: seq<Name>, wanted: seq<Name>, after: seq<Name>)
    requires Follows(names, start, made, wanted) && |after| <= |names| && after == names[|names| - |after|..]
    ensures Follows(after, start, made, wanted)
  {
  }

  /**
    Over any number of lives, each ended by a stop at any write, index and logs agree whenever the
    server is up, no crash-safe index is left behind when logs are purged, and whatever a stop
    leaves can be recovered.  The index names what was there and what was made, in order, but for
    what was purged.
   */
  method Lives(d: Disk, events: seq<Event>, readers: array<Reader>, ghost start: seq<Name>)
    returns (ghost names: seq<Name>, ghost made: seq<Name>)
    requires d.Good(start) && d.safe == Missing && d.left == 0 && NamesGrow(0, events)
    modifies d, readers
    ensures d.Consistent(names) && Follows(names, start, made, Wanted(events))
    ensures d.left > 0 ==> d.Good(names) && d.safe == Missing
  {
    names, made := start, [];
    ghost var w: nat := 0;
    var active := "";
    assert start + made == start;
    for i := 0 to |events|
      invariant Leftover(d, names, w) && NamesGrow(w, events[i..])
      invariant d.left > 0 ==> d.Good(names) && d.safe == Missing
      invariant Follows(names, start, made, Wanted(events[..i]))
    {
      assert events[i..][0] == events[i] && events[i..][1..] == events[i + 1..];
      WantedMore(events, i);
      ghost var before := names;
      names := Handle(d, events[i], active, readers, names, w);
      if Creates(events[i]) {
        active := NameOf(events[i]);
        w := |active|;
        FollowsCreate(before, start, made, Wanted(events[..i]), active);
        if names != before {
          made := made + [active];
        }
      } else {
        FollowsPurge(before, start, made, Wanted(events[..i]), names);
        assert Wanted(events[..i + 1]) == Wanted(events[..i]);
      }
    }
    assert events[..|events|] == events;
  }

  // ---------------------------------------------------------------- a shorter name

  /** A stop between filling the crash-safe index and moving it leaves it behind, also after recovery. */
  method LeftBehind(d: Disk, n: Name, writes: nat, ghost names: seq<Name>)
    requires d.Good(names) && IsName(n) && n !in names && d.safe == Missing
    modifies d
    ensures d.left > 0 ==> d.Good(names) && d.safe == Holds(Text(names + [n]))
  {
    d.MakeRegistered(n, names);
    TextOfSum(names, [n]);
    assert Text([n]) == n + "\n";
    d.FillSafe(d.index.text + (n + "\n"));
    if d.left > 0 {
      assert Over("", Text(names + [n])) == Text(names + [n]);
      d.left := writes;
      d.Recover(names);
    }
  }

  /**
    The server comes back with another base name and creates its first log: index and logs agree
    exactly when the new name is not shorter than the one of the creation that was cut off.
   */
  method BackWithOtherName(d: Disk, n: Name, other: Name, writes: nat, ghost names: seq<Name>)
    requires d.Good(names) && d.safe == Missing
    requires IsName(n) && n !in names && IsName(other) && other !in names
    modifies d
    ensures d.left > 0 ==> (d.Good(names + [other]) <==> |n| <= |other|)
    ensures d.left > 0 ==> d.index == Holds(Over(Text(names + [n]), Text(names + [other])))
  {
    LeftBehind(d, n, writes, names);
    if d.left > 0 {
      TextMore(names, n);
      TextMore(names, other);
      d.CreateLog(other, names);
    }
  }

  /** With a shorter name the index is then neither the old one nor that of either creation. */
  lemma Mixture(names: seq<Name>, n: Name, other: Name)
    requires IsName(n) && IsName(other) && |other| < |n|
    ensures Over(Text(names + [n]), Text(names + [other])) !in
              {Text(names), Text(names + [n]), Text(names + [other])}
  {
    TextMore(names, n);
    TextMore(names, other);
    TextOfSum(names, [n]);
    TextOfSum(names, [other]);
    assert Text([n]) == n + "\n" && Text([other]) == other + "\n";
    var at, mix := |Text(names)| + |other|, Over(Text(names + [n]), Text(names + [other]));
    assert mix[at] == '\n' && Text(names + [n])[at] == n[|other|] && n[|other|] in n;
  }
}
