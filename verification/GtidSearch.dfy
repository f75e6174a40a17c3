/**
  `find_first_log_not_in_gtid_set`: from which log a replica that already has some transactions
  has to read on.
 */
module GtidSearch {
  import opened Strings

  datatype Gtid = Gtid(sidno: nat, gno: nat)

  /** The events the search tells apart. */
  datatype Event = FormatDescription | Rotate | PreviousGtids(gtids: set<Gtid>) | GtidEvent(gtid: Gtid) | Other

  datatype Log = Unreadable | Log(events: seq<Event>)

  datatype Status = GotGtids | GotPreviousGtids | NoGtids | ReadBinlogError | Truncated

  function Gtids(events: seq<Event>): set<Gtid> {
    if events == [] then {} else (if events[0].GtidEvent? then {events[0].gtid} else {}) + Gtids(events[1..])
  }

  /** A log as the server writes it: a header, the GTIDs of all logs before, then transactions. */
  predicate Starts(log: Log, previous: set<Gtid>) {
    && log.Log? && |log.events| >= 2
    && log.events[0].FormatDescription? && log.events[1] == PreviousGtids(previous)
    && forall i :: 2 <= i < |log.events| ==> !log.events[i].PreviousGtids?
  }

  /** The first GTID of a log, if it has any. */
  function First(events: seq<Event>): Option<Gtid> {
    if events == [] then None else if events[0].GtidEvent? then Some(events[0].gtid) else First(events[1..])
  }

  /** What reading comes to, after a Previous_gtids event was seen or not. */
  function StatusOf(events: seq<Event>, seen: bool): Status {
    if events == [] then if seen then GotPreviousGtids else NoGtids
    else
      match events[0]
      case PreviousGtids(_) => StatusOf(events[1..], true)
      case GtidEvent(_) => if seen then GotGtids else ReadBinlogError
      case Other => if seen then StatusOf(events[1..], seen) else NoGtids
      case _ => StatusOf(events[1..], seen)
  }

  /** The previous GTIDs met until reading ends. */
  function PreviousIn(events: seq<Event>, seen: bool): set<Gtid> {
    if events == [] then {}
    else
      match events[0]
      case PreviousGtids(gtids) => gtids + PreviousIn(events[1..], true)
      case GtidEvent(_) => {}
      case Other => if seen then PreviousIn(events[1..], seen) else {}
      case _ => PreviousIn(events[1..], seen)
  }

  function LogStatus(log: Log): Status {
    if log.Unreadable? then Truncated else StatusOf(log.events, false)
  }

  /** `read_gtids_from_binlog`, asked for the previous GTIDs and the first one. */
  method ReadGtids(log: Log, first: Option<Gtid>) returns (status: Status, previous: set<Gtid>, firstOut: Option<Gtid>)
    ensures status == LogStatus(log)
    ensures log.Log? ==> previous == PreviousIn(log.events, false)
    ensures firstOut == if status == GotGtids then First(log.events) else first
  {
    status, previous, firstOut := NoGtids, {}, first;
    if log.Unreadable? {
      status := Truncated;
      return;
    }
    var events := log.events;
    var i, done := 0, false;
    assert events[0..] == events;
    while !done && i < |events|
      invariant i <= |events|
      invariant !done ==> status == NoGtids || status == GotPreviousGtids
      invariant LogStatus(log) == if done then status else StatusOf(events[i..], status == GotPreviousGtids)
      invariant PreviousIn(events, false)
             == previous + if done then {} else PreviousIn(events[i..], status == GotPreviousGtids)
      invariant if status == GotGtids then firstOut == First(events) else firstOut == first
      invariant !done ==> First(events[i..]) == First(events)
    {
      assert events[i..][0] == events[i] && events[i..][1..] == events[i + 1..];
      match events[i] {
        case FormatDescription =>
        case Rotate =>
        case PreviousGtids(gtids) =>
          status := GotPreviousGtids;
          previous := previous + gtids;
        case GtidEvent(g) =>
          if status != GotGtids && status != GotPreviousGtids {
            status, done := ReadBinlogError, true;
          } else {
            status, firstOut, done := GotGtids, Some(g), true;
          }
        case Other =>
          if status != GotGtids && status != GotPreviousGtids {
            done := true;
          }
      }
      i := i + 1;
    }
    assert !done ==> events[i..] == [];
  }

  lemma {:induction false} AfterPrevious(events: seq<Event>)
    requires forall i :: 0 <= i < |events| ==> !events[i].PreviousGtids?
    ensures PreviousIn(events, true) == {}
    ensures StatusOf(events, true) == if First(events).Some? then GotGtids else GotPreviousGtids
  {
    if events != [] {
      AfterPrevious(events[1..]);
    }
  }

  /** From a log as the server writes it, its previous GTIDs are read. */
  lemma StartIsRead(log: Log, p: set<Gtid>)
    requires Starts(log, p)
    ensures LogStatus(log) == (if First(log.events).Some? then GotGtids else GotPreviousGtids)
    ensures PreviousIn(log.events, false) == p
  {
    var e := log.events;
    assert e[1..][1..] == e[2..];
    assert First(e) == First(e[1..]) == First(e[2..]);
    assert StatusOf(e, false) == StatusOf(e[1..], false) == StatusOf(e[2..], true);
    AfterPrevious(e[2..]);
  }

  /** All GTIDs in the first `k` logs. */
  function Before(logs: seq<Log>, k: nat): set<Gtid>
    requires k <= |logs|
  {
    if k == 0 then {} else Before(logs, k - 1) + if logs[k - 1].Log? then Gtids(logs[k - 1].events) else {}
  }

  ghost predicate Kept(logs: seq<Log>, purged: set<Gtid>, k: nat) {
    k < |logs| && Starts(logs[k], purged + Before(logs, k))
  }

  /** Every log starts with the GTIDs purged and those in the logs before it. */
  ghost predicate WellKept(logs: seq<Log>, purged: set<Gtid>) {
    forall k: nat :: k < |logs| ==> Kept(logs, purged, k)
  }

  lemma {:induction false} BeforeGrows(logs: seq<Log>, j: nat, k: nat)
    requires j <= k <= |logs|
    ensures Before(logs, j) <= Before(logs, k)
    decreases k
  {
    if j < k {
      BeforeGrows(logs, j, k - 1);
    }
  }

  /** Log `k` is the oldest that holds a GTID not in `given`, or the last log when there is none. */
  ghost predicate ReadFrom(logs: seq<Log>, given: set<Gtid>, k: nat) {
    && k < |logs| && Before(logs, k) <= given
    && (k < |logs| - 1 ==> logs[k].Log? && !(Gtids(logs[k].events) <= given))
  }

  /** The first GTID in log `k` or, when that has none, in the next log that has one. */
  function FirstFrom(logs: seq<Log>, k: nat): Option<Gtid>
    requires k <= |logs|
    decreases |logs| - k
  {
    if k == |logs| then None
    else if LogStatus(logs[k]) == GotGtids then First(logs[k].events)
    else FirstFrom(logs, k + 1)
  }

  lemma FoundHere(logs: seq<Log>, given: set<Gtid>, purged: set<Gtid>, k: nat)
    requires k < |logs| && WellKept(logs, purged) && purged + Before(logs, k) <= given
    requires k + 1 < |logs| ==> !(purged + Before(logs, k + 1) <= given)
    ensures ReadFrom(logs, given, k)
  {
    assert Kept(logs, purged, k);
  }

  /** The search ends here with success. */
  predicate Suits(log: Log, given: set<Gtid>) {
    && log.Log? && (LogStatus(log) == GotGtids || LogStatus(log) == GotPreviousGtids)
    && PreviousIn(log.events, false) <= given
  }

  /** The search passes over the logs from `k` on. */
  ghost predicate Passed(logs: seq<Log>, given: set<Gtid>, k: nat) {
    forall j :: k <= j < |logs| ==>
      !Suits(logs[j], given) && LogStatus(logs[j]) != ReadBinlogError && LogStatus(logs[j]) != NoGtids
  }

  /** The search, from the last log backwards; `end` is the log it ends with. */
  method FindFirstLogNotInGtidSet(logs: seq<Log>, given: set<Gtid>)
    returns (error: int, found: nat, first: Option<Gtid>, ghost end: nat)
    ensures error in {0, -2, -3, -4, -5} && (error == -2 <==> logs == [])
    ensures error in {0, -3, -4} ==> end < |logs| && Passed(logs, given, end + 1)
    ensures error == 0 ==> found == end && Suits(logs[end], given) && first == FirstFrom(logs, end)
    ensures error == -3 ==> LogStatus(logs[end]) == ReadBinlogError
    ensures error == -4 ==> LogStatus(logs[end]) == NoGtids
    ensures error == -5 ==> Passed(logs, given, 0)
  {
    error, found, first, end := 0, 0, None, 0;
    if |logs| == 0 {
      error := -2;
      return;
    }
    var k: nat := |logs|;
    while k > 0
      invariant k <= |logs| && Passed(logs, given, k)
      invariant first == FirstFrom(logs, k)
    {
      var status, previous;
      status, previous, first := ReadGtids(logs[k - 1], first);
      end := k - 1;
      if status == ReadBinlogError {
        error := -3;
        return;
      } else if status == NoGtids {
        error := -4;
        return;
      } else if status != Truncated && previous <= given {
        found := k - 1;
        return;
      }
      k := k - 1;
    }
    error := -5;
  }

  lemma KeptMeans(logs: seq<Log>, given: set<Gtid>, purged: set<Gtid>, k: nat)
    requires WellKept(logs, purged) && k < |logs|
    ensures Suits(logs[k], given) <==> purged + Before(logs, k) <= given
    ensures LogStatus(logs[k]) != ReadBinlogError && LogStatus(logs[k]) != NoGtids
  {
    assert Kept(logs, purged, k);
    StartIsRead(logs[k], purged + Before(logs, k));
  }

  /** With well-kept logs, success at `end` means `end` is where to read from. */
  lemma FoundIsRight(logs: seq<Log>, given: set<Gtid>, purged: set<Gtid>, end: nat)
    requires WellKept(logs, purged) && end < |logs| && Suits(logs[end], given) && Passed(logs, given, end + 1)
    ensures ReadFrom(logs, given, end) && purged <= given
  {
    KeptMeans(logs, given, purged, end);
    if end + 1 < |logs| {
      KeptMeans(logs, given, purged, end + 1);
    }
    FoundHere(logs, given, purged, end);
  }

  /** With well-kept logs the search can only fail when a purged GTID is missing. */
  lemma FailureMeansPurged(logs: seq<Log>, given: set<Gtid>, purged: set<Gtid>)
    requires WellKept(logs, purged) && logs != []
    ensures Passed(logs, given, 0) <==> !(purged <= given)
  {
    assert purged + Before(logs, 0) == purged;
    KeptMeans(logs, given, purged, 0);
    forall j | 0 <= j < |logs| && !(purged <= given)
      ensures !Suits(logs[j], given) && LogStatus(logs[j]) != ReadBinlogError && LogStatus(logs[j]) != NoGtids
    {
      KeptMeans(logs, given, purged, j);
    }
  }

  /** Whatever is missing lies in the log found or after it. */
  lemma NothingMissedBefore(logs: seq<Log>, given: set<Gtid>, k: nat, j: nat, g: Gtid)
    requires ReadFrom(logs, given, k) && j < |logs| && logs[j].Log? && g in Gtids(logs[j].events) && g !in given
    ensures k <= j
  {
    if j < k {
      BeforeGrows(logs, j + 1, k);
    }
  }

  /** There is only one such log. */
  lemma ReadFromIsUnique(logs: seq<Log>, given: set<Gtid>, j: nat, k: nat)
    requires ReadFrom(logs, given, j) && ReadFrom(logs, given, k)
    ensures j == k
  {
    if j < k {
      BeforeGrows(logs, j + 1, k);
    } else if k < j {
      BeforeGrows(logs, k + 1, j);
    }
  }

  // ---------------------------------------------------------------- the first GTID

  lemma {:induction false} FirstByStatus(events: seq<Event>, seen: bool)
    ensures StatusOf(events, seen) == GotPreviousGtids ==> First(events) == None
    ensures StatusOf(events, seen) == GotGtids ==> First(events).Some?
  {
    if events != [] {
      FirstByStatus(events[1..], seen || events[0].PreviousGtids?);
    }
  }

  lemma {:induction false} FirstFromNone(logs: seq<Log>, k: nat)
    requires k <= |logs|
    ensures FirstFrom(logs, k) == None <==> forall j :: k <= j < |logs| ==> LogStatus(logs[j]) != GotGtids
    decreases |logs| - k
  {
    if k < |logs| {
      FirstFromNone(logs, k + 1);
      if LogStatus(logs[k]) == GotGtids {
        FirstByStatus(logs[k].events, false);
      }
    }
  }

  /** The first GTID returned is that of the log found exactly when that log has one or no later log has. */
  lemma FirstIsOwnExactlyWhen(logs: seq<Log>, given: set<Gtid>, end: nat)
    requires end < |logs| && Suits(logs[end], given)
    ensures FirstFrom(logs, end) == First(logs[end].events) <==>
            First(logs[end].events).Some? || forall j :: end < j < |logs| ==> LogStatus(logs[j]) != GotGtids
  {
    FirstByStatus(logs[end].events, false);
    FirstFromNone(logs, end + 1);
  }

  /** With well-kept logs it always is: a log found without a GTID of its own is the last one. */
  lemma FirstIsOwn(logs: seq<Log>, given: set<Gtid>, purged: set<Gtid>, end: nat)
    requires WellKept(logs, purged) && end < |logs| && Suits(logs[end], given) && Passed(logs, given, end + 1)
    ensures FirstFrom(logs, end) == First(logs[end].events)
  {
    FirstByStatus(logs[end].events, false);
    if First(logs[end].events) == None && end + 1 < |logs| {
      FoundIsRight(logs, given, purged, end);
      WithoutFirst(logs[end].events);
    }
  }

  lemma {:induction false} WithoutFirst(events: seq<Event>)
    requires First(events) == None
    ensures Gtids(events) == {}
  {
    if events != [] {
      WithoutFirst(events[1..]);
    }
  }

  /** With an unreadable log in between, the first GTID of a later log is returned. */
  lemma FirstOfAnotherLog(g: Gtid, h: Gtid) returns (logs: seq<Log>)
    ensures |logs| == 3 && Suits(logs[0], {}) && Passed(logs, {}, 1)
    ensures First(logs[0].events) == None && FirstFrom(logs, 0) == Some(h)
  {
    logs := [Log([FormatDescription, PreviousGtids({})]), Unreadable,
             Log([FormatDescription, PreviousGtids({g}), GtidEvent(h)])];
    StartIsRead(logs[0], {});
    StartIsRead(logs[2], {g});
    var e := logs[2].events;
    assert e[1..][1..] == e[2..] && First(e[2..]) == Some(h);
    assert First(e[1..]) == First(e[2..]) && First(e) == First(e[1..]);
    assert g in PreviousIn(e, false);
    assert FirstFrom(logs, 1) == FirstFrom(logs, 2);
  }
}
