/**
  `MYSQL_BIN_LOG::recover` and the trimming in `open_binlog`: after a crash the last log is cut
  back to its last complete group, and the transactions in it are handed to the engines.
 */
module Recovery {

  /** What the scan tells apart; every other event, statements and rows alike, is `Other`. */
  datatype Kind = Gtid | Begin | Commit | Xid(xid: nat) | Other

  /** An event takes at least a byte. */
  datatype Event = Event(kind: Kind, more: nat)

  function Bytes(events: seq<Event>): nat {
    if events == [] then 0 else 1 + events[0].more + Bytes(events[1..])
  }

  function Xids(events: seq<Event>): set<nat> {
    if events == [] then {} else (if events[0].kind.Xid? then {events[0].kind.xid} else {}) + Xids(events[1..])
  }

  // ---------------------------------------------------------------- the code

  /**
    The scan of a log of which `size` bytes reached the disk.  The first `base` of them are the
    file header and the format description; what follows is as much of `events` as fits.
   */
  method Recover(base: nat, events: seq<Event>, size: nat) returns (validPos: nat, xids: set<nat>)
    requires base <= size
    ensures var s := Scan(Start(), Readable(events, size - base));
            validPos == base + Bytes(events[..s.valid]) && xids == s.xids
  {
    var inTransaction := false;
    validPos, xids := base, {};
    var pos: nat, i: nat := base, 0;
    ghost var s := Start();
    ReachStart(base, events, size);
    while i < |events| && pos + 1 + events[i].more <= size
      invariant Reached(base, events, size, i, pos, s, validPos)
      invariant s.inTransaction == inTransaction && s.xids == xids
    {
      var ev := events[i];
      ReachNext(base, events, size, i, pos, s, validPos);
      inTransaction, xids := Notice(ev, inTransaction, xids, s);
      s := Next(s, ev);
      pos, i := pos + 1 + ev.more, i + 1;
      if !inTransaction && ev.kind != Gtid {
        validPos := pos;
      }
    }
    ReachEnd(base, events, size, i, pos, s, validPos);
  }

  /** What one event does to the transaction flag and the XIDs. */
  method Notice(ev: Event, before: bool, known: set<nat>, ghost s: State) returns (inTransaction: bool, xids: set<nat>)
    requires s.inTransaction == before && s.xids == known
    ensures Next(s, ev).inTransaction == inTransaction && Next(s, ev).xids == xids
  {
    inTransaction, xids := before, known;
    if ev.kind == Begin {
      inTransaction := true;
    }
    if ev.kind == Commit {
      inTransaction := false;
    } else if ev.kind.Xid? {
      inTransaction := false;
      xids := xids + {ev.kind.xid};
    }
  }

  /** The scan has read `i` events, up to `pos`. */
  ghost predicate Reached(base: nat, events: seq<Event>, size: nat, i: nat, pos: nat, s: State, validPos: nat) {
    && i <= |events| && base <= pos <= size && pos == base + Bytes(events[..i])
    && s.seen == i && s.valid <= i && validPos == base + Bytes(events[..s.valid])
    && Scan(s, Readable(events[i..], size - pos)) == Scan(Start(), Readable(events, size - base))
  }

  lemma ReachStart(base: nat, events: seq<Event>, size: nat)
    requires base <= size
    ensures Reached(base, events, size, 0, base, Start(), base)
  {
    assert events[0..] == events && events[..0] == [];
  }

  lemma ReachEnd(base: nat, events: seq<Event>, size: nat, i: nat, pos: nat, s: State, validPos: nat)
    requires Reached(base, events, size, i, pos, s, validPos)
    requires i == |events| || pos + 1 + events[i].more > size
    ensures s == Scan(Start(), Readable(events, size - base))
  {
    assert Readable(events[i..], size - pos) == [];
  }

  lemma ReachNext(base: nat, events: seq<Event>, size: nat, i: nat, pos: nat, s: State, validPos: nat)
    requires Reached(base, events, size, i, pos, s, validPos)
    requires i < |events| && pos + 1 + events[i].more <= size
    ensures var t, next := Next(s, events[i]), pos + 1 + events[i].more;
            Reached(base, events, size, i + 1, next, t, if t.valid == i + 1 then next else validPos)
  {
    ReadNext(s, events, i, size - pos);
    BytesNext(events, i);
  }

  /** The events that lie within the first `room` bytes. */
  function Readable(events: seq<Event>, room: nat): (r: seq<Event>)
    ensures r <= events && Bytes(r) <= room
  {
    if events == [] || 1 + events[0].more > room then []
    else [events[0]] + Readable(events[1..], room - 1 - events[0].more)
  }

  lemma ReadNext(s: State, events: seq<Event>, i: nat, room: nat)
    requires i < |events| && 1 + events[i].more <= room
    ensures Scan(s, Readable(events[i..], room))
         == Scan(Next(s, events[i]), Readable(events[i + 1..], room - 1 - events[i].more))
  {
    var todo := Readable(events[i..], room);
    assert events[i..][1..] == events[i + 1..];
    assert todo[0] == events[i] && todo[1..] == Readable(events[i + 1..], room - 1 - events[i].more);
  }

  lemma {:induction false} BytesNext(events: seq<Event>, i: nat)
    requires i < |events|
    ensures Bytes(events[..i + 1]) == Bytes(events[..i]) + 1 + events[i].more
  {
    if i > 0 {
      assert events[..i + 1][1..] == events[1..][..i] && events[..i][1..] == events[1..][..i - 1];
      BytesNext(events[1..], i - 1);
    }
  }

  /** The variables of the scan: `valid` counts the events before the valid position. */
  datatype State = State(inTransaction: bool, seen: nat, valid: nat, xids: set<nat>)

  function Start(): State {
    State(false, 0, 0, {})
  }

  function Next(s: State, e: Event): State {
    var open := if e.kind == Begin then true else if e.kind == Commit || e.kind.Xid? then false else s.inTransaction;
    State(open, s.seen + 1, if !open && e.kind != Gtid then s.seen + 1 else s.valid,
          if e.kind.Xid? then s.xids + {e.kind.xid} else s.xids)
  }

  function Scan(s: State, events: seq<Event>): (r: State)
    ensures r.seen == s.seen + |events| && (s.valid <= s.seen ==> r.valid <= r.seen)
    decreases |events|
  {
    if events == [] then s else Scan(Next(s, events[0]), events[1..])
  }

  // ---------------------------------------------------------------- what a log is made of

  /** A statement, or a transaction; each may carry a GTID event in front. */
  datatype Group =
    | Statement(gtid: seq<Event>, event: Event)
    | Transaction(gtid: seq<Event>, begin: Event, body: seq<Event>, end: Event)

  predicate IsGroup(g: Group) {
    && |g.gtid| <= 1 && (forall i :: 0 <= i < |g.gtid| ==> g.gtid[i].kind == Gtid)
    && match g
       case Statement(_, e) => e.kind == Other
       case Transaction(_, b, body, e) =>
         && b.kind == Begin && (forall i :: 0 <= i < |body| ==> body[i].kind == Other)
         && (e.kind == Commit || e.kind.Xid?)
  }

  function Events(g: Group): (r: seq<Event>)
    ensures r != []
  {
    match g
    case Statement(gtid, e) => gtid + [e]
    case Transaction(gtid, b, body, e) => gtid + [b] + body + [e]
  }

  function Flat(groups: seq<Group>): seq<Event> {
    if groups == [] then [] else Events(groups[0]) + Flat(groups[1..])
  }

  ghost predicate AllGroups(groups: seq<Group>) {
    forall i :: 0 <= i < |groups| ==> IsGroup(groups[i])
  }

  /** How many groups lie wholly within the first `j` events. */
  function Complete(groups: seq<Group>, j: nat): (c: nat)
    ensures c <= |groups|
  {
    if groups == [] || j < |Events(groups[0])| then 0 else 1 + Complete(groups[1..], j - |Events(groups[0])|)
  }

  /** That is the longest prefix of groups that fits. */
  lemma {:induction false} CompleteIsLongest(groups: seq<Group>, j: nat, c: nat)
    requires c <= |groups|
    ensures |Flat(groups[..c])| <= j <==> c <= Complete(groups, j)
  {
    if c > 0 {
      assert groups[..c][1..] == groups[1..][..c - 1];
      if |Events(groups[0])| <= j {
        CompleteIsLongest(groups[1..], j - |Events(groups[0])|, c - 1);
      }
    }
  }

  lemma {:induction false} ScanSum(s: State, a: seq<Event>, b: seq<Event>)
    ensures Scan(s, a + b) == Scan(Scan(s, a), b)
    decreases |a|
  {
    if a == [] {
      assert a + b == b;
    } else {
      assert (a + b)[1..] == a[1..] + b;
      ScanSum(Next(s, a[0]), a[1..], b);
    }
  }

  lemma {:induction false} ScanBody(s: State, body: seq<Event>)
    requires s.inTransaction && forall i :: 0 <= i < |body| ==> body[i].kind == Other
    ensures Scan(s, body) == s.(seen := s.seen + |body|)
    decreases |body|
  {
    if body != [] {
      ScanBody(Next(s, body[0]), body[1..]);
    }
  }

  lemma ScanGtid(s: State, gtid: seq<Event>)
    requires !s.inTransaction && |gtid| <= 1 && forall i :: 0 <= i < |gtid| ==> gtid[i].kind == Gtid
    ensures Scan(s, gtid) == s.(seen := s.seen + |gtid|)
  {
    if gtid != [] {
      assert gtid == [gtid[0]];
    }
  }

  lemma ScanOne(s: State, e: Event)
    ensures Scan(s, [e]) == Next(s, e)
  {
  }

  lemma ScanTransaction(s: State, g: Group)
    requires IsGroup(g) && g.Transaction? && !s.inTransaction
    ensures Scan(s, Events(g)) == Next(s.(inTransaction := true, seen := s.seen + |Events(g)| - 1), g.end)
  {
    ScanOpening(s, g);
    var t := Scan(s, g.gtid + [g.begin]);
    ScanBody(t, g.body);
    ScanSum(s, g.gtid + [g.begin], g.body);
    ScanSum(s, g.gtid + [g.begin] + g.body, [g.end]);
    ScanOne(Scan(t, g.body), g.end);
  }

  lemma ScanOpening(s: State, g: Group)
    requires IsGroup(g) && g.Transaction? && !s.inTransaction
    ensures Scan(s, g.gtid + [g.begin]) == s.(inTransaction := true, seen := s.seen + |g.gtid| + 1)
  {
    ScanGtid(s, g.gtid);
    ScanSum(s, g.gtid, [g.begin]);
    ScanOne(Scan(s, g.gtid), g.begin);
  }

  /** A whole group moves the valid position to its end. */
  lemma ScanGroup(s: State, g: Group)
    requires IsGroup(g) && !s.inTransaction
    ensures var n := s.seen + |Events(g)|; Scan(s, Events(g)) == State(false, n, n, s.xids + Xids(Events(g)))
  {
    if g.Statement? {
      ScanGtid(s, g.gtid);
      ScanSum(s, g.gtid, [g.event]);
      NoXids(Events(g));
    } else {
      ScanTransaction(s, g);
      XidsOfTransaction(g);
    }
  }

  lemma {:induction false} NoXids(events: seq<Event>)
    requires forall i :: 0 <= i < |events| ==> !events[i].kind.Xid?
    ensures Xids(events) == {}
  {
    if events != [] {
      NoXids(events[1..]);
    }
  }

  lemma XidsOfTransaction(g: Group)
    requires IsGroup(g) && g.Transaction?
    ensures Xids(Events(g)) == if g.end.kind.Xid? then {g.end.kind.xid} else {}
  {
    var front := g.gtid + [g.begin] + g.body;
    NoXids(front);
    XidsOfSum(front, [g.end]);
  }

  /** Part of a group leaves the valid position and the transactions as they were. */
  lemma ScanPart(s: State, g: Group, j: nat)
    requires IsGroup(g) && !s.inTransaction && j < |Events(g)|
    ensures var r := Scan(s, Events(g)[..j]); r.valid == s.valid && r.xids == s.xids
  {
    var n := |g.gtid|;
    if j <= n {
      assert Events(g)[..j] == g.gtid[..j];
      ScanGtid(s, g.gtid[..j]);
    } else {
      var body := g.body[..j - n - 1];
      assert Events(g)[..j] == g.gtid + [g.begin] + body;
      ScanGtid(s, g.gtid);
      ScanSum(s, g.gtid + [g.begin], body);
      ScanSum(s, g.gtid, [g.begin]);
      ScanBody(Next(Scan(s, g.gtid), g.begin), body);
    }
  }

  lemma TakeAcross(a: seq<Event>, b: seq<Event>, j: nat)
    requires |a| <= j <= |a| + |b|
    ensures (a + b)[..j] == a + b[..j - |a|]
  {
  }

  lemma FlatFirst(groups: seq<Group>, c: nat)
    requires c < |groups|
    ensures Flat(groups[..c + 1]) == Events(groups[0]) + Flat(groups[1..][..c])
  {
    assert groups[..c + 1][1..] == groups[1..][..c];
  }

  /** The scan after a whole group. */
  function After(s: State, g: Group): State {
    State(false, s.seen + |Events(g)|, s.seen + |Events(g)|, s.xids + Xids(Events(g)))
  }

  lemma ScanThrough(s: State, first: seq<Event>, t: State, rest: seq<Event>, j: nat)
    requires t == Scan(s, first) && |first| <= j <= |first| + |rest|
    ensures Scan(s, (first + rest)[..j]) == Scan(t, rest[..j - |first|])
  {
    TakeAcross(first, rest, j);
    ScanSum(s, first, rest[..j - |first|]);
  }

  lemma ScanWhole(s: State, g: Group, rest: seq<Event>, j: nat)
    requires IsGroup(g) && !s.inTransaction && |Events(g)| <= j <= |Events(g)| + |rest|
    ensures Scan(s, (Events(g) + rest)[..j]) == Scan(After(s, g), rest[..j - |Events(g)|])
  {
    assert Scan(s, Events(g)) == After(s, g) by {
      ScanGroup(s, g);
    }
    ScanThrough(s, Events(g), After(s, g), rest, j);
  }

  lemma ScanNone(s: State, g: Group, rest: seq<Event>, j: nat)
    requires IsGroup(g) && !s.inTransaction && j < |Events(g)|
    ensures var r := Scan(s, (Events(g) + rest)[..j]); r.valid == s.valid && r.xids == s.xids
  {
    assert (Events(g) + rest)[..j] == Events(g)[..j];
    ScanPart(s, g, j);
  }

  /** `r` is what the scan from `s` comes to when `done` are the events of whole groups. */
  ghost predicate UpTo(s: State, r: State, done: seq<Event>) {
    r.valid == s.seen + |done| && r.xids == s.xids + Xids(done)
  }

  lemma UpToMore(s: State, g: Group, r: State, done: seq<Event>)
    requires UpTo(After(s, g), r, done)
    ensures UpTo(s, r, Events(g) + done)
  {
    XidsOfSum(Events(g), done);
  }

  /** The first `j` events of a log: valid up to its last complete group. */
  lemma {:induction false} ScanLog(s: State, groups: seq<Group>, j: nat)
    requires AllGroups(groups) && !s.inTransaction && s.valid == s.seen && j <= |Flat(groups)|
    ensures UpTo(s, Scan(s, Flat(groups)[..j]), Flat(groups[..Complete(groups, j)]))
    decreases |groups|
  {
    if groups != [] {
      var n, rest := |Events(groups[0])|, Flat(groups[1..]);
      if j < n {
        ScanNone(s, groups[0], rest, j);
      } else {
        var c := Complete(groups[1..], j - n);
        ScanWhole(s, groups[0], rest, j);
        ScanLog(After(s, groups[0]), groups[1..], j - n);
        UpToMore(s, groups[0], Scan(After(s, groups[0]), rest[..j - n]), Flat(groups[1..][..c]));
        FlatFirst(groups, c);
      }
    }
  }

  lemma {:induction false} XidsOfSum(a: seq<Event>, b: seq<Event>)
    ensures Xids(a + b) == Xids(a) + Xids(b)
  {
    if a == [] {
      assert a + b == b;
    } else {
      assert (a + b)[1..] == a[1..] + b;
      XidsOfSum(a[1..], b);
    }
  }

  // ---------------------------------------------------------------- torn logs

  lemma {:induction false} ReadableIsLongest(events: seq<Event>, room: nat, k: nat)
    requires k <= |events|
    ensures Bytes(events[..k]) <= room <==> k <= |Readable(events, room)|
  {
    if k > 0 {
      assert events[..k][1..] == events[1..][..k - 1];
      if 1 + events[0].more <= room {
        ReadableIsLongest(events[1..], room - 1 - events[0].more, k - 1);
      }
    }
  }

  lemma {:induction false} FlatPrefix(groups: seq<Group>, c: nat)
    requires c <= |groups|
    ensures Flat(groups[..c]) <= Flat(groups)
  {
    if c > 0 {
      assert groups[..c][1..] == groups[1..][..c - 1];
      FlatPrefix(groups[1..], c - 1);
    }
  }

  /** How many groups lie wholly within the first `room` bytes. */
  function Intact(groups: seq<Group>, room: nat): (c: nat)
    ensures c <= |groups|
  {
    Complete(groups, |Readable(Flat(groups), room)|)
  }

  lemma IntactIsLongest(groups: seq<Group>, room: nat, c: nat)
    requires c <= |groups|
    ensures Bytes(Flat(groups[..c])) <= room <==> c <= Intact(groups, room)
  {
    FlatPrefix(groups, c);
    var k := |Flat(groups[..c])|;
    assert Flat(groups)[..k] == Flat(groups[..c]);
    ReadableIsLongest(Flat(groups), room, k);
    CompleteIsLongest(groups, |Readable(Flat(groups), room)|, c);
  }

  /** Wherever the log was torn, the scan finds its longest prefix of whole groups and their XIDs. */
  lemma TornLog(groups: seq<Group>, room: nat)
    requires AllGroups(groups)
    ensures var done, s := Flat(groups[..Intact(groups, room)]), Scan(Start(), Readable(Flat(groups), room));
            s.valid == |done| && Flat(groups)[..s.valid] == done && s.xids == Xids(done)
  {
    var events := Flat(groups);
    var j := |Readable(events, room)|;
    assert Readable(events, room) == events[..j];
    ScanLog(Start(), groups, j);
    FlatPrefix(groups, Intact(groups, room));
  }

  /** The log as `open_binlog` leaves it: its size, and whether it is still marked in use. */
  method OpenAfterCrash(base: nat, groups: seq<Group>, size: nat, inUse: bool)
    returns (trimmed: nat, stillInUse: bool, xids: set<nat>)
    requires 0 < base <= size && AllGroups(groups)
    ensures inUse ==> trimmed == base + Bytes(Flat(groups[..Intact(groups, size - base)])) && !stillInUse
    ensures inUse ==> xids == Xids(Flat(groups[..Intact(groups, size - base)]))
    ensures !inUse ==> trimmed == size && !stillInUse && xids == {}
  {
    var validPos := 0;
    trimmed, stillInUse, xids := size, inUse, {};
    if inUse {
      TornLog(groups, size - base);
      validPos, xids := Recover(base, Flat(groups), size);
      IntactIsLongest(groups, size - base, Intact(groups, size - base));
    }
    if validPos > 0 {
      if validPos < size {
        trimmed := validPos;
      }
      stillInUse := false;
    }
  }

  /** Recovering the trimmed log finds the same groups: nothing more is cut. */
  lemma TrimmingIsStable(groups: seq<Group>, room: nat)
    ensures var c := Intact(groups, room); Intact(groups, Bytes(Flat(groups[..c]))) == c
  {
    var c := Intact(groups, room);
    var d := Intact(groups, Bytes(Flat(groups[..c])));
    IntactIsLongest(groups, room, c);
    IntactIsLongest(groups, Bytes(Flat(groups[..c])), c);
    IntactIsLongest(groups, Bytes(Flat(groups[..c])), d);
    IntactIsLongest(groups, room, d);
  }
}
