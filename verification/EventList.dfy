/** `GtidHandler::ParseEventList`: cutting a buffer into binlog events and finding their GTIDs. */
module EventList {
  import opened Bytes
  import opened Strings
  import GtidText

  const OK := 0
  const EVENT_PARSE_FAIL := 1000
  const EVENT_PERCONA_GTID := 33
  const EVENT_GTID := 162

  /** An event as found, and its GTID, empty when it has none. */
  datatype Piece = Piece(event: seq<byte>, gtid: string)

  // ---------------------------------------------------------------- one event

  function EventSize(rest: seq<byte>): nat
    requires |rest| >= 13
  {
    FromLE(rest[9..13])
  }

  /** The GTID of the event at the start of `rest`; the code looks at all that is left, not at the event. */
  function GtidOf(rest: seq<byte>): string {
    if |rest| > 30 && rest[4] == EVENT_GTID then
      DecimalText(FromLE(rest[27..31])) + "-" + DecimalText(FromLE(rest[5..9])) + "-"
      + DecimalText(FromLE(rest[19..27]))
    else if |rest| > 43 && rest[4] == EVENT_PERCONA_GTID then
      GtidText.GenGTID(GtidText.UuidText(rest[20..36]), FromLE(rest[36..44]))
    else ""
  }

  /** `ParseEvent`. */
  method ParseEvent(rest: seq<byte>) returns (code: nat, size: nat, gtid: string)
    ensures code == (if |rest| < 13 || rest[4] >= 200 then EVENT_PARSE_FAIL else OK)
    ensures code == OK ==> size == EventSize(rest) && gtid == GtidOf(rest)
  {
    size, gtid := 0, "";
    if 13 > |rest| {
      return EVENT_PARSE_FAIL, size, gtid;
    }
    var kind := rest[4];
    if kind >= 200 {
      return EVENT_PARSE_FAIL, size, gtid;
    }
    size := FromLE(rest[9..13]);
    if kind == EVENT_GTID {
      if |rest| > 30 {
        gtid := DecimalText(FromLE(rest[27..31])) + "-" + DecimalText(FromLE(rest[5..9])) + "-"
          + DecimalText(FromLE(rest[19..27]));
      }
    } else if kind == EVENT_PERCONA_GTID {
      if |rest| >= 19 && |rest| - 19 > 24 {
        var uuid := GtidText.GenUUID(rest[20..36]);
        gtid := GtidText.GenGTID(uuid, FromLE(rest[36..44]));
      }
    }
    code := OK;
  }

  // ---------------------------------------------------------------- the list

  /** What the loop makes of a buffer, when `gtid` finds the GTID of the first event in what is left. */
  function Parse(buffer: seq<byte>, gtid: seq<byte> -> string): Option<seq<Piece>>
    decreases |buffer|
  {
    if buffer == [] then Some([])
    else if |buffer| < 13 || buffer[4] >= 200 || EventSize(buffer) == 0 || EventSize(buffer) > |buffer| then None
    else
      var n := EventSize(buffer);
      match Parse(buffer[n..], gtid)
      case None => None
      case Some(pieces) => Some([Piece(buffer[..n], gtid(buffer))] + pieces)
  }

  function Events(pieces: seq<Piece>): seq<seq<byte>> {
    seq(|pieces|, i requires 0 <= i < |pieces| => pieces[i].event)
  }

  function Gtids(pieces: seq<Piece>): seq<string> {
    seq(|pieces|, i requires 0 <= i < |pieces| => pieces[i].gtid)
  }

  /** The last GTID there is, or else what there was before. */
  function LastGtid(gtids: seq<string>, before: string): string {
    if gtids == [] then before
    else if gtids[|gtids| - 1] != "" then gtids[|gtids| - 1]
    else LastGtid(gtids[..|gtids| - 1], before)
  }

  /** With `need_charset` every event gets a zero byte in front. */
  function Framed(needCharset: bool, e: seq<byte>): seq<byte> {
    if needCharset then [0] + e else e
  }

  /** The loop has got as far as `pos`. */
  ghost predicate Reached(buffer: seq<byte>, pos: nat, pieces: seq<Piece>, gtid: seq<byte> -> string) {
    && pos <= |buffer|
    && (Parse(buffer, gtid).Some? <==> Parse(buffer[pos..], gtid).Some?)
    && (Parse(buffer, gtid).Some? ==> Parse(buffer, gtid).value == pieces + Parse(buffer[pos..], gtid).value)
  }

  /** One event more. */
  lemma ReachNext(buffer: seq<byte>, pos: nat, pieces: seq<Piece>, gtid: seq<byte> -> string, p: Piece)
    requires Reached(buffer, pos, pieces, gtid) && pos + 13 <= |buffer| && buffer[pos..][4] < 200
    requires 0 < |p.event| == EventSize(buffer[pos..]) <= |buffer| - pos
    requires p.event == buffer[pos..][..|p.event|] && p.gtid == gtid(buffer[pos..])
    ensures Reached(buffer, pos + |p.event|, pieces + [p], gtid)
  {
    var rest, n := buffer[pos..], |p.event|;
    assert rest[n..] == buffer[pos + n..];
    if Parse(rest, gtid).Some? {
      var more := Parse(rest[n..], gtid).value;
      assert pieces + ([p] + more) == pieces + [p] + more;
    }
  }

  lemma ReachStart(buffer: seq<byte>, gtid: seq<byte> -> string)
    ensures Reached(buffer, 0, [], gtid)
  {
    assert buffer[0..] == buffer;
    if Parse(buffer, gtid).Some? {
      assert [] + Parse(buffer, gtid).value == Parse(buffer, gtid).value;
    }
  }

  lemma ReachEnd(buffer: seq<byte>, pieces: seq<Piece>, gtid: seq<byte> -> string)
    requires Reached(buffer, |buffer|, pieces, gtid)
    ensures Parse(buffer, gtid) == Some(pieces)
  {
    assert buffer[|buffer|..] == [];
    assert pieces + [] == pieces;
  }

  lemma ReachNothing(buffer: seq<byte>, pos: nat, pieces: seq<Piece>, gtid: seq<byte> -> string)
    requires Reached(buffer, pos, pieces, gtid) && pos < |buffer|
    requires || pos + 13 > |buffer| || buffer[pos..][4] >= 200
             || EventSize(buffer[pos..]) == 0 || pos + EventSize(buffer[pos..]) > |buffer|
    ensures Parse(buffer, gtid) == None
  {
  }

  /** The lists handed out are those of the events found so far. */
  ghost predicate Listed(pieces: seq<Piece>, needCharset: bool, maxBefore: string,
                         list: seq<seq<byte>>, gtids: seq<string>, maxGtid: string) {
    && gtids == Gtids(pieces) && |list| == |pieces| && maxGtid == LastGtid(gtids, maxBefore)
    && forall i :: 0 <= i < |pieces| ==> list[i] == Framed(needCharset, pieces[i].event)
  }

  lemma ListNext(pieces: seq<Piece>, needCharset: bool, maxBefore: string,
                 list: seq<seq<byte>>, gtids: seq<string>, maxGtid: string, p: Piece)
    requires Listed(pieces, needCharset, maxBefore, list, gtids, maxGtid)
    ensures Listed(pieces + [p], needCharset, maxBefore, list + [Framed(needCharset, p.event)], gtids + [p.gtid],
                   if p.gtid != "" then p.gtid else maxGtid)
  {
    ListsMore(pieces, p);
    LastGtidMore(gtids, p.gtid, maxBefore);
  }

  /** The event at `pos`, if there is a whole one. */
  method ParseNext(buffer: seq<byte>, pos: nat, ghost pieces: seq<Piece>)
    returns (code: nat, p: Piece)
    requires Reached(buffer, pos, pieces, GtidOf) && pos < |buffer|
    ensures code == OK ==> p.event != [] && Reached(buffer, pos + |p.event|, pieces + [p], GtidOf)
    ensures code != OK ==> code == EVENT_PARSE_FAIL && Parse(buffer, GtidOf) == None
  {
    var size, gtid;
    p := Piece([], "");
    code, size, gtid := ParseEvent(buffer[pos..]);
    if code != OK {
      ReachNothing(buffer, pos, pieces, GtidOf);
    } else if size == 0 || pos + size > |buffer| {
      ReachNothing(buffer, pos, pieces, GtidOf);
      code := EVENT_PARSE_FAIL;
    } else {
      p := Piece(buffer[pos..][..size], gtid);
      ReachNext(buffer, pos, pieces, GtidOf, p);
    }
  }

  /** `ParseEventList`. */
  method ParseEventList(buffer: seq<byte>, needCharset: bool, maxBefore: string)
    returns (code: nat, list: seq<seq<byte>>, gtids: seq<string>, maxGtid: string, ghost pieces: seq<Piece>)
    ensures code == (if Parse(buffer, GtidOf).Some? then OK else EVENT_PARSE_FAIL)
    ensures code == OK ==> pieces == Parse(buffer, GtidOf).value
    ensures Listed(pieces, needCharset, maxBefore, list, gtids, maxGtid)
  {
    code, list, gtids, maxGtid, pieces := OK, [], [], maxBefore, [];
    var pos := 0;
    ReachStart(buffer, GtidOf);
    while pos < |buffer|
      invariant Reached(buffer, pos, pieces, GtidOf)
      invariant Listed(pieces, needCharset, maxBefore, list, gtids, maxGtid)
      decreases |buffer| - pos
    {
      var ret, p := ParseNext(buffer, pos, pieces);
      if ret != OK {
        code := ret;
        return;
      }
      ListNext(pieces, needCharset, maxBefore, list, gtids, maxGtid, p);
      pieces := pieces + [p];
      list := list + [Framed(needCharset, p.event)];
      gtids := gtids + [p.gtid];
      pos := pos + |p.event|;
      if p.gtid != "" {
        maxGtid := p.gtid;
      }
    }
    ReachEnd(buffer, pieces, GtidOf);
  }

  lemma ListsMore(pieces: seq<Piece>, p: Piece)
    ensures Gtids(pieces + [p]) == Gtids(pieces) + [p.gtid]
    ensures Events([p] + pieces) == [p.event] + Events(pieces)
  {
  }

  lemma LastGtidMore(gtids: seq<string>, g: string, before: string)
    ensures LastGtid(gtids + [g], before) == if g != "" then g else LastGtid(gtids, before)
  {
    assert (gtids + [g])[..|gtids|] == gtids;
  }

  // ---------------------------------------------------------------- theorems

  /** An accepted buffer is its events, one after the other; none is empty. */
  lemma {:induction false} AcceptedIsWhole(buffer: seq<byte>, gtid: seq<byte> -> string)
    requires Parse(buffer, gtid).Some?
    ensures Concat(Events(Parse(buffer, gtid).value)) == buffer
    ensures forall i :: 0 <= i < |Parse(buffer, gtid).value| ==> Parse(buffer, gtid).value[i].event != []
    decreases |buffer|
  {
    if buffer != [] {
      var n := EventSize(buffer);
      AcceptedIsWhole(buffer[n..], gtid);
      var p, more := Piece(buffer[..n], gtid(buffer)), Parse(buffer[n..], gtid).value;
      ListsMore(more, p);
      assert ([p.event] + Events(more))[1..] == Events(more);
      assert buffer == buffer[..n] + buffer[n..];
    }
  }

  /** A whole event, with all of the GTID its type promises. */
  predicate WellFormed(e: seq<byte>) {
    && |e| >= 13 && EventSize(e) == |e| && e[4] < 200
    && (e[4] == EVENT_GTID ==> |e| > 30) && (e[4] == EVENT_PERCONA_GTID ==> |e| > 43)
  }

  predicate AllWellFormed(events: seq<seq<byte>>) {
    forall i :: 0 <= i < |events| ==> WellFormed(events[i])
  }

  function PiecesOf(events: seq<seq<byte>>): seq<Piece> {
    seq(|events|, i requires 0 <= i < |events| => Piece(events[i], GtidOf(events[i])))
  }

  /** What follows a well-formed event does not change what is read from it. */
  lemma OwnBytesOnly(e: seq<byte>, rest: seq<byte>)
    requires WellFormed(e)
    ensures EventSize(e + rest) == |e| && (e + rest)[4] == e[4] && GtidOf(e + rest) == GtidOf(e)
  {
    assert (e + rest)[9..13] == e[9..13];
    if e[4] == EVENT_GTID {
      assert (e + rest)[27..31] == e[27..31] && (e + rest)[5..9] == e[5..9] && (e + rest)[19..27] == e[19..27];
    } else if e[4] == EVENT_PERCONA_GTID {
      assert (e + rest)[20..36] == e[20..36] && (e + rest)[36..44] == e[36..44];
    }
  }

  lemma ParseFirst(e: seq<byte>, rest: seq<byte>, gtid: seq<byte> -> string, more: seq<Piece>)
    requires |e| >= 13 && EventSize(e + rest) == |e| && (e + rest)[4] < 200 && Parse(rest, gtid) == Some(more)
    ensures Parse(e + rest, gtid) == Some([Piece(e, gtid(e + rest))] + more)
  {
    assert (e + rest)[..|e|] == e && (e + rest)[|e|..] == rest;
  }

  /** Parsing undoes concatenation. */
  lemma {:induction false} ParseInvertsConcat(events: seq<seq<byte>>)
    requires AllWellFormed(events)
    ensures Parse(Concat(events), GtidOf) == Some(PiecesOf(events)) && Events(PiecesOf(events)) == events
  {
    if events != [] {
      var e, rest := events[0], Concat(events[1..]);
      OwnBytesOnly(e, rest);
      ParseInvertsConcat(events[1..]);
      ParseFirst(e, rest, GtidOf, PiecesOf(events[1..]));
      assert PiecesOf(events) == [Piece(e, GtidOf(e))] + PiecesOf(events[1..]);
    }
  }
}
