/** What the bytes written from a cache mean to a reader of the log. */
module CacheTheorems {
  import opened Bytes
  import opened CacheFormat

  /** Where event `i` starts in the cache. */
  function StartInCache(events: seq<Event>, i: nat): nat
    requires i <= |events|
  {
    if i == 0 then 0 else |events[0]| + StartInCache(events[1..], i - 1)
  }

  /** Checksum bytes of the first `i` events. */
  function Added(cfg: Config, i: nat): nat {
    if cfg.checksum then CHECKSUM_LEN * i else 0
  }

  lemma Shifted(a: seq<byte>, b: seq<byte>, i: nat, j: nat)
    requires i <= j <= |b|
    ensures (a + b)[|a| + i..|a| + j] == b[i..j]
  {
  }

  lemma {:induction false} PieceAt(pieces: seq<seq<byte>>, i: nat)
    requires i < |pieces|
    ensures StartInCache(pieces, i + 1) == StartInCache(pieces, i) + |pieces[i]| <= |Concat(pieces)|
    ensures Concat(pieces)[StartInCache(pieces, i)..StartInCache(pieces, i + 1)] == pieces[i]
  {
    if i > 0 {
      PieceAt(pieces[1..], i - 1);
      Shifted(pieces[0], Concat(pieces[1..]), StartInCache(pieces[1..], i - 1), StartInCache(pieces[1..], i));
    }
  }

  /** The events as they stand in the log. */
  function Pieces(cfg: Config, events: seq<Event>, inc: nat): seq<seq<byte>>
    requires AllWellFormed(events)
  {
    seq(|events|, i requires 0 <= i < |events| => Logged(cfg, events[i], inc + Added(cfg, i + 1)))
  }

  lemma PiecesFirst(cfg: Config, events: seq<Event>, inc: nat)
    requires AllWellFormed(events) && events != []
    ensures Pieces(cfg, events, inc)[0] == Logged(cfg, events[0], inc + Grow(cfg))
    ensures Pieces(cfg, events, inc)[1..] == Pieces(cfg, events[1..], inc + Grow(cfg))
  {
    forall i | 0 <= i < |events| - 1
      ensures Pieces(cfg, events, inc)[1..][i] == Pieces(cfg, events[1..], inc + Grow(cfg))[i]
    {
      assert inc + Added(cfg, i + 2) == inc + Grow(cfg) + Added(cfg, i + 1);
    }
  }

  lemma {:induction false} OutputIsPieces(cfg: Config, events: seq<Event>, inc: nat)
    requires AllWellFormed(events)
    ensures Output(cfg, events, inc) == Concat(Pieces(cfg, events, inc))
  {
    if events != [] {
      OutputIsPieces(cfg, events[1..], inc + Grow(cfg));
      PiecesFirst(cfg, events, inc);
    }
  }

  lemma {:induction false} PieceStarts(cfg: Config, events: seq<Event>, inc: nat, i: nat)
    requires AllWellFormed(events) && i <= |events|
    ensures StartInCache(Pieces(cfg, events, inc), i) == StartInCache(events, i) + Added(cfg, i)
  {
    if i > 0 {
      PieceStarts(cfg, events[1..], inc + Grow(cfg), i - 1);
      PiecesFirst(cfg, events, inc);
    }
  }

  /** A piece in a log that starts with other bytes. */
  lemma PieceInLog(before: seq<byte>, pieces: seq<seq<byte>>, i: nat)
    requires i < |pieces|
    ensures var a, b := |before| + StartInCache(pieces, i), |before| + StartInCache(pieces, i + 1);
            a + |pieces[i]| == b <= |before + Concat(pieces)| && (before + Concat(pieces))[a..b] == pieces[i]
  {
    PieceAt(pieces, i);
    Shifted(before, Concat(pieces), StartInCache(pieces, i), StartInCache(pieces, i + 1));
  }

  /** The cache holds, in every header, where the event ends relative to the start of the cache. */
  ghost predicate RelativePositions(events: seq<Event>)
    requires AllWellFormed(events)
  {
    forall i :: 0 <= i < |events| ==>
      FromLE(events[i][POS_AT..FLAGS_AT]) == StartInCache(events, i + 1) % TWO_TO_32
  }

  lemma PositionField(cfg: Config, e: Event, inc: nat)
    requires WellFormed(e)
    ensures FromLE(Logged(cfg, e, inc)[POS_AT..FLAGS_AT])
         == (FromLE(e[POS_AT..FLAGS_AT]) + cfg.group + inc) % TWO_TO_32
  {
    var h := e[..HEADER_LEN];
    assert h[POS_AT..FLAGS_AT] == e[POS_AT..FLAGS_AT];
    var v := FromLE(e[POS_AT..FLAGS_AT]) + cfg.group + inc;
    assert Logged(cfg, e, inc)[POS_AT..FLAGS_AT] == FixHeader(cfg, h, inc)[POS_AT..FLAGS_AT] == ToLE(v, 4);
    FromToLE(v, 4);
    Power256Of4();
  }

  /** What a checksum algorithm and a log position make of a cache. */
  function Written(checksum: bool, step: (Crc, byte) -> Crc, before: seq<byte>, events: seq<Event>): seq<byte>
    requires AllWellFormed(events)
  {
    before + Output(Config(checksum, |before| % TWO_TO_32, step), events, 0)
  }

  /** Event `i` of a cache lies in the log between these two offsets. */
  function Offset(checksum: bool, before: seq<byte>, events: seq<Event>, i: nat): nat
    requires i <= |events|
  {
    |before| + StartInCache(events, i) + if checksum then CHECKSUM_LEN * i else 0
  }

  lemma EventInLog(checksum: bool, step: (Crc, byte) -> Crc, before: seq<byte>, events: seq<Event>, i: nat)
    requires AllWellFormed(events) && i < |events|
    ensures var cfg := Config(checksum, |before| % TWO_TO_32, step);
            var start, end := Offset(checksum, before, events, i), Offset(checksum, before, events, i + 1);
            && start + |events[i]| + Grow(cfg) == end <= |Written(checksum, step, before, events)|
            && Written(checksum, step, before, events)[start..end] == Logged(cfg, events[i], Added(cfg, i + 1))
  {
    var cfg := Config(checksum, |before| % TWO_TO_32, step);
    var pieces := Pieces(cfg, events, 0);
    OutputIsPieces(cfg, events, 0);
    PieceStarts(cfg, events, 0, i);
    PieceStarts(cfg, events, 0, i + 1);
    assert Written(checksum, step, before, events) == before + Concat(pieces);
    assert pieces[i] == Logged(cfg, events[i], Added(cfg, i + 1));
    assert Offset(checksum, before, events, i) == |before| + StartInCache(pieces, i);
    assert Offset(checksum, before, events, i + 1) == |before| + StartInCache(pieces, i + 1);
    PieceInLog(before, pieces, i);
  }

  lemma LengthField(cfg: Config, e: Event, inc: nat)
    requires WellFormed(e)
    ensures FromLE(Logged(cfg, e, inc)[LEN_AT..POS_AT]) == |e| + Grow(cfg)
  {
    FixedLength(cfg, e, inc);
    assert Logged(cfg, e, inc)[LEN_AT..POS_AT] == FixHeader(cfg, e[..HEADER_LEN], inc)[LEN_AT..POS_AT];
  }

  lemma ChecksumField(cfg: Config, e: Event, inc: nat)
    requires WellFormed(e) && cfg.checksum
    ensures var r := Logged(cfg, e, inc);
            |r| == |e| + CHECKSUM_LEN && r[|e|..] == ToLE(Checksum(cfg.step, 0, r[..|e|]), CHECKSUM_LEN)
  {
    var f := Fixed(cfg, e, inc);
    assert (f + Trailer(cfg, 0, f))[..|e|] == f;
  }

  /**
    An event in the log that ends at offset `end` says so: its position field is `end`, as far as
    32 bits can tell; its length field is the number of bytes it takes; its checksum covers exactly
    the bytes before the checksum.
   */
  ghost predicate Truthful(checksum: bool, step: (Crc, byte) -> Crc, r: seq<byte>, end: nat) {
    && HEADER_LEN + (if checksum then CHECKSUM_LEN else 0) <= |r|
    && FromLE(r[POS_AT..FLAGS_AT]) == end % TWO_TO_32
    && FromLE(r[LEN_AT..POS_AT]) == |r|
    && (checksum ==> r[|r| - CHECKSUM_LEN..] == ToLE(Checksum(step, 0, r[..|r| - CHECKSUM_LEN]), CHECKSUM_LEN))
  }

  lemma LoggedTruthful(cfg: Config, e: Event, inc: nat, end: nat)
    requires WellFormed(e) && (FromLE(e[POS_AT..FLAGS_AT]) + cfg.group + inc) % TWO_TO_32 == end % TWO_TO_32
    ensures Truthful(cfg.checksum, cfg.step, Logged(cfg, e, inc), end)
  {
    PositionField(cfg, e, inc);
    LengthField(cfg, e, inc);
    if cfg.checksum {
      ChecksumField(cfg, e, inc);
    }
  }

  lemma WrappedSum(a: nat, b: nat, c: nat)
    ensures (a % TWO_TO_32 + b % TWO_TO_32 + c) % TWO_TO_32 == (b + a + c) % TWO_TO_32
  {
  }

  /** Every event in the log is truthful, the checksums of all events before it counted. */
  lemma EveryEventTruthful(checksum: bool, step: (Crc, byte) -> Crc, before: seq<byte>, events: seq<Event>, i: nat)
    requires AllWellFormed(events) && RelativePositions(events) && i < |events|
    ensures var start, end := Offset(checksum, before, events, i), Offset(checksum, before, events, i + 1);
            && start <= end <= |Written(checksum, step, before, events)|
            && Truthful(checksum, step, Written(checksum, step, before, events)[start..end], end)
  {
    var cfg := Config(checksum, |before| % TWO_TO_32, step);
    EventInLog(checksum, step, before, events, i);
    WrappedSum(StartInCache(events, i + 1), |before|, Added(cfg, i + 1));
    LoggedTruthful(cfg, events[i], Added(cfg, i + 1), Offset(checksum, before, events, i + 1));
  }

  // ---------------------------------------------------------------- nothing is lost

  /** Undo the writer: drop the checksum, give the header its cached length and position back. */
  function Restored(cfg: Config, r: seq<byte>, inc: nat): Event
    requires HEADER_LEN + Grow(cfg) <= |r|
  {
    var e := r[..|r| - Grow(cfg)];
    e[..LEN_AT] + ToLE(|e|, 4) + ToLE((FromLE(e[POS_AT..FLAGS_AT]) - cfg.group - inc) % TWO_TO_32, 4) + e[FLAGS_AT..]
  }

  /** The cache can be read back from the log, event by event. */
  lemma WriteThenRestore(checksum: bool, step: (Crc, byte) -> Crc, before: seq<byte>, events: seq<Event>, i: nat)
    requires AllWellFormed(events) && i < |events|
    ensures var cfg := Config(checksum, |before| % TWO_TO_32, step);
            var start, end := Offset(checksum, before, events, i), Offset(checksum, before, events, i + 1);
            && start + HEADER_LEN + Grow(cfg) <= end <= |Written(checksum, step, before, events)|
            && Restored(cfg, Written(checksum, step, before, events)[start..end], Added(cfg, i + 1)) == events[i]
  {
    var cfg := Config(checksum, |before| % TWO_TO_32, step);
    EventInLog(checksum, step, before, events, i);
    RestoredLogged(cfg, events[i], Added(cfg, i + 1));
  }

  lemma RestoredLogged(cfg: Config, e: Event, inc: nat)
    requires WellFormed(e)
    ensures |Logged(cfg, e, inc)| == |e| + Grow(cfg) && Restored(cfg, Logged(cfg, e, inc), inc) == e
  {
    var r, f := Logged(cfg, e, inc), Fixed(cfg, e, inc);
    assert r[..|e|] == f;
    PositionField(cfg, e, inc);
    assert r[POS_AT..FLAGS_AT] == f[POS_AT..FLAGS_AT];
    var p := FromLE(e[POS_AT..FLAGS_AT]);
    Power256Of4();
    assert ((p + cfg.group + inc) % TWO_TO_32 - cfg.group - inc) % TWO_TO_32 == p;
    ToFromLE(e[POS_AT..FLAGS_AT]);
    ToFromLE(e[LEN_AT..POS_AT]);
    assert f[..LEN_AT] == e[..LEN_AT] && f[FLAGS_AT..] == e[FLAGS_AT..];
    assert e == e[..LEN_AT] + e[LEN_AT..POS_AT] + e[POS_AT..FLAGS_AT] + e[FLAGS_AT..];
  }
}
