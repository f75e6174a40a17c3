/**
  What `MYSQL_BIN_LOG::do_write_cache` has to write: every event of the transaction cache with its
  length and end position fixed, and a checksum appended when checksums are on.
 */
module CacheFormat {
  import opened Bytes

  const HEADER_LEN := 19
  const LEN_AT := 9
  const POS_AT := 13
  const FLAGS_AT := 17
  const CHECKSUM_LEN := 4

  type Crc = x: int | 0 <= x < TWO_TO_32

  type Event = seq<byte>

  /** `group` is the log position at which the cache is written; `step` folds a byte into a checksum. */
  datatype Config = Config(checksum: bool, group: nat, step: (Crc, byte) -> Crc)

  /** `my_checksum`. */
  function Checksum(step: (Crc, byte) -> Crc, c: Crc, s: seq<byte>): Crc
    decreases |s|
  {
    if s == [] then c else Checksum(step, step(c, s[0]), s[1..])
  }

  lemma {:induction false} ChecksumOfSum(step: (Crc, byte) -> Crc, c: Crc, a: seq<byte>, b: seq<byte>)
    ensures Checksum(step, c, a + b) == Checksum(step, Checksum(step, c, a), b)
    decreases |a|
  {
    if a == [] {
      assert a + b == b;
    } else {
      assert (a + b)[1..] == a[1..] + b;
      ChecksumOfSum(step, step(c, a[0]), a[1..], b);
    }
  }

  // ---------------------------------------------------------------- what must be written

  predicate WellFormed(e: Event) {
    && HEADER_LEN <= |e| && |e| + CHECKSUM_LEN < TWO_TO_32
    && FromLE(e[LEN_AT..POS_AT]) == |e|
  }

  predicate AllWellFormed(events: seq<Event>) {
    forall i :: 0 <= i < |events| ==> WellFormed(events[i])
  }

  function Grow(cfg: Config): nat {
    if cfg.checksum then CHECKSUM_LEN else 0
  }

  /** A header with its length counting the checksum and its position moved to the log's. */
  function FixHeader(cfg: Config, h: seq<byte>, inc: nat): (r: seq<byte>)
    requires |h| == HEADER_LEN
    ensures |r| == HEADER_LEN
  {
    h[..LEN_AT]
    + (if cfg.checksum then ToLE(FromLE(h[LEN_AT..POS_AT]) + CHECKSUM_LEN, 4) else h[LEN_AT..POS_AT])
    + ToLE(FromLE(h[POS_AT..FLAGS_AT]) + cfg.group + inc, 4)
    + h[FLAGS_AT..]
  }

  function Fixed(cfg: Config, e: Event, inc: nat): (r: seq<byte>)
    requires HEADER_LEN <= |e|
    ensures |r| == |e|
  {
    FixHeader(cfg, e[..HEADER_LEN], inc) + e[HEADER_LEN..]
  }

  function Trailer(cfg: Config, crc: Crc, s: seq<byte>): seq<byte> {
    if cfg.checksum then ToLE(Checksum(cfg.step, crc, s), CHECKSUM_LEN) else []
  }

  /** One event as it stands in the log. */
  function Logged(cfg: Config, e: Event, inc: nat): (r: seq<byte>)
    requires HEADER_LEN <= |e|
    ensures |r| == |e| + Grow(cfg)
  {
    var f := Fixed(cfg, e, inc);
    f + Trailer(cfg, 0, f)
  }

  /** Every event in turn; each one moves the later positions by its checksum's length. */
  function Output(cfg: Config, events: seq<Event>, inc: nat): seq<byte>
    requires AllWellFormed(events)
  {
    if events == [] then []
    else Logged(cfg, events[0], inc + Grow(cfg)) + Output(cfg, events[1..], inc + Grow(cfg))
  }

  /** The rest `s` of an event whose checksum so far is `crc`. */
  function Finish(cfg: Config, crc: Crc, s: seq<byte>): seq<byte> {
    if s == [] then [] else s + Trailer(cfg, crc, s)
  }

  lemma FixedLength(cfg: Config, e: Event, inc: nat)
    requires WellFormed(e)
    ensures FromLE(FixHeader(cfg, e[..HEADER_LEN], inc)[LEN_AT..POS_AT]) == |e| + Grow(cfg)
  {
    var h := e[..HEADER_LEN];
    assert h[LEN_AT..POS_AT] == e[LEN_AT..POS_AT];
    if cfg.checksum {
      FromToLE(|e| + CHECKSUM_LEN, 4);
      Power256Of4();
      assert FixHeader(cfg, h, inc)[LEN_AT..POS_AT] == ToLE(|e| + CHECKSUM_LEN, 4);
    } else {
      assert FixHeader(cfg, h, inc)[LEN_AT..POS_AT] == h[LEN_AT..POS_AT];
    }
  }
}
