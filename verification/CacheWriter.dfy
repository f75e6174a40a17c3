/**
  `MYSQL_BIN_LOG::do_write_cache`: copy a transaction cache to the binary log, buffer by buffer,
  fixing event headers in place, also those split between two buffers.
 */
module CacheWriter {
  import opened Bytes
  import opened CacheFormat
  import opened CacheSteps

  function U32(x: int): nat {
    x % TWO_TO_32
  }

  /** memcpy. */
  method Store(buf: array<byte>, at: nat, bytes: seq<byte>)
    requires at + |bytes| <= buf.Length
    modifies buf
    ensures buf[..] == Put(old(buf[..]), at, bytes)
  {
    for k := 0 to |bytes|
      invariant buf[..] == Put(old(buf[..]), at, bytes[..k])
    {
      PutOneMore(old(buf[..]), at, bytes, k);
      buf[at + k] := bytes[k];
    }
    assert bytes[..|bytes|] == bytes;
  }

  lemma PutOneMore(s: seq<byte>, at: nat, bytes: seq<byte>, k: nat)
    requires k < |bytes| && at + |bytes| <= |s|
    ensures Put(s, at, bytes[..k + 1]) == Put(s, at, bytes[..k])[at + k := bytes[k]]
  {
  }

  lemma PutWithin(p: seq<byte>, h: seq<byte>, q: seq<byte>, k: nat, b: seq<byte>)
    requires k + |b| <= |h|
    ensures Put(p + h + q, |p| + k, b) == p + Put(h, k, b) + q
  {
    assert (p + h + q)[..|p| + k] == p + h[..k];
    assert (p + h + q)[|p| + k + |b|..] == h[k + |b|..] + q;
  }

  lemma FixHeaderIsPuts(cfg: Config, h: seq<byte>, inc: nat)
    requires |h| == HEADER_LEN
    ensures var moved := Put(h, POS_AT, ToLE(FromLE(h[POS_AT..FLAGS_AT]) + cfg.group + inc, 4));
            var len := ToLE(FromLE(h[LEN_AT..POS_AT]) + CHECKSUM_LEN, 4);
            FixHeader(cfg, h, inc) == if cfg.checksum then Put(moved, LEN_AT, len) else moved
  {
  }

  lemma FieldsPut(cfg: Config, s: seq<byte>, at: nat, inc: nat, f: seq<byte>, pos: seq<byte>, len: seq<byte>)
    requires at + HEADER_LEN <= |s| && f == FixHeader(cfg, s[at..at + HEADER_LEN], inc)
    requires pos == ToLE(FromLE(s[at + POS_AT..at + FLAGS_AT]) + cfg.group + inc, 4)
    requires len == ToLE(FromLE(s[at + LEN_AT..at + POS_AT]) + CHECKSUM_LEN, 4)
    ensures var moved := Put(s, at + POS_AT, pos);
            Put(s, at, f) == if cfg.checksum then Put(moved, at + LEN_AT, len) else moved
  {
    var h := s[at..at + HEADER_LEN];
    SliceOfSlice(s, at, at + HEADER_LEN, LEN_AT, POS_AT);
    SliceOfSlice(s, at, at + HEADER_LEN, POS_AT, FLAGS_AT);
    FixHeaderIsPuts(cfg, h, inc);
    assert s == s[..at] + h + s[at + HEADER_LEN..];
    BothPut(s[..at], h, s[at + HEADER_LEN..], pos, len, f, cfg.checksum);
  }

  lemma BothPut(p: seq<byte>, h: seq<byte>, q: seq<byte>, pos: seq<byte>, len: seq<byte>, f: seq<byte>, both: bool)
    requires |h| == |f| == HEADER_LEN && |pos| == |len| == 4
    requires f == if both then Put(Put(h, POS_AT, pos), LEN_AT, len) else Put(h, POS_AT, pos)
    ensures var moved := Put(p + h + q, |p| + POS_AT, pos);
            Put(p + h + q, |p|, f) == if both then Put(moved, |p| + LEN_AT, len) else moved
  {
    PutWithin(p, h, q, POS_AT, pos);
    PutWithin(p, Put(h, POS_AT, pos), q, LEN_AT, len);
    PutWithin(p, h, q, 0, f);
    assert Put(h, 0, f) == f;
  }

  lemma SliceOfSlice(s: seq<byte>, i: nat, j: nat, a: nat, b: nat)
    requires i <= j <= |s| && a <= b <= j - i
    ensures s[i..j][a..b] == s[i + a..i + b]
  {
    var x, y := s[i..j][a..b], s[i + a..i + b];
    assert |x| == |y| && forall k :: 0 <= k < |x| ==> x[k] == y[k];
  }

  /** Fix a header that came in one piece, in place. */
  method PatchHeader(cfg: Config, buf: array<byte>, at: nat, inc: nat) returns (eventLen: nat, ghost h: seq<byte>)
    requires at + HEADER_LEN <= buf.Length
    modifies buf
    ensures h == FixHeader(cfg, old(buf[..])[at..at + HEADER_LEN], inc) && buf[..] == Put(old(buf[..]), at, h)
    ensures eventLen == FromLE(old(buf[..])[at + LEN_AT..at + POS_AT])
  {
    h := FixHeader(cfg, buf[..][at..at + HEADER_LEN], inc);
    assert buf[..][at + LEN_AT..at + POS_AT] == buf[at + LEN_AT..at + POS_AT];
    assert buf[..][at + POS_AT..at + FLAGS_AT] == buf[at + POS_AT..at + FLAGS_AT];
    eventLen := FromLE(buf[at + LEN_AT..at + POS_AT]);
    var val := FromLE(buf[at + POS_AT..at + FLAGS_AT]) + cfg.group + inc;
    FieldsPut(cfg, buf[..], at, inc, h, ToLE(val, 4), ToLE(eventLen + CHECKSUM_LEN, 4));
    Store(buf, at + POS_AT, ToLE(val, 4));
    if cfg.checksum {
      Store(buf, at + LEN_AT, ToLE(eventLen + CHECKSUM_LEN, 4));
    }
  }

  lemma NextHeader(buf: seq<byte>, rest: seq<byte>, at: nat, todo: seq<Event>)
    requires at + HEADER_LEN <= |buf| && AllWellFormed(todo) && buf[at..] + rest == Concat(todo)
    ensures todo != [] && buf[at..at + HEADER_LEN] == todo[0][..HEADER_LEN]
    ensures FromLE(buf[at + LEN_AT..at + POS_AT]) == |todo[0]|
  {
    assert buf[at..] + rest == buf[at..at + HEADER_LEN] + (buf[at + HEADER_LEN..] + rest);
    FirstOf(buf[at..] + rest, todo);
    CutAcross(buf[at..at + HEADER_LEN], buf[at + HEADER_LEN..] + rest, todo[0], Concat(todo[1..]));
    SliceOfSlice(buf, at, at + HEADER_LEN, LEN_AT, POS_AT);
    SliceOfSlice(todo[0], 0, HEADER_LEN, LEN_AT, POS_AT);
  }

  lemma NextFixed(cfg: Config, c: Cursor, buf: seq<byte>, rest: seq<byte>, h: seq<byte>)
    requires Inside(cfg, c, buf, rest) && c.hdrOffs + HEADER_LEN <= |buf|
    requires h == FixHeader(cfg, buf[c.hdrOffs..c.hdrOffs + HEADER_LEN], c.inc + Grow(cfg))
    ensures Fixes(cfg, c, h, c.inc + Grow(cfg))
    ensures FromLE(buf[c.hdrOffs + LEN_AT..c.hdrOffs + POS_AT]) == |c.todo[0]|
  {
    NextHeader(buf, rest, c.hdrOffs, c.todo);
    FixesNext(cfg, c);
  }

  /** One run of `do_write_cache`: its local variables and the log file. */
  class Writer {
    const cfg: Config
    ghost const bound: nat      // no buffer is longer
    var log: seq<byte>
    var hdrOffs: nat            // where the next header starts, from the start of the buffer
    var header: seq<byte>       // the `carry` bytes of a split header
    var remains: nat            // bytes of the current event still to be checksummed
    var crc: Crc
    var inc: nat                // end_log_pos_inc
    ghost var todo: seq<Event>  // events whose headers have not been processed

    constructor (cfg: Config, log: seq<byte>, ghost events: seq<Event>, ghost bound: nat)
      ensures this.bound == bound && this.cfg == cfg && this.log == log && View() == Cursor(0, [], 0, 0, 0, events)
    {
      this.cfg, this.log := cfg, log;
      this.bound := bound;
      hdrOffs, header, remains, crc, inc := 0, [], 0, 0, 0;
      todo := events;
    }

    ghost function View(): Cursor
      reads this
    {
      Cursor(hdrOffs, header, remains, crc, inc, todo)
    }

    /** Put the two parts of a split header together and fix it. */
    method JoinHeader(buf: array<byte>, ghost rest: seq<byte>) returns (full: seq<byte>)
      requires Split(cfg, View(), buf[..] + rest) && HEADER_LEN <= |header| + buf.Length
      modifies this`inc
      ensures inc == old(inc) + Grow(cfg)
      ensures Fixes(cfg, old(View()), full, inc)
      ensures FromLE(full[LEN_AT..POS_AT]) == |todo[0]| + Grow(cfg)
    {
      ghost var c := View();
      full := header + buf[..HEADER_LEN - |header|];
      assert full == todo[0][..HEADER_LEN] by {
        FirstOf(header + (buf[..] + rest), todo);
      }
      inc := inc + Grow(cfg);
      FixedLength(cfg, todo[0], inc);
      FixesNext(cfg, c);
      full := FixHeader(cfg, full, inc);
    }

    /** The second part of a split header is in `buf`. */
    method AssembleHeader(buf: array<byte>, ghost rest: seq<byte>, ghost goal: seq<byte>)
      requires header != [] && Ready(cfg, log, View(), buf[..] + rest, goal)
      requires HEADER_LEN <= |header| + buf.Length && buf.Length <= bound && Fits(todo, bound)
      modifies this, buf
      ensures header == [] && Ready(cfg, log, View(), buf[..] + rest, goal) && Fits(todo, bound)
    {
      ghost var c := View();
      assert crc == 0 && remains == 0;
      var carry := |header|;
      var full := JoinHeader(buf, rest);
      var left := U32(FromLE(full[LEN_AT..POS_AT]) - carry - Grow(cfg));
      assert left == |todo[0]| - carry;
      ghost var b := Put(buf[..], 0, full[carry..]);
      ghost var d := Within(cfg, left, left, full[..carry], inc, todo[1..]);
      Assemble(cfg, log, c, buf[..], rest, goal, full, carry, d, b);
      log := log + full[..carry];
      Store(buf, 0, full[carry..]);
      hdrOffs := left;
      if cfg.checksum {
        crc := Checksum(cfg.step, crc, full[..carry]);
        remains := left;
      }
      header := [];
      todo := todo[1..];
      assert buf[..] == b && View() == d;
    }

    /** No header starts in this buffer: checksum and write all of it. */
    method PassBuffer(buf: array<byte>, ghost rest: seq<byte>, ghost goal: seq<byte>)
      requires header == [] && Ready(cfg, log, View(), buf[..] + rest, goal)
      requires cfg.checksum && 0 < buf.Length <= hdrOffs
      modifies this`log, this`remains, this`crc
      ensures At(cfg, log, View(), buf[..], rest, goal)
    {
      ghost var c := View();
      assert remains == hdrOffs;
      crc := Checksum(cfg.step, crc, buf[..]);
      remains := remains - buf.Length;
      log := log + buf[..];
      if remains == 0 {
        log := log + ToLE(crc, CHECKSUM_LEN);
        crc := 0;
      }
      PartDone(cfg, old(log), c, buf[..], rest, goal, View(), log);
    }

    /** The rest of the event before ends where the next header starts. */
    method FinishBefore(buf: array<byte>, ghost rest: seq<byte>, ghost goal: seq<byte>)
      requires header == [] && Ready(cfg, log, View(), buf[..] + rest, goal)
      requires remains != 0 && hdrOffs < buf.Length
      modifies this`log, this`remains, this`crc
      ensures remains == 0 && At(cfg, log, View(), buf[..], rest, goal)
    {
      FinishEvent(cfg, log, View(), buf[..], rest, goal);
      assert buf[..][..hdrOffs] == buf[..hdrOffs];
      crc := Checksum(cfg.step, crc, buf[..hdrOffs]);
      remains := remains - hdrOffs;
      log := log + buf[..hdrOffs] + ToLE(crc, CHECKSUM_LEN);
      crc := 0;
    }

    /** A header that came in one piece, fixed in place. */
    method FixInPlace(buf: array<byte>, ghost rest: seq<byte>) returns (eventLen: nat, ghost h: seq<byte>)
      requires hdrOffs + HEADER_LEN <= buf.Length && Inside(cfg, View(), buf[..], rest)
      modifies this`inc, buf
      ensures inc == old(inc) + Grow(cfg)
      ensures Fixes(cfg, old(View()), h, inc)
      ensures buf[..] == Put(old(buf[..]), hdrOffs, h) && eventLen == |todo[0]|
    {
      ghost var c, b := View(), buf[..];
      inc := inc + Grow(cfg);
      eventLen, h := PatchHeader(cfg, buf, hdrOffs, inc);
      NextFixed(cfg, c, b, rest, h);
    }

    /** `fix_log_event_crc`, and writing what this buffer holds of the event at `at`. */
    method LogEvent(buf: array<byte>, at: nat, next: nat)
      requires cfg.checksum && at <= buf.Length && at <= next
      modifies this`log, this`remains, this`crc
      ensures next <= buf.Length ==>
                && remains == 0 && crc == 0
                && var ev := buf[..][at..next];
                   log == old(log) + ev + ToLE(Checksum(cfg.step, old(crc), ev), CHECKSUM_LEN)
      ensures buf.Length < next ==>
                && remains == next - buf.Length && crc == Checksum(cfg.step, old(crc), buf[..][at..])
                && log == old(log) + buf[..][at..]
    {
      remains := if next <= buf.Length then 0 else next - buf.Length;
      assert buf[at..next - remains] == if remains == 0 then buf[..][at..next] else buf[..][at..];
      crc := Checksum(cfg.step, crc, buf[at..next - remains]);
      log := log + buf[at..if remains == 0 then next else buf.Length];
      if remains == 0 {
        log := log + ToLE(crc, CHECKSUM_LEN);
        crc := 0;
      }
    }

    /** Process a header that came in one piece. */
    method FullHeader(buf: array<byte>, ghost rest: seq<byte>, ghost goal: seq<byte>)
      requires hdrOffs + HEADER_LEN <= buf.Length && At(cfg, log, View(), buf[..], rest, goal)
      requires buf.Length <= bound && Fits(todo, bound)
      modifies this, buf
      ensures At(cfg, log, View(), buf[..], rest, goal) && Fits(todo, bound)
      ensures old(hdrOffs) < hdrOffs
    {
      ghost var c, b := View(), buf[..];
      assert crc == 0 && remains == 0;
      var eventLen, h := FixInPlace(buf, rest);
      var next := U32(hdrOffs + eventLen);
      assert next == hdrOffs + eventLen;
      if cfg.checksum {
        LogEvent(buf, hdrOffs, next);
      }
      hdrOffs := next;
      todo := todo[1..];
      ghost var d, now := View(), buf[..];
      assert d.inc == c.inc + Grow(cfg) && d.todo == c.todo[1..] && d.header == [];
      HeaderDone(cfg, old(log), c, b, rest, goal, h, d, now, log);
    }

    /** Process every header that starts in this buffer; the result is how much of it is dealt with. */
    method ProcessHeaders(buf: array<byte>, ghost rest: seq<byte>, ghost goal: seq<byte>) returns (length: nat)
      requires header == [] && buf.Length <= bound && Fits(todo, bound)
      requires if hdrOffs < buf.Length then Ready(cfg, log, View(), buf[..] + rest, goal)
               else At(cfg, log, View(), buf[..], rest, goal)
      modifies this, buf
      ensures length <= hdrOffs && length <= buf.Length && Fits(todo, bound)
      ensures if header == [] then length == buf.Length && At(cfg, log, View(), buf[..], rest, goal)
              else Saved(cfg, log, View(), buf[..length], rest, goal)
    {
      length := buf.Length;
      if hdrOffs < length && remains == 0 {
        EnterAtHeader(cfg, log, View(), buf[..], rest, goal);
      }
      while hdrOffs < length
        invariant Fits(todo, bound) && (header == [] ==> length == buf.Length)
        invariant header == [] && hdrOffs < length && remains != 0 ==> Ready(cfg, log, View(), buf[..] + rest, goal)
        invariant header == [] && !(hdrOffs < length && remains != 0) ==> At(cfg, log, View(), buf[..], rest, goal)
        invariant header != [] ==> length == hdrOffs <= buf.Length && Saved(cfg, log, View(), buf[..length], rest, goal)
        decreases length - hdrOffs
      {
        if cfg.checksum {
          if remains != 0 {
            FinishBefore(buf, rest, goal);
          }
        }
        if hdrOffs + HEADER_LEN > length {
          Save(cfg, log, View(), buf[..], rest, goal);
          assert buf[..][hdrOffs..] == buf[hdrOffs..] && buf[..][..hdrOffs] == buf[..hdrOffs];
          header := buf[hdrOffs..];
          length := hdrOffs;
        } else {
          FullHeader(buf, rest, goal);
        }
      }
    }

    method Enter(buf: array<byte>, ghost rest: seq<byte>, ghost goal: seq<byte>)
      requires header == [] && Ready(cfg, log, View(), buf[..] + rest, goal) && 0 < buf.Length
      modifies this`log, this`remains, this`crc
      ensures if hdrOffs < buf.Length then Ready(cfg, log, View(), buf[..] + rest, goal)
              else At(cfg, log, View(), buf[..], rest, goal)
    {
      if cfg.checksum && hdrOffs >= buf.Length {
        PassBuffer(buf, rest, goal);
      } else if hdrOffs >= buf.Length {
        EnterPlain(cfg, log, View(), buf[..], rest, goal);
      }
    }

    /** Deal with a buffer; without checksums, the first `length` bytes of it are left to write. */
    method Consume(buf: array<byte>, ghost rest: seq<byte>, ghost goal: seq<byte>) returns (length: nat)
      requires header == [] && Ready(cfg, log, View(), buf[..] + rest, goal) && buf.Length <= bound && Fits(todo, bound)
      requires 0 < buf.Length
      modifies this, buf
      ensures length <= buf.Length && Ready(cfg, log + Held(cfg, buf[..length]), View(), rest, goal)
      ensures Fits(todo, bound)
    {
      Enter(buf, rest, goal);
      length := ProcessHeaders(buf, rest, goal);
      assert buf[..][..length] == buf[..length];
      LeaveBuffer(cfg, log, View(), buf[..], length, rest, goal);
      hdrOffs := hdrOffs - length;
    }

    /** One turn of the outer loop. */
    method WriteBuffer(buf: array<byte>, ghost rest: seq<byte>, ghost goal: seq<byte>)
      requires Ready(cfg, log, View(), buf[..] + rest, goal) && buf.Length <= bound && Fits(todo, bound)
      requires header != [] ==> HEADER_LEN <= |header| + buf.Length
      modifies this, buf
      ensures Ready(cfg, log, View(), rest, goal) && Fits(todo, bound)
    {
      if header != [] {
        AssembleHeader(buf, rest, goal);
      }
      var length := buf.Length;
      if length > 0 {
        length := Consume(buf, rest, goal);
      } else {
        assert buf[..] + rest == rest;
        assert log + Held(cfg, buf[..length]) == log;
      }
      if !cfg.checksum {
        log := log + buf[..length];
      } else {
        assert log + [] == log;
      }
    }
  }

  /** At the end of the cache nothing is carried over, and nothing is due. */
  lemma AtTheEnd(cfg: Config, log: seq<byte>, c: Cursor, goal: seq<byte>)
    requires Ready(cfg, log, c, [], goal)
    ensures c.header == [] && c.remains == 0 && c.crc == 0 && log == goal
  {
    if c.todo != [] && c.header != [] {
      FirstOf(c.header + [], c.todo);
    }
  }

  /** A split header is completed by the next buffer, if that is the last one or not too short. */
  lemma Completes(cfg: Config, log: seq<byte>, c: Cursor, buffers: seq<seq<byte>>, goal: seq<byte>)
    requires buffers != [] && Ready(cfg, log, c, Concat(buffers), goal) && c.header != []
    requires |buffers| > 1 ==> HEADER_LEN - 1 <= |buffers[0]|
    ensures HEADER_LEN <= |c.header| + |buffers[0]|
  {
    FirstOf(c.header + Concat(buffers), c.todo);
    if |buffers| == 1 {
      assert Concat(buffers) == buffers[0] + Concat([]) == buffers[0];
    }
  }

  /** The cache comes as `buffers`, cut anywhere, also within headers. */
  method DoWriteCache(checksum: bool, step: (Crc, byte) -> Crc, before: seq<byte>, buffers: seq<seq<byte>>,
                      ghost events: seq<Event>, ghost bound: nat)
    returns (log: seq<byte>)
    requires AllWellFormed(events) && Fits(events, bound) && Concat(buffers) == Concat(events)
    requires forall i :: 0 <= i < |buffers| ==> |buffers[i]| <= bound
    requires forall i :: 0 < i < |buffers| - 1 ==> HEADER_LEN - 1 <= |buffers[i]|
    ensures log == before + Output(Config(checksum, U32(|before|), step), events, 0)
  {
    ghost var goal := before + Output(Config(checksum, U32(|before|), step), events, 0);
    var w := new Writer(Config(checksum, U32(|before|), step), before, events, bound);
    AtTheStart(w.cfg, before, events);
    var i := 0;
    assert buffers[0..] == buffers;
    while i < |buffers|
      invariant 0 <= i <= |buffers| && fresh(w)
      invariant Ready(w.cfg, w.log, w.View(), Concat(buffers[i..]), goal) && Fits(w.todo, w.bound)
      invariant w.bound == bound && (i == 0 ==> w.header == [])
    {
      WriteNext(w, buffers, i, goal);
      i := i + 1;
    }
    AtTheEnd(w.cfg, w.log, w.View(), goal);
    assert w.header == [] && w.remains == 0 && w.crc == 0;
    log := w.log;
  }

  lemma AtTheStart(cfg: Config, before: seq<byte>, events: seq<Event>)
    requires AllWellFormed(events)
    ensures Ready(cfg, before, Cursor(0, [], 0, 0, 0, events), Concat(events), before + Output(cfg, events, 0))
  {
    Nothing(Output(cfg, events, 0));
  }

  /** Fill the buffer and write it. */
  method WriteNext(w: Writer, buffers: seq<seq<byte>>, i: nat, ghost goal: seq<byte>)
    requires i < |buffers| && |buffers[i]| <= w.bound && Fits(w.todo, w.bound)
    requires i == 0 ==> w.header == []
    requires 0 < i < |buffers| - 1 ==> HEADER_LEN - 1 <= |buffers[i]|
    requires Ready(w.cfg, w.log, w.View(), Concat(buffers[i..]), goal)
    modifies w
    ensures Ready(w.cfg, w.log, w.View(), Concat(buffers[i + 1..]), goal) && Fits(w.todo, w.bound)
  {
    assert buffers[i..][0] == buffers[i] && buffers[i..][1..] == buffers[i + 1..];
    if w.header != [] {
      Completes(w.cfg, w.log, w.View(), buffers[i..], goal);
    }
    var buf := new byte[|buffers[i]|](k requires 0 <= k < |buffers[i]| => buffers[i][k]);
    assert buf[..] == buffers[i];
    w.WriteBuffer(buf, Concat(buffers[i + 1..]), goal);
  }
}
