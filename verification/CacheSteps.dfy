/** What one step of the cache writer does to the bytes written and the bytes still due. */
module CacheSteps {
  import opened Bytes
  import opened CacheFormat

  lemma Assoc(a: seq<byte>, b: seq<byte>, c: seq<byte>)
    ensures (a + b) + c == a + (b + c)
  {
  }

  lemma PartFinished(cfg: Config, crc: Crc, a: seq<byte>, b: seq<byte>, later: seq<byte>)
    requires b != []
    ensures Finish(cfg, crc, a + b) + later == a + (Finish(cfg, Checksum(cfg.step, crc, a), b) + later)
  {
    ChecksumOfSum(cfg.step, crc, a, b);
    var t := Trailer(cfg, Checksum(cfg.step, crc, a), b);
    Assoc(a, b, t);
    Assoc(a, b + t, later);
  }

  /** The first event of a stream of events. */
  lemma FirstOf(s: seq<byte>, events: seq<Event>)
    requires s != [] && s == Concat(events)
    ensures events != [] && |events[0]| <= |s|
    ensures s[..|events[0]|] == events[0] && s[|events[0]|..] == Concat(events[1..])
    ensures s == events[0] + Concat(events[1..])
  {
  }

  // ---------------------------------------------------------------- the writer

  function Put(s: seq<byte>, at: nat, bytes: seq<byte>): (r: seq<byte>)
    requires at + |bytes| <= |s|
    ensures |r| == |s|
  {
    s[..at] + bytes + s[at + |bytes|..]
  }

  lemma DropSum(a: seq<byte>, b: seq<byte>, k: nat)
    requires k <= |a|
    ensures (a + b)[k..] == a[k..] + b
  {
  }

  lemma TwoParts(a: seq<byte>, b: seq<byte>)
    ensures (a + b)[..|a|] == a && (a + b)[|a|..] == b
  {
  }

  /** A split header, put together: its first part came with the buffer before.  `h` replaces it. */
  lemma Assembled(header: seq<byte>, buf: seq<byte>, rest: seq<byte>, todo: seq<Event>, h: seq<byte>)
    requires 0 < |header| < HEADER_LEN <= |header| + |buf| && |h| == HEADER_LEN
    requires AllWellFormed(todo) && header + (buf + rest) == Concat(todo)
    ensures todo != [] && header + buf[..HEADER_LEN - |header|] == todo[0][..HEADER_LEN]
    ensures var c, f := |header|, h + todo[0][HEADER_LEN..];
            f[..c] == h[..c] && Put(buf, 0, h[c..]) + rest == f[c..] + Concat(todo[1..])
  {
    var c := |header|;
    FirstOf(header + (buf + rest), todo);
    var e, tail := todo[0], Concat(todo[1..]);
    Halves(header, buf, rest, e, tail);
    DropSum(h, e[HEADER_LEN..], c);
    PutAtStart(buf, h[c..], rest);
    Assoc(h[c..], e[HEADER_LEN..], tail);
    assert (h + e[HEADER_LEN..])[..c] == h[..c];
  }

  lemma Halves(header: seq<byte>, buf: seq<byte>, rest: seq<byte>, e: seq<byte>, tail: seq<byte>)
    requires |header| <= HEADER_LEN <= |header| + |buf| && HEADER_LEN <= |e|
    requires header + (buf + rest) == e + tail
    ensures var k := HEADER_LEN - |header|;
            header + buf[..k] == e[..HEADER_LEN] && buf[k..] + rest == e[HEADER_LEN..] + tail
  {
    var s, k := header + (buf + rest), HEADER_LEN - |header|;
    assert s[..HEADER_LEN] == header + buf[..k] && s[HEADER_LEN..] == buf[k..] + rest;
    DropSum(e, tail, HEADER_LEN);
    assert (e + tail)[..HEADER_LEN] == e[..HEADER_LEN];
  }

  lemma PutAtStart(buf: seq<byte>, a: seq<byte>, rest: seq<byte>)
    requires |a| <= |buf|
    ensures Put(buf, 0, a) + rest == a + (buf[|a|..] + rest)
  {
  }

  /** Writing the first `k` bytes of an event leaves its rest to be finished. */
  lemma Begun(cfg: Config, f: seq<byte>, k: nat, later: seq<byte>)
    requires k < |f|
    ensures var crc := if cfg.checksum then Checksum(cfg.step, 0, f[..k]) else 0;
            f + Trailer(cfg, 0, f) + later == f[..k] + (Finish(cfg, crc, f[k..]) + later)
  {
    assert f[..k] + f[k..] == f;
    PartFinished(cfg, 0, f[..k], f[k..], later);
  }

  // ---------------------------------------------------------------- the states of the writer

  /** The variables of the loop, and the events whose headers have not been processed. */
  datatype Cursor = Cursor(hdrOffs: nat, header: seq<byte>, remains: nat, crc: Crc, inc: nat, todo: seq<Event>)

  ghost predicate Checked(cfg: Config, c: Cursor, left: nat) {
    && AllWellFormed(c.todo)
    && c.remains == (if cfg.checksum then left else 0)
    && (c.remains == 0 ==> c.crc == 0)
  }

  /** Before a buffer, no header split: `s` is the unread rest of the cache. */
  ghost predicate Between(cfg: Config, c: Cursor, s: seq<byte>) {
    && c.header == [] && c.hdrOffs <= |s| && s[c.hdrOffs..] == Concat(c.todo)
    && Checked(cfg, c, c.hdrOffs)
  }

  /** Before a buffer, the first part of a header in hand. */
  ghost predicate Split(cfg: Config, c: Cursor, s: seq<byte>) {
    0 < |c.header| < HEADER_LEN && c.header + s == Concat(c.todo) && Checked(cfg, c, 0)
  }

  /** Within a buffer, all before the next header dealt with, and that header not beyond the buffer. */
  ghost predicate Inside(cfg: Config, c: Cursor, buf: seq<byte>, rest: seq<byte>) {
    && c.header == [] && c.hdrOffs <= |buf| && buf[c.hdrOffs..] + rest == Concat(c.todo)
    && Checked(cfg, c, 0)
  }

  /** Within a buffer, the next header starting `n` bytes beyond it. */
  ghost predicate Beyond(cfg: Config, c: Cursor, buf: seq<byte>, rest: seq<byte>, n: nat) {
    && c.header == [] && 0 < n <= |rest| && c.hdrOffs == |buf| + n && rest[n..] == Concat(c.todo)
    && Checked(cfg, c, n)
  }

  /** Without checksums a buffer is written as a whole, when its end is reached. */
  function Held(cfg: Config, buf: seq<byte>): seq<byte> {
    if cfg.checksum then [] else buf
  }

  /** What is still to be written: for the headers not processed, then with the rest `s` of an event. */
  ghost function Later(cfg: Config, c: Cursor): seq<byte>
    requires AllWellFormed(c.todo)
  {
    Output(cfg, c.todo, c.inc)
  }

  ghost function Due(cfg: Config, c: Cursor, s: seq<byte>): seq<byte>
    requires AllWellFormed(c.todo)
  {
    Finish(cfg, c.crc, s) + Later(cfg, c)
  }

  /** The cursor within an event of which `part` has been written and `left` bytes are left. */
  function Within(cfg: Config, hdrOffs: nat, left: nat, part: seq<byte>, inc: nat, todo: seq<Event>): Cursor {
    if cfg.checksum then Cursor(hdrOffs, [], left, Checksum(cfg.step, 0, part), inc, todo)
    else Cursor(hdrOffs, [], 0, 0, inc, todo)
  }

  /** The second part of a split header arrives: its first part is written, the buffer patched. */
  lemma AssembleStep(cfg: Config, c: Cursor, buf: seq<byte>, rest: seq<byte>, h: seq<byte>, inc: nat)
    requires Split(cfg, c, buf + rest) && HEADER_LEN <= |c.header| + |buf| && |h| == HEADER_LEN
    ensures c.todo != [] && c.header + buf[..HEADER_LEN - |c.header|] == c.todo[0][..HEADER_LEN]
    ensures var k, f := |c.header|, h + c.todo[0][HEADER_LEN..];
            var d := Within(cfg, |f| - k, |f| - k, h[..k], inc, c.todo[1..]);
            var s := Put(buf, 0, h[k..]) + rest;
            && Between(cfg, d, s)
            && f + Trailer(cfg, 0, f) + Later(cfg, d) == h[..k] + Due(cfg, d, s[..d.hdrOffs])
  {
    var k := |c.header|;
    Assembled(c.header, buf, rest, c.todo, h);
    var f := h + c.todo[0][HEADER_LEN..];
    TwoParts(f[k..], Concat(c.todo[1..]));
    Begun(cfg, f, k, Output(cfg, c.todo[1..], inc));
  }

  lemma Across(a: seq<byte>, b: seq<byte>, n: nat)
    requires n <= |b|
    ensures (a + b)[..|a| + n] == a + b[..n] && (a + b)[|a| + n..] == b[n..]
  {
  }

  /** The buffer ends with the current event: all of it is written, and the checksum. */
  lemma LastPartStep(cfg: Config, c: Cursor, buf: seq<byte>, rest: seq<byte>)
    requires Between(cfg, c, buf + rest) && cfg.checksum && 0 < |buf| == c.hdrOffs
    ensures var d := c.(remains := 0, crc := 0);
            && Inside(cfg, d, buf, rest)
            && Due(cfg, c, (buf + rest)[..c.hdrOffs]) == buf + ToLE(Checksum(cfg.step, c.crc, buf), 4) + Later(cfg, d)
  {
    TwoParts(buf, rest);
    assert buf[|buf|..] + rest == rest;
  }

  /** The buffer lies within the current event: all of it is written. */
  lemma MiddlePartStep(cfg: Config, c: Cursor, buf: seq<byte>, rest: seq<byte>, n: nat)
    requires Between(cfg, c, buf + rest) && cfg.checksum && 0 < |buf| && c.hdrOffs == |buf| + n && 0 < n
    ensures var d := c.(remains := n, crc := Checksum(cfg.step, c.crc, buf));
            Beyond(cfg, d, buf, rest, n) && Due(cfg, c, (buf + rest)[..c.hdrOffs]) == buf + Due(cfg, d, rest[..n])
  {
    Across(buf, rest, n);
    assert (buf + rest)[..c.hdrOffs] == buf + rest[..n];
    PartFinished(cfg, c.crc, buf, rest[..n], Later(cfg, c));
  }

  /** Without checksums nothing is written before the end of the buffer. */
  lemma PlainStep(cfg: Config, c: Cursor, buf: seq<byte>, rest: seq<byte>, n: nat)
    requires Between(cfg, c, buf + rest) && !cfg.checksum && c.hdrOffs == |buf| + n
    ensures if n == 0 then Inside(cfg, c, buf, rest) else Beyond(cfg, c, buf, rest, n)
    ensures Due(cfg, c, (buf + rest)[..c.hdrOffs]) == buf + Due(cfg, c, rest[..n])
  {
    Across(buf, rest, n);
    assert buf[|buf|..] + rest == rest;
  }

  /** The current event ends in this buffer, before the next header. */
  lemma FinishStep(cfg: Config, c: Cursor, buf: seq<byte>, rest: seq<byte>)
    requires Between(cfg, c, buf + rest) && c.hdrOffs < |buf|
    ensures var x, d := buf[..c.hdrOffs], c.(remains := 0, crc := 0);
            var y := if cfg.checksum && c.remains != 0 then x + ToLE(Checksum(cfg.step, c.crc, x), 4) else Held(cfg, x);
            Inside(cfg, d, buf, rest) && Due(cfg, c, (buf + rest)[..c.hdrOffs]) == y + Later(cfg, d)
  {
    assert (buf + rest)[..c.hdrOffs] == buf[..c.hdrOffs];
    DropSum(buf, rest, c.hdrOffs);
  }

  /** A header in one piece, at `at`; `h` replaces it. */
  lemma Found(buf: seq<byte>, rest: seq<byte>, at: nat, todo: seq<Event>, h: seq<byte>)
    requires at + HEADER_LEN <= |buf| && AllWellFormed(todo) && buf[at..] + rest == Concat(todo) && |h| == HEADER_LEN
    ensures todo != [] && buf[at..at + HEADER_LEN] == todo[0][..HEADER_LEN]
    ensures Put(buf, at, h)[..at] == buf[..at]
    ensures Put(buf, at, h)[at..] + rest == (h + todo[0][HEADER_LEN..]) + Concat(todo[1..])
  {
    var s := buf[at..] + rest;
    FirstOf(s, todo);
    var e, tail := todo[0], Concat(todo[1..]);
    assert e[..HEADER_LEN] == s[..HEADER_LEN] == buf[at..at + HEADER_LEN];
    DropSum(e, tail, HEADER_LEN);
    assert buf[at + HEADER_LEN..] + rest == s[HEADER_LEN..] == e[HEADER_LEN..] + tail;
    assert Put(buf, at, h)[at..] + rest == h + (buf[at + HEADER_LEN..] + rest);
    Assoc(h, e[HEADER_LEN..], tail);
  }

  /** A whole event in this buffer. */
  lemma WholeEventStep(cfg: Config, c: Cursor, buf: seq<byte>, rest: seq<byte>, h: seq<byte>, inc: nat)
    requires Inside(cfg, c, buf, rest) && c.hdrOffs + HEADER_LEN <= |buf| && |h| == HEADER_LEN
    requires c.todo != [] && c.hdrOffs + |c.todo[0]| <= |buf|
    ensures var next, b := c.hdrOffs + |c.todo[0]|, Put(buf, c.hdrOffs, h);
            && b[c.hdrOffs..next] == h + c.todo[0][HEADER_LEN..]
            && Inside(cfg, c.(hdrOffs := next, inc := inc, todo := c.todo[1..]), b, rest)
  {
    var at, b := c.hdrOffs, Put(buf, c.hdrOffs, h);
    Found(buf, rest, at, c.todo, h);
    var f := h + c.todo[0][HEADER_LEN..];
    CutAcross(f, Concat(c.todo[1..]), b[at..], rest);
    assert b[at..][..|f|] == b[at..at + |f|];
    assert b[at..][|f|..] == b[at + |f|..];
    assert Concat(c.todo[1..]) == b[at + |f|..] + rest;
  }

  /** Two ways of cutting one stream in two. */
  lemma CutAcross(a: seq<byte>, b: seq<byte>, x: seq<byte>, y: seq<byte>)
    requires a + b == x + y && |a| <= |x|
    ensures x[..|a|] == a && x[|a|..] == b[..|x| - |a|] && b[|x| - |a|..] == y
  {
    var s := a + b;
    assert x == s[..|x|] && a == s[..|a|] && b == s[|a|..] && y == s[|x|..];
  }

  /** An event that goes on after this buffer. */
  lemma FirstPartStep(cfg: Config, c: Cursor, buf: seq<byte>, rest: seq<byte>, n: nat, h: seq<byte>, inc: nat)
    requires Inside(cfg, c, buf, rest) && c.hdrOffs + HEADER_LEN <= |buf| && |h| == HEADER_LEN
    requires c.todo != [] && |buf| + n == c.hdrOffs + |c.todo[0]| && 0 < n
    ensures var f, b := h + c.todo[0][HEADER_LEN..], Put(buf, c.hdrOffs, h);
            var ev := b[c.hdrOffs..];
            var d := Within(cfg, |buf| + n, n, ev, inc, c.todo[1..]);
            && Beyond(cfg, d, b, rest, n)
            && f + Trailer(cfg, 0, f) + Later(cfg, d) == ev + Due(cfg, d, rest[..n])
  {
    Found(buf, rest, c.hdrOffs, c.todo, h);
    var f := h + c.todo[0][HEADER_LEN..];
    CutAcross(Put(buf, c.hdrOffs, h)[c.hdrOffs..], rest, f, Concat(c.todo[1..]));
    Begun(cfg, f, |buf| - c.hdrOffs, Output(cfg, c.todo[1..], inc));
  }

  /** The end of a buffer, no header split. */
  lemma LeaveStep(cfg: Config, c: Cursor, buf: seq<byte>, rest: seq<byte>, n: nat)
    requires if n == 0 then Inside(cfg, c, buf, rest) && c.hdrOffs == |buf| else Beyond(cfg, c, buf, rest, n)
    ensures Between(cfg, c.(hdrOffs := n), rest)
    ensures n == 0 ==> Due(cfg, c, rest[..n]) == Later(cfg, c)
  {
    if n == 0 {
      assert buf[|buf|..] + rest == rest;
    }
  }

  // ---------------------------------------------------------------- the same, with the log

  /** The events left fit the 32-bit offsets when read through a buffer of `length` bytes. */
  ghost predicate Fits(events: seq<Event>, length: nat) {
    forall i :: 0 <= i < |events| ==> |events[i]| + length < TWO_TO_32
  }

  /** Before a buffer; `s` is the unread rest of the cache. */
  ghost predicate Ready(cfg: Config, log: seq<byte>, c: Cursor, s: seq<byte>, goal: seq<byte>) {
    if c.header == []
    then Between(cfg, c, s) && log + Due(cfg, c, s[..c.hdrOffs]) == goal
    else Split(cfg, c, s) && log + Later(cfg, c) == goal
  }

  /** Within a buffer, with nothing left of the event before. */
  ghost predicate At(cfg: Config, log: seq<byte>, c: Cursor, buf: seq<byte>, rest: seq<byte>, goal: seq<byte>) {
    if c.hdrOffs <= |buf|
    then Inside(cfg, c, buf, rest) && log + (Held(cfg, buf[..c.hdrOffs]) + Later(cfg, c)) == goal
    else
      var n := c.hdrOffs - |buf|;
      Beyond(cfg, c, buf, rest, n) && log + (Held(cfg, buf) + Due(cfg, c, rest[..n])) == goal
  }

  /** After a buffer whose last bytes are the first part of a header. */
  ghost predicate Saved(cfg: Config, log: seq<byte>, c: Cursor, held: seq<byte>, rest: seq<byte>, goal: seq<byte>) {
    c.hdrOffs == |held| && Split(cfg, c, rest) && log + (Held(cfg, held) + Later(cfg, c)) == goal
  }

  /** `h` is the fixed header of the next event. */
  ghost predicate Fixes(cfg: Config, c: Cursor, h: seq<byte>, inc: nat)
    requires AllWellFormed(c.todo)
  {
    && c.todo != [] && |h| == HEADER_LEN
    && var f := h + c.todo[0][HEADER_LEN..];
       Later(cfg, c) == f + Trailer(cfg, 0, f) + Output(cfg, c.todo[1..], inc)
  }

  lemma FixesNext(cfg: Config, c: Cursor)
    requires c.todo != [] && AllWellFormed(c.todo)
    ensures Fixes(cfg, c, FixHeader(cfg, c.todo[0][..HEADER_LEN], c.inc + Grow(cfg)), c.inc + Grow(cfg))
  {
  }

  lemma Assemble(cfg: Config, log: seq<byte>, c: Cursor, buf: seq<byte>, rest: seq<byte>, goal: seq<byte>,
                 h: seq<byte>, k: nat, d: Cursor, b: seq<byte>)
    requires c.header != [] && Ready(cfg, log, c, buf + rest, goal) && HEADER_LEN <= |c.header| + |buf|
    requires Fixes(cfg, c, h, d.inc) && k == |c.header| && b == Put(buf, 0, h[k..])
    requires d == Within(cfg, |c.todo[0]| - k, |c.todo[0]| - k, h[..k], d.inc, c.todo[1..])
    ensures Ready(cfg, log + h[..k], d, b + rest, goal)
  {
    AssembleStep(cfg, c, buf, rest, h, d.inc);
    Assoc(log, h[..k], Due(cfg, d, (b + rest)[..d.hdrOffs]));
  }

  lemma LastPart(cfg: Config, log: seq<byte>, c: Cursor, buf: seq<byte>, rest: seq<byte>, goal: seq<byte>)
    requires c.header == [] && Ready(cfg, log, c, buf + rest, goal) && cfg.checksum && 0 < |buf| == c.hdrOffs
    ensures At(cfg, log + buf + ToLE(Checksum(cfg.step, c.crc, buf), 4), c.(remains := 0, crc := 0), buf, rest, goal)
  {
    LastPartStep(cfg, c, buf, rest);
    var t := ToLE(Checksum(cfg.step, c.crc, buf), 4);
    Assoc(log, buf + t, Later(cfg, c));
    Assoc(log, buf, t);
    Nothing(Later(cfg, c));
  }

  lemma Nothing(s: seq<byte>)
    ensures [] + s == s
  {
  }

  lemma MiddlePart(cfg: Config, log: seq<byte>, c: Cursor, buf: seq<byte>, rest: seq<byte>, goal: seq<byte>)
    requires c.header == [] && Ready(cfg, log, c, buf + rest, goal) && cfg.checksum && 0 < |buf| < c.hdrOffs
    ensures At(cfg, log + buf, c.(remains := c.remains - |buf|, crc := Checksum(cfg.step, c.crc, buf)), buf, rest, goal)
  {
    var n := c.hdrOffs - |buf|;
    MiddlePartStep(cfg, c, buf, rest, n);
    var d := c.(remains := n, crc := Checksum(cfg.step, c.crc, buf));
    Assoc(log, buf, Due(cfg, d, rest[..n]));
    Nothing(Due(cfg, d, rest[..n]));
  }

  /** No header starts in the buffer: `d` and `more` are cursor and log after it. */
  lemma PartDone(cfg: Config, log: seq<byte>, c: Cursor, buf: seq<byte>, rest: seq<byte>, goal: seq<byte>,
                 d: Cursor, more: seq<byte>)
    requires c.header == [] && Ready(cfg, log, c, buf + rest, goal) && cfg.checksum && 0 < |buf| <= c.hdrOffs
    requires var crc := Checksum(cfg.step, c.crc, buf);
             if |buf| == c.hdrOffs
             then d == c.(remains := 0, crc := 0) && more == log + buf + ToLE(crc, 4)
             else d == c.(remains := c.remains - |buf|, crc := crc) && more == log + buf
    ensures At(cfg, more, d, buf, rest, goal)
  {
    if |buf| == c.hdrOffs {
      LastPart(cfg, log, c, buf, rest, goal);
    } else {
      MiddlePart(cfg, log, c, buf, rest, goal);
    }
  }

  lemma EnterPlain(cfg: Config, log: seq<byte>, c: Cursor, buf: seq<byte>, rest: seq<byte>, goal: seq<byte>)
    requires c.header == [] && Ready(cfg, log, c, buf + rest, goal) && !cfg.checksum && |buf| <= c.hdrOffs
    ensures At(cfg, log, c, buf, rest, goal)
  {
    var n := c.hdrOffs - |buf|;
    PlainStep(cfg, c, buf, rest, n);
    if n == 0 {
      assert Due(cfg, c, rest[..n]) == Later(cfg, c);
      assert buf[..c.hdrOffs] == buf;
    }
  }

  lemma EnterAtHeader(cfg: Config, log: seq<byte>, c: Cursor, buf: seq<byte>, rest: seq<byte>, goal: seq<byte>)
    requires c.header == [] && Ready(cfg, log, c, buf + rest, goal) && c.remains == 0 && c.hdrOffs < |buf|
    ensures At(cfg, log, c, buf, rest, goal)
  {
    FinishStep(cfg, c, buf, rest);
  }

  lemma FinishEvent(cfg: Config, log: seq<byte>, c: Cursor, buf: seq<byte>, rest: seq<byte>, goal: seq<byte>)
    requires c.header == [] && Ready(cfg, log, c, buf + rest, goal) && c.remains != 0 && c.hdrOffs < |buf|
    ensures var x := buf[..c.hdrOffs];
            At(cfg, log + x + ToLE(Checksum(cfg.step, c.crc, x), 4), c.(remains := 0, crc := 0), buf, rest, goal)
  {
    FinishStep(cfg, c, buf, rest);
    var x := buf[..c.hdrOffs];
    var t := ToLE(Checksum(cfg.step, c.crc, x), 4);
    Assoc(log, x + t, Later(cfg, c));
    Assoc(log, x, t);
    Nothing(Later(cfg, c));
  }

  lemma Save(cfg: Config, log: seq<byte>, c: Cursor, buf: seq<byte>, rest: seq<byte>, goal: seq<byte>)
    requires At(cfg, log, c, buf, rest, goal) && c.hdrOffs < |buf| < c.hdrOffs + HEADER_LEN
    ensures Saved(cfg, log, c.(header := buf[c.hdrOffs..]), buf[..c.hdrOffs], rest, goal)
  {
  }

  lemma WholeChecked(cfg: Config, log: seq<byte>, c: Cursor, buf: seq<byte>, rest: seq<byte>, goal: seq<byte>,
                     h: seq<byte>, d: Cursor, b: seq<byte>)
    requires At(cfg, log, c, buf, rest, goal) && c.hdrOffs + HEADER_LEN <= |buf| && cfg.checksum
    requires Fixes(cfg, c, h, d.inc) && d.hdrOffs == c.hdrOffs + |c.todo[0]| <= |buf|
    requires b == Put(buf, c.hdrOffs, h) && d == c.(hdrOffs := d.hdrOffs, inc := d.inc, todo := c.todo[1..])
    ensures var ev := b[c.hdrOffs..d.hdrOffs];
            At(cfg, log + ev + ToLE(Checksum(cfg.step, 0, ev), 4), d, b, rest, goal)
  {
    var f := h + c.todo[0][HEADER_LEN..];
    WholeEventStep(cfg, c, buf, rest, h, d.inc);
    var t, later := Trailer(cfg, 0, f), Output(cfg, c.todo[1..], d.inc);
    DueChecked(log, f, t, later);
    assert log + f + t + ([] + later) == goal;
    assert b[c.hdrOffs..d.hdrOffs] == f;
  }

  lemma WholePlain(cfg: Config, log: seq<byte>, c: Cursor, buf: seq<byte>, rest: seq<byte>, goal: seq<byte>,
                   h: seq<byte>, d: Cursor, b: seq<byte>)
    requires At(cfg, log, c, buf, rest, goal) && c.hdrOffs + HEADER_LEN <= |buf| && !cfg.checksum
    requires Fixes(cfg, c, h, d.inc) && d.hdrOffs == c.hdrOffs + |c.todo[0]| <= |buf|
    requires b == Put(buf, c.hdrOffs, h) && d == c.(hdrOffs := d.hdrOffs, inc := d.inc, todo := c.todo[1..])
    ensures At(cfg, log, d, b, rest, goal)
  {
    var at, f := c.hdrOffs, h + c.todo[0][HEADER_LEN..];
    WholeEventStep(cfg, c, buf, rest, h, d.inc);
    Found(buf, rest, at, c.todo, h);
    var later := Output(cfg, c.todo[1..], d.inc);
    assert goal == log + (b[..at] + (f + [] + later));
    DuePlain(log, b[..at], f, later);
    WholeHeld(b, at, f);
    assert b[..d.hdrOffs] == b[..at] + f;
  }

  lemma WholeHeld(b: seq<byte>, at: nat, f: seq<byte>)
    requires at + |f| <= |b| && b[at..at + |f|] == f
    ensures b[..at + |f|] == b[..at] + f
  {
  }

  lemma DueChecked(log: seq<byte>, f: seq<byte>, t: seq<byte>, later: seq<byte>)
    ensures log + ([] + (f + t + later)) == (log + f + t) + ([] + later)
  {
    Nothing(f + t + later);
    Assoc(log, f + t, later);
    Assoc(log, f, t);
    Nothing(later);
  }

  lemma DuePlain(log: seq<byte>, p: seq<byte>, f: seq<byte>, later: seq<byte>)
    ensures log + (p + (f + [] + later)) == log + ((p + f) + later)
  {
    assert f + [] == f;
    Assoc(p, f, later);
  }

  /** A header in one piece, of an event that goes on after this buffer. */
  lemma FirstPart(cfg: Config, log: seq<byte>, c: Cursor, buf: seq<byte>, rest: seq<byte>, goal: seq<byte>,
                  h: seq<byte>, d: Cursor, b: seq<byte>)
    requires At(cfg, log, c, buf, rest, goal) && c.hdrOffs + HEADER_LEN <= |buf|
    requires Fixes(cfg, c, h, d.inc) && |buf| < d.hdrOffs == c.hdrOffs + |c.todo[0]|
    requires b == Put(buf, c.hdrOffs, h)
    requires d == Within(cfg, d.hdrOffs, d.hdrOffs - |buf|, b[c.hdrOffs..], d.inc, c.todo[1..])
    ensures At(cfg, if cfg.checksum then log + b[c.hdrOffs..] else log, d, b, rest, goal)
  {
    var at, n := c.hdrOffs, d.hdrOffs - |buf|;
    FirstPartStep(cfg, c, buf, rest, n, h, d.inc);
    Found(buf, rest, at, c.todo, h);
    var due := Due(cfg, d, rest[..n]);
    if cfg.checksum {
      Nothing(Later(cfg, c));
      Assoc(log, b[at..], due);
      Nothing(due);
    } else {
      assert b[..at] + b[at..] == b;
      Assoc(b[..at], b[at..], due);
    }
  }

  /** A header in one piece: `d`, `b` and `more` are cursor, buffer and log after it. */
  lemma HeaderDone(cfg: Config, log: seq<byte>, c: Cursor, buf: seq<byte>, rest: seq<byte>, goal: seq<byte>,
                   h: seq<byte>, d: Cursor, b: seq<byte>, more: seq<byte>)
    requires At(cfg, log, c, buf, rest, goal) && c.hdrOffs + HEADER_LEN <= |buf|
    requires Fixes(cfg, c, h, d.inc) && d.hdrOffs == c.hdrOffs + |c.todo[0]| && b == Put(buf, c.hdrOffs, h)
    requires d.hdrOffs <= |buf| ==> d == Cursor(d.hdrOffs, [], 0, 0, d.inc, c.todo[1..])
    requires d.hdrOffs > |buf| ==> d == Within(cfg, d.hdrOffs, d.hdrOffs - |buf|, b[c.hdrOffs..], d.inc, c.todo[1..])
    requires !cfg.checksum ==> more == log
    requires cfg.checksum && d.hdrOffs <= |buf| ==>
               var ev := b[c.hdrOffs..d.hdrOffs]; more == log + ev + ToLE(Checksum(cfg.step, 0, ev), 4)
    requires cfg.checksum && d.hdrOffs > |buf| ==> more == log + b[c.hdrOffs..]
    ensures At(cfg, more, d, b, rest, goal)
  {
    if d.hdrOffs <= |buf| && cfg.checksum {
      WholeChecked(cfg, log, c, buf, rest, goal, h, d, b);
    } else if d.hdrOffs <= |buf| {
      WholePlain(cfg, log, c, buf, rest, goal, h, d, b);
    } else {
      FirstPart(cfg, log, c, buf, rest, goal, h, d, b);
    }
  }

  lemma Leave(cfg: Config, log: seq<byte>, c: Cursor, buf: seq<byte>, rest: seq<byte>, goal: seq<byte>)
    requires At(cfg, log, c, buf, rest, goal) && |buf| <= c.hdrOffs
    ensures Ready(cfg, log + Held(cfg, buf), c.(hdrOffs := c.hdrOffs - |buf|), rest, goal)
  {
    var n := c.hdrOffs - |buf|;
    LeaveStep(cfg, c, buf, rest, n);
    assert buf[..|buf|] == buf;
    Assoc(log, Held(cfg, buf), Due(cfg, c, rest[..n]));
  }

  lemma LeaveSaved(cfg: Config, log: seq<byte>, c: Cursor, held: seq<byte>, rest: seq<byte>, goal: seq<byte>)
    requires Saved(cfg, log, c, held, rest, goal)
    ensures Ready(cfg, log + Held(cfg, held), c.(hdrOffs := 0), rest, goal)
  {
    Assoc(log, Held(cfg, held), Later(cfg, c));
  }

  /** The end of a buffer of which the first `length` bytes have been dealt with. */
  lemma LeaveBuffer(cfg: Config, log: seq<byte>, c: Cursor, buf: seq<byte>, length: nat, rest: seq<byte>,
                    goal: seq<byte>)
    requires length <= |buf| && length <= c.hdrOffs
    requires c.header == [] ==> length == |buf| && At(cfg, log, c, buf, rest, goal)
    requires c.header != [] ==> Saved(cfg, log, c, buf[..length], rest, goal)
    ensures Ready(cfg, log + Held(cfg, buf[..length]), c.(hdrOffs := c.hdrOffs - length), rest, goal)
  {
    if c.header == [] {
      assert buf[..length] == buf;
      Leave(cfg, log, c, buf, rest, goal);
    } else {
      LeaveSaved(cfg, log, c, buf[..length], rest, goal);
    }
  }
}
