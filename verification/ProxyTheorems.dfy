/** Sending a PROXY header and parsing it again. */
module ProxyTheorems {
  import opened Bytes
  import opened ProxyHeader
  import opened ProxyText
  import opened Strings

  /** What the receiver peeks of a stream that starts with `header`; the rest of its buffer is anything. */
  ghost predicate Peeked(buf: seq<byte>, read: nat, header: seq<byte>, payload: seq<byte>) {
    && |buf| == PEEK
    && read == (if |header + payload| < PEEK then |header + payload| else PEEK)
    && buf[..read] == (header + payload)[..read]
  }

  /** A header is to arrive, or the connection's own addresses are to stay. */
  function Expected(size: nat, src: Address, dst: Address, ownSrc: Address, ownDst: Address): Outcome {
    if Same(src, dst) then Outcome(size, src, dst) else Outcome(size, ownSrc, ownDst)
  }

  // ---------------------------------------------------------------- version 2

  lemma PortRoundTrip(n: nat)
    requires n < 65536
    ensures FromBE(ToBE(n)) == n
  {
  }

  /** The fields of a version 2 header. */
  lemma FieldsV2(fam: byte, len: nat, a: seq<byte>, b: seq<byte>, p: seq<byte>, q: seq<byte>, h: seq<byte>)
    requires len < 65536 && |p| == |q| == 2 && |a| == |b|
    requires h == SIGNATURE + [0x21, fam] + ToBE(len) + a + b + p + q
    ensures h[..12] == SIGNATURE && h[12] == 0x21 && h[13] == fam && h[14..16] == ToBE(len)
    ensures var n := 16 + |a|;
            h[16..n] == a && h[n..n + |a|] == b && h[n + |a|..n + |a| + 2] == p && h[n + |a| + 2..n + |a| + 4] == q
  {
  }

  lemma Prefix(buf: seq<byte>, read: nat, header: seq<byte>, payload: seq<byte>)
    requires Peeked(buf, read, header, payload) && |header| <= PEEK
    ensures |header| <= read <= PEEK && buf[..|header|] == header
  {
    assert buf[..read][..|header|] == buf[..|header|];
    assert (header + payload)[..read][..|header|] == header;
  }

  lemma Inside(buf: seq<byte>, header: seq<byte>, i: nat, j: nat)
    requires i <= j <= |header| <= |buf| && buf[..|header|] == header
    ensures buf[i..j] == header[i..j]
  {
    assert buf[..|header|][i..j] == buf[i..j];
  }

  lemma SendV4(src: Address, dst: Address, buf: seq<byte>, read: nat, ownSrc: Address, ownDst: Address)
    requires IsAddress(src) && IsAddress(dst) && src.V4? && dst.V4? && |buf| == PEEK
    requires var h := HeaderV2(src, dst); |h| <= read <= PEEK && buf[..|h|] == h
    ensures buf[..12] == SIGNATURE && buf[12] == 0x21
    ensures ParsedV2(buf, read, ownSrc, ownDst) == Outcome(|HeaderV2(src, dst)|, src, dst)
  {
    var h := HeaderV2(src, dst);
    FieldsV2(PP2_FAM_TCP4, 12, src.ip, dst.ip, ToBE(src.port), ToBE(dst.port), h);
    PortRoundTrip(12);
    PortRoundTrip(src.port);
    PortRoundTrip(dst.port);
    Inside(buf, h, 0, 12);
    Inside(buf, h, 14, 16);
    Inside(buf, h, 16, 20);
    Inside(buf, h, 20, 24);
    Inside(buf, h, 24, 26);
    Inside(buf, h, 26, 28);
    assert buf[12] == h[12] && buf[13] == h[13];
  }

  lemma SendV6(src: Address, dst: Address, buf: seq<byte>, read: nat, ownSrc: Address, ownDst: Address)
    requires IsAddress(src) && IsAddress(dst) && src.V6? && dst.V6? && |buf| == PEEK
    requires var h := HeaderV2(src, dst); |h| <= read <= PEEK && buf[..|h|] == h
    ensures buf[..12] == SIGNATURE && buf[12] == 0x21
    ensures ParsedV2(buf, read, ownSrc, ownDst) == Outcome(|HeaderV2(src, dst)|, src, dst)
  {
    var h := HeaderV2(src, dst);
    FieldsV2(PP2_FAM_TCP6, 36, src.ip, dst.ip, ToBE(src.port), ToBE(dst.port), h);
    PortRoundTrip(36);
    PortRoundTrip(src.port);
    PortRoundTrip(dst.port);
    Inside(buf, h, 0, 12);
    Inside(buf, h, 14, 16);
    Inside(buf, h, 16, 32);
    Inside(buf, h, 32, 48);
    Inside(buf, h, 48, 50);
    Inside(buf, h, 50, 52);
    assert buf[12] == h[12] && buf[13] == h[13];
  }

  /** Version 2: addresses and ports arrive, and exactly the header is consumed, whatever follows. */
  lemma RoundTripV2(inet: Inet6, src: Address, dst: Address, payload: seq<byte>, buf: seq<byte>, read: nat,
                    ownSrc: Address, ownDst: Address)
    requires IsAddress(src) && IsAddress(dst) && Peeked(buf, read, HeaderV2(src, dst), payload)
    ensures read <= PEEK &&
      Processed(inet, buf, read, ownSrc, ownDst) == Expected(|HeaderV2(src, dst)|, src, dst, ownSrc, ownDst)
  {
    var h := HeaderV2(src, dst);
    Prefix(buf, read, h, payload);
    if src.V4? && dst.V4? {
      SendV4(src, dst, buf, read, ownSrc, ownDst);
    } else if src.V6? && dst.V6? {
      SendV6(src, dst, buf, read, ownSrc, ownDst);
    } else {
      Inside(buf, h, 0, 12);
      Inside(buf, h, 14, 16);
      PortRoundTrip(0);
      assert h[14..16] == ToBE(0) && h[..12] == SIGNATURE;
      assert buf[12] == h[12] && buf[13] == h[13];
    }
  }

  // ---------------------------------------------------------------- version 1

  /** A word of a version 1 line. */
  predicate IsWord(t: string) {
    forall i :: 0 <= i < |t| ==> ' ' < t[i] <= '~'
  }

  predicate AllWords(w: seq<string>) {
    forall i :: 0 <= i < |w| ==> IsWord(w[i])
  }

  /** Words with one blank between any two. */
  function Line(w: seq<string>): string
    requires w != []
  {
    if |w| == 1 then w[0] else w[0] + " " + Line(w[1..])
  }

  lemma {:induction false} PartsOfLine(w: seq<string>)
    requires w != [] && AllWords(w)
    ensures Parts(Line(w), ' ') == w
  {
    if |w| == 1 {
      PartsOfOne(w[0], ' ');
    } else {
      PartsOfLine(w[1..]);
      PartsOfSum(w[0], ' ', Line(w[1..]));
    }
  }

  function Longest(w: seq<string>): nat {
    if w == [] then 0 else |w[0]| + 1 + Longest(w[1..])
  }

  lemma {:induction false} LineIsPlain(w: seq<string>)
    requires w != [] && AllWords(w)
    ensures |Line(w)| + 1 == Longest(w) && forall i :: 0 <= i < |Line(w)| ==> ' ' <= Line(w)[i] <= '~'
  {
    if |w| > 1 {
      LineIsPlain(w[1..]);
    }
  }

  /** A line is split into its words. */
  lemma WordsOfLine(w: seq<string>)
    requires w != [] && AllWords(w) && w[|w| - 1] != ""
    ensures Split(Line(w), ' ') == w && '\r' !in Line(w)
  {
    PartsOfLine(w);
    LineIsPlain(w);
  }

  /** The words of a version 1 header. */
  function WordsV1(inet: Inet6, src: Address, dst: Address): seq<string>
    requires IsAddress(src) && IsAddress(dst) && Same(src, dst)
  {
    ["PROXY", if src.V4? then "TCP4" else "TCP6", IpText(inet, src), IpText(inet, dst),
     DecimalText(src.port), DecimalText(dst.port)]
  }

  lemma LineOfSix(a: string, b: string, c: string, d: string, e: string, f: string)
    ensures a + " " + b + " " + c + " " + d + " " + e + " " + f == Line([a, b, c, d, e, f])
  {
    assert Line([f]) == f;
    LineMore(e, [f]);
    LineMore(d, [e, f]);
    LineMore(c, [d, e, f]);
    LineMore(b, [c, d, e, f]);
    LineMore(a, [b, c, d, e, f]);
    Nested(a, b, c, d, e, f);
  }

  lemma LineMore(a: string, w: seq<string>)
    requires w != []
    ensures Line([a] + w) == a + " " + Line(w)
  {
    assert ([a] + w)[1..] == w;
  }

  lemma Nested(a: string, b: string, c: string, d: string, e: string, f: string)
    ensures a + " " + b + " " + c + " " + d + " " + e + " " + f
         == a + " " + (b + " " + (c + " " + (d + " " + (e + " " + f))))
  {
    assert d + " " + e + " " + f == d + " " + (e + " " + f);
    assert c + " " + d + " " + e + " " + f == c + " " + (d + " " + (e + " " + f));
    assert b + " " + c + " " + d + " " + e + " " + f == b + " " + (c + " " + (d + " " + (e + " " + f)));
  }

  lemma LineOfWords(inet: Inet6, src: Address, dst: Address)
    requires IsAddress(src) && IsAddress(dst) && Same(src, dst)
    ensures LineV1(inet, src, dst) == Line(WordsV1(inet, src, dst))
  {
    var w := WordsV1(inet, src, dst);
    LineOfSix(w[0], w[1], w[2], w[3], w[4], w[5]);
    assert "PROXY" + " " + w[1] + " " == if src.V4? then "PROXY TCP4 " else "PROXY TCP6 ";
  }

  lemma WordOk(inet: Inet6, a: Address)
    requires Lawful(inet) && IsAddress(a) && !a.Unspec?
    ensures IsWord(IpText(inet, a)) && |IpText(inet, a)| <= 39
    ensures IsWord(DecimalText(a.port)) && |DecimalText(a.port)| <= 5
  {
    if a.V4? {
      Ntop4Plain(a.ip);
    }
    ShortText(a.port);
  }

  /** Setting an address from its own text. */
  lemma SetAddrRoundTrip(inet: Inet6, a: Address)
    requires Lawful(inet) && IsAddress(a) && !a.Unspec?
    ensures (if a.V4? then SetAddr(IpText(inet, a), a.port) else SetAddr6(inet, IpText(inet, a), a.port)) == (true, a)
  {
    if a.V4? {
      Ntop4RoundTrip(a.ip);
      Ntop4Plain(a.ip);
      var any: seq<byte> := [0, 0, 0, 0];
      assert Ntop4(any) == "0.0.0.0";
      Ntop4RoundTrip(any);
    } else {
      assert inet.pton(inet.ntop(a.ip)) == Some(a.ip) && inet.pton(inet.ntop(ANY6)) == Some(ANY6);
    }
  }

  lemma WordsParsed(inet: Inet6, src: Address, dst: Address, size: nat, ownSrc: Address, ownDst: Address)
    requires Lawful(inet) && IsAddress(src) && IsAddress(dst) && Same(src, dst)
    ensures Words(inet, WordsV1(inet, src, dst), size, ownSrc, ownDst) == Outcome(size, src, dst)
  {
    AtoiOfText(src.port);
    AtoiOfText(dst.port);
    SetAddrRoundTrip(inet, src);
    SetAddrRoundTrip(inet, dst);
  }

  /** A line ended by CR LF is found, whatever follows. */
  lemma LineFound(inet: Inet6, line: string, rest: string, ownSrc: Address, ownDst: Address)
    requires '\r' !in line
    ensures ParsedV1(inet, line + "\r\n" + rest, ownSrc, ownDst)
         == Words(inet, Split(line, ' '), |line| + 2, ownSrc, ownDst)
  {
    var hdr := line + "\r\n" + rest;
    var tail := ("\n" + rest)[..|rest|];
    assert hdr[..|hdr| - 1] == line + ['\r'] + tail;
    IndexAfter(line, '\r', tail);
    assert hdr[..|line|] == line;
  }

  /** The bytes of a text. */
  function Codes(t: string): seq<byte> {
    seq(|t|, i requires 0 <= i < |t| => t[i] as int % 256)
  }

  lemma LineV1IsPlain(inet: Inet6, src: Address, dst: Address)
    requires Lawful(inet) && IsAddress(src) && IsAddress(dst) && Same(src, dst)
    ensures AllWords(WordsV1(inet, src, dst))
    ensures var t := LineV1(inet, src, dst);
            11 <= |t| <= 104 && t[..6] == "PROXY " && forall i :: 0 <= i < |t| ==> ' ' <= t[i] <= '~'
  {
    var w := WordsV1(inet, src, dst);
    WordsArePlain(inet, src, dst);
    LineOfWords(inet, src, dst);
    LineIsPlain(w);
    StartsProxy(w);
  }

  lemma WordsArePlain(inet: Inet6, src: Address, dst: Address)
    requires Lawful(inet) && IsAddress(src) && IsAddress(dst) && Same(src, dst)
    ensures AllWords(WordsV1(inet, src, dst)) && 12 <= Longest(WordsV1(inet, src, dst)) <= 105
  {
    WordOk(inet, src);
    WordOk(inet, dst);
    LongestOfSix(WordsV1(inet, src, dst));
  }

  lemma StartsProxy(w: seq<string>)
    requires |w| > 1 && w[0] == "PROXY"
    ensures |Line(w)| >= 6 && Line(w)[..6] == "PROXY "
  {
    assert Line(w) == "PROXY" + " " + Line(w[1..]);
  }

  lemma LongestOfSix(w: seq<string>)
    requires |w| == 6
    ensures Longest(w) == |w[0]| + |w[1]| + |w[2]| + |w[3]| + |w[4]| + |w[5]| + 6
  {
    assert Longest(w[5..]) == |w[5]| + 1 && w[4..][1..] == w[5..];
    assert Longest(w[4..]) == |w[4]| + 1 + Longest(w[5..]) && w[3..][1..] == w[4..];
    assert Longest(w[3..]) == |w[3]| + 1 + Longest(w[4..]) && w[2..][1..] == w[3..];
    assert Longest(w[2..]) == |w[2]| + 1 + Longest(w[3..]) && w[1..][1..] == w[2..];
  }

  /** Version 1, on the text. */
  lemma SentV1(inet: Inet6, line: string, w: seq<string>, src: Address, dst: Address, rest: string,
               ownSrc: Address, ownDst: Address)
    requires Lawful(inet) && IsAddress(src) && IsAddress(dst) && Same(src, dst)
    requires w == WordsV1(inet, src, dst) && AllWords(w) && line == Line(w)
    ensures ParsedV1(inet, line + "\r\n" + rest, ownSrc, ownDst) == Outcome(|line| + 2, src, dst)
  {
    WordsOfLine(w);
    LineFound(inet, line, rest, ownSrc, ownDst);
    WordsParsed(inet, src, dst, |line| + 2, ownSrc, ownDst);
  }

  lemma UnknownWords()
    ensures var w := ["PROXY", "UNKNOWN"]; AllWords(w) && Line(w) == "PROXY UNKNOWN"
  {
    LineMore("PROXY", ["UNKNOWN"]);
    assert ["PROXY"] + ["UNKNOWN"] == ["PROXY", "UNKNOWN"];
  }

  lemma UnknownV1(inet: Inet6, line: string, rest: string, ownSrc: Address, ownDst: Address)
    requires var w := ["PROXY", "UNKNOWN"]; AllWords(w) && line == Line(w)
    ensures ParsedV1(inet, line + "\r\n" + rest, ownSrc, ownDst) == Outcome(|line| + 2, ownSrc, ownDst)
  {
    WordsOfLine(["PROXY", "UNKNOWN"]);
    LineFound(inet, line, rest, ownSrc, ownDst);
  }

  lemma TextRoundTripV1(inet: Inet6, src: Address, dst: Address, rest: string, ownSrc: Address, ownDst: Address)
    requires Lawful(inet) && IsAddress(src) && IsAddress(dst)
    ensures var t := HeaderV1(inet, src, dst);
            ParsedV1(inet, t + rest, ownSrc, ownDst) == Expected(|t|, src, dst, ownSrc, ownDst)
  {
    if Same(src, dst) {
      LineV1IsPlain(inet, src, dst);
      LineOfWords(inet, src, dst);
      SentV1(inet, LineV1(inet, src, dst), WordsV1(inet, src, dst), src, dst, rest, ownSrc, ownDst);
    } else {
      UnknownWords();
      UnknownV1(inet, "PROXY UNKNOWN", rest, ownSrc, ownDst);
      assert "PROXY UNKNOWN" + "\r\n" == "PROXY UNKNOWN\r\n";
    }
  }

  /** What was peeked, as text. */
  lemma PeekedText(t: string, payload: seq<byte>, buf: seq<byte>, read: nat) returns (rest: string)
    requires 6 <= |t| <= PEEK && (forall i :: 0 <= i < |t| ==> t[i] as int < 256)
    requires Peeked(buf, read, Codes(t), payload)
    ensures |t| <= read <= PEEK && Chars(buf[..read]) == t + rest && Chars(buf[..6]) == t[..6]
  {
    Prefix(buf, read, Codes(t), payload);
    assert forall i :: 0 <= i < |t| ==> buf[i] as char == t[i] by {
      assert forall i :: 0 <= i < |t| ==> buf[..|t|][i] == Codes(t)[i];
    }
    rest := Chars(buf[|t|..read]);
  }

  /** The text `t` of a header was peeked: version 1 parses it. */
  lemma PeekedV1(inet: Inet6, t: string, payload: seq<byte>, buf: seq<byte>, read: nat,
                 ownSrc: Address, ownDst: Address)
    returns (rest: string)
    requires 8 <= |t| <= PEEK && t[..6] == "PROXY " && (forall i :: 0 <= i < |t| ==> t[i] as int < 256)
    requires Peeked(buf, read, Codes(t), payload)
    ensures read <= PEEK && Processed(inet, buf, read, ownSrc, ownDst) == ParsedV1(inet, t + rest, ownSrc, ownDst)
  {
    rest := PeekedText(t, payload, buf, read);
    NotV2(buf);
  }

  lemma HeaderIsPlain(inet: Inet6, src: Address, dst: Address)
    requires Lawful(inet) && IsAddress(src) && IsAddress(dst)
    ensures var t := HeaderV1(inet, src, dst);
            8 <= |t| <= PEEK && t[..6] == "PROXY " && forall i :: 0 <= i < |t| ==> t[i] as int < 256
  {
    if Same(src, dst) {
      LineV1IsPlain(inet, src, dst);
      EndedLine(LineV1(inet, src, dst));
    }
  }

  lemma EndedLine(line: string)
    requires 6 <= |line| && forall i :: 0 <= i < |line| ==> ' ' <= line[i] <= '~'
    ensures var t := line + "\r\n";
            |t| == |line| + 2 && t[..6] == line[..6] && forall i :: 0 <= i < |t| ==> t[i] as int < 256
  {
  }

  /** Version 1: addresses and ports arrive, and exactly the header is consumed, whatever follows. */
  lemma RoundTripV1(inet: Inet6, src: Address, dst: Address, payload: seq<byte>, buf: seq<byte>, read: nat,
                    ownSrc: Address, ownDst: Address)
    requires Lawful(inet) && IsAddress(src) && IsAddress(dst)
    requires Peeked(buf, read, Codes(HeaderV1(inet, src, dst)), payload)
    ensures read <= PEEK &&
      Processed(inet, buf, read, ownSrc, ownDst)
        == Expected(|HeaderV1(inet, src, dst)|, src, dst, ownSrc, ownDst)
  {
    HeaderIsPlain(inet, src, dst);
    var rest := PeekedV1(inet, HeaderV1(inet, src, dst), payload, buf, read, ownSrc, ownDst);
    TextRoundTripV1(inet, src, dst, rest, ownSrc, ownDst);
  }

  lemma NotV2(buf: seq<byte>)
    requires |buf| == PEEK && Chars(buf[..6]) == "PROXY "
    ensures buf[..12] != SIGNATURE
  {
    assert Chars(buf[..6])[0] == 'P';
    assert buf[..12][0] != SIGNATURE[0];
  }

  // ---------------------------------------------------------------- two handlers

  /**
    One handler sends a header, another receives it, with a payload behind it and a buffer that held
    anything before.  The receiver has the sender's addresses, or keeps its own when the families
    are mixed, and what it has not consumed is the payload.
   */
  method SendAndReceive(sender: Handler, receiver: Handler, two: bool, payload: seq<byte>, held: seq<byte>)
    returns (size: int, unread: seq<byte>)
    requires sender != receiver && IsAddress(sender.src) && IsAddress(sender.dst) && |held| == PEEK
    requires Lawful(sender.inet) && receiver.inet == sender.inet
    modifies receiver
    ensures unread == payload
    ensures if Same(sender.src, sender.dst)
            then receiver.src == sender.src && receiver.dst == sender.dst
            else receiver.src == old(receiver.src) && receiver.dst == old(receiver.dst)
  {
    var header;
    if two {
      header := sender.MakeProxyHeaderV2();
    } else {
      var text := sender.MakeProxyHeaderV1();
      header := Codes(text);
    }
    var stream := header + payload;
    var read := if |stream| < PEEK then |stream| else PEEK;
    var buf := stream[..read] + held[read..];
    assert buf[..read] == stream[..read];
    if two {
      RoundTripV2(receiver.inet, sender.src, sender.dst, payload, buf, read, receiver.src, receiver.dst);
    } else {
      RoundTripV1(receiver.inet, sender.src, sender.dst, payload, buf, read, receiver.src, receiver.dst);
    }
    size := receiver.ProcessProxyHeader(buf, read);
    unread := stream[size..];
  }
}
