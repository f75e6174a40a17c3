/** Text helpers of the proxy: splitting, numbers and IP addresses. */
module ProxyText {
  import opened Bytes
  import opened Strings

  // ---------------------------------------------------------------- splitting

  /** All parts between delimiters, empty ones too. */
  function Parts(s: string, c: char): (p: seq<string>)
    ensures p != []
    decreases |s|
  {
    var i := IndexOf(s, c);
    if i == |s| then [s] else [s[..i]] + Parts(s[i + 1..], c)
  }

  /** The parts, but not an empty one at the end. */
  function Split(s: string, c: char): seq<string> {
    var p := Parts(s, c);
    if p[|p| - 1] == "" then p[..|p| - 1] else p
  }

  lemma PartsOfSum(a: string, c: char, b: string)
    requires c !in a
    ensures Parts(a + [c] + b, c) == [a] + Parts(b, c)
  {
    IndexAfter(a, c, b);
    var s := a + [c] + b;
    assert s[..|a|] == a && s[|a| + 1..] == b;
  }

  lemma PartsOfOne(a: string, c: char)
    requires c !in a
    ensures Parts(a, c) == [a]
  {
    assert forall i :: 0 <= i < |a| ==> a[i] in a;
  }

  lemma OneMore(vec: seq<string>, part: string, more: seq<string>)
    ensures vec + ([part] + more) == vec + [part] + more
  {
  }

  lemma PartsFrom(s: string, pos: nat, vec: seq<string>, c: char)
    requires pos < |s|
    ensures var next := pos + IndexOf(s[pos..], c);
            if next == |s| then Parts(s[pos..], c) == [s[pos..]]
            else vec + Parts(s[pos..], c) == vec + [s[pos..next]] + Parts(s[next + 1..], c)
  {
    var rest, i := s[pos..], IndexOf(s[pos..], c);
    if pos + i < |s| {
      var more := Parts(rest[i + 1..], c);
      assert Parts(rest, c) == [rest[..i]] + more;
      OneMore(vec, rest[..i], more);
      assert rest[..i] == s[pos..pos + i];
      assert rest[i + 1..] == s[pos + i + 1..];
    }
  }

  lemma SplitDone(s: string, c: char, vec: seq<string>)
    ensures Parts(s, c) == vec + [""] ==> Split(s, c) == vec
    ensures Parts(s, c) == vec && vec[|vec| - 1] != "" ==> Split(s, c) == vec
  {
  }

  /** The loop of `SplitStr` has got as far as `pos`. */
  ghost predicate SplitSoFar(s: string, c: char, vec: seq<string>, pos: nat) {
    pos <= |s| && Parts(s, c) == vec + Parts(s[pos..], c)
  }

  lemma SplitStart(s: string, c: char)
    ensures SplitSoFar(s, c, [], 0)
  {
    assert s[0..] == s;
    assert [] + Parts(s, c) == Parts(s, c);
  }

  lemma SplitOne(s: string, c: char, vec: seq<string>, pos: nat)
    requires SplitSoFar(s, c, vec, pos) && pos < |s|
    ensures var next := pos + IndexOf(s[pos..], c);
            if next == |s| then Split(s, c) == vec + [s[pos..]] else SplitSoFar(s, c, vec + [s[pos..next]], next + 1)
  {
    PartsFrom(s, pos, vec, c);
    SplitDone(s, c, vec + [s[pos..]]);
  }

  lemma SplitEnd(s: string, c: char, vec: seq<string>)
    requires SplitSoFar(s, c, vec, |s|)
    ensures Split(s, c) == vec
  {
    assert s[|s|..] == "" && Parts("", c) == [""];
    SplitDone(s, c, vec);
  }

  /** `SplitStr`, with a delimiter of one character. */
  method SplitStr(s: string, delim: char) returns (vec: seq<string>)
    ensures vec == Split(s, delim)
  {
    vec := [];
    var pos := 0;
    SplitStart(s, delim);
    while pos < |s|
      invariant SplitSoFar(s, delim, vec, pos)
      decreases |s| - pos
    {
      SplitOne(s, delim, vec, pos);
      var next := pos + IndexOf(s[pos..], delim);
      if next == |s| {
        vec := vec + [s[pos..]];
        return;
      }
      vec := vec + [s[pos..next]];
      pos := next + 1;
    }
    SplitEnd(s, delim, vec);
  }

  // ---------------------------------------------------------------- numbers

  /** `atoi`. */
  function Atoi(s: string): int {
    var t := SkipSpace(s);
    if t != "" && t[0] == '-' then 0 - ReadDigits(t[1..], 0)
    else if t != "" && t[0] == '+' then ReadDigits(t[1..], 0)
    else ReadDigits(t, 0)
  }

  lemma AtoiOfText(n: nat)
    ensures Atoi(DecimalText(n)) == n
  {
    var t := DecimalText(n);
    assert IsDigit(t[0]) && SkipSpace(t) == t;
    ReadBack(n, "");
    assert t + "" == t;
  }

  function Power10(k: nat): nat {
    if k == 0 then 1 else 10 * Power10(k - 1)
  }

  lemma {:induction false} TextLength(n: nat, k: nat)
    requires k > 0 && n < Power10(k)
    ensures |DecimalText(n)| <= k
  {
    if n >= 10 {
      assert k > 1;
      TextLength(n / 10, k - 1);
    }
  }

  lemma ShortText(n: nat)
    ensures n < 1000 ==> |DecimalText(n)| <= 3
    ensures n < 100000 ==> |DecimalText(n)| <= 5
  {
    assert Power10(2) == 100 && Power10(4) == 10000;
    if n < 1000 {
      TextLength(n, 3);
    }
    if n < 100000 {
      TextLength(n, 5);
    }
  }

  // ---------------------------------------------------------------- IPv4 addresses

  /** `inet_ntop` for IPv4. */
  function Ntop4(ip: seq<byte>): string
    requires |ip| == 4
  {
    DecimalText(ip[0]) + "." + DecimalText(ip[1]) + "." + DecimalText(ip[2]) + "." + DecimalText(ip[3])
  }

  /** A part of a dotted address: digits, no leading zero, at most 255. */
  predicate IsOctet(s: string) {
    s != "" && AllDigits(s) && (|s| > 1 ==> s[0] != '0') && ReadDigits(s, 0) < 256
  }

  /** `inet_pton` for IPv4. */
  function Pton4(s: string): Option<seq<byte>> {
    var p := Parts(s, '.');
    if |p| == 4 && IsOctet(p[0]) && IsOctet(p[1]) && IsOctet(p[2]) && IsOctet(p[3])
    then Some([ReadDigits(p[0], 0), ReadDigits(p[1], 0), ReadDigits(p[2], 0), ReadDigits(p[3], 0)])
    else None
  }

  lemma OctetText(b: byte)
    ensures IsOctet(DecimalText(b)) && ReadDigits(DecimalText(b), 0) == b && '.' !in DecimalText(b)
  {
    ReadBack(b, "");
    assert DecimalText(b) + "" == DecimalText(b);
    Shortest(b);
  }

  lemma DottedParts(a: string, b: string, c: string, d: string)
    requires '.' !in a && '.' !in b && '.' !in c && '.' !in d
    ensures Parts(a + "." + b + "." + c + "." + d, '.') == [a, b, c, d]
  {
    Nested(a, b, c, d);
    PartsOfSum(a, '.', b + "." + (c + "." + d));
    PartsOfSum(b, '.', c + "." + d);
    PartsOfSum(c, '.', d);
    PartsOfOne(d, '.');
    FourParts(a, b, c, d);
  }

  lemma FourParts(a: string, b: string, c: string, d: string)
    ensures [a] + ([b] + ([c] + [d])) == [a, b, c, d]
  {
  }

  lemma Nested(a: string, b: string, c: string, d: string)
    ensures a + "." + b + "." + c + "." + d == a + "." + (b + "." + (c + "." + d))
  {
    assert b + "." + c + "." + d == b + "." + (c + "." + d);
  }

  lemma Ntop4RoundTrip(ip: seq<byte>)
    requires |ip| == 4
    ensures Pton4(Ntop4(ip)) == Some(ip)
  {
    OctetText(ip[0]);
    OctetText(ip[1]);
    OctetText(ip[2]);
    OctetText(ip[3]);
    DottedParts(DecimalText(ip[0]), DecimalText(ip[1]), DecimalText(ip[2]), DecimalText(ip[3]));
    assert ip == [ip[0], ip[1], ip[2], ip[3]];
  }

  /** No character of a dotted address gets in the way of a header. */
  lemma Ntop4Plain(ip: seq<byte>)
    requires |ip| == 4
    ensures var t := Ntop4(ip); |t| <= 15 && '.' in t && forall i :: 0 <= i < |t| ==> IsDigit(t[i]) || t[i] == '.'
  {
    ShortText(ip[0]);
    ShortText(ip[1]);
    ShortText(ip[2]);
    ShortText(ip[3]);
    assert Ntop4(ip)[|DecimalText(ip[0])|] == '.';
  }
}
