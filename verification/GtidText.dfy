/** `GtidHandler`: GTIDs as text, and their order. */
module GtidText {
  import opened Bytes
  import opened Strings

  const ULONG_MAX := 0xFFFF_FFFF_FFFF_FFFF
  const UUID_LEN := 16

  // ---------------------------------------------------------------- UUIDs

  const BYTE_TO_HEX: string := "0123456789abcdef"

  function HexValue(c: char): (v: nat)
    requires IsDigit(c) || 'a' <= c <= 'f'
    ensures v < 16
  {
    if IsDigit(c) then c as int - '0' as int else c as int - 'a' as int + 10
  }

  /** Two characters for each byte. */
  function Hex(s: seq<byte>): (t: string)
    ensures |t| == 2 * |s|
  {
    if s == [] then "" else [BYTE_TO_HEX[s[0] / 16], BYTE_TO_HEX[s[0] % 16]] + Hex(s[1..])
  }

  function UuidText(u: seq<byte>): (t: string)
    requires |u| == UUID_LEN
    ensures |t| == 36
  {
    Hex(u[..4]) + "-" + Hex(u[4..6]) + "-" + Hex(u[6..8]) + "-" + Hex(u[8..10]) + "-" + Hex(u[10..])
  }

  lemma HexDigit(v: nat)
    requires v < 16
    ensures var c := BYTE_TO_HEX[v]; (IsDigit(c) || 'a' <= c <= 'f') && HexValue(c) == v
  {
    assert v == 0 || v == 1 || v == 2 || v == 3 || v == 4 || v == 5 || v == 6 || v == 7 || v == 8 || v == 9
        || v == 10 || v == 11 || v == 12 || v == 13 || v == 14 || v == 15;
  }

  /** The bytes of a printed UUID. */
  function Unhex(t: string): seq<byte> {
    if |t| < 2 then []
    else if (IsDigit(t[0]) || 'a' <= t[0] <= 'f') && (IsDigit(t[1]) || 'a' <= t[1] <= 'f')
    then [16 * HexValue(t[0]) + HexValue(t[1])] + Unhex(t[2..])
    else []
  }

  lemma {:induction false} UnhexHex(s: seq<byte>)
    ensures Unhex(Hex(s)) == s
  {
    if s != [] {
      HexDigit(s[0] / 16);
      HexDigit(s[0] % 16);
      var t := Hex(s);
      assert t[0] == BYTE_TO_HEX[s[0] / 16] && t[1] == BYTE_TO_HEX[s[0] % 16] && t[2..] == Hex(s[1..]);
      UnhexHex(s[1..]);
      assert Unhex(t) == [s[0]] + s[1..];
    }
  }

  function UuidBytes(t: string): seq<byte>
    requires |t| == 36
  {
    Unhex(t[..8]) + Unhex(t[9..13]) + Unhex(t[14..18]) + Unhex(t[19..23]) + Unhex(t[24..])
  }

  lemma UuidRoundTrip(u: seq<byte>)
    requires |u| == UUID_LEN
    ensures UuidBytes(UuidText(u)) == u
  {
    var t := UuidText(u);
    TextSections(Hex(u[..4]), Hex(u[4..6]), Hex(u[6..8]), Hex(u[8..10]), Hex(u[10..]));
    UnhexHex(u[..4]);
    UnhexHex(u[4..6]);
    UnhexHex(u[6..8]);
    UnhexHex(u[8..10]);
    UnhexHex(u[10..]);
    assert u == u[..4] + u[4..6] + u[6..8] + u[8..10] + u[10..];
  }

  lemma TextSections(a: string, b: string, c: string, d: string, e: string)
    requires |a| == 8 && |b| == |c| == |d| == 4 && |e| == 12
    ensures var t := a + "-" + b + "-" + c + "-" + d + "-" + e;
            t[..8] == a && t[9..13] == b && t[14..18] == c && t[19..23] == d && t[24..] == e
  {
  }

  /** Where the sections of a UUID start; the last entry is its end. */
  const SECTIONS: seq<nat> := [0, 4, 6, 8, 10, 16]

  /** The first `i` sections, with dashes between them. */
  function SectionsText(u: seq<byte>, i: nat): string
    requires |u| == UUID_LEN && i <= 5
  {
    if i == 0 then "" else SectionsText(u, i - 1) + Dash(i - 1) + Hex(u[SECTIONS[i - 1]..SECTIONS[i]])
  }

  function Dash(i: nat): string {
    if i > 0 then "-" else ""
  }

  lemma AllSections(u: seq<byte>)
    requires |u| == UUID_LEN
    ensures SectionsText(u, 5) == UuidText(u)
  {
    var t1, t2 := Hex(u[..4]), Hex(u[..4]) + "-" + Hex(u[4..6]);
    var t3 := t2 + "-" + Hex(u[6..8]);
    FirstSection(u);
    SectionAfter(u, 1, t1, Hex(u[4..6]));
    SectionAfter(u, 2, t2, Hex(u[6..8]));
    SectionAfter(u, 3, t3, Hex(u[8..10]));
    assert u[10..16] == u[10..];
    SectionAfter(u, 4, t3 + "-" + Hex(u[8..10]), Hex(u[10..]));
  }

  lemma FirstSection(u: seq<byte>)
    requires |u| == UUID_LEN
    ensures SectionsText(u, 1) == Hex(u[..4])
  {
    assert SectionsText(u, 0) == "";
    assert SectionsText(u, 1) == "" + "" + Hex(u[0..4]);
  }

  lemma SectionAfter(u: seq<byte>, i: nat, before: string, section: string)
    requires |u| == UUID_LEN && 0 < i < 5 && SectionsText(u, i) == before
    requires section == Hex(u[SECTIONS[i]..SECTIONS[i + 1]])
    ensures SectionsText(u, i + 1) == before + "-" + section
  {
  }

  lemma {:induction false} HexOfSum(a: seq<byte>, b: seq<byte>)
    ensures Hex(a + b) == Hex(a) + Hex(b)
  {
    if a == [] {
      assert a + b == b;
    } else {
      assert (a + b)[1..] == a[1..] + b;
      HexOfSum(a[1..], b);
    }
  }

  /** The inner loop of `GenUUID`: one section. */
  method AppendHex(head: string, bytes: seq<byte>, u: nat, count: nat) returns (gtid: string)
    requires u + count <= |bytes|
    ensures gtid == head + Hex(bytes[u..u + count])
  {
    gtid := head;
    assert bytes[u..u] == [];
    for j := 0 to count
      invariant gtid == head + Hex(bytes[u..u + j])
    {
      HexMore(bytes, u, u + j, head);
      gtid := gtid + [BYTE_TO_HEX[bytes[u + j] / 16]];
      gtid := gtid + [BYTE_TO_HEX[bytes[u + j] % 16]];
    }
  }

  lemma HexMore(bytes: seq<byte>, u: nat, k: nat, head: string)
    requires u <= k < |bytes|
    ensures head + Hex(bytes[u..k]) + [BYTE_TO_HEX[bytes[k] / 16]] + [BYTE_TO_HEX[bytes[k] % 16]]
         == head + Hex(bytes[u..k + 1])
  {
    HexOfSum(bytes[u..k], [bytes[k]]);
    assert bytes[u..k] + [bytes[k]] == bytes[u..k + 1];
    var two := Hex([bytes[k]]);
    assert two == [BYTE_TO_HEX[bytes[k] / 16]] + [BYTE_TO_HEX[bytes[k] % 16]];
  }

  /** `GenUUID`. */
  method GenUUID(bytes: seq<byte>) returns (gtid: string)
    requires |bytes| == UUID_LEN
    ensures gtid == UuidText(bytes)
  {
    gtid := "";
    for i := 0 to 5
      invariant gtid == SectionsText(bytes, i)
    {
      ghost var before := gtid;
      if i > 0 {
        gtid := gtid + "-";
      }
      assert gtid == before + Dash(i);
      gtid := AppendHex(gtid, bytes, SECTIONS[i], SECTIONS[i + 1] - SECTIONS[i]);
    }
    AllSections(bytes);
  }

  // ---------------------------------------------------------------- GTIDs

  datatype Parsed = Parsed(uuid: string, seqno: nat)

  /** `GenGTID`. */
  function GenGTID(uuid: string, seqno: nat): string {
    uuid + ":" + DecimalText(seqno)
  }

  /** `sscanf` with `%lu`: blanks, a sign, digits; 0 when there are none. */
  function ScanULong(s: string): nat {
    var t := SkipSpace(s);
    var signed := t != "" && (t[0] == '-' || t[0] == '+');
    var v := ReadDigits(if signed then t[1..] else t, 0);
    if v > ULONG_MAX then ULONG_MAX else if signed && t[0] == '-' && v > 0 then ULONG_MAX + 1 - v else v
  }

  /** `ParseGTID`. */
  function ParseGTID(gtid: string): Parsed {
    var pos := IndexOf(gtid, ':');
    if pos == |gtid| then Parsed(gtid, 0) else Parsed(gtid[..pos], ScanULong(gtid[pos + 1..]))
  }

  /** Printing and parsing. */
  lemma GtidRoundTrip(uuid: string, seqno: nat)
    requires ':' !in uuid && seqno <= ULONG_MAX
    ensures ParseGTID(GenGTID(uuid, seqno)) == Parsed(uuid, seqno)
  {
    var digits := DecimalText(seqno);
    IndexAfter(uuid, ':', digits);
    assert GenGTID(uuid, seqno)[|uuid| + 1..] == digits;
    assert IsDigit(digits[0]) && SkipSpace(digits) == digits;
    ReadBack(seqno, "");
    assert digits + "" == digits;
  }

  lemma {:induction false} HexHasNoColon(s: seq<byte>)
    ensures ':' !in Hex(s)
  {
    if s != [] {
      HexDigit(s[0] / 16);
      HexDigit(s[0] % 16);
      HexHasNoColon(s[1..]);
    }
  }

  lemma UuidHasNoColon(u: seq<byte>)
    requires |u| == UUID_LEN
    ensures ':' !in UuidText(u)
  {
    HexHasNoColon(u[..4]);
    HexHasNoColon(u[4..6]);
    HexHasNoColon(u[6..8]);
    HexHasNoColon(u[8..10]);
    HexHasNoColon(u[10..]);
  }

  /** Different UUIDs or numbers print differently. */
  lemma PrintsApart(u: seq<byte>, m: nat, v: seq<byte>, n: nat)
    requires |u| == |v| == UUID_LEN && m <= ULONG_MAX && n <= ULONG_MAX
    requires GenGTID(UuidText(u), m) == GenGTID(UuidText(v), n)
    ensures u == v && m == n
  {
    UuidHasNoColon(u);
    UuidHasNoColon(v);
    GtidRoundTrip(UuidText(u), m);
    GtidRoundTrip(UuidText(v), n);
    UuidRoundTrip(u);
    UuidRoundTrip(v);
  }

  // ---------------------------------------------------------------- their order

  /** `std::string` comparison. */
  predicate Before(a: string, b: string) {
    b != "" && (a == "" || a[0] < b[0] || (a[0] == b[0] && Before(a[1..], b[1..])))
  }

  lemma {:induction false} BeforeIsTotal(a: string, b: string)
    ensures if a == b then !Before(a, b) && !Before(b, a) else Before(a, b) <==> !Before(b, a)
  {
    if a != "" && b != "" && a[0] == b[0] {
      BeforeIsTotal(a[1..], b[1..]);
      assert a == [a[0]] + a[1..] && b == [b[0]] + b[1..];
    }
  }

  lemma {:induction false} BeforeIsTransitive(a: string, b: string, c: string)
    requires Before(a, b) && Before(b, c)
    ensures Before(a, c)
  {
    if a != "" && a[0] == b[0] == c[0] {
      BeforeIsTransitive(a[1..], b[1..], c[1..]);
    }
  }

  predicate PairBefore(p: Parsed, q: Parsed) {
    Before(p.uuid, q.uuid) || (!Before(q.uuid, p.uuid) && p.seqno < q.seqno)
  }

  /** `GTIDCmp`. */
  function GTIDCmp(a: string, b: string): int {
    var p, q := ParseGTID(a), ParseGTID(b);
    if p == q then 0 else if PairBefore(p, q) then -1 else 1
  }

  /** Comparing the other way round gives the opposite; 0 means parsed alike. */
  lemma CmpIsAntisymmetric(a: string, b: string)
    ensures GTIDCmp(a, b) == -GTIDCmp(b, a)
    ensures GTIDCmp(a, b) == 0 <==> ParseGTID(a) == ParseGTID(b)
  {
    BeforeIsTotal(ParseGTID(a).uuid, ParseGTID(b).uuid);
  }

  lemma CmpIsTransitive(a: string, b: string, c: string)
    requires GTIDCmp(a, b) <= 0 && GTIDCmp(b, c) <= 0
    ensures GTIDCmp(a, c) <= 0
  {
    var p, q, r := ParseGTID(a), ParseGTID(b), ParseGTID(c);
    BeforeIsTotal(p.uuid, q.uuid);
    BeforeIsTotal(q.uuid, r.uuid);
    BeforeIsTotal(p.uuid, r.uuid);
    if Before(p.uuid, q.uuid) && Before(q.uuid, r.uuid) {
      BeforeIsTransitive(p.uuid, q.uuid, r.uuid);
    }
  }

  /** On printed GTIDs it is a total order, by number within a UUID. */
  lemma CmpOfPrinted(u: seq<byte>, m: nat, v: seq<byte>, n: nat)
    requires |u| == |v| == UUID_LEN && m <= ULONG_MAX && n <= ULONG_MAX
    ensures var a, b := GenGTID(UuidText(u), m), GenGTID(UuidText(v), n);
            && (GTIDCmp(a, b) == 0 <==> u == v && m == n)
            && (u == v ==> GTIDCmp(a, b) == if m < n then -1 else if m > n then 1 else 0)
  {
    UuidHasNoColon(u);
    UuidHasNoColon(v);
    GtidRoundTrip(UuidText(u), m);
    GtidRoundTrip(UuidText(v), n);
    UuidRoundTrip(u);
    UuidRoundTrip(v);
    BeforeIsTotal(UuidText(u), UuidText(v));
  }
}
