/** The text of the binary log index and of the purge register: one name on each line. */
module IndexText {

  type Name = string

  predicate IsName(n: Name) {
    n != "" && '\n' !in n
  }

  predicate AllNames(names: seq<Name>) {
    forall i :: 0 <= i < |names| ==> IsName(names[i])
  }

  predicate Distinct(names: seq<Name>) {
    forall i, j :: 0 <= i < j < |names| ==> names[i] != names[j]
  }

  function NameSet(names: seq<Name>): set<Name> {
    set i | 0 <= i < |names| :: names[i]
  }

  lemma NameSetOfSum(a: seq<Name>, b: seq<Name>)
    ensures NameSet(a + b) == NameSet(a) + NameSet(b)
  {
    forall n | n in NameSet(a) + NameSet(b) ensures n in NameSet(a + b) {
      if n in NameSet(a) {
        var i :| 0 <= i < |a| && a[i] == n;
        assert (a + b)[i] == n;
      } else {
        var i :| 0 <= i < |b| && b[i] == n;
        assert (a + b)[|a| + i] == n;
      }
    }
  }

  function Text(names: seq<Name>): string {
    if names == [] then "" else names[0] + "\n" + Text(names[1..])
  }

  /** The length of the first line, its newline included; the last line may lack one. */
  function LineLength(t: string): (n: nat)
    requires t != ""
    ensures 0 < n <= |t|
  {
    if t[0] == '\n' || |t| == 1 then 1 else 1 + LineLength(t[1..])
  }

  /** What a reader makes of a file: a line of one character ends it, and the last one of each is cut. */
  function Lines(t: string): seq<Name> {
    if t == "" || LineLength(t) == 1 then [] else [t[..LineLength(t) - 1]] + Lines(t[LineLength(t)..])
  }

  /** `find_log_pos`: some whole line is `n`. */
  predicate Listed(t: string, n: Name)
    decreases |t|
  {
    && t != "" && LineLength(t) > 1
    && ((t[LineLength(t) - 1] == '\n' && t[..LineLength(t) - 1] == n) || Listed(t[LineLength(t)..], n))
  }

  lemma {:induction false} LineLengthOf(n: Name, rest: string)
    requires '\n' !in n
    ensures LineLength(n + "\n" + rest) == |n| + 1
  {
    var t := n + "\n" + rest;
    if n != "" {
      assert t[0] == n[0] && n[0] in n;
      assert t[1..] == n[1..] + "\n" + rest;
      LineLengthOf(n[1..], rest);
    }
  }

  /** Reading back what was written. */
  lemma {:induction false} LinesOfText(names: seq<Name>)
    requires AllNames(names)
    ensures Lines(Text(names)) == names
  {
    if names != [] {
      var n, rest := names[0], Text(names[1..]);
      LineLengthOf(n, rest);
      var t := n + "\n" + rest;
      assert t[..|n|] == n && t[|n| + 1..] == rest;
      LinesOfText(names[1..]);
    }
  }

  lemma {:induction false} ListedInText(names: seq<Name>, n: Name)
    requires AllNames(names)
    ensures Listed(Text(names), n) <==> n in names
  {
    if names != [] {
      var rest := Text(names[1..]);
      LineLengthOf(names[0], rest);
      var t := names[0] + "\n" + rest;
      assert t[..|names[0]|] == names[0] && t[|names[0]| + 1..] == rest && t[|names[0]|] == '\n';
      ListedInText(names[1..], n);
      assert names == [names[0]] + names[1..];
    }
  }

  lemma {:induction false} TextOfSum(a: seq<Name>, b: seq<Name>)
    ensures Text(a + b) == Text(a) + Text(b)
  {
    if a == [] {
      assert a + b == b;
    } else {
      assert (a + b)[1..] == a[1..] + b;
      TextOfSum(a[1..], b);
    }
  }

  /** Where entry `i` starts. */
  function Offset(names: seq<Name>, i: nat): nat
    requires i <= |names|
  {
    |Text(names[..i])|
  }

  lemma OffsetNext(names: seq<Name>, i: nat)
    requires i < |names|
    ensures Offset(names, i + 1) == Offset(names, i) + |names[i]| + 1
  {
    assert names[..i + 1] == names[..i] + [names[i]];
    TextOfSum(names[..i], [names[i]]);
    assert Text([names[i]]) == names[i] + "\n";
  }

  lemma TextFrom(names: seq<Name>, i: nat)
    requires i <= |names|
    ensures Offset(names, i) <= |Text(names)| && Text(names)[Offset(names, i)..] == Text(names[i..])
  {
    assert names == names[..i] + names[i..];
    TextOfSum(names[..i], names[i..]);
  }

  /** Writing `t` over a file that held `stale`, from its start and without cutting it. */
  function Over(stale: string, t: string): string {
    t + if |t| < |stale| then stale[|t|..] else ""
  }

  lemma OverIsNewExactlyWhen(stale: string, t: string)
    ensures Over(stale, t) == t <==> |stale| <= |t|
  {
    if |t| < |stale| {
      assert |Over(stale, t)| > |t|;
    } else {
      assert Over(stale, t) == t;
    }
  }
}
