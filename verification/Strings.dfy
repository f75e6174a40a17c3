/** Text: searching it, and decimal numbers in it. */
module Strings {

  datatype Option<T> = None | Some(value: T)

  /** Where `c` first occurs; the length when it does not. */
  function IndexOf(s: string, c: char): (i: nat)
    ensures i <= |s| && c !in s[..i] && (i < |s| ==> s[i] == c)
  {
    if s == "" || s[0] == c then 0 else 1 + IndexOf(s[1..], c)
  }

  lemma {:induction false} IndexAfter(a: string, c: char, b: string)
    requires c !in a
    ensures IndexOf(a + [c] + b, c) == |a|
  {
    if a != "" {
      assert a[0] in a && (a + [c] + b)[1..] == a[1..] + [c] + b;
      IndexAfter(a[1..], c, b);
    }
  }

  /** What `isspace` calls a space is skipped. */
  function SkipSpace(s: string): string {
    if s != "" && (s[0] == ' ' || 9 <= s[0] as int <= 13) then SkipSpace(s[1..]) else s
  }

  // ---------------------------------------------------------------- decimal numbers

  predicate IsDigit(c: char) {
    '0' <= c <= '9'
  }

  predicate AllDigits(s: string) {
    forall i :: 0 <= i < |s| ==> IsDigit(s[i])
  }

  function DigitOf(d: nat): (c: char)
    requires d < 10
    ensures IsDigit(c) && c as int - '0' as int == d
  {
    '0' + d as char
  }

  function DecimalText(n: nat): (s: string)
    ensures s != "" && AllDigits(s)
  {
    if n < 10 then [DigitOf(n)] else DecimalText(n / 10) + [DigitOf(n % 10)]
  }

  /** Read on from `acc` over the digits at the start of the text. */
  function ReadDigits(s: string, acc: nat): nat
    decreases |s|
  {
    if s == "" || !IsDigit(s[0]) then acc else ReadDigits(s[1..], acc * 10 + (s[0] as int - '0' as int))
  }

  lemma {:induction false} ReadDigitsOfSum(a: string, b: string, acc: nat)
    requires AllDigits(a)
    ensures ReadDigits(a + b, acc) == ReadDigits(b, ReadDigits(a, acc))
    decreases |a|
  {
    if a == "" {
      assert a + b == b;
    } else {
      assert (a + b)[1..] == a[1..] + b;
      ReadDigitsOfSum(a[1..], b, acc * 10 + (a[0] as int - '0' as int));
    }
  }

  /** A printed number is read back, whatever follows it, if that is not a digit. */
  lemma {:induction false} ReadBack(n: nat, rest: string)
    requires rest == "" || !IsDigit(rest[0])
    ensures ReadDigits(DecimalText(n) + rest, 0) == n
  {
    ReadDigitsOfSum(DecimalText(n), rest, 0);
    if n >= 10 {
      ReadDigitsOfSum(DecimalText(n / 10), [DigitOf(n % 10)], 0);
      ReadBack(n / 10, "");
      assert DecimalText(n / 10) + "" == DecimalText(n / 10);
    }
  }

  lemma {:induction false} Shortest(n: nat)
    ensures n > 0 ==> DecimalText(n)[0] != '0'
  {
    if n >= 10 {
      Shortest(n / 10);
    }
  }
}
