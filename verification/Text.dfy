/** C strings as the firmware handles them: byte text without a terminator. */
module Text {
  import opened Common

  /** ASCII case folding, as strcasecmp does it. */
  function FoldChar(c: char): char {
    if 'A' <= c <= 'Z' then (c as int + 32) as char else c
  }

  function Fold(s: string): (r: string)
    ensures |r| == |s|
  {
    seq(|s|, i requires 0 <= i < |s| => FoldChar(s[i]))
  }

  predicate SameCall(a: string, b: string) {
    Fold(a) == Fold(b)
  }

  /** Two characters fold to one exactly when they are the same or the two cases of a letter. */
  lemma FoldIff(c: char, d: char)
    ensures FoldChar(c) == FoldChar(d) <==>
              || c == d
              || ('A' <= c <= 'Z' && d as int == c as int + 32)
              || ('A' <= d <= 'Z' && c as int == d as int + 32)
  {
  }

  /** Callsigns compare as their characters do, whatever the case of a letter. */
  lemma SameCallIff(a: string, b: string)
    ensures SameCall(a, b) <==> |a| == |b| && forall i :: 0 <= i < |a| ==> FoldChar(a[i]) == FoldChar(b[i])
  {
    assert forall i :: 0 <= i < |a| ==> Fold(a)[i] == FoldChar(a[i]);
    assert forall i :: 0 <= i < |b| ==> Fold(b)[i] == FoldChar(b[i]);
  }

  /** Position of the first `c`, or the length when there is none. */
  function IndexOf(s: string, c: char): (i: nat)
    ensures i <= |s|
    ensures i < |s| ==> s[i] == c
    ensures forall j :: 0 <= j < i ==> s[j] != c
  {
    if s == "" then 0 else if s[0] == c then 0 else 1 + IndexOf(s[1..], c)
  }

  /** Text without its trailing blanks. */
  function TrimRight(s: string): (r: string)
    ensures |r| <= |s| && r <= s
    ensures r != "" ==> r[|r| - 1] != ' '
  {
    if s == "" then "" else if s[|s| - 1] == ' ' then TrimRight(s[..|s| - 1]) else s
  }

  predicate IsUpper(c: char) {
    'A' <= c <= 'Z'
  }

  predicate AllDigits(s: string) {
    forall i :: 0 <= i < |s| ==> IsDigit(s[i])
  }

  /** Decimal digits of a number, as "%d" prints it. */
  function Decimal(n: nat): (s: string)
    ensures |s| > 0 && AllDigits(s)
  {
    var d := [DigitChar(n % 10)];
    if n < 10 then d else Decimal(n / 10) + d
  }

  function Number(s: string): nat
    requires AllDigits(s)
  {
    if s == "" then 0 else Number(s[..|s| - 1]) * 10 + DigitValue(s[|s| - 1])
  }

  /** Printing and reading a number, with no leading zero. */
  lemma {:induction false} NumberOfDecimal(n: nat)
    ensures Number(Decimal(n)) == n
    ensures n > 0 ==> Decimal(n)[0] != '0'
    ensures n == 0 ==> Decimal(n) == "0"
  {
    var d := [DigitChar(n % 10)];
    if n < 10 {
      assert d[..0] == "";
    } else {
      NumberOfDecimal(n / 10);
      assert (Decimal(n / 10) + d)[..|Decimal(n / 10)|] == Decimal(n / 10);
    }
  }

  lemma {:induction false} IndexOfAppend(a: string, b: string, c: char)
    requires c !in a
    ensures IndexOf(a + b, c) == |a| + IndexOf(b, c)
  {
    if a == "" {
      assert a + b == b;
    } else {
      assert (a + b)[1..] == a[1..] + b;
      IndexOfAppend(a[1..], b, c);
    }
  }

  lemma {:induction false} IndexOfPrefix(a: string, b: string, c: char)
    requires c in a
    ensures IndexOf(a + b, c) == IndexOf(a, c) < |a|
  {
    assert (a + b)[0] == a[0];
    if a[0] != c {
      assert (a + b)[1..] == a[1..] + b;
      IndexOfPrefix(a[1..], b, c);
    }
  }

  /** A text cut at its first separator. */
  lemma CutAt(a: string, c: char, b: string)
    requires c !in a
    ensures IndexOf(a + [c] + b, c) == |a|
    ensures (a + [c] + b)[..|a|] == a
    ensures (a + [c] + b)[|a| + 1..] == b
  {
    assert a + [c] + b == a + ([c] + b);
    IndexOfAppend(a, [c] + b, c);
  }

}
