/** Go string helpers the driver leans on: strconv.Itoa with its inverse, strings.Split, and the
    position of the last separator, from which every name parser in this project is built. */
module Text {

  datatype Option<+T> = None | Some(value: T)

  /** Position of the last c in s, or -1. */
  function LastIndex(s: string, c: char): (i: int)
    ensures -1 <= i < |s|
    ensures 0 <= i ==> s[i] == c
    ensures forall j :: i < j < |s| ==> s[j] != c
  {
    if s == "" then -1
    else if s[|s| - 1] == c then |s| - 1
    else LastIndex(s[..|s| - 1], c)
  }

  /** Appending text without c to a string ending in c puts that c last. */
  lemma {:induction false} LastIndexOfJoin(a: string, c: char, b: string)
    requires c !in b
    ensures LastIndex(a + [c] + b, c) == |a|
  {
    var s := a + [c] + b;
    if b == "" {
      assert s[|s| - 1] == c;
    } else {
      var n := |b| - 1;
      assert s[|s| - 1] == b[n];
      assert s[..|s| - 1] == a + [c] + b[..n];
      LastIndexOfJoin(a, c, b[..n]);
    }
  }

  function AfterLast(s: string, c: char): string {
    s[LastIndex(s, c) + 1..]
  }

  /** It is the end of s that follows the last c, or all of s when there is none. */
  lemma AfterLastIsTail(s: string, c: char)
    ensures var t := AfterLast(s, c);
            && c !in t && |t| <= |s| && s[|s| - |t|..] == t
            && (|t| < |s| ==> s[|s| - |t| - 1] == c)
  {
  }

  /** strings.Split for a one-character separator: the pieces between separators, never empty. */
  function Split(s: string, c: char): (pieces: seq<string>)
    ensures pieces != []
  {
    if s == "" then [""]
    else
      var rest := Split(s[1..], c);
      if s[0] == c then [""] + rest else [[s[0]] + rest[0]] + rest[1..]
  }

  /** Dropping the first character moves the last separator by one, or loses it. */
  lemma LastIndexOfTail(s: string, c: char)
    requires s != ""
    ensures LastIndex(s[1..], c) == if LastIndex(s, c) >= 1 then LastIndex(s, c) - 1 else -1
  {
    var tail, i := s[1..], LastIndex(s, c);
    assert forall j :: 0 <= j < |tail| ==> tail[j] == s[j + 1];
    assert i >= 1 ==> tail[i - 1] == c;
  }

  /** The last piece of a split is the text after the last separator, all of it when there is none. */
  lemma {:induction false} LastPieceIsAfterLast(s: string, c: char)
    ensures var pieces := Split(s, c); pieces[|pieces| - 1] == AfterLast(s, c)
    ensures |Split(s, c)| == 1 <==> LastIndex(s, c) < 0
  {
    if s != "" {
      var tail := s[1..];
      LastPieceIsAfterLast(tail, c);
      LastIndexOfTail(s, c);
      var rest := Split(tail, c);
      if LastIndex(s, c) < 0 {
        assert AfterLast(tail, c) == tail && AfterLast(s, c) == s;
        assert |rest| == 1 && rest == [tail];
        assert s == [s[0]] + tail;
      } else if LastIndex(s, c) == 0 {
        assert AfterLast(tail, c) == tail;
      } else {
        assert AfterLast(s, c) == AfterLast(tail, c);
      }
    }
  }

  predicate IsDigit(c: char) {
    '0' <= c <= '9'
  }

  function DigitChar(d: nat): (c: char)
    requires d < 10
    ensures IsDigit(c) && c as int - '0' as int == d
  {
    ('0' as int + d) as char
  }

  function Digits(n: nat): (s: string)
    ensures s != "" && forall i :: 0 <= i < |s| ==> IsDigit(s[i])
  {
    if n < 10 then [DigitChar(n)] else Digits(n / 10) + [DigitChar(n % 10)]
  }

  /** strconv.Itoa. */
  function Itoa(n: int): (s: string)
    ensures s != "" && IsDigit(s[|s| - 1])
    ensures forall i :: 0 <= i < |s| ==> IsDigit(s[i]) || s[i] == '-'
    ensures '-' in s <==> n < 0
  {
    if n < 0 then "-" + Digits(-n) else Digits(n)
  }

  /** Itoa is decimal: a digit stands for itself, the last of several for what remains after tens, and a minus sign
      goes in front. */
  lemma ItoaIsDecimal(n: int, d: int)
    requires 0 <= n && 0 <= d < 10
    ensures Itoa(d) == [(d + '0' as int) as char]
    ensures n > 0 ==> Itoa(10 * n + d) == Itoa(n) + Itoa(d) && Itoa(-n) == "-" + Itoa(n)
  {
    if n > 0 {
      assert (10 * n + d) / 10 == n && (10 * n + d) % 10 == d;
    }
  }

  function Value(s: string): int {
    if s == "" then 0
    else 10 * Value(s[..|s| - 1]) + (s[|s| - 1] as int - '0' as int)
  }

  /** Inverse of Itoa: accepts exactly the strings Itoa produces, so no leading zeros and no "-0". */
  function Atoi(s: string): Option<int> {
    if s != "" && forall i :: 0 <= i < |s| ==> IsDigit(s[i]) then
      if Itoa(Value(s)) == s then Some(Value(s)) else None
    else if |s| > 1 && s[0] == '-' && forall i :: 1 <= i < |s| ==> IsDigit(s[i]) then
      var n: int := -Value(s[1..]);
      if Itoa(n) == s then Some(n) else None
    else None
  }

  lemma {:induction false} ValueOfDigits(n: nat)
    ensures Value(Digits(n)) == n
  {
    if n >= 10 {
      ValueOfDigits(n / 10);
      assert Digits(n)[..|Digits(n)| - 1] == Digits(n / 10);
    } else {
      assert Digits(n)[..0] == "";
    }
  }

  lemma AtoiInvertsItoa(s: string, n: int)
    ensures Atoi(s) == Some(n) <==> s == Itoa(n)
  {
    if s == Itoa(n) {
      AtoiOfItoa(n);
    }
  }

  lemma AtoiOfItoa(n: int)
    ensures Atoi(Itoa(n)) == Some(n)
  {
    var s := Itoa(n);
    if n < 0 {
      ValueOfDigits(-n);
      assert s[0] == '-' && s[1..] == Digits(-n);
    } else {
      ValueOfDigits(n);
    }
  }

  lemma ItoaInjective(a: int, b: int)
    ensures Itoa(a) == Itoa(b) <==> a == b
  {
    AtoiInvertsItoa(Itoa(a), a);
    AtoiInvertsItoa(Itoa(a), b);
  }
}
